# gocache-rbe: a verified model

gocache-rbe is a build-cache helper for cmd/go. It keeps artifacts in a local directory with an in-memory
index, publishes them in the background to a Remote Execution API v2 store (a content-addressed store, CAS,
and an action cache, AC), and fetches them back on other machines. This project models its core in Dafny and
proves what the design relies on. `dafny verify dfyconfig.toml` checks everything.

How the parts fit together:

- `Prelude`, `Hex`, `Names`: bytes, digests, sums over maps, hex identifiers, file names.
- `DiskIndex`: the index (`entries`, `pinned`, `total`) and the regions that run under its mutex.
- `FileSystem`: the cache directory file by file, the file-system calls that change it, the start-up scan.
- `LocalCache`: the `DiskCache` object, with `Install`, `Lookup`, `HasMetadataStub`, `Remove`, `UnpinAll`, `Trim`.
- `Handlers`: get (local hit, stub refill, AC lookup, verified download) and put.
- `Runs`, `Recovery`: whole runs of atomic operations and crashes; clean-ups that fail, evictions.
- `Recency`: what each operation records, what it leaves alone, and that used entries survive later Trims.
- `Answers`: what a get answers, told from where its bytes can come from, and exactly when a put succeeds.
- `Overlap`, `Concurrent`, `SameEntry`: operations that overlap. Which single steps keep index and directory in
  agreement; any number of operations on distinct entries; any number of Installs on the same entries.
- `Retry`: circuit breaker and both retry loops.
- `Resource`, `Transfer`, `RemoteStore`: resource names, chunked streams, the in-memory server and the client on it.
- `Synthetic`, `RoundTrip`: AC keys, the memo table, and the machine-to-machine round trip.
- `Publish`: any number of background publishes as a step machine.
- `Pool`, `PoolAnswers`, `PoolLimits`, `Dispatch`: reader, bounded channel, workers, shared lookups, publishes, crashes and the
  close barrier as a step machine; where its answers come from and in which order it works; the inputs and settings
  for which it crashes, gets stuck or skips the barrier.
- `Framing`: the line scanner and the request reader.

Objects that the program updates in place are classes whose methods are proved against functions of their
state; what the program promises is then proved about those functions, over all runs. The hash is any function
from bytes to text (`HashFunction`): nothing is assumed of it except, where stated, that the blobs of the run at
hand do not collide (`NoCollision`). JSON, base64 and protobuf are function parameters. Clock readings,
modification times, jitters, failures and remote answers are inputs.

Facts about the code that the proofs bring out, each with the exact condition:

- Nothing refuses an empty action identifier, and the path builders slice two characters off its hex form
  (`Handlers.PathsDefinedIff`, `Framing.EmptyActionPanics`). A get of it panics, and so does a put that passes the
  size check and can write its body (`Runs.GetGood`, `Runs.PutGood`). Every run that cannot go on has answered all
  requests exactly when no such request comes before the end of the input and the loop cannot get stuck
  (`PoolLimits.EndsWellIff`).
- The loop can get stuck in two ways only: no workers and a request, or no semaphore slot, a publishing put and a
  close (`PoolLimits.StuckIff`). main.go gives the semaphore four slots for each worker.
- A run can end with a publish still queued exactly when the input ends without a close, some put can publish, and
  no get must crash first (`PoolLimits.BarrierIff`).
- A put with a negative declared size passes every check and is recorded. Hits stay tied to the digest on record,
  and the reported size is the file's length exactly when it is not negative (`Runs.HitSoundness`,
  `Recovery.PutSoundIff`). The total covers the bytes on disk in all runs exactly when no negative size is declared
  (`Runs.TotalCoversIff`).
- `Install` renames the body before it writes the metadata. A stop in between is harmless exactly when no metadata
  about other bytes is in place (`Recovery.StoppedInstallSound`, `Concurrent.CrashSafeIff`). When the metadata write
  fails and the clean-up fails too, the same holds of the directory, and the index agrees with it exactly when an
  entry already claimed a body (`Recovery.FailedCleanUp`, `Recovery.FailedCleanUpTotal`).
- Over any interleaving of file effects and locked sections, index and directory agree throughout exactly when
  every step meets its condition when it fires (`Overlap.KeptExactly`), and agree about an entry at the end exactly
  when the last step about it did (`Overlap.RegainedExactly`). A lookup overtaken by an `Install` does not
  (`Recovery.StaleCheckDemotes`); the conditions of late sections are in `Overlap.LateSections`. As long as no two
  operations work on one entry at once, every idle entry agrees (`Concurrent.SeparateEntriesGood`).
- Installs of one entry share its metadata temporary and can cross. They leave a sound directory in every
  interleaving exactly when they are interchangeable (`SameEntry.OverlappingInstallsSoundIff`).
- `Lookup` on a lost body clears the entry without lowering the total (`Recovery.LostBodyStaysInTotal`); this is the
  only source of drift, under every interleaving (`DiskIndex.Accounting`).
- A publish reads the body file again. If a later put of the action has replaced it before the upload, the publish
  fails and writes no entry, unless the store has the blob already (`RoundTrip.PutAndPublish`).
- Every accepted AC update is complete exactly on stores that check updates or drop nothing; entries stay complete
  exactly on stores that drop nothing (`Publish.AcceptedCompleteIff`, `Publish.EntriesCompleteIff`).
- The comment on `Allow` promises one probe after the cooldown; the code lets every caller through
  (`Retry.ProbesAreUnlimited`). The model follows the code.
- An instance name with a `blobs` segment makes the server misread resource names, except by coincidence
  (`Resource.UploadNameParses`, `Resource.DownloadNameParses`).
- A byte-stream upload of an empty blob is refused, since no message carries the resource name
  (`RemoteStore.Client.ByteStreamUpload`); a non-negative batch limit keeps empty blobs off that path.

## Model

| member | source | states |
|---|---|---|
| Hex.HexEncodeFixed | internal/reapi/digest.go:58-65 | the buffer loop writes the two digits of every byte, in order, and nothing else |
| Hex.DecodeEncode | internal/reapi/digest.go:101-108 | decoding an encoded identifier gives the identifier back, for all byte strings |
| Hex.EncodeInjective | internal/reapi/digest.go:58-65 | two identifiers share a name exactly when they are equal |
| Hex.DecodeDefinedIff | internal/reapi/digest.go:106-108 | exactly the texts of even length made of hex digits of either case can be decoded |
| Hex.EncodeDecode | internal/reapi/digest.go:101-108 | encoding what a text stands for gives the text back in lower case |
| Names.PathExamples | internal/cache/metadata.go:122-148 | the layout of the directory, spelt out on one identifier |
| Names.PathsDistinct | internal/cache/metadata.go:122-148 | body and metadata paths determine the identifier and never coincide with each other, with metadata temporaries or with root temporaries |
| Names.PathDeterminesFile | internal/cache/metadata.go:122-148 | a path stands for one cache file only, so files may be named by what they are |
| Names.ScanNameInverts | internal/cache/disk.go:257-267 | the name parsing of scan recovers the identifier of body files and skips metadata and its temporaries |
| Names.ScanNameMeans | internal/cache/disk.go:257-267 | a file counts as the body of an identifier exactly when it is the identifier, not empty, followed by the suffix |
| Names.ReadMetadata | internal/cache/metadata.go:68-120 | reading through the pooled buffer with its fallback decodes the whole file, whatever its length |
| DiskIndex.SectionAccounting | internal/cache/disk.go:80-94 | one locked region moves the gap between total and live sizes by exactly what it clears |
| DiskIndex.Accounting | internal/cache/disk.go:117-126 | in every interleaving of locked regions, total is the sum of live sizes plus the initial gap plus the drift |
| DiskIndex.DriftProperties | internal/cache/disk.go:117-126 | the drift is non-negative and is zero exactly when no region cleared a positive size, in particular in runs without the missing-body branch |
| DiskIndex.NeverUnderReports | internal/cache/disk.go:200-208 | the drift never decreases, and total never falls below the live sizes |
| FileSystem.Scan | internal/cache/disk.go:231-283 | start-up over any directory, foreign files included, indexes exactly the names of body-like files, totals the lengths of those files, and deletes the root temporaries and nothing else |
| FileSystem.RunKeepsShape | internal/cache/disk.go:58-97 | stopped after any file-system calls of any operations in any order, the directory is one that Scan handles |
| FileSystem.RenameMoves | internal/cache/disk.go:70-72 | a rename leaves nothing under the old name and touches no other file |
| FileSystem.BodiesEffect | internal/cache/disk.go:70-78 | each file-system call changes the visible bodies only as its own effect says |
| FileSystem.MetasEffect | internal/cache/metadata.go:46-65 | each file-system call changes the visible metadata only as its own effect says, so metadata appears whole or not at all |
| LocalCache.DiskCache.constructor | internal/cache/disk.go:36-51 | a new process agrees with the directory exactly when every body-like file is named after a hex identifier, and is the expected restart where there are no strays |
| LocalCache.ScanIsRestart | internal/cache/disk.go:243-282 | without strays the scan, in whatever order, yields one entry per body with its length and modification time, and their sum |
| LocalCache.InstallAgrees | internal/cache/disk.go:70-94 | Install keeps index and directory in agreement whatever fails, except when its clean-up fails and no entry claimed a body |
| LocalCache.DiskCache.Install | internal/cache/disk.go:58-97 | the state after every combination of failing calls, clean-up included, with the old contribution to total replaced, and when agreement survives |
| LocalCache.DiskCache.Lookup | internal/cache/disk.go:100-166 | on the fast and the slow path alike, the answer the directory alone would give, and the index state left behind |
| LocalCache.DiskCache.HasMetadataStub | internal/cache/disk.go:169-183 | a stub is what a lookup reports as a miss with metadata |
| LocalCache.DiskCache.Remove | internal/cache/disk.go:193-209 | entry, pin and contribution to total go whether or not the files can be removed; agreement survives exactly when the body file is gone |
| LocalCache.DiskCache.Pin | internal/cache/disk.go:186-190 | one more identifier is pinned, and nothing else changes |
| LocalCache.DiskCache.UnpinAll | internal/cache/disk.go:224-228 | only the pins change |
| LocalCache.DiskCache.Trim | internal/cache/disk.go:287-339 | the evicted entries are least recently used candidates, each taken while the running total exceeds the target, and enough of them; agreement survives exactly when their bodies are gone |
| LocalCache.EvictAllAgrees | internal/cache/disk.go:326-338 | eviction keeps index and directory in agreement exactly when every chosen body file goes, or was not there |
| LocalCache.EvictAllOutcome | internal/cache/disk.go:326-338 | eviction removes exactly the chosen bodies whose removal succeeds, keeps all metadata and other entries, and lowers total by exactly the chosen sizes |
| Handlers.PathsDefinedIff | internal/cache/metadata.go:122-148 | the path builders are defined for every action identifier except the empty one |
| Handlers.Handler.DownloadAndInstall | internal/handler/get.go:141-176 | the coded download is the function that Runs.FetchGood is about |
| Handlers.Handler.RefillFromCas | internal/handler/get.go:74-93 | the coded refill is the stub branch of the function that Runs.GetGood is about |
| Handlers.Handler.RemoteAcLookup | internal/handler/get.go:95-139 | the coded AC lookup is the function that Runs.AcLookupGood is about |
| Handlers.Handler.HandleGet | internal/handler/get.go:19-72 | the coded get is the function that Runs.GetGood is about, panics included |
| Handlers.Handler.HandlePut | internal/handler/put.go:22-68 | the coded put is the function that Runs.PutGood is about, panics included |
| Runs.FetchGood | internal/handler/get.go:141-176 | only bytes with the announced hash and length reach the cache, under the metadata that announced them |
| Runs.AcLookupGood | internal/handler/get.go:95-139 | an AC hit names an installed file with the announced digest, and is otherwise a miss; the directory stays sound |
| Runs.GetGood | internal/handler/get.go:19-93 | a get panics exactly on an empty identifier, every answer it gives is honest, and the directory stays sound |
| Runs.PutGood | internal/handler/put.go:22-47 | a put keeps the directory sound and panics exactly when an empty identifier gets past the early refusals |
| Runs.HitSoundness | internal/handler/get.go:19-176 | after any run and harmless crashes, with any remote answers, failures, body losses and declared sizes, a hit names an existing file with the recorded digest, and reports its length exactly when the size is not negative |
| Runs.RunGood | internal/handler/put.go:30-47 | every operation and harmless crash keeps: stored metadata describes the stored body, and the index agrees with the directory |
| Runs.IndexRefinesDisk | internal/cache/disk.go:100-166 | after any run, whatever its puts declare and wherever it crashed, the coded lookup equals the disk-only lookup |
| Runs.TotalCoversDisk | internal/cache/disk.go:211-216 | after any run without negative sizes the reported total is at least the bytes on disk |
| Runs.TotalCoversIff | internal/cache/disk.go:80-94 | the total covers the bytes on disk in every run exactly when no negative size is ever declared |
| Runs.NegativeSizeExample | internal/handler/put.go:23-42 | any negative declared size is accepted and becomes the total |
| Recency.InstallRecords | internal/cache/disk.go:80-96 | Install succeeds exactly when its calls do, and then files, size, access time, pin and total are those of the new body |
| Recency.LookupFinds | internal/cache/disk.go:100-166 | a hit with the body path, a stub without it, or nothing, by which files exist |
| Recency.LookupRecords | internal/cache/disk.go:115-163 | a hit sets the access time and pins and changes no file; a miss does neither |
| Recency.RemoveRecords | internal/cache/disk.go:193-209 | entry and pin go, the claimed size leaves the total, each file goes if its removal succeeds |
| Recency.RestartRecords | internal/cache/disk.go:271-281 | a new process knows length and modification time of each body, has pinned nothing, and totals the lengths |
| Recency.GetFrame | internal/handler/get.go:19-176 | a get leaves all other entries, files and pins alone |
| Recency.PutFrame | internal/handler/put.go:22-68 | so does a put |
| Recency.UsedEntriesSurvive | internal/cache/disk.go:298-310 | whatever the process does after a hit or an install of an entry, no Trim within the safety window of that use evicts it, and none at all before the next close |
| Answers.LocalAnswers | internal/handler/get.go:23-40 | with body and metadata on disk the answer is theirs, or a miss that removes an entry whose output identifier cannot be read |
| Answers.StubAnswers | internal/handler/get.go:42-49 | a stub that can be filled is answered from its metadata and gets its body back |
| Answers.FallsThrough | internal/handler/get.go:42-63 | without a body on disk and without a stub that can be filled, for whatever reason, the answer is the action cache's: a hit with its output, size and bytes exactly when it can serve |
| Answers.NoRemoteMisses | internal/handler/get.go:71 | without a remote, what is not on disk is a miss that changes no file |
| Answers.GetHitsIff | internal/handler/get.go:19-72 | a get hits exactly when its bytes can be had from disk, else by the stored metadata, else by the action cache |
| Answers.PutSucceedsIff | internal/handler/put.go:22-68 | a put succeeds exactly for a non-empty action within the limit, if any, whose calls all succeed, and then its bytes, metadata, size, access time and pin are recorded |
| Answers.PutRefusals | internal/handler/put.go:22-45 | any other put is refused for the first reason in order, or panics, and changes neither index nor metadata |
| Recovery.PutThenGet | internal/handler/put.go:36-47 | a get after a successful put returns its output, size, time and bytes |
| Recovery.PutSoundIff | internal/handler/put.go:36-42 | a put keeps the directory sound exactly when it carries what the reader delivers, and then hits report the file's length exactly when the size is not negative |
| Recovery.InstallStoppedShows | internal/cache/disk.go:58-97 | what an Install stopped after any of its calls leaves visible |
| Recovery.FirstInstallStoppedIsMiss | internal/cache/disk.go:70-78 | a stop midway through the first Install of an action yields a miss |
| Recovery.StoppedInstallSound | internal/cache/disk.go:70-74 | a stopped Install leaves a sound directory except exactly between the two renames over metadata about other bytes |
| Recovery.TornOverwriteExample | internal/cache/disk.go:70-74 | a concrete overwrite that recovers to a hit with the wrong metadata |
| Recovery.FailedCleanUp | internal/cache/disk.go:74-78 | a failed clean-up leaves the directory sound exactly as a stop in the torn window does, and in agreement exactly when an entry claimed a body |
| Recovery.FailedCleanUpTotal | internal/cache/disk.go:74-78 | after a failed clean-up the total covers the bytes on disk exactly when it had the orphan's length to spare |
| Recovery.StoppedRemovalSound | internal/cache/disk.go:193-198 | a removal stopped anywhere leaves a sound directory |
| Recovery.StaleCheckDemotes | internal/cache/disk.go:117-124 | a file check overtaken by an Install makes the index miss a body that is on disk |
| Recovery.LostBodyStaysInTotal | internal/cache/disk.go:117-126 | looking up a lost body leaves total unchanged and widens the gap by exactly the size of the entry |
| Recovery.EvictionTransparent | internal/cache/disk.go:326-338 | after any correct eviction, a get by refill answers as the local hit did and restores bytes, entry and total |
| Recovery.RefillRestores | internal/handler/get.go:74-93 | a get of a stub whose blob is held remotely answers from the metadata and installs the blob |
| Recovery.TrimChoice | internal/cache/disk.go:297-324 | Trim evicts only unpinned bodies outside the safety window, none used later than one it leaves, each while the total is above the target |
| Recovery.TrimOutcome | internal/cache/disk.go:287-339 | from exact accounting Trim stays exact, keeps all metadata, and misses the target only when no unpinned body outside the safety window is left |
| Overlap.EffectExact | internal/cache/disk.go:80-126 | from any state, one file effect or locked section leaves its entry in agreement exactly under its condition, and no other entry is touched |
| Overlap.KeptExactly | internal/cache/disk.go:58-209 | over any interleaving, agreement (and likewise lookups answering for the directory) holds at every moment exactly when each step meets its condition as it fires |
| Overlap.RegainedExactly | internal/cache/disk.go:58-209 | at the end of any interleaving an entry is in agreement exactly when the last step about it met its condition |
| Overlap.LateSections | internal/cache/disk.go:117-163 | from agreement, a late demotion, forgetting or eviction is harmless exactly when the body is not on disk, a late commit or promotion exactly when its metadata is the stored one |
| Overlap.InstallIsEffects | internal/cache/disk.go:70-94 | Install run alone is its effects in program order |
| Overlap.RemovalIsEffects | internal/cache/disk.go:193-208 | Remove and one eviction run alone are their effects in program order |
| Concurrent.SeparateEntriesGood | internal/handler/handler.go:60-72 | in every interleaving in which no two operations work on one entry at once, idle entries agree with sound files, and everything does when nothing is in progress |
| Concurrent.LookupsAnswerForDirectory | internal/cache/disk.go:100-166 | in every such interleaving a lookup answers what the directory says at the step that settles it, and a hit names a body its metadata describes |
| Concurrent.CrashSafeIff | internal/cache/disk.go:70-78 | in every reachable state a crash leaves a sound directory exactly when no Install is between its renames over metadata about other bytes |
| Concurrent.AloneIsAtomic | internal/cache/disk.go:58-97 | left alone, the steps of an install, a removal or an eviction are the operation at once |
| Concurrent.LookupAloneIsAtomic | internal/cache/disk.go:100-166 | and so are those of a lookup |
| SameEntry.CallIsMicro | internal/cache/metadata.go:32-66 | the calls of overlapping Installs are the file-system calls, the shared metadata temporary included |
| SameEntry.OverlappingInstallsSoundIff | internal/cache/disk.go:58-78 | Installs leave a sound directory in every interleaving of their calls exactly when all Installs of one entry are interchangeable |
| SameEntry.InterchangeableIff | internal/cache/disk.go:58-78 | barring collisions, Installs are interchangeable exactly when those of one entry carry the same bytes |
| Retry.CircuitBreaker.Allow | internal/reapi/circuitbreaker.go:30-44 | the coded check, unchanging, of the state that Retry.BreakerHistory characterises |
| Retry.CircuitBreaker.RecordSuccess | internal/reapi/circuitbreaker.go:47-52 | the coded step for a success in Retry.BreakerHistory |
| Retry.CircuitBreaker.RecordFailure | internal/reapi/circuitbreaker.go:55-63 | the coded step for an exhausted call in Retry.BreakerHistory |
| Retry.BreakerHistory | internal/reapi/circuitbreaker.go:30-63 | over any history the failure count is the exhausted calls since the last success, and tripped exactly when it reaches the threshold |
| Retry.RetryRpc | internal/reapi/client.go:247-283 | result, number of calls, total sleep and breaker update are those of the first decisive attempt |
| Retry.RetryRpcNoResult | internal/reapi/client.go:288-323 | the inlined loop reports exactly what the generic loop reports, for every call |
| Retry.ReportByAttempts | internal/reapi/client.go:247-283 | after any number of passing errors: which error or value comes back, after how many calls and how much sleep, and what is recorded |
| Retry.RefusedReport | internal/reapi/client.go:252-254 | a call refused by the breaker reaches no store, and its error says so |
| Retry.RetryBounds | internal/reapi/client.go:248-283 | at most 3 calls, under 450 ms of sleep, at most one breaker update, a failure recorded only after 3 transient errors |
| Retry.OpenBreakerBlocks | internal/reapi/client.go:252-254 | after any history, an uncancelled call issues no RPC exactly while tripped and cooling down |
| Retry.PermanentErrorsLeaveBreaker | internal/reapi/client.go:258-271 | non-transient errors and cancellations leave the breaker unchanged |
| Retry.ProbesAreUnlimited | internal/reapi/circuitbreaker.go:38-41 | after the cooldown every caller that starts is let through |
| Resource.SplitConcat | testutil/fakereapi/server.go:368-385 | splitting distributes over slash-separated concatenation |
| Resource.SplitSegment | testutil/fakereapi/server.go:368-385 | a slash-free name is its own only segment, and the empty name has none |
| Resource.SplitResource | testutil/fakereapi/server.go:368-385 | the accumulating loop yields exactly the non-empty segments |
| Resource.ParseBlobResource | testutil/fakereapi/server.go:346-366 | the parsing loop finds the segment after the first usable "blobs" |
| Resource.FindHashMeans | testutil/fakereapi/server.go:346-366 | a name is refused exactly when no "blobs" segment has two more behind it, and otherwise the first such decides |
| Resource.DownloadNameParses | internal/reapi/cas.go:214 | the server recovers the hash exactly when the instance name has no "blobs" segment, or by coincidence |
| Resource.UploadNameParses | internal/reapi/cas.go:137 | the same for upload names |
| Transfer.SendChunks | internal/reapi/cas.go:143-165 | for every legal reader behaviour the messages carry exactly the content, the name on the first only, the finish mark on the last exactly when it was read together with the end |
| Transfer.UploadAssembles | testutil/fakereapi/server.go:296-338 | the server accepts an upload exactly when it is not empty and its name gives the hash of its content, and then takes it for that content |
| Transfer.FinishEnds | testutil/fakereapi/server.go:300-327 | nothing sent after the first finish mark is taken in |
| Transfer.ServeChunks | testutil/fakereapi/server.go:277-287 | the served chunks are non-empty, within the limit, and join to the content |
| Transfer.ReceiveChunks | internal/reapi/cas.go:223-234 | the download loop writes the concatenation of what it receives |
| RemoteStore.Server.Write | testutil/fakereapi/server.go:291-343 | a write stream is stored exactly when it assembles to a blob with the hash in its name |
| RemoteStore.Server.Read | testutil/fakereapi/server.go:252-289 | a read streams the stored content from the offset on |
| RemoteStore.Server.BatchUpdateBlobs | testutil/fakereapi/server.go:190-216 | exactly the requests whose data has the announced hash are stored, and each gets its verdict |
| RemoteStore.Server.BatchReadBlobs | testutil/fakereapi/server.go:218-243 | each requested digest gets the stored bytes or nothing |
| RemoteStore.Server.FindMissingBlobs | testutil/fakereapi/server.go:173-188 | the answer holds exactly the requested digests that are not stored |
| RemoteStore.Client.ByteStreamUpload | internal/reapi/cas.go:127-172 | whatever is read, and under any instance name, exactly complete non-empty content whose hash is the one its name is read as gets stored |
| RemoteStore.Client.UploadBlob | internal/reapi/cas.go:59-72 | for every batch limit, digest and chunking a missing blob is stored exactly when the server takes its bytes, and nothing else changes |
| RemoteStore.Client.UploadFile | internal/reapi/cas.go:75-101 | the same for files, which may be gone, shorter, longer, different or unreadable by then |
| RemoteStore.SentBytes | internal/reapi/cas.go:90-100 | a batch sends the announced number of bytes of a file that has them, a stream all of it |
| RemoteStore.Client.DownloadBlob | internal/reapi/cas.go:175-235 | for every batch limit and instance name the bytes stored under the hash the request is read as, or a failure when there are none |
| RemoteStore.PlainNames | internal/reapi/cas.go:137 | without a "blobs" segment in the instance name both resource names are read as the digest's own hash |
| Synthetic.Memo.ComputeSyntheticDigests | internal/reapi/synthetic.go:90-118 | cached or not, the answer is that of the uncached chain |
| Synthetic.ChainLinks | internal/reapi/synthetic.go:33-51 | the key is the digest of the action that refers to the digests of this command and of the empty directory |
| Synthetic.ChainBreaks | internal/reapi/synthetic.go:95-106 | there is no key exactly when one of the two messages cannot be encoded |
| Synthetic.MemoisedIsChain | internal/reapi/synthetic.go:86-118 | in every interleaving of callers each returned value is what the chain computes |
| Synthetic.KeysDistinct | internal/reapi/synthetic.go:95-106 | distinct action identifiers get distinct AC keys, given apart encodings and no collision |
| RoundTrip.RemotePopulate | internal/handler/put.go:106-159 | when the body arrives, the four blobs are stored and only then the AC entry, if updates are enabled; when it does not, the publish fails and changes nothing |
| RoundTrip.PublishedBlobs | internal/handler/put.go:112-127 | a publish leaves body, command, directory and action in the store under their hashes, and touches nothing else |
| RoundTrip.OnlyOwnBytesArrive | internal/reapi/cas.go:88-101 | barring a collision the server takes exactly the bytes that were put |
| RoundTrip.PutAndPublish | internal/handler/put.go:22-68 | a put and its publish, with another put possibly in between: it goes through exactly when the store has the blob or the file still yields the bytes put, and otherwise writes no entry |
| RoundTrip.FetchedHit | internal/handler/get.go:95-139 | an AC entry naming bytes that the store holds gives a hit with that output, size and bytes |
| RoundTrip.MachineToMachine | internal/handler/get.go:95-176 | after a publish, on any later state that keeps blobs and this entry, a get from an empty cache returns exactly the output, size and bytes put |
| RoundTrip.PutThenGetElsewhere | internal/handler/put.go:22-159 | the same through the coded put, file, upload, update, download and get, for every pair of batch limits, whenever the put has what it takes to succeed |
| Publish.PublishOrdering | internal/handler/put.go:106-159 | on a store that drops nothing, in every interleaving of populates, every AC entry has its four blobs in CAS |
| Publish.RestartCompletes | internal/handler/put.go:132-148 | a populate restarted after FAILED_PRECONDITION has all blobs in place at its next update unless something is dropped meanwhile |
| Publish.FailedPreconditionReuploads | internal/handler/put.go:132-154 | the first FAILED_PRECONDITION sends a populate back to its first blob, after which it updates with all blobs in place unless something is dropped; the second fails it |
| Publish.UpdateEnds | internal/handler/put.go:129-156 | what every other outcome of an update leads to, for the populate and for the entry |
| Publish.FailedRpcEnds | internal/handler/put.go:112-127 | a failed question or upload ends the populate without an entry |
| Publish.HealthyPopulate | internal/handler/put.go:106-159 | whatever the store holds, a populate that meets no errors stores its four blobs and then its entry, if updates are enabled |
| Publish.AcceptedWhenComplete | internal/reapi/ac.go:41-54 | on a rejecting server every accepted update was complete at acceptance, whatever is collected |
| Publish.AtMostTwoRounds | internal/handler/put.go:129-156 | a populate makes at most two update rounds of at most three RPCs |
| Publish.AcceptedCompleteIff | internal/handler/put.go:129-131 | in every run every accepted update was complete exactly on servers that check or stores that drop nothing |
| Publish.EntriesCompleteIff | internal/handler/put.go:106-159 | in every run every AC entry stays complete exactly on stores that drop nothing |
| Publish.StaleEntryExample | internal/handler/put.go:129-131 | on any collecting store, checking or not, an entry can go stale after it was accepted |
| Publish.IncompleteUpdateExample | internal/handler/put.go:129-131 | a store that collects and does not check can accept an incomplete update |
| Dispatch.PanicsMeans | internal/handler/handler.go:27-38 | which requests panic, by command, action, limit and temporary file |
| Dispatch.MustCrashIff | internal/handler/handler.go:27-38 | the requests of the loop that must crash are those whose handler panics whatever it meets |
| Dispatch.MayCrashIff | internal/handler/handler.go:27-38 | those that may crash are those whose handler panics on something it may meet |
| Dispatch.PublishableIff | internal/handler/put.go:22-65 | those that can publish are the puts that may succeed |
| Dispatch.AnswersByIdentifier | internal/handler/handler.go:27-38 | every response carries the identifier of its request |
| Pool.RequestLoopExact | internal/handler/handler.go:51-92 | in every interleaving the output is the handshake, one reply per request read with its own identifier and action, and the close reply last |
| Pool.CloseBarrier | internal/handler/handler.go:40-48 | while Trim may run or the client is closed no publish is queued or running; the wait group counts live publishes and the semaphore bounds running ones |
| Pool.NoDeadlock | internal/handler/handler.go:57-92 | in every reachable state some step is possible until the loop or the process ends |
| Pool.EveryRunEnds | internal/handler/handler.go:57-92 | every run is bounded by the initial measure, and never gets stuck |
| Pool.StepFlights | internal/handler/get.go:49-69 | a shared lookup answers only requests for its own action, and every waiter has an answer or a live leader |
| PoolAnswers.RepliesAreSettled | internal/handler/get.go:49-69 | every reply carries the answer its own worker came to, or, for a shared lookup, the answer with which its leader finished |
| PoolAnswers.ChannelKeepsOrder | internal/handler/handler.go:57-71 | requests are handed to workers in the order read, and the channel never holds more than two for each worker |
| PoolAnswers.InputEnds | internal/handler/handler.go:74-91 | the requests that count are those before the first close, undecodable line or end |
| PoolAnswers.CloseInOrder | internal/handler/handler.go:40-48 | a close awaits publishes, trims, closes the client and replies, in this order and once each |
| PoolLimits.CrashIff | internal/handler/handler.go:62-71 | the process can crash exactly when a worker exists and a get or put before the end of the input has an empty action |
| PoolLimits.StuckIff | cmd/gocache-rbe/main.go:75-80 | a stuck state is reachable exactly without workers and with a request, or without slots and with a publishing put, a close, and no get that must crash |
| PoolLimits.EndsWellIff | internal/handler/handler.go:51-92 | every run that cannot go on has answered every request exactly when the loop can neither get stuck nor crash |
| PoolLimits.BarrierIff | internal/handler/handler.go:74-92 | every run that ends the loop has awaited all publishes exactly when the input has a close, or no put can publish, or the loop cannot end |
| Framing.ReadNext | internal/protocol/reader.go:36-69 | a put carries its declared size exactly when that is non-negative, and nothing otherwise |
| Framing.ReadByHeader | internal/protocol/reader.go:44-66 | after a header only a put that announces bytes takes a body line, and then what that line decides; nothing else consumes the next line |
| Framing.ReadWithoutHeader | internal/protocol/reader.go:36-47 | the end of input, a line too long and an undecodable header are told apart |
| Framing.ScansLine | internal/protocol/reader.go:16-31 | a line, ended or not, is delivered exactly when it is shorter than the buffer |
| Framing.DropsOneCR | internal/protocol/reader.go:24-31 | one carriage return belongs to the line end, and no other character does |
| Framing.Reader.ScanNonEmpty | internal/protocol/reader.go:24-31 | the loop stops at the next non-blank line, or where the scanner stops |
| Framing.Reader.Read | internal/protocol/reader.go:36-69 | one read, with every error case, and the input position it leaves in each |
| Framing.FramingRoundTrip | internal/protocol/reader.go:24-69 | written requests with any blank lines interleaved are read back exactly, then the end of input |
| Framing.EmptyActionPanics | internal/protocol/reader.go:36-69 | a written get with an empty action is read back, and its handler panics |

## Left out

- LocalCache.DiskCache.Trim: the eviction target is a parameter; the floating-point product with 0.8 is not modelled.
- LocalCache.DiskCache.Trim: for foreign files named like bodies agreement is required of the index first; with a one-character name in front of the suffix the program would panic on building the path.
- RemoteStore.Client.UploadBlob: RPC failures are not part of the client on the in-memory server; they are covered by arbitrary remote answers in Handlers, by outcomes in Retry and by events in Publish.
- RoundTrip.RemotePopulate: the re-upload after FAILED_PRECONDITION cannot arise on this server and is modelled in Publish.
- Concurrent.SeparateEntriesGood: two operations on the same entry at once are covered step by step in Overlap and for Installs in SameEntry.
- Runs.HitSoundness: there and in Concurrent, the file removals that operations make are taken to succeed; what a failing one does is stated for the operations themselves (Install, Remove, Trim).
- Resource.SplitResource: names are sequences of characters; the handling of invalid UTF-8 is not modelled.
- Integer widths: sizes, totals and times are unbounded integers; 64-bit overflow is not modelled.
- Power loss that reorders writes: a rename is atomic and earlier writes are visible after it.
- Errors of file checks other than a missing file, of directory listings, and edits of metadata files from outside.
- Failing writes to standard output: the program logs them and goes on.
- gRPC dialing, TLS, auth headers, capability discovery, target parsing, configuration, logging, health server and profiling.
- Internals of SHA-256, JSON, base64 and protobuf; buffer and hash pools.
- Several processes sharing one cache directory.
- Dir, TempFile, DigestFile, CheckCircuit and IsOpen: settled by reading them.
