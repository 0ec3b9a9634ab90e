/** From one machine's put to another machine's get (internal/handler/put.go, internal/handler/get.go). */
module RoundTrip {
  import opened Prelude
  import opened Hex
  import opened Names
  import opened DiskIndex
  import opened FileSystem
  import opened LocalCache
  import opened Handlers
  import opened Runs
  import opened Recovery
  import opened Answers
  import opened Synthetic
  import opened Resource
  import opened Transfer
  import opened RemoteStore

  function SyntheticActionResult(outputIDHex: string, bodyDigest: Digest): ActionResult {
    ActionResult([OutputFile(outputIDHex, bodyDigest)])
  }

  function PopulatedBlobs(blobs: Blobs, sd: SyntheticDigests, bodyDigest: Digest, body: Bytes): Blobs {
    var b1 := StoreIfMissing(blobs, bodyDigest.hash, body);
    var b2 := StoreIfMissing(b1, sd.commandDigest.hash, sd.commandData);
    var b3 := StoreIfMissing(b2, sd.dirDigest.hash, sd.dirData);
    StoreIfMissing(b3, sd.actionDigest.hash, sd.actionData)
  }

  /** The bytes are stored under their own hash. */
  ghost predicate HoldsBlob(sha: HashFunction, blobs: Blobs, data: Bytes) {
    sha(data) in blobs && (NoCollision(sha, {data, blobs[sha(data)]}) ==> blobs[sha(data)] == data)
  }

  /** Nothing stored before is lost or changed. */
  ghost predicate Extends(blobs: Blobs, next: Blobs) {
    forall h :: h in blobs ==> h in next && next[h] == blobs[h]
  }

  lemma StoresOne(sha: HashFunction, blobs: Blobs, data: Bytes, other: Bytes)
    requires Checked(sha, blobs)
    ensures var next := StoreIfMissing(blobs, sha(data), data);
      && Checked(sha, next) && Extends(blobs, next) && HoldsBlob(sha, next, data)
      && next.Keys == blobs.Keys + {sha(data)}
      && (HoldsBlob(sha, blobs, other) ==> HoldsBlob(sha, next, other))
  {
  }

  lemma StoresTwo(sha: HashFunction, blobs: Blobs, x: Bytes, y: Bytes, other: Bytes)
    requires Checked(sha, blobs)
    ensures var next := StoreIfMissing(StoreIfMissing(blobs, sha(x), x), sha(y), y);
      && Checked(sha, next) && Extends(blobs, next) && HoldsBlob(sha, next, x) && HoldsBlob(sha, next, y)
      && next.Keys == blobs.Keys + {sha(x), sha(y)}
      && (HoldsBlob(sha, blobs, other) ==> HoldsBlob(sha, next, other))
  {
    StoresOne(sha, blobs, x, other);
    StoresOne(sha, StoreIfMissing(blobs, sha(x), x), y, x);
    StoresOne(sha, StoreIfMissing(blobs, sha(x), x), y, other);
  }

  /** A publish leaves body, command, directory and action in the store, and touches nothing else. */
  lemma PublishedBlobs(sha: HashFunction, blobs: Blobs, sd: SyntheticDigests, body: Bytes)
    requires Checked(sha, blobs) && Coherent(sha, sd)
    ensures var published := PopulatedBlobs(blobs, sd, Digest(sha(body), |body|), body);
      && HoldsBlob(sha, published, body) && HoldsBlob(sha, published, sd.commandData)
      && HoldsBlob(sha, published, sd.dirData) && HoldsBlob(sha, published, sd.actionData)
      && Checked(sha, published) && Extends(blobs, published)
      && published.Keys == blobs.Keys + {sha(body), sha(sd.commandData), sha(sd.dirData), sha(sd.actionData)}
  {
    StoresTwo(sha, blobs, body, sd.commandData, body);
    var half := StoreIfMissing(StoreIfMissing(blobs, sha(body), body), sha(sd.commandData), sd.commandData);
    StoresTwo(sha, half, sd.dirData, sd.actionData, body);
    StoresTwo(sha, half, sd.dirData, sd.actionData, sd.commandData);
  }

  /** A client whose resource names are read back, and that sends empty blobs in a batch. */
  predicate Usable(client: Client) {
    PlainInstance(client.instanceName) && 0 <= client.maxBatchSize
  }

  /** Hashes are printable names: not empty and without a slash. */
  ghost predicate PlainHashes(sd: SyntheticDigests, bodyDigest: Digest) {
    && PlainSegment(bodyDigest.hash) && PlainSegment(sd.commandDigest.hash)
    && PlainSegment(sd.dirDigest.hash) && PlainSegment(sd.actionDigest.hash)
  }

  /** One legal way to read every content: any chunking. */
  ghost predicate Reads(deliver: Bytes -> seq<Transfer.Read>) {
    forall content: Bytes :: Delivers(deliver(content), content)
  }

  /** The upload of a blob beside its own digest always succeeds. */
  method UploadProto(client: Client, digest: Digest, data: Bytes, deliver: Bytes -> seq<Transfer.Read>, uuid: string)
    returns (ok: bool)
    requires client.Valid() && Usable(client) && Reads(deliver) && digest == DigestBytes(client.server.sha, data)
    requires PlainSegment(digest.hash) && PlainSegment(uuid) && uuid != "blobs"
    modifies client.server`blobs
    ensures client.Valid() && ok && client.server.blobs == StoreIfMissing(old(client.server.blobs), digest.hash, data)
  {
    PlainNames(client.instanceName, uuid, digest);
    assert client.Accepts(digest, data, uuid);
    ok := client.UploadBlob(digest, data, deliver(data), uuid);
  }

  /** Whether the body can be had in the store: it is there, or the file still yields bytes that the server takes. */
  predicate BodyArrives(client: Client, blobs: Blobs, bodyDigest: Digest, sent: Option<Bytes>, uuid: string) {
    bodyDigest.hash in blobs || (sent.Some? && client.Accepts(bodyDigest, sent.value, uuid))
  }

  /**
   * The background publish on a server that drops nothing: when the body arrives, four blobs stored and
   * then the action-cache entry; when it does not, a failure that leaves the server as it was.
   */
  method RemotePopulate(client: Client, sd: SyntheticDigests, outputIDHex: string, bodyDigest: Digest,
                        file: Option<seq<Transfer.Read>>, deliver: Bytes -> seq<Transfer.Read>, uuid: string)
    returns (ok: bool)
    requires client.Valid() && Usable(client) && Coherent(client.server.sha, sd) && PlainHashes(sd, bodyDigest)
    requires Reads(deliver) && 0 <= bodyDigest.size && (file.Some? ==> Terminates(file.value))
    requires PlainSegment(uuid) && uuid != "blobs"
    modifies client.server
    ensures client.Valid() && client.server.updateEnabled == old(client.server.updateEnabled)
    ensures var sent := Sent(file, bodyDigest.size, bodyDigest.size <= client.maxBatchSize);
      if BodyArrives(client, old(client.server.blobs), bodyDigest, sent, uuid) then
        && ok == (client.updateEnabled ==> client.server.updateEnabled)
        && client.server.blobs
           == PopulatedBlobs(old(client.server.blobs), sd, bodyDigest, if sent.Some? then sent.value else [])
        && client.server.actionCache ==
           (if client.updateEnabled && client.server.updateEnabled
            then old(client.server.actionCache)[sd.actionDigest.hash := SyntheticActionResult(outputIDHex, bodyDigest)]
            else old(client.server.actionCache))
        && client.server.heldAtUpdates ==
           (if client.updateEnabled && client.server.updateEnabled
            then old(client.server.heldAtUpdates) + [client.server.blobs] else old(client.server.heldAtUpdates))
      else
        !ok && client.server.blobs == old(client.server.blobs)
        && client.server.actionCache == old(client.server.actionCache)
  {
    PlainNames(client.instanceName, uuid, bodyDigest);
    ok := client.UploadFile(bodyDigest, file, uuid);
    if !ok {
      return;
    }
    ok := UploadProto(client, sd.commandDigest, sd.commandData, deliver, uuid);
    if !ok {
      return;
    }
    ok := UploadProto(client, sd.dirDigest, sd.dirData, deliver, uuid);
    if !ok {
      return;
    }
    ok := UploadProto(client, sd.actionDigest, sd.actionData, deliver, uuid);
    if !ok {
      return;
    }
    if client.updateEnabled {
      ok := client.server.UpdateActionResult(sd.actionDigest.hash, SyntheticActionResult(outputIDHex, bodyDigest));
    }
  }

  /** What a store holding these blobs and entries answers during a get. */
  function AnswersOf(sha: HashFunction, enc: Encoding, blobs: Blobs, ac: map<string, ActionResult>): Remote {
    Remote(
      (id: string) =>
        (match Chain(sha, enc, id)
         case None => None
         case Some(sd) => if sd.actionDigest.hash in ac then Some(ac[sd.actionDigest.hash]) else None),
      (d: Digest) => Fetch(blobs, d.hash),
      (d: Digest) => Fetch(blobs, d.hash))
  }

  /** A get with an empty local cache, when the action cache names these bytes and the store holds them. */
  lemma FetchedHit(sha: HashFunction, dir: string, req: Request, remote: Remote, outputID: Bytes, body: Bytes,
                   env: GetEnv)
    requires req.actionID != [] && FetchSucceeds(env.fetch)
    requires remote.lookup(Encode(req.actionID))
             == Some(ActionResult([OutputFile(Encode(outputID), Digest(sha(body), |body|))]))
    requires remote.fetch(Digest(sha(body), |body|)) == Some(body)
    ensures var (after, handled) := GetOutcome(Empty(dir), sha, req, Some(remote), env);
      var id := Encode(req.actionID);
      && IsId(id)
      && handled == Responded(Response(req.id, "", false, outputID, |body|, env.resultTime, BodyPath(dir, id)))
      && id in after.disk.bodies && after.disk.bodies[id] == body
  {
    EncodeIsHex(req.actionID);
    DecodeEncode(outputID);
  }

  /**
   * Machine-to-machine round trip: once a put of (action, output, body) has been published, any later
   * state of a store that checks digests, keeps its blobs and has not had this entry overwritten serves
   * a get from an empty cache with exactly that output, that length and those bytes.
   */
  lemma MachineToMachine(sha: HashFunction, enc: Encoding, sd: SyntheticDigests, blobs0: Blobs, blobs1: Blobs,
                         ac1: map<string, ActionResult>, dir: string, req: Request, outputID: Bytes, body: Bytes,
                         env: GetEnv)
    requires req.actionID != [] && FetchSucceeds(env.fetch)
    requires Chain(sha, enc, Encode(req.actionID)) == Some(sd)
    requires var published := PopulatedBlobs(blobs0, sd, DigestBytes(sha, body), body);
      forall h :: h in published ==> h in blobs1
    requires Checked(sha, blobs1) && NoCollision(sha, {body} + blobs1.Values)
    requires sd.actionDigest.hash in ac1
      && ac1[sd.actionDigest.hash] == SyntheticActionResult(Encode(outputID), DigestBytes(sha, body))
    ensures var (after, handled) := GetOutcome(Empty(dir), sha, req, Some(AnswersOf(sha, enc, blobs1, ac1)), env);
      var id := Encode(req.actionID);
      && IsId(id)
      && handled == Responded(Response(req.id, "", false, outputID, |body|, env.resultTime, BodyPath(dir, id)))
      && id in after.disk.bodies && after.disk.bodies[id] == body
  {
    assert sha(body) in blobs1;
    assert blobs1[sha(body)] in blobs1.Values;
    assert blobs1[sha(body)] == body;
    FetchedHit(sha, dir, req, AnswersOf(sha, enc, blobs1, ac1), outputID, body, env);
  }

  /** What an untouched file sends is its content, and the server takes it. */
  lemma UntouchedFileArrives(client: Client, body: Bytes, deliver: Bytes -> seq<Transfer.Read>, uuid: string)
    requires Usable(client) && Reads(deliver)
    requires PlainSegment(client.server.sha(body)) && PlainSegment(uuid) && uuid != "blobs"
    ensures var digest := DigestBytes(client.server.sha, body);
      && Sent(Some(deliver(body)), digest.size, digest.size <= client.maxBatchSize) == Some(body)
      && client.Accepts(digest, body, uuid)
  {
    var digest := DigestBytes(client.server.sha, body);
    PlainNames(client.instanceName, uuid, digest);
    assert Delivers(deliver(body), body);
    assert body[..|body|] == body;
  }

  /** Barring a collision, the server takes exactly the bytes that were put. */
  lemma OnlyOwnBytesArrive(client: Client, body: Bytes, data: Bytes, uuid: string)
    requires Usable(client) && PlainSegment(client.server.sha(body)) && PlainSegment(uuid) && uuid != "blobs"
    requires NoCollision(client.server.sha, {body, data})
    ensures client.Accepts(DigestBytes(client.server.sha, body), data, uuid) <==> data == body
  {
    PlainNames(client.instanceName, uuid, DigestBytes(client.server.sha, body));
  }

  /** The publisher's side: the put is answered, and its publish will be able to name all blobs. */
  ghost predicate CanPublish(handler: Handler, client: Client, memo: Memo, put: Request,
                             deliver: Bytes -> seq<Transfer.Read>, uuid: string)
    reads memo, client.server
  {
    && client.Valid() && Usable(client) && memo.Valid() && memo.sha == handler.sha == client.server.sha
    && Reads(deliver) && PlainSegment(uuid) && uuid != "blobs"
    && var chain := Chain(memo.sha, memo.enc, Encode(put.actionID));
       chain.Some? && PlainHashes(chain.value, DigestBytes(memo.sha, put.body))
  }

  /** A put that was answered without an error starts its publish. */
  predicate Answered(handled: Handled) {
    handled.Responded? && handled.resp.err == ""
  }

  /** What the file of an action holds when the publish opens it. */
  function FileAt(bodies: map<string, Bytes>, id: string, deliver: Bytes -> seq<Transfer.Read>)
    : Option<seq<Transfer.Read>>
  {
    if id in bodies then Some(deliver(bodies[id])) else None
  }

  /**
   * A put and its publish, with another put possibly coming in between. The publish reads the file at the
   * path that the put returned, whatever is there by then. Barring a collision it goes through exactly when
   * the store already has the blob or the file still yields the bytes that were put; otherwise it fails,
   * stores nothing and writes no entry.
   */
  method PutAndPublish(handler: Handler, client: Client, memo: Memo, put: Request, env: PutEnv,
                       overtaking: Option<(Request, PutEnv)>, deliver: Bytes -> seq<Transfer.Read>, uuid: string)
    returns (handled: Handled, published: bool)
    requires CanPublish(handler, client, memo, put, deliver, uuid)
    requires client.updateEnabled && client.server.updateEnabled
    modifies handler.cache, memo, client.server
    ensures client.Valid() && memo.Valid() && client.server.updateEnabled
    ensures var before, max := old(handler.cache.State()), handler.maxArtifactSize;
      var (after, outcome) := PutOutcome(before, handler.sha, put, max, env);
      && handled == outcome
      && handler.cache.State() ==
         (if overtaking.None? || !Answered(outcome) then after
          else PutOutcome(after, handler.sha, overtaking.value.0, max, overtaking.value.1).0)
    ensures !Answered(handled) ==> !published
    ensures !published ==>
      client.server.blobs == old(client.server.blobs) && client.server.actionCache == old(client.server.actionCache)
    ensures Answered(handled) ==>
      var body, id := put.body, Encode(put.actionID);
      var digest, sd := DigestBytes(memo.sha, body), Chain(memo.sha, memo.enc, id).value;
      var sent := Sent(FileAt(handler.cache.bodies, id, deliver), digest.size, digest.size <= client.maxBatchSize);
      && (sent.Some? && NoCollision(memo.sha, {body, sent.value}) ==>
            (published <==> digest.hash in old(client.server.blobs) || sent.value == body))
      && (sent.None? ==> (published <==> digest.hash in old(client.server.blobs)))
      && (published ==>
            && sd.actionDigest.hash in client.server.actionCache
            && client.server.actionCache
               == old(client.server.actionCache)
                    [sd.actionDigest.hash := SyntheticActionResult(Encode(put.outputID), digest)]
            && client.server.blobs
               == PopulatedBlobs(old(client.server.blobs), sd, digest, if sent.Some? then sent.value else []))
      && (overtaking.None? ==> sent == Some(body) && published)
  {
    var id, body := Encode(put.actionID), put.body;
    handled := handler.HandlePut(put, env);
    if !Answered(handled) {
      return handled, false;
    }
    if overtaking.Some? {
      var _ := handler.HandlePut(overtaking.value.0, overtaking.value.1);
    }
    var digest := DigestBytes(memo.sha, body);
    var file := FileAt(handler.cache.bodies, id, deliver);
    ghost var sent := Sent(file, digest.size, digest.size <= client.maxBatchSize);
    if overtaking.None? {
      UntouchedFileArrives(client, body, deliver, uuid);
    }
    if sent.Some? && NoCollision(memo.sha, {body, sent.value}) {
      OnlyOwnBytesArrive(client, body, sent.value, uuid);
    }
    var sd := memo.ComputeSyntheticDigests(id);
    published := RemotePopulate(client, sd.value, Encode(put.outputID), digest, file, deliver, uuid);
  }

  /**
   * A get on a machine with an empty directory, from a store that holds the entry under the key of the action,
   * as that machine computes it, and the blob.
   */
  method GetElsewhere(there: Handler, fetcher: Client, memo: Memo, outputID: Bytes, body: Bytes, get: Request,
                      env: GetEnv)
    returns (handled: Handled)
    requires memo.Valid() && memo.sha == there.sha && there.cache.State() == Empty(there.cache.dir)
    requires get.actionID != [] && FetchSucceeds(env.fetch)
    requires PlainInstance(fetcher.instanceName) && PlainSegment(there.sha(body))
    requires Chain(memo.sha, memo.enc, Encode(get.actionID)).Some?
    requires var key := Chain(memo.sha, memo.enc, Encode(get.actionID)).value.actionDigest.hash;
      && key in fetcher.server.actionCache
      && fetcher.server.actionCache[key] == SyntheticActionResult(Encode(outputID), DigestBytes(there.sha, body))
    requires Fetch(fetcher.server.blobs, there.sha(body)) == Some(body)
    modifies there.cache, memo
    ensures memo.Valid()
    ensures var id := Encode(get.actionID);
      && IsId(id)
      && handled == Responded(Response(get.id, "", false, outputID, |body|, env.resultTime,
                                       BodyPath(there.cache.dir, id)))
      && id in there.cache.bodies && there.cache.bodies[id] == body
  {
    var digest := DigestBytes(there.sha, body);
    var sd := memo.ComputeSyntheticDigests(Encode(get.actionID));
    var ar := fetcher.server.GetActionResult(sd.value.actionDigest.hash);
    PlainNames(fetcher.instanceName, "any", digest);
    var got := fetcher.DownloadBlob(digest);
    var remote := Remote((_: string) => ar, (_: Digest) => None, (_: Digest) => got);
    FetchedHit(there.sha, there.cache.dir, get, remote, outputID, body, env);
    assert there.cache.Valid();
    handled := there.HandleGet(get, Some(remote), env);
  }

  /**
   * Machine to machine through the coded paths: a put on one machine, its publish, and a get of the action
   * on another, each with its own client, batch limit and instance name, the other over an empty directory.
   */
  method PutThenGetElsewhere(here: Handler, there: Handler, publisher: Client, fetcher: Client, memo: Memo,
                             put: Request, putEnv: PutEnv, get: Request, getEnv: GetEnv,
                             deliver: Bytes -> seq<Transfer.Read>, uuid: string)
    returns (stored: Handled, handled: Handled)
    requires CanPublish(here, publisher, memo, put, deliver, uuid)
    requires publisher.updateEnabled && publisher.server.updateEnabled
    requires fetcher.server == publisher.server && PlainInstance(fetcher.instanceName)
    requires there.sha == here.sha && there.cache != here.cache && there.cache.State() == Empty(there.cache.dir)
    requires get.actionID == put.actionID && FetchSucceeds(getEnv.fetch)
    requires forall h :: h in publisher.server.blobs && h == memo.sha(put.body) ==>
               publisher.server.blobs[h] == put.body
    modifies here.cache, there.cache, publisher.server, memo
    ensures Answered(stored) <==> PutSucceeds(put, here.maxArtifactSize, putEnv)
    ensures PutSucceeds(put, here.maxArtifactSize, putEnv) ==>
      var id := Encode(put.actionID);
      && IsId(id)
      && handled == Responded(Response(get.id, "", false, put.outputID, |put.body|, getEnv.resultTime,
                                       BodyPath(there.cache.dir, id)))
      && id in there.cache.bodies && there.cache.bodies[id] == put.body
  {
    PutSucceedsIff(here.sha, here.cache.State(), put, here.maxArtifactSize, putEnv);
    var published;
    stored, published := PutAndPublish(here, publisher, memo, put, putEnv, None, deliver, uuid);
    if !Answered(stored) {
      return stored, stored;
    }
    handled := GetElsewhere(there, fetcher, memo, put.outputID, put.body, get, getEnv);
  }
}
