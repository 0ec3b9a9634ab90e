/**
 * The remote store and the client operations on it (testutil/fakereapi/server.go, internal/reapi/cas.go,
 * internal/reapi/ac.go).
 */
module RemoteStore {
  import opened Prelude
  import opened Resource
  import opened Transfer
  import opened Handlers
  import opened Synthetic

  type Blobs = map<string, Bytes>

  /** Every blob is stored under its own hash. */
  ghost predicate Checked(sha: HashFunction, blobs: Blobs) {
    forall h :: h in blobs ==> sha(blobs[h]) == h
  }

  function StoreIfMissing(blobs: Blobs, hash: string, data: Bytes): Blobs {
    if hash in blobs then blobs else blobs[hash := data]
  }

  function Fetch(blobs: Blobs, hash: string): Option<Bytes> {
    if hash in blobs then Some(blobs[hash]) else None
  }

  /** A batch stores, in order, the requests whose data has the announced hash. */
  function StoreBatch(sha: HashFunction, blobs: Blobs, requests: seq<(Digest, Bytes)>): Blobs {
    if requests == [] then blobs
    else
      var before := StoreBatch(sha, blobs, requests[..|requests| - 1]);
      var (digest, data) := requests[|requests| - 1];
      if sha(data) == digest.hash then before[digest.hash := data] else before
  }

  class Server {
    const sha: HashFunction
    var blobs: Blobs
    var actionCache: map<string, ActionResult>
    var updateEnabled: bool
    /** The blobs held at each accepted update of the action cache. */
    ghost var heldAtUpdates: seq<Blobs>

    ghost predicate Valid()
      reads this
    {
      Checked(sha, blobs)
    }

    constructor (sha: HashFunction)
      ensures Valid() && this.sha == sha && blobs == map[] && actionCache == map[] && updateEnabled
      ensures heldAtUpdates == []
    {
      this.sha := sha;
      blobs, actionCache, updateEnabled := map[], map[], true;
      heldAtUpdates := [];
    }

    /** The requested digests whose hash is not stored, in request order. */
    method FindMissingBlobs(digests: seq<Digest>) returns (missing: seq<Digest>)
      ensures forall d :: d in missing <==> d in digests && d.hash !in blobs
    {
      missing := [];
      for i := 0 to |digests|
        invariant forall d :: d in missing <==> d in digests[..i] && d.hash !in blobs
      {
        if digests[i].hash !in blobs {
          missing := missing + [digests[i]];
        }
      }
    }

    /** One verdict per request; exactly the requests whose data has the announced hash are stored. */
    method BatchUpdateBlobs(requests: seq<(Digest, Bytes)>) returns (ok: seq<bool>)
      requires Valid()
      modifies this`blobs
      ensures Valid()
      ensures |ok| == |requests| && forall i :: 0 <= i < |ok| ==> ok[i] == (sha(requests[i].1) == requests[i].0.hash)
      ensures blobs == StoreBatch(sha, old(blobs), requests)
    {
      ok := [];
      for i := 0 to |requests|
        invariant Valid()
        invariant |ok| == i && forall k :: 0 <= k < i ==> ok[k] == (sha(requests[k].1) == requests[k].0.hash)
        invariant blobs == StoreBatch(sha, old(blobs), requests[..i])
      {
        assert requests[..i + 1][..i] == requests[..i];
        var (digest, data) := requests[i];
        var hash := sha(data);
        if hash != digest.hash {
          ok := ok + [false];
        } else {
          blobs := blobs[hash := data];
          ok := ok + [true];
        }
      }
      assert requests[..|requests|] == requests;
    }

    method BatchReadBlobs(digests: seq<Digest>) returns (found: seq<Option<Bytes>>)
      ensures |found| == |digests| && forall i :: 0 <= i < |found| ==> found[i] == Fetch(blobs, digests[i].hash)
    {
      found := [];
      for i := 0 to |digests|
        invariant |found| == i && forall k :: 0 <= k < i ==> found[k] == Fetch(blobs, digests[k].hash)
      {
        found := found + [Fetch(blobs, digests[i].hash)];
      }
    }

    /** A write stream is stored exactly when it assembles to a blob with the hash in its name. */
    method Write(ms: seq<Message>) returns (committed: Option<int>)
      requires Valid()
      modifies this`blobs
      ensures Valid()
      ensures var blob := Assembled(sha, ms);
        && committed == (if blob.Some? then Some(|blob.value.1|) else None)
        && blobs == (if blob.Some? then old(blobs)[blob.value.0 := blob.value.1] else old(blobs))
    {
      var buf: Bytes, hash, resourceSet := [], "", false;
      ghost var name := None;
      var i := 0;
      assert ms[0..] == ms;
      while i < |ms|
        invariant 0 <= i <= |ms|
        invariant TakeFrom(None, [], ms) == TakeFrom(name, buf, ms[i..])
        invariant resourceSet == name.Some?
        invariant resourceSet ==> FindHash(Split(name.value)) == Some(hash)
        invariant blobs == old(blobs)
      {
        var req := ms[i];
        assert ms[i..][1..] == ms[i + 1..];
        if !resourceSet && req.resourceName != "" {
          var parsed := ParseBlobResource(req.resourceName);
          name := Some(req.resourceName);
          if parsed == None {
            FirstNameStays(req.resourceName, buf, ms[i..]);
            return None;
          }
          hash, resourceSet := parsed.value, true;
        }
        buf := buf + req.data;
        if req.finishWrite {
          break;
        }
        i := i + 1;
      }
      assert TakeFrom(None, [], ms) == (name, buf);
      if !resourceSet {
        return None;
      }
      if sha(buf) != hash {
        return None;
      }
      blobs := blobs[hash := buf];
      return Some(|buf|);
    }

    /** Reading streams the stored content from the offset on, in pieces within the chunk limit. */
    method Read(name: string, offset: nat) returns (chunks: Option<seq<Bytes>>)
      ensures var hash := FindHash(Split(name));
        && (chunks.Some? <==> hash.Some? && hash.value in blobs)
        && (chunks.Some? ==> var data := blobs[hash.value];
              && Concat(chunks.value) == data[if offset > |data| then |data| else offset..]
              && forall i :: 0 <= i < |chunks.value| ==> 0 < |chunks.value[i]| <= CHUNK_SIZE)
    {
      var hash := ParseBlobResource(name);
      if hash == None {
        return None;
      }
      if hash.value !in blobs {
        return None;
      }
      var data := blobs[hash.value];
      var start := if offset > |data| then |data| else offset;
      var pieces := ServeChunks(data[start..]);
      return Some(pieces);
    }

    method GetActionResult(key: string) returns (ar: Option<ActionResult>)
      ensures ar == if key in actionCache then Some(actionCache[key]) else None
    {
      if key !in actionCache {
        return None;
      }
      return Some(actionCache[key]);
    }

    method UpdateActionResult(key: string, ar: ActionResult) returns (ok: bool)
      modifies this`actionCache, this`heldAtUpdates
      ensures ok == updateEnabled
      ensures heldAtUpdates == if ok then old(heldAtUpdates) + [blobs] else old(heldAtUpdates)
      ensures actionCache == if ok then old(actionCache)[key := ar] else old(actionCache)
    {
      if !updateEnabled {
        return false;
      }
      actionCache := actionCache[key := ar];
      heldAtUpdates := heldAtUpdates + [blobs];
      return true;
    }
  }

  /** An instance name that cannot be mistaken for the start of a blob path. */
  predicate PlainInstance(instanceName: string) {
    "blobs" !in Split(instanceName)
  }

  predicate PlainSegment(s: string) {
    s != "" && SlashFree(s)
  }

  /** The bytes a file upload gets to send: as many as announced in a batch, everything there is in a stream. */
  function Sent(file: Option<seq<Transfer.Read>>, size: nat, batch: bool): Option<Bytes> {
    if file.None? || file.value == [] then None
    else
      var content := ContentOf(file.value);
      if batch then (if |content| < size then None else Some(content[..size]))
      else if file.value[|file.value| - 1].status == Ended then Some(content)
      else None
  }

  /**
   * A batch upload reads no further than the announced size, so a longer file sends its first bytes and a
   * shorter one nothing; a stream sends the whole file, if it can be read to its end.
   */
  lemma SentBytes(file: seq<Transfer.Read>, content: Bytes, size: nat)
    requires Delivers(file, content)
    ensures size <= |content| ==> Sent(Some(file), size, true) == Some(content[..size])
    ensures |content| < size ==> Sent(Some(file), size, true) == None
    ensures Sent(Some(file), size, false) == Some(content)
    ensures Sent(None, size, true) == None && Sent(None, size, false) == None
  {
  }

  class Client {
    const server: Server
    const instanceName: string
    const maxBatchSize: int
    const updateEnabled: bool

    ghost predicate Valid()
      reads server
    {
      server.Valid()
    }

    constructor (server: Server, instanceName: string, maxBatchSize: int, updateEnabled: bool)
      requires server.Valid()
      ensures this.server == server && this.updateEnabled == updateEnabled && Valid()
      ensures this.instanceName == instanceName && this.maxBatchSize == maxBatchSize
    {
      this.server, this.instanceName := server, instanceName;
      this.maxBatchSize, this.updateEnabled := maxBatchSize, updateEnabled;
    }

    /** Whether the server takes these bytes under this digest: a batch by hash, a stream by the hash in its name. */
    predicate Accepts(digest: Digest, data: Bytes, uuid: string) {
      if digest.size <= maxBatchSize then server.sha(data) == digest.hash
      else data != [] && FindHash(Split(UploadName(instanceName, uuid, digest))) == Some(server.sha(data))
    }

    method BatchUpload(digest: Digest, data: Bytes) returns (ok: bool)
      requires Valid()
      modifies server`blobs
      ensures Valid() && ok == (server.sha(data) == digest.hash)
      ensures server.blobs == if ok then old(server.blobs)[digest.hash := data] else old(server.blobs)
    {
      var verdicts := server.BatchUpdateBlobs([(digest, data)]);
      assert [(digest, data)][..0] == [];
      for i := 0 to |verdicts|
        invariant i == 1 ==> verdicts[0]
      {
        if !verdicts[i] {
          return false;
        }
      }
      return true;
    }

    /** A stream is stored exactly when it was read to its end, is not empty, and has the hash in its name. */
    method ByteStreamUpload(digest: Digest, source: seq<Transfer.Read>, uuid: string) returns (ok: bool)
      requires Valid() && Terminates(source)
      modifies server`blobs
      ensures var content := ContentOf(source);
        && ok == (source[|source| - 1].status == Ended && content != []
                  && FindHash(Split(UploadName(instanceName, uuid, digest))) == Some(server.sha(content)))
        && server.blobs == if ok then old(server.blobs)[server.sha(content) := content] else old(server.blobs)
      ensures Valid()
    {
      var name := UploadName(instanceName, uuid, digest);
      var ms, readAll := SendChunks(source, name);
      if !readAll {
        return false;
      }
      PayloadEmptyIff(ms);
      UploadAssembles(server.sha, ms, name);
      var committed := server.Write(ms);
      return committed.Some?;
    }

    /** Blobs already stored are left alone; others end up stored exactly when the server takes them. */
    method UploadBlob(digest: Digest, data: Bytes, source: seq<Transfer.Read>, uuid: string) returns (ok: bool)
      requires Valid() && Delivers(source, data)
      modifies server`blobs
      ensures Valid() && ok == (digest.hash in old(server.blobs) || Accepts(digest, data, uuid))
      ensures server.blobs ==
        if ok && digest.hash !in old(server.blobs) then old(server.blobs)[server.sha(data) := data]
        else old(server.blobs)
    {
      var missing := server.FindMissingBlobs([digest]);
      if |missing| == 0 {
        assert digest.hash in server.blobs;
        return true;
      }
      assert missing[0] in missing;
      if digest.size <= maxBatchSize {
        ok := BatchUpload(digest, data);
        return;
      }
      ok := ByteStreamUpload(digest, source, uuid);
    }

    /** The file variant, for a file that may have gone, changed or become unreadable since its digest was taken. */
    method UploadFile(digest: Digest, file: Option<seq<Transfer.Read>>, uuid: string) returns (ok: bool)
      requires Valid() && 0 <= digest.size && (file.Some? ==> Terminates(file.value))
      modifies server`blobs
      ensures var sent := Sent(file, digest.size, digest.size <= maxBatchSize);
        && ok == (digest.hash in old(server.blobs) || (sent.Some? && Accepts(digest, sent.value, uuid)))
        && server.blobs == if ok && digest.hash !in old(server.blobs)
                           then old(server.blobs)[server.sha(sent.value) := sent.value] else old(server.blobs)
      ensures Valid()
    {
      var missing := server.FindMissingBlobs([digest]);
      if |missing| == 0 {
        assert digest.hash in server.blobs;
        return true;
      }
      assert missing[0] in missing;
      if file == None {
        return false;
      }
      if digest.size <= maxBatchSize {
        var content := ContentOf(file.value);
        if |content| < digest.size {
          return false;
        }
        ok := BatchUpload(digest, content[..digest.size]);
        return;
      }
      ok := ByteStreamUpload(digest, file.value, uuid);
    }

    /** Both download paths deliver what is stored under the digest's hash, or under the hash the name is read as. */
    method DownloadBlob(digest: Digest) returns (got: Option<Bytes>)
      ensures got ==
        if digest.size <= maxBatchSize then Fetch(server.blobs, digest.hash)
        else var hash := FindHash(Split(DownloadName(instanceName, digest)));
             if hash.Some? then Fetch(server.blobs, hash.value) else None
    {
      if digest.size <= maxBatchSize {
        var found := server.BatchReadBlobs([digest]);
        var written: Bytes := [];
        for i := 0 to |found|
          invariant i == 0 ==> written == []
          invariant i == 1 ==> Some(written) == found[0]
        {
          if found[i] == None {
            return None;
          }
          assert i == 0 ==> written + found[i].value == found[i].value;
          written := written + found[i].value;
        }
        return Some(written);
      }
      var chunks := server.Read(DownloadName(instanceName, digest), 0);
      if chunks == None {
        return None;
      }
      var written := ReceiveChunks(chunks.value);
      return Some(written);
    }
  }

  /** The names of an instance without a "blobs" segment are read back as the digest's own hash. */
  lemma PlainNames(instanceName: string, uuid: string, digest: Digest)
    requires PlainInstance(instanceName) && PlainSegment(digest.hash) && PlainSegment(uuid) && uuid != "blobs"
    ensures FindHash(Split(UploadName(instanceName, uuid, digest))) == Some(digest.hash)
    ensures FindHash(Split(DownloadName(instanceName, digest))) == Some(digest.hash)
  {
    UploadNameParses(instanceName, uuid, digest);
    DownloadNameParses(instanceName, digest);
  }
}
