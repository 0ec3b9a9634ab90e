/** The get and put requests (internal/handler/get.go, internal/handler/put.go). */
module Handlers {
  import opened Prelude
  import opened Hex
  import opened Names
  import opened DiskIndex
  import opened FileSystem
  import opened LocalCache

  datatype Request = Request(id: int, command: string, actionID: Bytes, outputID: Bytes, body: Bytes, bodySize: int)

  datatype Response = Response(
    id: int, err: string, miss: bool, outputID: Bytes, size: int, time: int, diskPath: string)

  datatype OutputFile = OutputFile(path: string, digest: Digest)

  datatype ActionResult = ActionResult(outputFiles: seq<OutputFile>)

  /**
   * What the remote answers during one request, taken as given: the action-cache entry for an action, and
   * the bytes each of the two download attempts writes before it ends without an error. Nothing is
   * assumed about these answers, so they cover missing, stale and corrupted replies.
   */
  datatype Remote = Remote(
    lookup: string -> Option<ActionResult>,
    refill: Digest -> Option<Bytes>,
    fetch: Digest -> Option<Bytes>)

  /** Whether the temporary file could be written and examined, and how Install went. */
  datatype FetchEnv = FetchEnv(tempOk: bool, install: InstallEnv)

  datatype GetEnv = GetEnv(lookupTime: int, remove: RemoveEnv, refill: FetchEnv, resultTime: int, fetch: FetchEnv)

  datatype PutEnv = PutEnv(tempOk: bool, time: int, install: InstallEnv)

  /** How a worker comes out of a request: with a response, or the panic that ends the process. */
  datatype Handled = Responded(resp: Response) | Panicked

  /** What the protocol reader guarantees of a put: a declared size is delivered, a negative one delivers nothing. */
  predicate FromReader(req: Request) {
    |req.body| == if req.bodySize < 0 then 0 else req.bodySize
  }

  function MissResponse(id: int): Response {
    Response(id, "", true, [], 0, 0, "")
  }

  function ErrResponse(id: int, err: string): Response {
    Response(id, err, false, [], 0, 0, "")
  }

  function HitResponse(id: int, outputID: Bytes, meta: Metadata, path: string): Response {
    Response(id, "", false, outputID, meta.size, meta.time, path)
  }

  predicate IsHit(r: Response) {
    r.err == "" && !r.miss
  }

  /**
   * Nothing on the way from the reader refuses an empty action identifier, but both path builders slice
   * two characters off its hex form: they are defined for all other identifiers and for no empty one.
   */
  lemma PathsDefinedIff(actionID: Bytes)
    ensures 2 <= |Encode(actionID)| <==> actionID != []
    ensures IsId(Encode(actionID)) <==> actionID != []
  {
    EncodeIsHex(actionID);
  }

  /** Only bytes with the announced hash and length reach the cache. */
  function AfterFetch(c: Cache, sha: HashFunction, id: string, digest: Digest, meta: Metadata,
                      got: Option<Bytes>, env: FetchEnv)
    : (Cache, Result<string>)
    requires IsId(id)
  {
    if !env.tempOk then (c, Err("temp file"))
    else if got.None? then (c, Err("download"))
    else if sha(got.value) != digest.hash || |got.value| != digest.size then (c, Err("digest mismatch"))
    else AfterInstall(c, id, got.value, meta, env.install)
  }

  function AfterAcLookup(c: Cache, sha: HashFunction, req: Request, id: string, remote: Remote, env: GetEnv)
    : (Cache, Response)
    requires IsId(id)
  {
    var ar := remote.lookup(id);
    if ar.None? || ar.value.outputFiles == [] then (c, MissResponse(req.id))
    else
      var file := ar.value.outputFiles[0];
      var outputID := Decode(file.path);
      if outputID.None? then (c, MissResponse(req.id))
      else
        var meta := Metadata(file.path, file.digest.size, env.resultTime, file.digest.hash, file.digest.size);
        var (after, r) := AfterFetch(c, sha, id, file.digest, meta, remote.fetch(file.digest), env.fetch);
        if r.Err? then (after, MissResponse(req.id))
        else (after, HitResponse(req.id, outputID.value, meta, r.value))
  }

  /** Local hit, then refill of a stub, then the action cache; no remote means a plain miss. */
  function AfterGet(c: Cache, sha: HashFunction, req: Request, remote: Option<Remote>, env: GetEnv): (Cache, Response)
    requires req.actionID != []
  {
    EncodeIsHex(req.actionID);
    var id := Encode(req.actionID);
    var found := DiskLookup(c.dir, c.disk, id);
    var looked := AfterLookup(c, id, env.lookupTime);
    if found.hit then
      var outputID := Decode(found.meta.value.outputIDHex);
      if outputID.None? then (AfterRemove(looked, id, env.remove), MissResponse(req.id))
      else (looked, HitResponse(req.id, outputID.value, found.meta.value, found.path))
    else if remote.None? then (looked, MissResponse(req.id))
    else if found.meta.None? then AfterAcLookup(looked, sha, req, id, remote.value, env)
    else
      var meta := found.meta.value;
      var digest := Digest(meta.casHash, meta.casSize);
      var (refilled, r) := AfterFetch(looked, sha, id, digest, meta, remote.value.refill(digest), env.refill);
      var outputID := Decode(meta.outputIDHex);
      if r.Ok? && outputID.Some? then (refilled, HitResponse(req.id, outputID.value, meta, r.value))
      else AfterAcLookup(refilled, sha, req, id, remote.value, env)
  }

  /** A whole get request: an empty identifier misses the index, and its metadata path cannot be built. */
  function GetOutcome(c: Cache, sha: HashFunction, req: Request, remote: Option<Remote>, env: GetEnv)
    : (Cache, Handled)
  {
    if req.actionID == [] then (c, Panicked)
    else
      var (after, resp) := AfterGet(c, sha, req, remote, env);
      (after, Responded(resp))
  }

  /** The metadata a put records: the declared size, and the digest of the bytes actually received. */
  function PutMetadata(sha: HashFunction, req: Request, time: int): Metadata {
    Metadata(Encode(req.outputID), req.bodySize, time, sha(req.body), |req.body|)
  }

  function AfterPut(c: Cache, sha: HashFunction, req: Request, maxArtifactSize: int, env: PutEnv): (Cache, Response)
    requires req.actionID != []
  {
    EncodeIsHex(req.actionID);
    if maxArtifactSize > 0 && req.bodySize > maxArtifactSize then (c, ErrResponse(req.id, "artifact too large"))
    else if !env.tempOk then (c, ErrResponse(req.id, "write body"))
    else
      var (after, r) := AfterInstall(c, Encode(req.actionID), req.body, PutMetadata(sha, req, env.time), env.install);
      if r.Err? then (after, ErrResponse(req.id, "local install"))
      else (after, Response(req.id, "", false, [], 0, 0, r.value))
  }

  /** The checks a put fails before Install is reached. */
  predicate RefusedEarly(req: Request, maxArtifactSize: int, env: PutEnv) {
    (maxArtifactSize > 0 && req.bodySize > maxArtifactSize) || !env.tempOk
  }

  /** A whole put request: the body path of an empty identifier cannot be built, but earlier refusals come first. */
  function PutOutcome(c: Cache, sha: HashFunction, req: Request, maxArtifactSize: int, env: PutEnv): (Cache, Handled) {
    if maxArtifactSize > 0 && req.bodySize > maxArtifactSize
    then (c, Responded(ErrResponse(req.id, "artifact too large")))
    else if !env.tempOk then (c, Responded(ErrResponse(req.id, "write body")))
    else if req.actionID == [] then (c, Panicked)
    else
      var (after, resp) := AfterPut(c, sha, req, maxArtifactSize, env);
      (after, Responded(resp))
  }

  class Handler {
    const cache: DiskCache
    const sha: HashFunction
    const maxArtifactSize: int

    constructor (cache: DiskCache, sha: HashFunction, maxArtifactSize: int)
      ensures this.cache == cache && this.sha == sha && this.maxArtifactSize == maxArtifactSize
    {
      this.cache, this.sha, this.maxArtifactSize := cache, sha, maxArtifactSize;
    }

    method DownloadAndInstall(id: string, digest: Digest, meta: Metadata, got: Option<Bytes>, env: FetchEnv)
      returns (r: Result<string>)
      requires IsId(id)
      modifies cache
      ensures (cache.State(), r) == AfterFetch(old(cache.State()), sha, id, digest, meta, got, env)
    {
      if !env.tempOk {
        return Err("temp file");
      }
      if got == None {
        return Err("download");
      }
      var gotHash := sha(got.value);
      if gotHash != digest.hash || |got.value| != digest.size {
        return Err("digest mismatch");
      }
      r := cache.Install(id, got.value, meta, env.install);
    }

    method RefillFromCas(req: Request, id: string, meta: Metadata, remote: Remote, env: FetchEnv)
      returns (resp: Option<Response>)
      requires IsId(id)
      modifies cache
      ensures var digest := Digest(meta.casHash, meta.casSize);
        var (after, r) := AfterFetch(old(cache.State()), sha, id, digest, meta, remote.refill(digest), env);
        && cache.State() == after
        && resp == if r.Ok? && Decode(meta.outputIDHex).Some?
                   then Some(HitResponse(req.id, Decode(meta.outputIDHex).value, meta, r.value)) else None
    {
      var digest := Digest(meta.casHash, meta.casSize);
      var diskPath := DownloadAndInstall(id, digest, meta, remote.refill(digest), env);
      if diskPath.Err? {
        return None;
      }
      var outputID := Decode(meta.outputIDHex);
      if outputID == None {
        return None;
      }
      return Some(Response(req.id, "", false, outputID.value, meta.size, meta.time, diskPath.value));
    }

    method RemoteAcLookup(req: Request, id: string, remote: Remote, env: GetEnv) returns (resp: Response)
      requires IsId(id)
      modifies cache
      ensures (cache.State(), resp) == AfterAcLookup(old(cache.State()), sha, req, id, remote, env)
    {
      var ar := remote.lookup(id);
      if ar.None? || ar.value.outputFiles == [] {
        return MissResponse(req.id);
      }
      var file := ar.value.outputFiles[0];
      var bodyDigest, outputIDHex := file.digest, file.path;
      var outputID := Decode(outputIDHex);
      if outputID == None {
        return MissResponse(req.id);
      }
      var meta := Metadata(outputIDHex, bodyDigest.size, env.resultTime, bodyDigest.hash, bodyDigest.size);
      var diskPath := DownloadAndInstall(id, bodyDigest, meta, remote.fetch(bodyDigest), env.fetch);
      if diskPath.Err? {
        return MissResponse(req.id);
      }
      return Response(req.id, "", false, outputID.value, bodyDigest.size, meta.time, diskPath.value);
    }

    /** The answer is computed from the directory; the stated state follows with or without agreement. */
    method HandleGet(req: Request, remote: Option<Remote>, env: GetEnv) returns (handled: Handled)
      requires cache.Valid()
      modifies cache
      ensures (cache.State(), handled) == GetOutcome(old(cache.State()), sha, req, remote, env)
    {
      PathsDefinedIff(req.actionID);
      var id := HexEncodeFixed(req.actionID);
      if |id| < 2 {
        return Panicked;
      }
      var found := cache.Lookup(id, env.lookupTime);
      if found.hit {
        var outputID := Decode(found.meta.value.outputIDHex);
        if outputID == None {
          cache.Remove(id, env.remove);
          return Responded(MissResponse(req.id));
        }
        var meta := found.meta.value;
        return Responded(Response(req.id, "", false, outputID.value, meta.size, meta.time, found.path));
      }
      if found.meta.Some? && remote.Some? {
        var refilled := RefillFromCas(req, id, found.meta.value, remote.value, env.refill);
        if refilled.Some? {
          return Responded(refilled.value);
        }
      }
      if remote.Some? {
        var resp := RemoteAcLookup(req, id, remote.value, env);
        return Responded(resp);
      }
      return Responded(MissResponse(req.id));
    }

    method HandlePut(req: Request, env: PutEnv) returns (handled: Handled)
      modifies cache
      ensures (cache.State(), handled) == PutOutcome(old(cache.State()), sha, req, maxArtifactSize, env)
    {
      if maxArtifactSize > 0 && req.bodySize > maxArtifactSize {
        return Responded(ErrResponse(req.id, "artifact too large"));
      }
      PathsDefinedIff(req.actionID);
      var id := HexEncodeFixed(req.actionID);
      var outputIDHex := HexEncodeFixed(req.outputID);
      if !env.tempOk {
        return Responded(ErrResponse(req.id, "write body"));
      }
      var meta := Metadata(outputIDHex, req.bodySize, env.time, sha(req.body), |req.body|);
      if |id| < 2 {
        return Panicked;
      }
      var diskPath := cache.Install(id, req.body, meta, env.install);
      if diskPath.Err? {
        return Responded(ErrResponse(req.id, "local install"));
      }
      return Responded(Response(req.id, "", false, [], 0, 0, diskPath.value));
    }
  }
}
