/**
 * What a get answers, told from where its bytes can come from, and when a put succeeds
 * (internal/handler/get.go, internal/handler/put.go).
 */
module Answers {
  import opened Prelude
  import opened Hex
  import opened Names
  import opened DiskIndex
  import opened FileSystem
  import opened LocalCache
  import opened Handlers
  import opened Runs
  import opened Recency

  /** Everything it takes for downloaded bytes to become the body of an entry. */
  predicate Arrives(sha: HashFunction, digest: Digest, got: Option<Bytes>, env: FetchEnv) {
    && got.Some? && sha(got.value) == digest.hash && |got.value| == digest.size
    && env.tempOk && env.install.mkdirOk && env.install.renameOk && env.install.metaOk
  }

  predicate OnDisk(disk: Disk, id: string) {
    id in disk.bodies && id in disk.metas
  }

  /** The digest that stored metadata names. */
  function RecordedDigest(meta: Metadata): Digest {
    Digest(meta.casHash, meta.casSize)
  }

  /** The stub can be filled: its blob is still to be had, and its output identifier can be read. */
  predicate StubServes(sha: HashFunction, disk: Disk, id: string, remote: Remote, env: GetEnv) {
    && id in disk.metas && id !in disk.bodies
    && Decode(disk.metas[id].outputIDHex).Some?
    && Arrives(sha, RecordedDigest(disk.metas[id]), remote.refill(RecordedDigest(disk.metas[id])), env.refill)
  }

  /** The action cache can answer: it names a first output file with a readable name, whose blob is to be had. */
  predicate ActionCacheServes(sha: HashFunction, id: string, remote: Remote, env: GetEnv) {
    && remote.lookup(id).Some? && |remote.lookup(id).value.outputFiles| > 0
    && var file := remote.lookup(id).value.outputFiles[0];
       Decode(file.path).Some? && Arrives(sha, file.digest, remote.fetch(file.digest), env.fetch)
  }

  function Hit(req: Request, output: Bytes, size: int, time: int, dir: string): Handled
    requires req.actionID != []
  {
    EncodeIsHex(req.actionID);
    Responded(Response(req.id, "", false, output, size, time, BodyPath(dir, Encode(req.actionID))))
  }

  function Miss(req: Request): Handled {
    Responded(Response(req.id, "", true, [], 0, 0, ""))
  }

  lemma FetchArrives(sha: HashFunction, c: Cache, id: string, digest: Digest, meta: Metadata, got: Option<Bytes>,
                     env: FetchEnv)
    requires IsId(id)
    ensures var (after, r) := AfterFetch(c, sha, id, digest, meta, got, env);
      && (r.Ok? <==> Arrives(sha, digest, got, env))
      && (r.Ok? ==> r.value == BodyPath(c.dir, id)
                    && after.disk == Disk(c.disk.bodies[id := got.value], c.disk.metas[id := meta]))
      && (r.Err? ==> after.ix == c.ix && after.disk.metas == c.disk.metas)
      && (r.Err? && id !in c.disk.bodies && !LeavesOrphan(env.install) ==> after.disk == c.disk)
  {
    if got.Some? {
      InstallRecords(c, id, got.value, meta, env.install);
      if id !in c.disk.bodies {
        assert c.disk.bodies - {id} == c.disk.bodies;
      }
    }
  }

  lemma ActionCacheAnswers(sha: HashFunction, c: Cache, req: Request, remote: Remote, env: GetEnv)
    requires req.actionID != [] && IsId(Encode(req.actionID))
    ensures var id := Encode(req.actionID);
      var (after, resp) := AfterAcLookup(c, sha, req, id, remote, env);
      if ActionCacheServes(sha, id, remote, env) then
        var file := remote.lookup(id).value.outputFiles[0];
        && Responded(resp) == Hit(req, Decode(file.path).value, file.digest.size, env.resultTime, c.dir)
        && after.disk.bodies == c.disk.bodies[id := remote.fetch(file.digest).value]
        && after.disk.metas == c.disk.metas[id := Metadata(file.path, file.digest.size, env.resultTime,
                                                           file.digest.hash, file.digest.size)]
      else
        && Responded(resp) == Miss(req)
        && after.disk.metas == c.disk.metas
        && (id !in c.disk.bodies && !LeavesOrphan(env.fetch.install) ==> after.disk == c.disk)
  {
    var id := Encode(req.actionID);
    var ar := remote.lookup(id);
    if ar.Some? && ar.value.outputFiles != [] {
      var file := ar.value.outputFiles[0];
      var meta := Metadata(file.path, file.digest.size, env.resultTime, file.digest.hash, file.digest.size);
      FetchArrives(sha, c, id, file.digest, meta, remote.fetch(file.digest), env.fetch);
    }
  }

  /** With body and metadata on disk the answer is theirs, or a miss that removes an entry nobody can read. */
  lemma LocalAnswers(sha: HashFunction, c: Cache, req: Request, remote: Option<Remote>, env: GetEnv)
    requires req.actionID != [] && OnDisk(c.disk, Encode(req.actionID))
    ensures var id := Encode(req.actionID);
      var meta := c.disk.metas[id];
      var (after, handled) := GetOutcome(c, sha, req, remote, env);
      if Decode(meta.outputIDHex).Some? then
        handled == Hit(req, Decode(meta.outputIDHex).value, meta.size, meta.time, c.dir) && after.disk == c.disk
      else
        && handled == Miss(req) && id !in after.ix.entries && id !in after.ix.pinned
        && (id in after.disk.bodies <==> !env.remove.bodyOk) && (id in after.disk.metas <==> !env.remove.metaOk)
  {
    EncodeIsHex(req.actionID);
    RemoveRecords(AfterLookup(c, Encode(req.actionID), env.lookupTime), Encode(req.actionID), env.remove);
  }

  /** A stub that can be filled is answered from its metadata, and gets its body back. */
  lemma StubAnswers(sha: HashFunction, c: Cache, req: Request, remote: Remote, env: GetEnv)
    requires req.actionID != [] && StubServes(sha, c.disk, Encode(req.actionID), remote, env)
    ensures var id := Encode(req.actionID);
      var meta := c.disk.metas[id];
      var (after, handled) := GetOutcome(c, sha, req, Some(remote), env);
      && handled == Hit(req, Decode(meta.outputIDHex).value, meta.size, meta.time, c.dir)
      && after.disk.metas == c.disk.metas
      && after.disk.bodies == c.disk.bodies[id := remote.refill(RecordedDigest(meta)).value]
  {
    EncodeIsHex(req.actionID);
    var id := Encode(req.actionID);
    var meta, looked := c.disk.metas[id], AfterLookup(c, id, env.lookupTime);
    FetchArrives(sha, looked, id, RecordedDigest(meta), meta, remote.refill(RecordedDigest(meta)), env.refill);
    assert c.disk.metas[id := meta] == c.disk.metas;
  }

  /**
   * Without a body on disk and without a stub that can be filled, for whatever reason, the answer is the one
   * of the action cache: a hit exactly when it can serve.
   */
  lemma FallsThrough(sha: HashFunction, c: Cache, req: Request, remote: Remote, env: GetEnv)
    requires req.actionID != [] && !OnDisk(c.disk, Encode(req.actionID))
    requires !StubServes(sha, c.disk, Encode(req.actionID), remote, env)
    ensures var id := Encode(req.actionID);
      var (after, handled) := GetOutcome(c, sha, req, Some(remote), env);
      if ActionCacheServes(sha, id, remote, env) then
        var file := remote.lookup(id).value.outputFiles[0];
        && handled == Hit(req, Decode(file.path).value, file.digest.size, env.resultTime, c.dir)
        && id in after.disk.bodies && after.disk.bodies[id] == remote.fetch(file.digest).value
        && after.disk.metas == c.disk.metas[id := Metadata(file.path, file.digest.size, env.resultTime,
                                                           file.digest.hash, file.digest.size)]
      else
        handled == Miss(req) && after.disk.metas == c.disk.metas
  {
    EncodeIsHex(req.actionID);
    var id := Encode(req.actionID);
    var looked := AfterLookup(c, id, env.lookupTime);
    if id in c.disk.metas {
      var meta := c.disk.metas[id];
      var digest := RecordedDigest(meta);
      FetchArrives(sha, looked, id, digest, meta, remote.refill(digest), env.refill);
      assert c.disk.metas[id := meta] == c.disk.metas;
      var refilled := AfterFetch(looked, sha, id, digest, meta, remote.refill(digest), env.refill).0;
      ActionCacheAnswers(sha, refilled, req, remote, env);
    } else {
      ActionCacheAnswers(sha, looked, req, remote, env);
    }
  }

  /** Without a remote, what is not on disk is a miss that changes no file. */
  lemma NoRemoteMisses(sha: HashFunction, c: Cache, req: Request, env: GetEnv)
    requires req.actionID != [] && !OnDisk(c.disk, Encode(req.actionID))
    ensures GetOutcome(c, sha, req, None, env).1 == Miss(req)
    ensures GetOutcome(c, sha, req, None, env).0.disk == c.disk
  {
    EncodeIsHex(req.actionID);
  }

  /**
   * A get hits exactly when its bytes can be had: from the disk under a readable name, or else from the
   * store by the stored metadata, or else from the store by the action cache.
   */
  lemma GetHitsIff(sha: HashFunction, c: Cache, req: Request, remote: Option<Remote>, env: GetEnv)
    requires req.actionID != []
    ensures var id := Encode(req.actionID);
      var handled := GetOutcome(c, sha, req, remote, env).1;
      handled.Responded? && handled.resp.id == req.id && handled.resp.err == ""
      && (!handled.resp.miss <==>
            if OnDisk(c.disk, id) then Decode(c.disk.metas[id].outputIDHex).Some?
            else
              && remote.Some?
              && (StubServes(sha, c.disk, id, remote.value, env) || ActionCacheServes(sha, id, remote.value, env)))
  {
    var id := Encode(req.actionID);
    if OnDisk(c.disk, id) {
      LocalAnswers(sha, c, req, remote, env);
    } else if remote.None? {
      NoRemoteMisses(sha, c, req, env);
    } else if StubServes(sha, c.disk, id, remote.value, env) {
      StubAnswers(sha, c, req, remote.value, env);
    } else {
      FallsThrough(sha, c, req, remote.value, env);
    }
  }

  // ---- Puts ----

  /** Everything it takes for a put to succeed; a limit of zero or less is no limit. */
  predicate PutSucceeds(req: Request, maxArtifactSize: int, env: PutEnv) {
    && req.actionID != []
    && (maxArtifactSize <= 0 || req.bodySize <= maxArtifactSize)
    && env.tempOk && env.install.mkdirOk && env.install.renameOk && env.install.metaOk
  }

  /** A put succeeds exactly when nothing stands in its way, and then its bytes and its metadata are stored. */
  lemma PutSucceedsIff(sha: HashFunction, c: Cache, req: Request, max: int, env: PutEnv)
    ensures var (after, handled) := PutOutcome(c, sha, req, max, env);
      var id := Encode(req.actionID);
      && (handled.Responded? && handled.resp.err == "" <==> PutSucceeds(req, max, env))
      && (PutSucceeds(req, max, env) ==>
            && IsId(id)
            && handled == Responded(Response(req.id, "", false, [], 0, 0, BodyPath(c.dir, id)))
            && after.disk.bodies == c.disk.bodies[id := req.body]
            && after.disk.metas == c.disk.metas[id := Metadata(Encode(req.outputID), req.bodySize, env.time,
                                                               sha(req.body), |req.body|)]
            && id in after.ix.entries && id in after.ix.pinned
            && after.ix.entries[id].size == req.bodySize && after.ix.entries[id].accessTime == env.install.now
            && after.ix.total == c.ix.total + req.bodySize - (if Claims(c.ix, id) then c.ix.entries[id].size else 0))
  {
    if req.actionID != [] {
      EncodeIsHex(req.actionID);
      InstallRecords(c, Encode(req.actionID), req.body, PutMetadata(sha, req, env.time), env.install);
    }
  }

  function Refused(req: Request, why: string): Handled {
    Responded(Response(req.id, why, false, [], 0, 0, ""))
  }

  /** A put that does not succeed says why, in the order of its checks, or panics; index and metadata stay. */
  lemma PutRefusals(sha: HashFunction, c: Cache, req: Request, max: int, env: PutEnv)
    requires !PutSucceeds(req, max, env)
    ensures var (after, handled) := PutOutcome(c, sha, req, max, env);
      && after.ix == c.ix && after.disk.metas == c.disk.metas
      && handled == (if 0 < max < req.bodySize then Refused(req, "artifact too large")
                     else if !env.tempOk then Refused(req, "write body")
                     else if req.actionID == [] then Panicked
                     else Refused(req, "local install"))
  {
    if req.actionID != [] {
      EncodeIsHex(req.actionID);
      InstallRecords(c, Encode(req.actionID), req.body, PutMetadata(sha, req, env.time), env.install);
    }
  }
}
