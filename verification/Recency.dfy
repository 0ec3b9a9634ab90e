/**
 * What an operation records about the entry it works on, and what a later Trim makes of it: entries used
 * within the safety window, or since the last close, are never evicted (internal/cache/disk.go).
 */
module Recency {
  import opened Prelude
  import opened MapSum
  import opened Hex
  import opened Names
  import opened DiskIndex
  import opened FileSystem
  import opened LocalCache
  import opened Handlers
  import opened Runs

  // ---- Single operations ----

  /** Install succeeds exactly when its three calls do; then files, entry, pin and total are those of the new body. */
  lemma InstallRecords(c: Cache, id: string, body: Bytes, meta: Metadata, env: InstallEnv)
    requires IsId(id)
    ensures var (after, r) := AfterInstall(c, id, body, meta, env);
      && (r.Ok? <==> env.mkdirOk && env.renameOk && env.metaOk)
      && (r.Ok? ==>
            && r.value == BodyPath(c.dir, id)
            && after.disk == Disk(c.disk.bodies[id := body], c.disk.metas[id := meta])
            && id in after.ix.pinned && id in after.ix.entries
            && after.ix.entries[id] == Entry(meta.size, env.now, true, Some(meta), BodyPath(c.dir, id))
            && after.ix.total == c.ix.total + meta.size - (if Claims(c.ix, id) then c.ix.entries[id].size else 0))
      && (r.Err? ==> after.ix == c.ix && after.disk.metas == c.disk.metas)
  {
  }

  /** What a lookup finds: a hit with the body path, a stub without it, or nothing. */
  lemma LookupFinds(c: Cache, id: string)
    requires IsId(id)
    ensures var found := DiskLookup(c.dir, c.disk, id);
      && (id in c.disk.metas && id in c.disk.bodies ==>
            found == Found(Some(c.disk.metas[id]), BodyPath(c.dir, id), true))
      && (id in c.disk.metas && id !in c.disk.bodies ==> found == Found(Some(c.disk.metas[id]), "", false))
      && (id !in c.disk.metas ==> found == Found(None, "", false))
  {
  }

  /**
   * A hit refreshes the access time and pins the entry, and changes no file. A miss does neither, and takes
   * the claim of a body from an entry whose metadata was cached.
   */
  lemma LookupRecords(c: Cache, id: string, now: int)
    requires IsId(id) && Agrees(c)
    ensures var after := AfterLookup(c, id, now);
      var hit := DiskLookup(c.dir, c.disk, id).hit;
      && after.disk == c.disk && after.ix.total == c.ix.total
      && (hit <==> id in c.disk.bodies && id in c.disk.metas)
      && (hit ==> id in after.ix.entries && id in after.ix.pinned && Claims(after.ix, id))
      && (hit ==> after.ix.entries[id]
                  == Entry(c.ix.entries[id].size, now, true, Some(c.disk.metas[id]), BodyPath(c.dir, id)))
      && (!hit ==> after.ix.pinned == c.ix.pinned && after.ix.entries.Keys == c.ix.entries.Keys)
      && (!hit && id in c.ix.entries ==>
            && after.ix.entries[id].accessTime == c.ix.entries[id].accessTime
            && after.ix.entries[id].meta == c.ix.entries[id].meta && after.ix.entries[id].size == c.ix.entries[id].size
            && (Claims(after.ix, id) <==> Claims(c.ix, id) && c.ix.entries[id].meta.None?))
  {
  }

  /** Removal forgets the entry and its pin, and takes what it claimed off the total. */
  lemma RemoveRecords(c: Cache, id: string, env: RemoveEnv)
    ensures var after := AfterRemove(c, id, env);
      && id !in after.ix.entries && id !in after.ix.pinned
      && after.ix.total == c.ix.total - (if Claims(c.ix, id) then c.ix.entries[id].size else 0)
      && (id in after.disk.bodies <==> id in c.disk.bodies && !env.bodyOk)
      && (id in after.disk.metas <==> id in c.disk.metas && !env.metaOk)
  {
  }

  /** A new process knows length and modification time of each body, has pinned nothing, and totals the lengths. */
  lemma RestartRecords(dir: string, disk: Disk, mtime: string -> int)
    ensures var c := LocalCache.Restart(dir, disk, mtime);
      && c.dir == dir && c.disk == disk && c.ix.pinned == {} && c.ix.entries.Keys == disk.bodies.Keys
      && (forall id :: id in disk.bodies ==> c.ix.entries[id] == Entry(|disk.bodies[id]|, mtime(id), true, None, ""))
      && c.ix.total == Sum(Lengths(disk.bodies))
  {
    assert Sizes(LocalCache.Restart(dir, disk, mtime).ix.entries) == Lengths(disk.bodies);
  }

  /** One entry with its files and its pin looks the same in both caches. */
  ghost predicate Untouched(c: Cache, d: Cache, id: string) {
    && (id in c.ix.entries <==> id in d.ix.entries) && (id in c.ix.entries ==> c.ix.entries[id] == d.ix.entries[id])
    && (id in c.ix.pinned <==> id in d.ix.pinned)
    && (id in c.disk.bodies <==> id in d.disk.bodies)
    && (id in c.disk.bodies ==> c.disk.bodies[id] == d.disk.bodies[id])
    && (id in c.disk.metas <==> id in d.disk.metas) && (id in c.disk.metas ==> c.disk.metas[id] == d.disk.metas[id])
  }

  lemma CacheFrame(c: Cache, id: string, other: string, body: Bytes, meta: Metadata, install: InstallEnv, now: int,
                   remove: RemoveEnv)
    requires IsId(id) && other != id
    ensures Untouched(c, AfterInstall(c, id, body, meta, install).0, other)
    ensures Untouched(c, AfterLookup(c, id, now), other)
    ensures Untouched(c, AfterRemove(c, id, remove), other)
    ensures Untouched(c, EvictOne(c, id, remove.bodyOk), other)
  {
  }

  lemma FetchFrame(c: Cache, sha: HashFunction, id: string, digest: Digest, meta: Metadata, got: Option<Bytes>,
                   env: FetchEnv, other: string)
    requires IsId(id) && other != id
    ensures Untouched(c, AfterFetch(c, sha, id, digest, meta, got, env).0, other)
  {
    if got.Some? {
      CacheFrame(c, id, other, got.value, meta, env.install, 0, RemoveEnv(true, true));
    }
  }

  lemma AcLookupFrame(c: Cache, sha: HashFunction, req: Request, remote: Remote, env: GetEnv, other: string)
    requires IsId(Encode(req.actionID)) && other != Encode(req.actionID)
    ensures Untouched(c, AfterAcLookup(c, sha, req, Encode(req.actionID), remote, env).0, other)
  {
    var id := Encode(req.actionID);
    var ar := remote.lookup(id);
    if ar.Some? && ar.value.outputFiles != [] {
      var file := ar.value.outputFiles[0];
      var meta := Metadata(file.path, file.digest.size, env.resultTime, file.digest.hash, file.digest.size);
      FetchFrame(c, sha, id, file.digest, meta, remote.fetch(file.digest), env.fetch, other);
    }
  }

  lemma UntouchedChain(a: Cache, b: Cache, c: Cache, id: string)
    requires Untouched(a, b, id) && Untouched(b, c, id)
    ensures Untouched(a, c, id)
  {
  }

  lemma RefillFrame(c: Cache, sha: HashFunction, req: Request, meta: Metadata, remote: Remote, env: GetEnv,
                    other: string)
    requires IsId(Encode(req.actionID)) && other != Encode(req.actionID)
    ensures var id, digest := Encode(req.actionID), Digest(meta.casHash, meta.casSize);
      var refilled := AfterFetch(c, sha, id, digest, meta, remote.refill(digest), env.refill).0;
      && Untouched(c, refilled, other)
      && Untouched(c, AfterAcLookup(refilled, sha, req, id, remote, env).0, other)
  {
    var id, digest := Encode(req.actionID), Digest(meta.casHash, meta.casSize);
    var refilled := AfterFetch(c, sha, id, digest, meta, remote.refill(digest), env.refill).0;
    FetchFrame(c, sha, id, digest, meta, remote.refill(digest), env.refill, other);
    AcLookupFrame(refilled, sha, req, remote, env, other);
    UntouchedChain(c, refilled, AfterAcLookup(refilled, sha, req, id, remote, env).0, other);
  }

  /** A get touches no entry but its own. */
  lemma GetFrame(sha: HashFunction, c: Cache, req: Request, remote: Option<Remote>, env: GetEnv, other: string)
    requires other != Encode(req.actionID)
    ensures Untouched(c, GetOutcome(c, sha, req, remote, env).0, other)
  {
    if req.actionID != [] {
      EncodeIsHex(req.actionID);
      var id := Encode(req.actionID);
      var looked := AfterLookup(c, id, env.lookupTime);
      var none, install := Metadata("", 0, 0, "", 0), env.fetch.install;
      CacheFrame(c, id, other, [], none, install, env.lookupTime, env.remove);
      var found := DiskLookup(c.dir, c.disk, id);
      var after := GetOutcome(c, sha, req, remote, env).0;
      if found.hit {
        CacheFrame(looked, id, other, [], none, install, env.lookupTime, env.remove);
      } else if remote.Some? {
        if found.meta.None? {
          AcLookupFrame(looked, sha, req, remote.value, env, other);
        } else {
          RefillFrame(looked, sha, req, found.meta.value, remote.value, env, other);
        }
      }
      assert Untouched(looked, after, other);
      UntouchedChain(c, looked, after, other);
    }
  }

  /** A put touches no entry but its own. */
  lemma PutFrame(sha: HashFunction, c: Cache, req: Request, max: int, env: PutEnv, other: string)
    requires other != Encode(req.actionID)
    ensures Untouched(c, PutOutcome(c, sha, req, max, env).0, other)
  {
    if req.actionID != [] {
      EncodeIsHex(req.actionID);
      var id, meta := Encode(req.actionID), PutMetadata(sha, req, env.time);
      CacheFrame(c, id, other, req.body, meta, env.install, 0, RemoveEnv(true, true));
    }
  }

  // ---- Runs ----

  /** Every clock reading of the operation is at or after a moment, and it is no restart. */
  predicate SameProcessFrom(op: Op, t: int) {
    match op
    case Get(_, _, env) => t <= env.lookupTime && t <= env.refill.install.now && t <= env.fetch.install.now
    case Put(_, _, env) => t <= env.install.now
    case Restart(_) => false
    case CrashedInstall(_, _, _, _, _) => false
    case _ => true
  }

  ghost predicate AllSameProcessFrom(ops: seq<Op>, t: int) {
    forall i :: 0 <= i < |ops| ==> SameProcessFrom(ops[i], t)
  }

  /** The operation is a get that hits the entry, or a put that installs it. */
  ghost predicate Uses(sha: HashFunction, c: Cache, op: Op, id: string) {
    match op
    case Get(req, remote, env) =>
      var handled := GetOutcome(c, sha, req, remote, env).1;
      Encode(req.actionID) == id && handled.Responded? && IsHit(handled.resp)
    case Put(req, max, env) =>
      var handled := PutOutcome(c, sha, req, max, env).1;
      Encode(req.actionID) == id && handled.Responded? && handled.resp.err == ""
    case _ => false
  }

  /** Either the entry is gone from the index, or it was last used at or after a moment. */
  ghost predicate RecentOrGone(c: Cache, id: string, t: int) {
    id in c.ix.entries ==> t <= c.ix.entries[id].accessTime
  }

  ghost predicate PinnedOrGone(c: Cache, id: string) {
    id in c.ix.entries ==> id in c.ix.pinned
  }

  /** Claims about one entry that its own later uses keep. */
  ghost predicate Keeps(c: Cache, d: Cache, id: string, t: int) {
    && (RecentOrGone(c, id, t) ==> RecentOrGone(d, id, t))
    && (PinnedOrGone(c, id) ==> PinnedOrGone(d, id))
  }

  ghost predicate JustUsed(c: Cache, id: string, t: int) {
    id in c.ix.entries && t <= c.ix.entries[id].accessTime && id in c.ix.pinned
  }

  lemma InstallKeeps(c: Cache, id: string, body: Bytes, meta: Metadata, env: InstallEnv, t: int)
    requires IsId(id) && t <= env.now
    ensures var (after, r) := AfterInstall(c, id, body, meta, env);
      Keeps(c, after, id, t) && (r.Ok? ==> JustUsed(after, id, t))
  {
    InstallRecords(c, id, body, meta, env);
  }

  lemma FetchKeeps(c: Cache, sha: HashFunction, id: string, digest: Digest, meta: Metadata, got: Option<Bytes>,
                   env: FetchEnv, t: int)
    requires IsId(id) && t <= env.install.now
    ensures var (after, r) := AfterFetch(c, sha, id, digest, meta, got, env);
      Keeps(c, after, id, t) && (r.Ok? ==> JustUsed(after, id, t))
  {
    if got.Some? {
      InstallKeeps(c, id, got.value, meta, env.install, t);
    }
  }

  lemma AcLookupKeeps(c: Cache, sha: HashFunction, req: Request, remote: Remote, env: GetEnv, t: int)
    requires IsId(Encode(req.actionID)) && t <= env.fetch.install.now
    ensures var id := Encode(req.actionID);
      var (after, resp) := AfterAcLookup(c, sha, req, id, remote, env);
      Keeps(c, after, id, t) && (IsHit(resp) ==> JustUsed(after, id, t))
  {
    var id := Encode(req.actionID);
    var ar := remote.lookup(id);
    if ar.Some? && ar.value.outputFiles != [] {
      var file := ar.value.outputFiles[0];
      var meta := Metadata(file.path, file.digest.size, env.resultTime, file.digest.hash, file.digest.size);
      FetchKeeps(c, sha, id, file.digest, meta, remote.fetch(file.digest), env.fetch, t);
    }
  }

  lemma LookupKeeps(c: Cache, id: string, now: int, t: int)
    requires IsId(id) && Agrees(c) && t <= now
    ensures Keeps(c, AfterLookup(c, id, now), id, t)
    ensures DiskLookup(c.dir, c.disk, id).hit ==> JustUsed(AfterLookup(c, id, now), id, t)
  {
    LookupRecords(c, id, now);
  }

  lemma GetKeeps(sha: HashFunction, c: Cache, req: Request, remote: Option<Remote>, env: GetEnv, t: int)
    requires Agrees(c) && SameProcessFrom(Get(req, remote, env), t)
    ensures var id := Encode(req.actionID);
      var (after, handled) := GetOutcome(c, sha, req, remote, env);
      Keeps(c, after, id, t) && (handled.Responded? && IsHit(handled.resp) ==> JustUsed(after, id, t))
  {
    if req.actionID != [] {
      EncodeIsHex(req.actionID);
      var id := Encode(req.actionID);
      var looked := AfterLookup(c, id, env.lookupTime);
      LookupKeeps(c, id, env.lookupTime, t);
      var found := DiskLookup(c.dir, c.disk, id);
      if found.hit {
        RemoveRecords(looked, id, env.remove);
      } else if remote.Some? {
        if found.meta.None? {
          AcLookupKeeps(looked, sha, req, remote.value, env, t);
        } else {
          var meta := found.meta.value;
          var digest := Digest(meta.casHash, meta.casSize);
          var got := remote.value.refill(digest);
          FetchKeeps(looked, sha, id, digest, meta, got, env.refill, t);
          AcLookupKeeps(AfterFetch(looked, sha, id, digest, meta, got, env.refill).0, sha, req, remote.value, env, t);
        }
      }
    }
  }

  lemma {:induction false} EvictKeeps(c: Cache, ids: seq<string>, removed: string -> bool, id: string, t: int)
    ensures Keeps(c, EvictAll(c, ids, removed), id, t)
    decreases |ids|
  {
    if ids == [] {
    } else {
      EvictKeeps(EvictOne(c, ids[0], removed(ids[0])), ids[1..], removed, id, t);
    }
  }

  /** An operation of the same process leaves an entry as recent as it was, and what it uses recent and pinned. */
  lemma StepKeeps(sha: HashFunction, c: Cache, op: Op, id: string, t: int)
    requires Agrees(c) && SameProcessFrom(op, t)
    ensures RecentOrGone(c, id, t) ==> RecentOrGone(Step(sha, c, op), id, t)
    ensures PinnedOrGone(c, id) && !op.UnpinAll? ==> PinnedOrGone(Step(sha, c, op), id)
    ensures Uses(sha, c, op, id) ==> JustUsed(Step(sha, c, op), id, t)
  {
    match op
    case Get(req, remote, env) =>
      if Encode(req.actionID) == id {
        GetKeeps(sha, c, req, remote, env, t);
      } else {
        GetFrame(sha, c, req, remote, env, id);
      }
    case Put(req, max, env) =>
      if Encode(req.actionID) != id {
        PutFrame(sha, c, req, max, env, id);
      } else if req.actionID != [] {
        EncodeIsHex(req.actionID);
        InstallKeeps(c, id, req.body, PutMetadata(sha, req, env.time), env.install, t);
      }
    case Evict(ids, removed) => EvictKeeps(c, ids, removed, id, t);
    case LoseBody(_) =>
    case UnpinAll =>
  }

  lemma {:induction false} RunKeeps(sha: HashFunction, c: Cache, ops: seq<Op>, id: string, t: int)
    requires Agrees(c) && AllTidy(ops) && AllSameProcessFrom(ops, t)
    ensures RecentOrGone(c, id, t) ==> RecentOrGone(Run(sha, c, ops), id, t)
    ensures PinnedOrGone(c, id) && Op.UnpinAll !in ops ==> PinnedOrGone(Run(sha, c, ops), id)
    decreases |ops|
  {
    if ops == [] {
    } else {
      StepKeeps(sha, c, ops[0], id, t);
      StepAgrees(sha, c, ops[0]);
      RunKeeps(sha, Step(sha, c, ops[0]), ops[1..], id, t);
    }
  }

  /**
   * Used entries survive: when a get has hit an entry or a put has installed it, and whatever the same
   * process does after that, a Trim within the safety window of the use does not evict the entry, and
   * without a close in between no Trim does.
   */
  lemma UsedEntriesSurvive(sha: HashFunction, c: Cache, use: Op, later: seq<Op>, id: string, t: int, now: int,
                           safety: int, target: int, evicted: seq<string>)
    requires Agrees(c) && Tidy(use) && AllTidy(later)
    requires Uses(sha, c, use, id) && SameProcessFrom(use, t) && AllSameProcessFrom(later, t)
    requires IsEviction(Run(sha, Step(sha, c, use), later).ix, now, safety, target, evicted)
    ensures now - t < safety || Op.UnpinAll !in later ==> id !in evicted
  {
    StepKeeps(sha, c, use, id, t);
    StepAgrees(sha, c, use);
    RunKeeps(sha, Step(sha, c, use), later, id, t);
    var ix := Run(sha, Step(sha, c, use), later).ix;
    if id in evicted {
      assert Candidate(ix, id, now, safety);
    }
  }
}
