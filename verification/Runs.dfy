/** Whole runs of one process and its successors over one cache directory. */
module Runs {
  import opened Prelude
  import opened MapSum
  import opened Hex
  import opened Names
  import opened DiskIndex
  import opened FileSystem
  import opened LocalCache
  import opened Handlers

  /** The metadata carries the digest of these bytes. */
  ghost predicate Describes(sha: HashFunction, meta: Metadata, body: Bytes) {
    sha(body) == meta.casHash && |body| == meta.casSize
  }

  /** The recorded size is the digest size, except that a negative declared size is recorded beside an empty body. */
  predicate Proportioned(meta: Metadata) {
    meta.size == meta.casSize || (meta.size < 0 && meta.casSize == 0)
  }

  /** Stored metadata is consistent, and describes the stored body wherever both exist. */
  ghost predicate Sound(sha: HashFunction, disk: Disk) {
    && (forall id :: id in disk.metas ==> Proportioned(disk.metas[id]))
    && (forall id :: id in disk.metas && id in disk.bodies ==> Describes(sha, disk.metas[id], disk.bodies[id]))
  }

  /** The index knows the length of every body file, and its total is at least what its entries claim. */
  ghost predicate Covered(c: Cache) {
    && (forall id :: id in c.disk.bodies ==> id in c.ix.entries && c.ix.entries[id].size == |c.disk.bodies[id]|)
    && (forall id :: id in c.disk.metas ==> 0 <= c.disk.metas[id].size)
    && SizesNonNegative(c.ix)
    && Live(c.ix) <= c.ix.total
  }

  /** Index and directory agree, and the directory is sound. */
  ghost predicate Good(sha: HashFunction, c: Cache) {
    Agrees(c) && Sound(sha, c.disk)
  }

  /** What an Install stopped after this many of its four file-system calls leaves visible. */
  function InstallStopped(disk: Disk, id: string, body: Bytes, meta: Metadata, calls: nat): Disk {
    if calls < 2 then disk
    else if calls < 4 then disk.(bodies := disk.bodies[id := body])
    else Disk(disk.bodies[id := body], disk.metas[id := meta])
  }

  /** The metadata already stored for an identifier does not contradict the new bytes. */
  ghost predicate NothingToContradict(sha: HashFunction, disk: Disk, id: string, body: Bytes) {
    id in disk.metas ==> Describes(sha, disk.metas[id], body)
  }

  /**
   * Evict covers every outcome of Trim, since it takes any identifiers at all. CrashedInstall is a process
   * that stopped inside an Install, and its successor. A request on which the process panics leaves the
   * directory as it was; its successor is a Restart.
   */
  datatype Op =
    | Get(req: Request, remote: Option<Remote>, getEnv: GetEnv)
    | Put(req: Request, maxArtifactSize: int, putEnv: PutEnv)
    | LoseBody(id: string)
    | Evict(ids: seq<string>, removed: string -> bool)
    | UnpinAll
    | Restart(mtime: string -> int)
    | CrashedInstall(id: string, body: Bytes, meta: Metadata, calls: nat, mtime: string -> int)

  ghost function Step(sha: HashFunction, c: Cache, op: Op): Cache {
    match op
    case Get(req, remote, env) => GetOutcome(c, sha, req, remote, env).0
    case Put(req, max, env) => PutOutcome(c, sha, req, max, env).0
    case LoseBody(id) => LocalCache.LoseBody(c, id)
    case Evict(ids, removed) => EvictAll(c, ids, removed)
    case UnpinAll => c.(ix := Apply(c.ix, DiskIndex.UnpinAll))
    case Restart(mtime) => LocalCache.Restart(c.dir, c.disk, mtime)
    case CrashedInstall(id, body, meta, calls, mtime) =>
      LocalCache.Restart(c.dir, InstallStopped(c.disk, id, body, meta, calls), mtime)
  }

  ghost function Run(sha: HashFunction, c: Cache, ops: seq<Op>): Cache
    decreases |ops|
  {
    if ops == [] then c else Run(sha, Step(sha, c, ops[0]), ops[1..])
  }

  /** The file removals that an operation makes succeed, and it works on identifiers the program can form. */
  predicate Tidy(op: Op) {
    match op
    case Get(_, _, env) => !LeavesOrphan(env.refill.install) && !LeavesOrphan(env.fetch.install) && env.remove.bodyOk
    case Put(_, _, env) => !LeavesOrphan(env.install)
    case Evict(ids, removed) => forall id :: id in ids ==> removed(id)
    case CrashedInstall(id, _, _, _, _) => IsId(id)
    case _ => true
  }

  ghost predicate AllTidy(ops: seq<Op>) {
    forall i :: 0 <= i < |ops| ==> Tidy(ops[i])
  }

  /**
   * What soundness asks of an operation. Puts come from the protocol reader. A crash inside an Install must
   * not fall between the two renames while metadata about other bytes is in place. Nothing is asked of
   * remote answers, failures, body losses or identifiers.
   */
  ghost predicate Harmless(sha: HashFunction, c: Cache, op: Op) {
    match op
    case Put(req, _, _) => FromReader(req)
    case CrashedInstall(id, body, meta, calls, _) =>
      && Describes(sha, meta, body) && Proportioned(meta)
      && (2 <= calls < 4 ==> NothingToContradict(sha, c.disk, id, body))
    case _ => true
  }

  ghost predicate HarmlessRun(sha: HashFunction, c: Cache, ops: seq<Op>)
    decreases |ops|
  {
    ops == [] || (Harmless(sha, c, ops[0]) && HarmlessRun(sha, Step(sha, c, ops[0]), ops[1..]))
  }

  // ---- Agreement: whatever bytes and sizes are stored ----

  lemma FetchAgrees(sha: HashFunction, c: Cache, id: string, digest: Digest, meta: Metadata, got: Option<Bytes>,
                    env: FetchEnv)
    requires IsId(id) && Agrees(c) && !LeavesOrphan(env.install)
    ensures Agrees(AfterFetch(c, sha, id, digest, meta, got, env).0)
  {
    if got.Some? {
      InstallAgrees(c, id, got.value, meta, env.install);
    }
  }

  lemma AcLookupAgrees(sha: HashFunction, c: Cache, req: Request, remote: Remote, env: GetEnv)
    requires IsId(Encode(req.actionID)) && Agrees(c) && !LeavesOrphan(env.fetch.install)
    ensures Agrees(AfterAcLookup(c, sha, req, Encode(req.actionID), remote, env).0)
  {
    var id := Encode(req.actionID);
    var ar := remote.lookup(id);
    if ar.Some? && ar.value.outputFiles != [] {
      var file := ar.value.outputFiles[0];
      var meta := Metadata(file.path, file.digest.size, env.resultTime, file.digest.hash, file.digest.size);
      FetchAgrees(sha, c, id, file.digest, meta, remote.fetch(file.digest), env.fetch);
    }
  }

  lemma GetAgrees(sha: HashFunction, c: Cache, req: Request, remote: Option<Remote>, env: GetEnv)
    requires req.actionID != [] && Agrees(c) && Tidy(Get(req, remote, env))
    ensures Agrees(AfterGet(c, sha, req, remote, env).0)
  {
    EncodeIsHex(req.actionID);
    var id := Encode(req.actionID);
    LookupAgrees(c, id, env.lookupTime);
    var found := DiskLookup(c.dir, c.disk, id);
    var looked := AfterLookup(c, id, env.lookupTime);
    if found.hit {
      RemoveAgrees(looked, id, env.remove);
    } else if remote.Some? {
      if found.meta.None? {
        AcLookupAgrees(sha, looked, req, remote.value, env);
      } else {
        var meta := found.meta.value;
        var digest := Digest(meta.casHash, meta.casSize);
        var got := remote.value.refill(digest);
        FetchAgrees(sha, looked, id, digest, meta, got, env.refill);
        AcLookupAgrees(sha, AfterFetch(looked, sha, id, digest, meta, got, env.refill).0, req, remote.value, env);
      }
    }
  }

  lemma StepAgrees(sha: HashFunction, c: Cache, op: Op)
    requires Agrees(c) && Tidy(op)
    ensures Agrees(Step(sha, c, op))
  {
    match op
    case Get(req, remote, env) =>
      if req.actionID != [] {
        GetAgrees(sha, c, req, remote, env);
      }
    case Put(req, max, env) =>
      if req.actionID != [] {
        EncodeIsHex(req.actionID);
        InstallAgrees(c, Encode(req.actionID), req.body, PutMetadata(sha, req, env.time), env.install);
      }
    case LoseBody(_) =>
    case Evict(ids, removed) => EvictAllAgrees(c, ids, removed);
    case UnpinAll =>
    case Restart(mtime) => RestartAgrees(c.dir, c.disk, mtime);
    case CrashedInstall(id, body, meta, calls, mtime) =>
      RestartAgrees(c.dir, InstallStopped(c.disk, id, body, meta, calls), mtime);
  }

  lemma {:induction false} RunAgrees(sha: HashFunction, c: Cache, ops: seq<Op>)
    requires Agrees(c) && AllTidy(ops)
    ensures Agrees(Run(sha, c, ops))
    decreases |ops|
  {
    if ops == [] {
    } else {
      StepAgrees(sha, c, ops[0]);
      RunAgrees(sha, Step(sha, c, ops[0]), ops[1..]);
    }
  }

  /** A fresh directory. */
  ghost function Empty(dir: string): Cache {
    Cache(dir, Index(map[], {}, 0), Disk(map[], map[]))
  }

  /**
   * The index refines the disk: after any run, whatever its puts declare and whatever crashes it holds,
   * the coded lookup answers what the directory alone would.
   */
  lemma IndexRefinesDisk(sha: HashFunction, dir: string, ops: seq<Op>, id: string)
    requires AllTidy(ops) && IsId(id)
    ensures var c := Run(sha, Empty(dir), ops);
      IndexedLookup(c, id) == DiskLookup(c.dir, c.disk, id)
  {
    RunAgrees(sha, Empty(dir), ops);
  }

  // ---- Soundness: what a hit promises ----

  /** Installing a body that its metadata describes keeps the directory sound, whichever call fails. */
  lemma InstallSound(sha: HashFunction, c: Cache, id: string, body: Bytes, meta: Metadata, env: InstallEnv)
    requires IsId(id) && Sound(sha, c.disk) && Describes(sha, meta, body) && Proportioned(meta) && !LeavesOrphan(env)
    ensures Sound(sha, AfterInstall(c, id, body, meta, env).0.disk)
  {
  }

  /** The directory holds a body for the entry, stored with exactly this metadata, which describes it. */
  ghost predicate Holds(sha: HashFunction, c: Cache, id: string, meta: Metadata) {
    && id in c.disk.bodies && id in c.disk.metas
    && c.disk.metas[id] == meta
    && Describes(sha, meta, c.disk.bodies[id])
  }

  /** A download reaches the cache only as a body that the announced digest describes. */
  lemma FetchGood(sha: HashFunction, c: Cache, id: string, meta: Metadata, got: Option<Bytes>, env: FetchEnv)
    requires IsId(id) && Sound(sha, c.disk) && Proportioned(meta) && !LeavesOrphan(env.install)
    ensures var digest := Digest(meta.casHash, meta.casSize);
      var (after, r) := AfterFetch(c, sha, id, digest, meta, got, env);
      && Sound(sha, after.disk)
      && (r.Ok? ==> Holds(sha, after, id, meta) && r.value == BodyPath(c.dir, id) && got == Some(after.disk.bodies[id]))
  {
    if env.tempOk && got.Some? && sha(got.value) == meta.casHash && |got.value| == meta.casSize {
      InstallSound(sha, c, id, got.value, meta, env.install);
    }
  }

  /**
   * What a hit promises: the file it names exists and has the digest on record, the answer is the stored
   * metadata, and the reported size is the length of the file exactly when it is not negative.
   */
  ghost predicate HonestReply(sha: HashFunction, c: Cache, req: Request, resp: Response)
    requires req.actionID != []
  {
    EncodeIsHex(req.actionID);
    var id := Encode(req.actionID);
    && resp.id == req.id
    && (IsHit(resp) ==>
          && id in c.disk.metas
          && Holds(sha, c, id, c.disk.metas[id])
          && resp.diskPath == BodyPath(c.dir, id)
          && resp.size == c.disk.metas[id].size
          && (resp.size == |c.disk.bodies[id]| <==> 0 <= resp.size)
          && resp.time == c.disk.metas[id].time
          && Decode(c.disk.metas[id].outputIDHex) == Some(resp.outputID))
  }

  /** A get panics exactly on an empty identifier; every answer it gives is honest. */
  ghost predicate Honest(sha: HashFunction, c: Cache, req: Request, handled: Handled) {
    if req.actionID == [] then handled == Panicked else handled.Responded? && HonestReply(sha, c, req, handled.resp)
  }

  lemma AcLookupGood(sha: HashFunction, c: Cache, req: Request, remote: Remote, env: GetEnv)
    requires req.actionID != [] && IsId(Encode(req.actionID)) && Sound(sha, c.disk) && !LeavesOrphan(env.fetch.install)
    ensures var (after, resp) := AfterAcLookup(c, sha, req, Encode(req.actionID), remote, env);
      Sound(sha, after.disk) && HonestReply(sha, after, req, resp)
  {
    var id := Encode(req.actionID);
    var ar := remote.lookup(id);
    if ar.Some? && ar.value.outputFiles != [] {
      var file := ar.value.outputFiles[0];
      var meta := Metadata(file.path, file.digest.size, env.resultTime, file.digest.hash, file.digest.size);
      FetchGood(sha, c, id, meta, remote.fetch(file.digest), env.fetch);
    }
  }

  lemma GetGood(sha: HashFunction, c: Cache, req: Request, remote: Option<Remote>, env: GetEnv)
    requires Sound(sha, c.disk) && Tidy(Get(req, remote, env))
    ensures var (after, handled) := GetOutcome(c, sha, req, remote, env);
      Sound(sha, after.disk) && Honest(sha, after, req, handled)
  {
    if req.actionID != [] {
      EncodeIsHex(req.actionID);
      var id := Encode(req.actionID);
      var found := DiskLookup(c.dir, c.disk, id);
      var looked := AfterLookup(c, id, env.lookupTime);
      if !found.hit && remote.Some? {
        if found.meta.None? {
          AcLookupGood(sha, looked, req, remote.value, env);
        } else {
          var meta := found.meta.value;
          var digest := Digest(meta.casHash, meta.casSize);
          FetchGood(sha, looked, id, meta, remote.value.refill(digest), env.refill);
          var refilled := AfterFetch(looked, sha, id, digest, meta, remote.value.refill(digest), env.refill).0;
          AcLookupGood(sha, refilled, req, remote.value, env);
        }
      }
    }
  }

  /** A put keeps the directory sound, and panics exactly when an empty identifier gets past the early refusals. */
  lemma PutGood(sha: HashFunction, c: Cache, req: Request, max: int, env: PutEnv)
    requires Sound(sha, c.disk) && FromReader(req) && !LeavesOrphan(env.install)
    ensures var (after, handled) := PutOutcome(c, sha, req, max, env);
      Sound(sha, after.disk) && (handled.Panicked? <==> req.actionID == [] && !RefusedEarly(req, max, env))
  {
    if req.actionID != [] {
      EncodeIsHex(req.actionID);
      InstallSound(sha, c, Encode(req.actionID), req.body, PutMetadata(sha, req, env.time), env.install);
    }
  }

  lemma {:induction false} EvictSound(sha: HashFunction, c: Cache, ids: seq<string>, removed: string -> bool)
    requires Sound(sha, c.disk)
    ensures Sound(sha, EvictAll(c, ids, removed).disk)
    decreases |ids|
  {
    if ids == [] {
    } else {
      EvictSound(sha, EvictOne(c, ids[0], removed(ids[0])), ids[1..], removed);
    }
  }

  lemma StepGood(sha: HashFunction, c: Cache, op: Op)
    requires Good(sha, c) && Tidy(op) && Harmless(sha, c, op)
    ensures Good(sha, Step(sha, c, op))
  {
    StepAgrees(sha, c, op);
    match op
    case Get(req, remote, env) => GetGood(sha, c, req, remote, env);
    case Put(req, max, env) => PutGood(sha, c, req, max, env);
    case LoseBody(_) =>
    case Evict(ids, removed) => EvictSound(sha, c, ids, removed);
    case UnpinAll =>
    case Restart(_) =>
    case CrashedInstall(id, body, meta, calls, _) =>
  }

  lemma {:induction false} RunGood(sha: HashFunction, c: Cache, ops: seq<Op>)
    requires Good(sha, c) && AllTidy(ops) && HarmlessRun(sha, c, ops)
    ensures Good(sha, Run(sha, c, ops))
    decreases |ops|
  {
    if ops == [] {
    } else {
      StepGood(sha, c, ops[0]);
      RunGood(sha, Step(sha, c, ops[0]), ops[1..]);
    }
  }

  /**
   * Hit soundness over whole runs: after any operations and harmless crashes, with any remote answers,
   * failures and body losses, every get is answered honestly.
   */
  lemma HitSoundness(sha: HashFunction, dir: string, ops: seq<Op>, req: Request, remote: Option<Remote>, env: GetEnv)
    requires AllTidy(ops) && HarmlessRun(sha, Empty(dir), ops) && Tidy(Get(req, remote, env))
    ensures var (after, handled) := GetOutcome(Run(sha, Empty(dir), ops), sha, req, remote, env);
      Honest(sha, after, req, handled)
  {
    RunGood(sha, Empty(dir), ops);
    GetGood(sha, Run(sha, Empty(dir), ops), req, remote, env);
  }

  // ---- Coverage: the total against the bytes on disk ----

  /** No size that enters the index through this operation is below a bound. */
  predicate SizesFrom(op: Op, least: int) {
    match op
    case Put(req, _, _) => least <= req.bodySize
    case CrashedInstall(_, _, meta, _, _) => least <= meta.size
    case _ => true
  }

  ghost predicate AllSizesFrom(ops: seq<Op>, least: int) {
    forall i :: 0 <= i < |ops| ==> SizesFrom(ops[i], least)
  }

  lemma SectionCovers(ix: Index, s: Section)
    requires SizesNonNegative(ix) && Live(ix) <= ix.total
    requires s.Commit? ==> 0 <= s.meta.size
    ensures SizesNonNegative(Apply(ix, s)) && Live(Apply(ix, s)) <= Apply(ix, s).total
  {
    SectionAccounting(ix, s);
  }

  lemma InstallCovers(sha: HashFunction, c: Cache, id: string, body: Bytes, meta: Metadata, env: InstallEnv)
    requires IsId(id) && Covered(c) && meta.size == |body| && !LeavesOrphan(env)
    ensures Covered(AfterInstall(c, id, body, meta, env).0)
  {
    SectionCovers(c.ix, Commit(id, meta, BodyPath(c.dir, id), env.now));
  }

  lemma FetchCovers(sha: HashFunction, c: Cache, id: string, digest: Digest, meta: Metadata, got: Option<Bytes>,
                    env: FetchEnv)
    requires IsId(id) && Covered(c) && meta.size == digest.size && !LeavesOrphan(env.install)
    ensures Covered(AfterFetch(c, sha, id, digest, meta, got, env).0)
  {
    if got.Some? && |got.value| == digest.size {
      InstallCovers(sha, c, id, got.value, meta, env.install);
    }
  }

  lemma AcLookupCovers(sha: HashFunction, c: Cache, req: Request, remote: Remote, env: GetEnv)
    requires IsId(Encode(req.actionID)) && Covered(c) && !LeavesOrphan(env.fetch.install)
    ensures Covered(AfterAcLookup(c, sha, req, Encode(req.actionID), remote, env).0)
  {
    var id := Encode(req.actionID);
    var ar := remote.lookup(id);
    if ar.Some? && ar.value.outputFiles != [] {
      var file := ar.value.outputFiles[0];
      var meta := Metadata(file.path, file.digest.size, env.resultTime, file.digest.hash, file.digest.size);
      FetchCovers(sha, c, id, file.digest, meta, remote.fetch(file.digest), env.fetch);
    }
  }

  lemma LookupCovers(c: Cache, id: string, now: int)
    requires IsId(id) && Covered(c)
    ensures Covered(AfterLookup(c, id, now))
  {
    var found := DiskLookup(c.dir, c.disk, id);
    if found.hit {
      SectionCovers(c.ix, Promote(id, found.meta.value, found.path, now));
    } else {
      SectionCovers(c.ix, MarkMissing(id));
    }
  }

  lemma RefillCovers(sha: HashFunction, c: Cache, req: Request, meta: Metadata, remote: Remote, env: GetEnv)
    requires IsId(Encode(req.actionID)) && Covered(c) && 0 <= meta.size == meta.casSize
    requires !LeavesOrphan(env.refill.install) && !LeavesOrphan(env.fetch.install)
    ensures var id, digest := Encode(req.actionID), Digest(meta.casHash, meta.casSize);
      var refilled := AfterFetch(c, sha, id, digest, meta, remote.refill(digest), env.refill).0;
      Covered(refilled) && Covered(AfterAcLookup(refilled, sha, req, id, remote, env).0)
  {
    var id, digest := Encode(req.actionID), Digest(meta.casHash, meta.casSize);
    FetchCovers(sha, c, id, digest, meta, remote.refill(digest), env.refill);
    AcLookupCovers(sha, AfterFetch(c, sha, id, digest, meta, remote.refill(digest), env.refill).0, req, remote, env);
  }

  lemma HitCovers(c: Cache, id: string, now: int, env: RemoveEnv)
    requires IsId(id) && Covered(c) && env.bodyOk
    ensures Covered(AfterLookup(c, id, now)) && Covered(AfterRemove(AfterLookup(c, id, now), id, env))
  {
    LookupCovers(c, id, now);
    SectionCovers(AfterLookup(c, id, now).ix, Forget(id));
  }

  lemma GetCovers(sha: HashFunction, c: Cache, req: Request, remote: Option<Remote>, env: GetEnv)
    requires req.actionID != [] && Good(sha, c) && Covered(c) && Tidy(Get(req, remote, env))
    ensures Covered(AfterGet(c, sha, req, remote, env).0)
  {
    EncodeIsHex(req.actionID);
    var id := Encode(req.actionID);
    HitCovers(c, id, env.lookupTime, env.remove);
    var found := DiskLookup(c.dir, c.disk, id);
    var looked := AfterLookup(c, id, env.lookupTime);
    if found.hit {
    } else if remote.Some? {
      if found.meta.None? {
        AcLookupCovers(sha, looked, req, remote.value, env);
      } else {
        RefillCovers(sha, looked, req, found.meta.value, remote.value, env);
      }
    }
  }

  lemma {:induction false} EvictCovers(c: Cache, ids: seq<string>, removed: string -> bool)
    requires Covered(c)
    ensures Covered(EvictAll(c, ids, removed))
    decreases |ids|
  {
    if ids == [] {
    } else {
      SectionCovers(c.ix, DiskIndex.Evict(ids[0]));
      EvictCovers(EvictOne(c, ids[0], removed(ids[0])), ids[1..], removed);
    }
  }

  lemma StepCovers(sha: HashFunction, c: Cache, op: Op)
    requires Good(sha, c) && Covered(c) && Tidy(op) && Harmless(sha, c, op) && SizesFrom(op, 0)
    ensures Covered(Step(sha, c, op))
  {
    match op
    case Get(req, remote, env) =>
      if req.actionID != [] {
        GetCovers(sha, c, req, remote, env);
      }
    case Put(req, max, env) =>
      if req.actionID != [] {
        EncodeIsHex(req.actionID);
        InstallCovers(sha, c, Encode(req.actionID), req.body, PutMetadata(sha, req, env.time), env.install);
      }
    case LoseBody(_) =>
    case Evict(ids, removed) => EvictCovers(c, ids, removed);
    case UnpinAll =>
    case Restart(_) =>
    case CrashedInstall(_, _, _, _, _) =>
  }

  lemma {:induction false} RunCovers(sha: HashFunction, c: Cache, ops: seq<Op>)
    requires Good(sha, c) && Covered(c) && AllTidy(ops) && HarmlessRun(sha, c, ops) && AllSizesFrom(ops, 0)
    ensures Covered(Run(sha, c, ops))
    decreases |ops|
  {
    if ops == [] {
    } else {
      StepGood(sha, c, ops[0]);
      StepCovers(sha, c, ops[0]);
      RunCovers(sha, Step(sha, c, ops[0]), ops[1..]);
    }
  }

  ghost function Lengths(bodies: map<string, Bytes>): map<string, int> {
    map id | id in bodies :: |bodies[id]|
  }

  /** The reported total is at least the bytes actually on disk. */
  ghost predicate TotalCovers(c: Cache) {
    Sum(Lengths(c.disk.bodies)) <= c.ix.total
  }

  /** Without negative declared sizes, the reported total is never below the bytes on disk. */
  lemma TotalCoversDisk(sha: HashFunction, dir: string, ops: seq<Op>)
    requires AllTidy(ops) && HarmlessRun(sha, Empty(dir), ops) && AllSizesFrom(ops, 0)
    ensures TotalCovers(Run(sha, Empty(dir), ops))
  {
    RunAgrees(sha, Empty(dir), ops);
    RunCovers(sha, Empty(dir), ops);
    var c := Run(sha, Empty(dir), ops);
    SumMonotone(Lengths(c.disk.bodies), Sizes(c.ix.entries));
  }

  /** A put that declares a negative size passes every check and makes the total negative. */
  lemma NegativeSizeExample(sha: HashFunction, dir: string, size: int) returns (ops: seq<Op>)
    requires size < 0
    ensures AllTidy(ops) && HarmlessRun(sha, Empty(dir), ops) && AllSizesFrom(ops, size)
    ensures Run(sha, Empty(dir), ops).ix.total == size && !TotalCovers(Run(sha, Empty(dir), ops))
  {
    var op := Put(Request(1, "put", [7], [8], [], size), 0, PutEnv(true, 0, InstallEnv(true, true, true, true, 0)));
    ops := [op];
    EncodeIsHex([7]);
    var c := Step(sha, Empty(dir), op);
    assert ops[1..] == [];
    assert c.ix.total == size;
    SumMonotone(map[], Lengths(c.disk.bodies));
  }

  /** The total covers the bytes on disk in every run exactly when no negative size is ever declared. */
  lemma TotalCoversIff(sha: HashFunction, dir: string, least: int)
    ensures (forall ops :: AllTidy(ops) && HarmlessRun(sha, Empty(dir), ops) && AllSizesFrom(ops, least) ==>
              TotalCovers(Run(sha, Empty(dir), ops)))
            <==> 0 <= least
  {
    if 0 <= least {
      forall ops | AllTidy(ops) && HarmlessRun(sha, Empty(dir), ops) && AllSizesFrom(ops, least)
        ensures TotalCovers(Run(sha, Empty(dir), ops))
      {
        assert AllSizesFrom(ops, 0);
        TotalCoversDisk(sha, dir, ops);
      }
    } else {
      var ops := NegativeSizeExample(sha, dir, least);
    }
  }
}
