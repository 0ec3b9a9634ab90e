/** The local disk cache: index plus directory, one atomic operation at a time (internal/cache/disk.go). */
module LocalCache {
  import opened Prelude
  import opened MapSum
  import opened Hex
  import opened Names
  import opened DiskIndex
  import opened FileSystem

  datatype Cache = Cache(dir: string, ix: Index, disk: Disk)

  /** What Lookup answers: the metadata if any, the body path on a hit, and whether it is a hit. */
  datatype Found = Found(meta: Option<Metadata>, path: string, hit: bool)

  /** The reference lookup: the directory alone decides. */
  function DiskLookup(dir: string, disk: Disk, id: string): Found
    requires IsId(id)
  {
    if id !in disk.metas then Found(None, "", false)
    else if id in disk.bodies then Found(Some(disk.metas[id]), BodyPath(dir, id), true)
    else Found(Some(disk.metas[id]), "", false)
  }

  /** The lookup as coded: cached metadata and path when the index has them, the directory otherwise. */
  function IndexedLookup(c: Cache, id: string): Found
    requires IsId(id)
  {
    if id in c.ix.entries && c.ix.entries[id].meta.Some? then
      var e := c.ix.entries[id];
      if e.bodyPath == "" || id !in c.disk.bodies then Found(e.meta, "", false) else Found(e.meta, e.bodyPath, true)
    else DiskLookup(c.dir, c.disk, id)
  }

  /**
   * The index tells the truth about the directory: cached metadata is the stored metadata, an empty
   * cached path means the body is gone, and every body file is indexed.
   */
  ghost predicate Agrees(c: Cache) {
    && (forall id :: id in c.ix.entries ==> IsId(id) && EntryAgrees(c.dir, c.disk, id, c.ix.entries[id]))
    && (forall id :: id in c.disk.bodies ==> id in c.ix.entries && c.ix.entries[id].hasBody)
    && (forall id :: id in c.disk.metas ==> IsId(id))
  }

  ghost predicate EntryAgrees(dir: string, disk: Disk, id: string, e: Entry)
    requires IsId(id)
  {
    && (e.meta.Some? ==> id in disk.metas && disk.metas[id] == e.meta.value)
    && (e.bodyPath == "" || e.bodyPath == BodyPath(dir, id))
    && (e.meta.Some? && e.bodyPath == "" ==> id !in disk.bodies && !e.hasBody)
  }

  /** Which of the calls inside Install succeed, and the clock when it commits. */
  datatype InstallEnv = InstallEnv(mkdirOk: bool, renameOk: bool, metaOk: bool, cleanUpOk: bool, now: int)

  /** The clean-up removal of Install is reached and fails: the one outcome that leaves a body behind. */
  predicate LeavesOrphan(env: InstallEnv) {
    env.mkdirOk && env.renameOk && !env.metaOk && !env.cleanUpOk
  }

  function AfterInstall(c: Cache, id: string, body: Bytes, meta: Metadata, env: InstallEnv): (Cache, Result<string>)
    requires IsId(id)
  {
    if !env.mkdirOk then (c, Err("mkdir"))
    else if !env.renameOk then (c, Err("rename body"))
    else if !env.metaOk && !env.cleanUpOk
    then (c.(disk := c.disk.(bodies := c.disk.bodies[id := body])), Err("write metadata"))
    else if !env.metaOk then (c.(disk := c.disk.(bodies := c.disk.bodies - {id})), Err("write metadata"))
    else
      var path := BodyPath(c.dir, id);
      (Cache(c.dir, Apply(c.ix, Commit(id, meta, path, env.now)),
             Disk(c.disk.bodies[id := body], c.disk.metas[id := meta])), Ok(path))
  }

  /** The state Lookup leaves: a hit is touched, promoted and pinned; a cached entry without its body is demoted. */
  function AfterLookup(c: Cache, id: string, now: int): Cache
    requires IsId(id)
  {
    var found := DiskLookup(c.dir, c.disk, id);
    if found.hit then
      c.(ix := Apply(c.ix, Promote(id, found.meta.value, found.path, now)))
    else if id in c.ix.entries && c.ix.entries[id].meta.Some? then
      c.(ix := Apply(c.ix, MarkMissing(id)))
    else c
  }

  /** Which of the two file removals of Remove succeed; their errors are ignored. */
  datatype RemoveEnv = RemoveEnv(bodyOk: bool, metaOk: bool)

  function AfterRemove(c: Cache, id: string, env: RemoveEnv): Cache {
    Cache(c.dir, Apply(c.ix, Forget(id)),
          Disk(if env.bodyOk then c.disk.bodies - {id} else c.disk.bodies,
               if env.metaOk then c.disk.metas - {id} else c.disk.metas))
  }

  /** One turn of the eviction loop; an error of the file removal is ignored. */
  function EvictOne(c: Cache, id: string, removed: bool): Cache {
    Cache(c.dir, Apply(c.ix, Evict(id)), if removed then c.disk.(bodies := c.disk.bodies - {id}) else c.disk)
  }

  function EvictAll(c: Cache, ids: seq<string>, removed: string -> bool): Cache
    decreases |ids|
  {
    if ids == [] then c else EvictAll(EvictOne(c, ids[0], removed(ids[0])), ids[1..], removed)
  }

  /** The outside world deletes a body file behind the cache's back. */
  function LoseBody(c: Cache, id: string): Cache {
    c.(disk := c.disk.(bodies := c.disk.bodies - {id}))
  }

  /** A new process over the same directory: only body files are indexed, with their modification times. */
  ghost function Restart(dir: string, disk: Disk, mtime: string -> int): Cache {
    var entries := map id | id in disk.bodies :: Entry(|disk.bodies[id]|, mtime(id), true, None, "");
    Cache(dir, Index(entries, {}, Sum(Sizes(entries))), disk)
  }

  /** Whether an entry claims a body file. */
  predicate Claims(ix: Index, id: string) {
    id in ix.entries && ix.entries[id].hasBody
  }

  /** Install keeps the agreement whatever fails, except when it leaves a body that no entry claims. */
  lemma InstallAgrees(c: Cache, id: string, body: Bytes, meta: Metadata, env: InstallEnv)
    requires IsId(id) && Agrees(c)
    ensures Agrees(AfterInstall(c, id, body, meta, env).0) <==> (LeavesOrphan(env) ==> Claims(c.ix, id))
  {
    var after := AfterInstall(c, id, body, meta, env).0;
    if LeavesOrphan(env) {
      assert id in after.disk.bodies;
    }
  }

  lemma InstallAgreesFrom(c: Cache, id: string, body: Bytes, meta: Metadata, env: InstallEnv)
    requires IsId(id)
    ensures Agrees(c) ==>
              (Agrees(AfterInstall(c, id, body, meta, env).0) <==> (LeavesOrphan(env) ==> Claims(c.ix, id)))
  {
    if Agrees(c) {
      InstallAgrees(c, id, body, meta, env);
    }
  }

  lemma LookupAgrees(c: Cache, id: string, now: int)
    requires IsId(id) && Agrees(c)
    ensures Agrees(AfterLookup(c, id, now))
  {
  }

  /** Removing an entry keeps the agreement exactly when its body file goes, or was not there. */
  lemma RemoveAgrees(c: Cache, id: string, env: RemoveEnv)
    requires Agrees(c)
    ensures Agrees(AfterRemove(c, id, env)) <==> env.bodyOk || id !in c.disk.bodies
  {
    if !env.bodyOk && id in c.disk.bodies {
      assert id in AfterRemove(c, id, env).disk.bodies;
    }
  }

  lemma EvictOneAgrees(c: Cache, id: string, removed: bool)
    requires Agrees(c)
    ensures removed || id !in c.disk.bodies ==> Agrees(EvictOne(c, id, removed))
  {
  }

  /** A body whose removal failed is still there, and no entry claims it any more. */
  lemma {:induction false} EvictAllStrands(c: Cache, ids: seq<string>, removed: string -> bool, id: string)
    requires id in c.disk.bodies && !removed(id)
    ensures var after := EvictAll(c, ids, removed);
      id in after.disk.bodies && (id in ids || !Claims(c.ix, id) ==> !Claims(after.ix, id))
    decreases |ids|
  {
    if ids == [] {
    } else {
      EvictAllStrands(EvictOne(c, ids[0], removed(ids[0])), ids[1..], removed, id);
    }
  }

  lemma {:induction false} EvictAllKeepsAgreement(c: Cache, ids: seq<string>, removed: string -> bool)
    requires Agrees(c) && forall id :: id in ids ==> removed(id) || id !in c.disk.bodies
    ensures Agrees(EvictAll(c, ids, removed))
    decreases |ids|
  {
    if ids == [] {
    } else {
      EvictOneAgrees(c, ids[0], removed(ids[0]));
      EvictAllKeepsAgreement(EvictOne(c, ids[0], removed(ids[0])), ids[1..], removed);
    }
  }

  /** Eviction keeps the agreement exactly when every chosen body file goes, or was not there. */
  lemma EvictAllAgrees(c: Cache, ids: seq<string>, removed: string -> bool)
    requires Agrees(c)
    ensures Agrees(EvictAll(c, ids, removed)) <==> forall id :: id in ids ==> removed(id) || id !in c.disk.bodies
  {
    if forall id :: id in ids ==> removed(id) || id !in c.disk.bodies {
      EvictAllKeepsAgreement(c, ids, removed);
    } else {
      var id :| id in ids && !removed(id) && id in c.disk.bodies;
      EvictAllStrands(c, ids, removed, id);
    }
  }

  lemma RestartAgrees(dir: string, disk: Disk, mtime: string -> int)
    requires forall id :: id in disk.bodies || id in disk.metas ==> IsId(id)
    ensures Agrees(Restart(dir, disk, mtime))
  {
  }

  ghost function Mtimes(fs: FS): string -> int {
    id => if CacheFile(id, Body) in fs then fs[CacheFile(id, Body)].mtime else 0
  }

  /** Every file that the scan takes for a body is named after a hex identifier. */
  ghost predicate NamesAreIds(fs: FS)
    requires WellFormed(fs)
  {
    forall l :: l in fs && ScannedAs(l).Some? ==> IsId(ScannedAs(l).value)
  }

  lemma WithoutStrays(fs: FS, l: Loc)
    requires WellFormed(fs) && NoStrays(fs) && l in fs && ScannedAs(l).Some?
    ensures l == CacheFile(ScannedAs(l).value, Body) && IsId(ScannedAs(l).value)
  {
    ScannedCacheFile(l);
  }

  lemma BodiesScanned(fs: FS, bodies: map<string, Bytes>, entries: map<string, Entry>, total: int, id: string)
    requires WellFormed(fs) && ShowsBodies(fs, bodies) && IsScanOf(entries, total, fs, {}) && id in bodies
    ensures id in entries
  {
    ScannedCacheFile(CacheFile(id, Body));
  }

  /** An entry as the scan makes it. */
  predicate Unread(e: Entry) {
    e.hasBody && e.meta.None? && e.bodyPath == ""
  }

  lemma ScannedEntry(fs: FS, entries: map<string, Entry>, total: int, id: string)
    requires WellFormed(fs) && IsScanOf(entries, total, fs, {}) && id in entries
    ensures Unread(entries[id])
    ensures NamesAreIds(fs) ==> IsId(id)
  {
    var l :| StandsBehind(fs, {}, l, id, entries[id]);
  }

  lemma ScannedBody(fs: FS, entries: map<string, Entry>, total: int, id: string)
    requires WellFormed(fs) && NoStrays(fs) && IsScanOf(entries, total, fs, {}) && id in entries
    ensures CacheFile(id, Body) in fs && fs[CacheFile(id, Body)].content.Blob?
    ensures entries[id] == Scanned(fs[CacheFile(id, Body)])
  {
    var l :| StandsBehind(fs, {}, l, id, entries[id]);
    WithoutStrays(fs, l);
  }

  lemma EntryNames(fs: FS, entries: map<string, Entry>, total: int)
    requires WellFormed(fs) && IsScanOf(entries, total, fs, {})
    ensures NamesAreIds(fs) <==> forall id :: id in entries ==> IsId(id)
  {
    if NamesAreIds(fs) {
      forall id | id in entries
        ensures IsId(id)
      {
        ScannedEntry(fs, entries, total, id);
      }
    }
  }

  lemma UnreadAgrees(c: Cache)
    requires forall id :: id in c.ix.entries ==> Unread(c.ix.entries[id])
    requires forall id :: id in c.disk.bodies ==> id in c.ix.entries
    requires forall id :: id in c.disk.metas ==> IsId(id)
    ensures Agrees(c) <==> forall id :: id in c.ix.entries ==> IsId(id)
  {
  }

  /** The index that start-up builds agrees with the directory exactly when it is filed under hex identifiers. */
  lemma ScanAgrees(dir: string, fs: FS, disk: Disk, entries: map<string, Entry>, total: int)
    requires WellFormed(fs) && Shows(fs, disk) && IsScanOf(entries, total, fs, {})
    ensures Agrees(Cache(dir, Index(entries, {}, total), disk)) <==> NamesAreIds(fs)
  {
    VisibleIds(fs, disk);
    forall id | id in entries
      ensures Unread(entries[id])
    {
      ScannedEntry(fs, entries, total, id);
    }
    forall id | id in disk.bodies
      ensures id in entries
    {
      BodiesScanned(fs, disk.bodies, entries, total, id);
    }
    EntryNames(fs, entries, total);
    UnreadAgrees(Cache(dir, Index(entries, {}, total), disk));
  }

  lemma RestartEntries(fs: FS, disk: Disk, entries: map<string, Entry>, total: int, id: string)
    requires WellFormed(fs) && NoStrays(fs) && ShowsBodies(fs, disk.bodies) && IsScanOf(entries, total, fs, {})
    ensures id in entries <==> id in disk.bodies
    ensures id in entries ==> entries[id] == Entry(|disk.bodies[id]|, Mtimes(fs)(id), true, None, "")
  {
    if id in entries {
      ScannedBody(fs, entries, total, id);
    }
    if id in disk.bodies {
      BodiesScanned(fs, disk.bodies, entries, total, id);
    }
  }

  lemma EntriesOfRestart(dir: string, disk: Disk, mtime: string -> int, entries: map<string, Entry>)
    requires forall id :: id in entries <==> id in disk.bodies
    requires forall id :: id in entries ==> entries[id] == Entry(|disk.bodies[id]|, mtime(id), true, None, "")
    ensures entries == Restart(dir, disk, mtime).ix.entries
  {
    assert entries.Keys == disk.bodies.Keys;
  }

  /** Without strays, the scanned entries are the ones a restart over the visible files would have. */
  lemma ScanIsRestart(dir: string, fs: FS, disk: Disk, entries: map<string, Entry>, total: int)
    requires WellFormed(fs) && NoStrays(fs) && ShowsBodies(fs, disk.bodies) && IsScanOf(entries, total, fs, {})
    ensures Index(entries, {}, total) == Restart(dir, disk, Mtimes(fs)).ix
  {
    forall id
      ensures id in entries <==> id in disk.bodies
      ensures id in entries ==> entries[id] == Entry(|disk.bodies[id]|, Mtimes(fs)(id), true, None, "")
    {
      RestartEntries(fs, disk, entries, total, id);
    }
    EntriesOfRestart(dir, disk, Mtimes(fs), entries);
  }

  /** Without strays, everything is filed under hex identifiers. */
  lemma OwnNamesAreIds(fs: FS)
    requires WellFormed(fs) && NoStrays(fs)
    ensures NamesAreIds(fs)
  {
    forall l | l in fs && ScannedAs(l).Some?
      ensures IsId(ScannedAs(l).value)
    {
      WithoutStrays(fs, l);
    }
  }

  lemma VisibleIds(fs: FS, disk: Disk)
    requires WellFormed(fs) && Shows(fs, disk)
    ensures forall id :: id in disk.bodies || id in disk.metas ==> IsId(id)
  {
    forall id | id in disk.bodies || id in disk.metas
      ensures IsId(id)
    {
      assert CacheFile(id, Body) in fs || CacheFile(id, Meta) in fs;
    }
  }

  /** Start-up yields the index of a restart, unless foreign files are named like bodies. */
  method LoadIndex(dir: string, fs: FS, disk: Disk) returns (entries: map<string, Entry>, total: int)
    requires WellFormed(fs) && Shows(fs, disk)
    ensures IsScanOf(entries, total, fs, {})
    ensures Agrees(Cache(dir, Index(entries, {}, total), disk)) <==> NamesAreIds(fs)
    ensures NoStrays(fs) ==> NamesAreIds(fs) && Restart(dir, disk, Mtimes(fs)).ix == Index(entries, {}, total)
  {
    var after;
    entries, total, after := Scan(fs);
    ScanAgrees(dir, fs, disk, entries, total);
    if NoStrays(fs) {
      ScanIsRestart(dir, fs, disk, entries, total);
      OwnNamesAreIds(fs);
    }
  }

  /** What Trim may evict: a body that is neither pinned nor touched within the safety window. */
  predicate Candidate(ix: Index, id: string, now: int, safety: int) {
    && id in ix.entries
    && ix.entries[id].hasBody
    && id !in ix.pinned
    && now - ix.entries[id].accessTime >= safety
  }

  function SizeSum(ix: Index, ids: seq<string>): int {
    if ids == [] then 0
    else SizeSum(ix, ids[..|ids| - 1]) + (if ids[|ids| - 1] in ix.entries then ix.entries[ids[|ids| - 1]].size else 0)
  }

  ghost predicate Distinct(ids: seq<string>) {
    forall i, j :: 0 <= i < j < |ids| ==> ids[i] != ids[j]
  }

  /**
   * A correct eviction: each step takes a least recently used candidate among those left, while the
   * running total is above the target, and the steps go on until it is not or no candidate is left.
   */
  ghost predicate IsEviction(ix: Index, now: int, safety: int, target: int, evicted: seq<string>) {
    && Distinct(evicted)
    && (forall i :: 0 <= i < |evicted| ==> Candidate(ix, evicted[i], now, safety))
    && (forall i, id :: 0 <= i < |evicted| && Candidate(ix, id, now, safety) && id !in evicted[..i] ==>
          AccessTime(ix.entries, evicted[i]) <= AccessTime(ix.entries, id))
    && (forall i :: 0 <= i < |evicted| ==> ix.total - SizeSum(ix, evicted[..i]) > target)
    && (ix.total - SizeSum(ix, evicted) <= target || forall id :: Candidate(ix, id, now, safety) ==> id in evicted)
  }

  lemma {:induction false} EvictAllAppend(c: Cache, ids: seq<string>, removed: string -> bool, id: string)
    ensures EvictAll(c, ids + [id], removed) == EvictOne(EvictAll(c, ids, removed), id, removed(id))
    decreases |ids|
  {
    if ids == [] {
      assert ids + [id] == [id] && [id][1..] == [];
    } else {
      EvictAllAppend(EvictOne(c, ids[0], removed(ids[0])), ids[1..], removed, id);
      assert (ids + [id])[1..] == ids[1..] + [id];
    }
  }

  /** What evicting these identifiers does, given that each is indexed with a body. */
  ghost predicate IsOutcome(c: Cache, ids: seq<string>, removed: string -> bool, after: Cache) {
    && after.dir == c.dir
    && after.disk.metas == c.disk.metas
    && after.disk.bodies == c.disk.bodies - (set id | id in ids && removed(id))
    && after.ix.pinned == c.ix.pinned
    && after.ix.total == c.ix.total - SizeSum(c.ix, ids)
    && after.ix.entries.Keys == c.ix.entries.Keys
    && (forall id :: id in c.ix.entries && id !in ids ==> after.ix.entries[id] == c.ix.entries[id])
    && (forall id :: id in ids && id in c.ix.entries ==>
          after.ix.entries[id] == c.ix.entries[id].(hasBody := false, bodyPath := ""))
  }

  lemma OutcomeExtends(c: Cache, ids: seq<string>, removed: string -> bool, last: string, middle: Cache)
    requires IsOutcome(c, ids, removed, middle) && last !in ids && Claims(c.ix, last)
    ensures IsOutcome(c, ids + [last], removed, EvictOne(middle, last, removed(last)))
  {
    assert (ids + [last])[..|ids|] == ids;
    var before, after := set id | id in ids && removed(id), set id | id in ids + [last] && removed(id);
    assert after == if removed(last) then before + {last} else before;
  }

  /**
   * Eviction takes exactly the chosen bodies whose removal succeeds, keeps all metadata, and lowers the
   * total by exactly the sizes of all chosen ones.
   */
  lemma {:induction false} EvictAllOutcome(c: Cache, ids: seq<string>, removed: string -> bool)
    requires Distinct(ids)
    requires forall i :: 0 <= i < |ids| ==> Claims(c.ix, ids[i])
    ensures IsOutcome(c, ids, removed, EvictAll(c, ids, removed))
    decreases |ids|
  {
    if ids == [] {
      assert c.disk.bodies == c.disk.bodies - (set id | id in ids && removed(id));
    } else {
      var front, last := ids[..|ids| - 1], ids[|ids| - 1];
      assert ids == front + [last];
      EvictAllOutcome(c, front, removed);
      EvictAllAppend(c, front, removed, last);
      OutcomeExtends(c, front, removed, last, EvictAll(c, front, removed));
    }
  }

  function AccessTime(entries: map<string, Entry>, id: string): int {
    if id in entries then entries[id].accessTime else 0
  }

  /** Insert an identifier before the first one accessed later. */
  function InsertByAccess(entries: map<string, Entry>, id: string, s: seq<string>): seq<string> {
    if s == [] then [id]
    else if AccessTime(entries, id) < AccessTime(entries, s[0]) then [id] + s
    else [s[0]] + InsertByAccess(entries, id, s[1..])
  }

  ghost predicate SortedByAccess(entries: map<string, Entry>, s: seq<string>) {
    forall i, j :: 0 <= i < j < |s| ==> AccessTime(entries, s[i]) <= AccessTime(entries, s[j])
  }

  lemma {:induction false} InsertMembers(entries: map<string, Entry>, id: string, s: seq<string>)
    ensures forall x :: x in InsertByAccess(entries, id, s) <==> x == id || x in s
    ensures id !in s && Distinct(s) ==> Distinct(InsertByAccess(entries, id, s))
  {
    if s == [] {
    } else {
      InsertMembers(entries, id, s[1..]);
      if id !in s && Distinct(s) {
        var tail := InsertByAccess(entries, id, s[1..]);
        assert forall i :: 0 < i < |s| ==> s[0] != s[i];
        assert s[0] !in s[1..] && s[0] !in tail;
        assert forall i :: 0 <= i < |tail| ==> tail[i] in tail;
      }
    }
  }

  lemma {:induction false} InsertSorts(entries: map<string, Entry>, id: string, s: seq<string>)
    requires SortedByAccess(entries, s)
    ensures SortedByAccess(entries, InsertByAccess(entries, id, s))
  {
    if s == [] || AccessTime(entries, id) < AccessTime(entries, s[0]) {
    } else {
      var tail := InsertByAccess(entries, id, s[1..]);
      InsertSorts(entries, id, s[1..]);
      InsertMembers(entries, id, s[1..]);
      forall j | 0 <= j < |tail|
        ensures AccessTime(entries, s[0]) <= AccessTime(entries, tail[j])
      {
        assert tail[j] in tail;
        assert tail[j] == id || tail[j] in s[1..];
      }
      SortedCons(entries, s[0], tail);
    }
  }

  lemma SortedCons(entries: map<string, Entry>, first: string, tail: seq<string>)
    requires SortedByAccess(entries, tail)
    requires forall j :: 0 <= j < |tail| ==> AccessTime(entries, first) <= AccessTime(entries, tail[j])
    ensures SortedByAccess(entries, [first] + tail)
  {
  }

  /** The cache object. The two maps stand for the body and metadata files of its directory. */
  class DiskCache {
    const dir: string
    const safetyDur: int
    var entries: map<string, Entry>
    var pinned: set<string>
    var total: int
    var bodies: map<string, Bytes>
    var metas: map<string, Metadata>

    ghost function State(): Cache
      reads this
    {
      Cache(dir, Index(entries, pinned, total), Disk(bodies, metas))
    }

    ghost predicate Valid()
      reads this
    {
      Agrees(State())
    }

    /** Start-up over any directory: the files decide everything, nothing is pinned. */
    constructor (dir: string, safetyDur: int, fs: FS, disk: Disk)
      requires WellFormed(fs) && Shows(fs, disk)
      ensures this.dir == dir && this.safetyDur == safetyDur && State().disk == disk && pinned == {}
      ensures IsScanOf(entries, total, fs, {}) && (Valid() <==> NamesAreIds(fs))
      ensures NoStrays(fs) ==> Valid() && State() == Restart(dir, disk, Mtimes(fs))
    {
      var scanned, size := LoadIndex(dir, fs, disk);
      this.dir, this.safetyDur := dir, safetyDur;
      entries, pinned, total := scanned, {}, size;
      bodies, metas := disk.bodies, disk.metas;
    }

    /** Every combination of failing calls is covered; the agreement is lost by an unclaimed orphan alone. */
    method Install(id: string, body: Bytes, meta: Metadata, env: InstallEnv) returns (r: Result<string>)
      requires IsId(id)
      modifies this
      ensures (State(), r) == AfterInstall(old(State()), id, body, meta, env)
      ensures old(Valid()) ==> (Valid() <==> (LeavesOrphan(env) ==> Claims(old(State().ix), id)))
    {
      InstallAgreesFrom(State(), id, body, meta, env);
      var bodyPath := BodyPath(dir, id);
      if !env.mkdirOk {
        return Err("mkdir");
      }
      if !env.renameOk {
        return Err("rename body");
      }
      bodies := bodies[id := body];
      if !env.metaOk {
        if env.cleanUpOk {
          bodies := bodies - {id};
          assert bodies == old(bodies) - {id};
        }
        return Err("write metadata");
      }
      metas := metas[id := meta];
      if id in entries && entries[id].hasBody {
        total := total - entries[id].size;
      }
      entries := entries[id := Entry(meta.size, env.now, true, Some(meta), bodyPath)];
      pinned := pinned + {id};
      total := total + meta.size;
      return Ok(bodyPath);
    }

    /** Whatever path is taken, the answer is the one the directory alone would give. */
    method Lookup(id: string, now: int) returns (found: Found)
      requires IsId(id) && Valid()
      modifies this`entries, this`pinned
      ensures Valid()
      ensures found == IndexedLookup(old(State()), id) == DiskLookup(dir, Disk(old(bodies), old(metas)), id)
      ensures State() == AfterLookup(old(State()), id, now)
    {
      LookupAgrees(State(), id, now);
      if id in entries && entries[id].meta.Some? {
        var cachedMeta, cachedBodyPath := entries[id].meta, entries[id].bodyPath;
        assert EntryAgrees(dir, Disk(bodies, metas), id, entries[id]);
        if cachedBodyPath == "" {
          assert entries[id := entries[id].(hasBody := false, bodyPath := "")] == entries;
          return Found(cachedMeta, "", false);
        }
        if id !in bodies {
          entries := entries[id := entries[id].(hasBody := false, bodyPath := "")];
          return Found(cachedMeta, "", false);
        }
        entries := entries[id := entries[id].(accessTime := now)];
        pinned := pinned + {id};
        return Found(cachedMeta, cachedBodyPath, true);
      }
      if id !in metas {
        return Found(None, "", false);
      }
      if id !in bodies {
        return Found(Some(metas[id]), "", false);
      }
      if id in entries {
        var promoted := entries[id].(accessTime := now, meta := Some(metas[id]), bodyPath := BodyPath(dir, id));
        entries := entries[id := promoted];
      }
      pinned := pinned + {id};
      return Found(Some(metas[id]), BodyPath(dir, id), true);
    }

    /** A stub is metadata without its body: exactly what a lookup reports as a miss with metadata. */
    method HasMetadataStub(id: string) returns (stub: Option<Metadata>)
      requires IsId(id)
      ensures var found := DiskLookup(dir, Disk(bodies, metas), id);
        stub == if found.hit then None else found.meta
    {
      if id !in metas {
        return None;
      }
      if id in bodies {
        return None;
      }
      return Some(metas[id]);
    }

    /** The entry goes whether or not its files can be removed. */
    method Remove(id: string, env: RemoveEnv)
      requires Valid()
      modifies this
      ensures State() == AfterRemove(old(State()), id, env)
      ensures Valid() <==> env.bodyOk || id !in old(bodies)
    {
      RemoveAgrees(State(), id, env);
      if env.bodyOk {
        bodies := bodies - {id};
      }
      if env.metaOk {
        metas := metas - {id};
      }
      if id in entries {
        if entries[id].hasBody {
          total := total - entries[id].size;
        }
      }
      entries := entries - {id};
      pinned := pinned - {id};
    }

    method Pin(id: string)
      requires Valid()
      modifies this`pinned
      ensures Valid() && State().ix == Apply(old(State().ix), DiskIndex.Pin(id))
      ensures pinned == old(pinned) + {id}
    {
      pinned := pinned + {id};
    }

    method UnpinAll()
      requires Valid()
      modifies this`pinned
      ensures Valid() && State().ix == Apply(old(State().ix), DiskIndex.UnpinAll)
      ensures pinned == {}
    {
      pinned := {};
    }

    method Candidates(now: int) returns (ids: seq<string>)
      ensures Distinct(ids)
      ensures forall id :: id in ids <==> Candidate(Index(entries, pinned, total), id, now, safetyDur)
    {
      ids := [];
      var left := entries.Keys;
      while left != {}
        invariant left <= entries.Keys
        invariant Distinct(ids)
        invariant forall id :: id in ids <==>
          id !in left && Candidate(Index(entries, pinned, total), id, now, safetyDur)
        decreases |left|
      {
        var id :| id in left;
        left := left - {id};
        if entries[id].hasBody && id !in pinned && !(now - entries[id].accessTime < safetyDur) {
          ids := ids + [id];
        }
      }
    }

    method Sort(ids: seq<string>) returns (s: seq<string>)
      requires Distinct(ids)
      ensures Distinct(s) && forall id :: id in s <==> id in ids
      ensures SortedByAccess(entries, s)
    {
      s := [];
      var i := 0;
      while i < |ids|
        invariant 0 <= i <= |ids|
        invariant Distinct(s) && forall id :: id in s <==> id in ids[..i]
        invariant SortedByAccess(entries, s)
      {
        InsertMembers(entries, ids[i], s);
        InsertSorts(entries, ids[i], s);
        assert ids[i] !in ids[..i];
        s := InsertByAccess(entries, ids[i], s);
        i := i + 1;
      }
    }

    /** The evicted bodies are the least recently used candidates, no more than needed to reach the target. */
    method Trim(now: int, target: int, removed: string -> bool) returns (ghost evicted: seq<string>)
      requires Valid()
      modifies this`entries, this`total, this`bodies
      ensures IsEviction(old(State().ix), now, safetyDur, target, evicted)
      ensures State() == EvictAll(old(State()), evicted, removed)
      ensures Valid() <==> forall id :: id in evicted ==> removed(id) || id !in old(bodies)
    {
      if total <= target {
        return [];
      }
      var candidates := Candidates(now);
      var sorted := Sort(candidates);
      assert forall i :: 0 <= i < |sorted| ==> sorted[i] in sorted;
      var toEvict := SelectVictims(sorted, target);
      EvictionOfPrefix(State().ix, now, safetyDur, target, sorted, |toEvict|);
      EvictBodies(toEvict, removed);
      return toEvict;
    }

    /** The eviction loop, one file removal and one locked section per victim. */
    method EvictBodies(toEvict: seq<string>, removed: string -> bool)
      requires Valid()
      modifies this`entries, this`total, this`bodies
      ensures State() == EvictAll(old(State()), toEvict, removed)
      ensures Valid() <==> forall id :: id in toEvict ==> removed(id) || id !in old(bodies)
    {
      EvictAllAgrees(State(), toEvict, removed);
      var j := 0;
      while j < |toEvict|
        invariant 0 <= j <= |toEvict|
        invariant State() == EvictAll(old(State()), toEvict[..j], removed)
      {
        var id := toEvict[j];
        EvictAllAppend(old(State()), toEvict[..j], removed, id);
        assert toEvict[..j + 1] == toEvict[..j] + [id];
        if removed(id) {
          bodies := bodies - {id};
        }
        if id in entries && entries[id].hasBody {
          total := total - entries[id].size;
          entries := entries[id := entries[id].(hasBody := false, bodyPath := "")];
        }
        j := j + 1;
      }
      assert toEvict[..j] == toEvict;
    }

    /** The selection loop: the shortest prefix that brings the running total down to the target. */
    method SelectVictims(sorted: seq<string>, target: int) returns (toEvict: seq<string>)
      requires forall i :: 0 <= i < |sorted| ==> sorted[i] in entries
      ensures |toEvict| <= |sorted| && toEvict == sorted[..|toEvict|]
      ensures forall i :: 0 <= i < |toEvict| ==> total - SizeSum(Index(entries, pinned, total), sorted[..i]) > target
      ensures total - SizeSum(Index(entries, pinned, total), toEvict) <= target || |toEvict| == |sorted|
    {
      toEvict := [];
      var currentTotal := total;
      var i := 0;
      while i < |sorted| && !(currentTotal <= target)
        invariant 0 <= i <= |sorted| && toEvict == sorted[..i]
        invariant currentTotal == total - SizeSum(Index(entries, pinned, total), toEvict)
        invariant forall k :: 0 <= k < i ==> total - SizeSum(Index(entries, pinned, total), sorted[..k]) > target
      {
        assert sorted[..i + 1] == sorted[..i] + [sorted[i]];
        toEvict := toEvict + [sorted[i]];
        currentTotal := currentTotal - entries[sorted[i]].size;
        i := i + 1;
      }
    }
  }

  /** A prefix of the sorted candidates, cut where the running total first reaches the target, is a correct eviction. */
  lemma EvictionOfPrefix(ix: Index, now: int, safety: int, target: int, sorted: seq<string>, n: nat)
    requires Distinct(sorted)
    requires forall id :: id in sorted ==> Candidate(ix, id, now, safety)
    requires forall id :: Candidate(ix, id, now, safety) ==> id in sorted
    requires SortedByAccess(ix.entries, sorted)
    requires n <= |sorted|
    requires forall i :: 0 <= i < n ==> ix.total - SizeSum(ix, sorted[..i]) > target
    requires ix.total - SizeSum(ix, sorted[..n]) <= target || n == |sorted|
    ensures IsEviction(ix, now, safety, target, sorted[..n])
  {
    var evicted := sorted[..n];
    forall i | 0 <= i < n
      ensures evicted[..i] == sorted[..i]
    {
    }
    forall i, id | 0 <= i < n && Candidate(ix, id, now, safety) && id !in evicted[..i]
      ensures AccessTime(ix.entries, evicted[i]) <= AccessTime(ix.entries, id)
    {
      assert id in sorted;
      var j :| 0 <= j < |sorted| && sorted[j] == id;
    }
  }
}
