/**
 * Cache operations of concurrent workers, one file effect or locked section at a time: what holds in every
 * interleaving in which no two operations work on the same entry at once (internal/cache/disk.go).
 */
module Concurrent {
  import opened Prelude
  import opened Hex
  import opened Names
  import opened DiskIndex
  import opened FileSystem
  import opened LocalCache
  import opened Runs
  import opened Overlap

  /** Each stage is named after what the operation does next. */
  datatype InstallStage = RenamesBody | WritesMeta | CleansUp | Commits

  datatype LookupStage =
    | PeeksIndex
    | ChecksFile(meta: Metadata, path: string)
    | MarksMissing
    | Touches
    | ReadsMeta
    | ChecksBody(meta: Metadata)
    | Promotes(meta: Metadata)

  datatype RemoveStage = RemovesBody | RemovesMeta | ForgetsEntry

  datatype Task =
    | Installing(body: Bytes, meta: Metadata, install: InstallStage)
    | LookingUp(lookup: LookupStage)
    | Removing(remove: RemoveStage)
    | Evicting(unlinked: bool)

  /** The operations in progress, at most one for an entry. */
  datatype World = World(cache: Cache, tasks: map<string, Task>)

  /** ok tells whether the file call of this step succeeds; Lose is the outside world deleting a body. */
  datatype Event =
    | Begin(id: string, task: Task)
    | Advance(id: string, ok: bool, now: int)
    | Lose(id: string)
    | Crash(mtime: string -> int)

  /** What one step of an operation does to the cache, and where the operation stands after it. */
  function Next(c: Cache, id: string, task: Task, ok: bool, now: int): (Option<Effect>, Option<Task>)
    requires IsId(id)
  {
    match task
    case Installing(body, meta, RenamesBody) =>
      if ok then (Some(PutBody(id, body)), Some(task.(install := WritesMeta))) else (None, None)
    case Installing(body, meta, WritesMeta) =>
      if ok then (Some(PutMeta(id, meta)), Some(task.(install := Commits)))
      else (None, Some(task.(install := CleansUp)))
    case Installing(_, _, CleansUp) => (Some(DropBody(id)), None)
    case Installing(_, meta, Commits) => (Some(Locked(Commit(id, meta, BodyPath(c.dir, id), now))), None)
    case LookingUp(PeeksIndex) =>
      if !Cached(c, id) then (None, Some(LookingUp(ReadsMeta)))
      else if c.ix.entries[id].bodyPath == "" then (None, None)
      else (None, Some(LookingUp(ChecksFile(c.ix.entries[id].meta.value, c.ix.entries[id].bodyPath))))
    case LookingUp(ChecksFile(_, _)) => (None, Some(LookingUp(if id in c.disk.bodies then Touches else MarksMissing)))
    case LookingUp(MarksMissing) => (Some(Locked(MarkMissing(id))), None)
    case LookingUp(Touches) => (Some(Locked(Touch(id, now))), None)
    case LookingUp(ReadsMeta) =>
      (None, if id in c.disk.metas then Some(LookingUp(ChecksBody(c.disk.metas[id]))) else None)
    case LookingUp(ChecksBody(meta)) => (None, if id in c.disk.bodies then Some(LookingUp(Promotes(meta))) else None)
    case LookingUp(Promotes(meta)) => (Some(Locked(Promote(id, meta, BodyPath(c.dir, id), now))), None)
    case Removing(RemovesBody) => (Some(DropBody(id)), Some(Removing(RemovesMeta)))
    case Removing(RemovesMeta) => (if ok then Some(DropMeta(id)) else None, Some(Removing(ForgetsEntry)))
    case Removing(ForgetsEntry) => (Some(Locked(Forget(id))), None)
    case Evicting(false) => (Some(DropBody(id)), Some(Evicting(true)))
    case Evicting(true) => (Some(Locked(DiskIndex.Evict(id))), None)
  }

  /** The answer of a lookup, at the step that settles it. */
  function Answer(c: Cache, id: string, stage: LookupStage): Option<Found>
    requires IsId(id)
  {
    match stage
    case PeeksIndex =>
      if Cached(c, id) && c.ix.entries[id].bodyPath == "" then Some(Found(c.ix.entries[id].meta, "", false)) else None
    case ChecksFile(meta, path) =>
      Some(if id in c.disk.bodies then Found(Some(meta), path, true) else Found(Some(meta), "", false))
    case ReadsMeta => if id in c.disk.metas then None else Some(Found(None, "", false))
    case ChecksBody(meta) =>
      Some(if id in c.disk.bodies then Found(Some(meta), BodyPath(c.dir, id), true) else Found(Some(meta), "", false))
    case _ => None
  }

  /** An operation that is left alone, all its file calls succeeding, for at most a number of further steps. */
  function Alone(c: Cache, id: string, task: Task, now: int, further: nat): Cache
    requires IsId(id)
    decreases further
  {
    var (effect, next) := Next(c, id, task, true, now);
    var after := if effect.Some? then Perform(c, effect.value) else c;
    if next.None? || further == 0 then after else Alone(after, id, next.value, now, further - 1)
  }

  /** Left alone, an operation does step by step what it does at once. */
  lemma AloneIsAtomic(c: Cache, id: string, body: Bytes, meta: Metadata, now: int)
    requires IsId(id) && Agrees(c)
    ensures Alone(c, id, Installing(body, meta, RenamesBody), now, 2)
            == AfterInstall(c, id, body, meta, InstallEnv(true, true, true, true, now)).0
    ensures Alone(c, id, Removing(RemovesBody), now, 2) == AfterRemove(c, id, RemoveEnv(true, true))
    ensures Alone(c, id, Evicting(false), now, 1) == EvictOne(c, id, true)
  {
    InstallIsEffects(c, id, body, meta, now);
    RemovalIsEffects(c, id);
    var put := Perform(c, PutBody(id, body));
    assert Alone(c, id, Installing(body, meta, RenamesBody), now, 2)
           == Alone(put, id, Installing(body, meta, WritesMeta), now, 1)
           == Alone(Perform(put, PutMeta(id, meta)), id, Installing(body, meta, Commits), now, 0);
    var dropped := Perform(c, DropBody(id));
    assert Alone(c, id, Removing(RemovesBody), now, 2)
           == Alone(dropped, id, Removing(RemovesMeta), now, 1)
           == Alone(Perform(dropped, DropMeta(id)), id, Removing(ForgetsEntry), now, 0);
    assert Alone(c, id, Evicting(false), now, 1) == Alone(dropped, id, Evicting(true), now, 0);
  }

  lemma LookupAloneIsAtomic(c: Cache, id: string, now: int)
    requires IsId(id) && Agrees(c)
    ensures Alone(c, id, LookingUp(PeeksIndex), now, 3) == AfterLookup(c, id, now)
  {
    if Cached(c, id) {
      var e := c.ix.entries[id];
      assert EntryAgrees(c.dir, c.disk, id, e);
      if e.bodyPath == "" {
        assert c.ix.entries[id := e.(hasBody := false, bodyPath := "")] == c.ix.entries;
      } else {
        var stage := if id in c.disk.bodies then Touches else MarksMissing;
        assert Alone(c, id, LookingUp(PeeksIndex), now, 3)
               == Alone(c, id, LookingUp(ChecksFile(e.meta.value, e.bodyPath)), now, 2)
               == Alone(c, id, LookingUp(stage), now, 1);
        assert e.meta == Some(c.disk.metas[id]) && e.bodyPath == BodyPath(c.dir, id);
      }
    } else {
      assert Alone(c, id, LookingUp(PeeksIndex), now, 3) == Alone(c, id, LookingUp(ReadsMeta), now, 2);
      if id in c.disk.metas {
        var meta := c.disk.metas[id];
        assert Alone(c, id, LookingUp(ReadsMeta), now, 2) == Alone(c, id, LookingUp(ChecksBody(meta)), now, 1);
        if id in c.disk.bodies {
          assert Alone(c, id, LookingUp(ChecksBody(meta)), now, 1) == Alone(c, id, LookingUp(Promotes(meta)), now, 0);
        }
      }
    }
  }

  ghost predicate IsStart(sha: HashFunction, task: Task) {
    match task
    case Installing(body, meta, stage) => stage == RenamesBody && Describes(sha, meta, body) && Proportioned(meta)
    case LookingUp(stage) => stage == PeeksIndex
    case Removing(stage) => stage == RemovesBody
    case Evicting(unlinked) => !unlinked
  }

  /** An Install between its two renames, or about to undo the first. */
  predicate Torn(task: Task) {
    task.Installing? && (task.install.WritesMeta? || task.install.CleansUp?)
  }

  /** Where a crash does no harm: no Install is between its renames over metadata about other bytes. */
  ghost predicate CrashSafe(sha: HashFunction, w: World) {
    forall id :: id in w.tasks && Torn(w.tasks[id]) && id in w.cache.disk.bodies ==>
      NothingToContradict(sha, w.cache.disk, id, w.tasks[id].body)
  }

  ghost predicate Enabled(sha: HashFunction, w: World, e: Event) {
    match e
    case Begin(id, task) => IsId(id) && id !in w.tasks && IsStart(sha, task)
    case Advance(id, _, _) => IsId(id) && id in w.tasks
    case Lose(id) => IsId(id)
    case Crash(_) => CrashSafe(sha, w)
  }

  function PerformIfAny(c: Cache, e: Option<Effect>): Cache {
    if e.Some? then Perform(c, e.value) else c
  }

  ghost function Step(sha: HashFunction, w: World, e: Event): World
    requires Enabled(sha, w, e)
  {
    match e
    case Begin(id, task) => w.(tasks := w.tasks[id := task])
    case Advance(id, ok, now) =>
      var (effect, task) := Next(w.cache, id, w.tasks[id], ok, now);
      World(PerformIfAny(w.cache, effect), if task.Some? then w.tasks[id := task.value] else w.tasks - {id})
    case Lose(id) => w.(cache := LocalCache.LoseBody(w.cache, id))
    case Crash(mtime) => World(LocalCache.Restart(w.cache.dir, w.cache.disk, mtime), map[])
  }

  ghost predicate SoundAt(sha: HashFunction, disk: Disk, id: string) {
    id in disk.metas ==>
      Proportioned(disk.metas[id]) && (id in disk.bodies ==> Describes(sha, disk.metas[id], disk.bodies[id]))
  }

  /** What holds of an entry while no operation works on it. */
  ghost predicate Settled(sha: HashFunction, c: Cache, id: string) {
    HoldsAt(Agreement, c, id) && SoundAt(sha, c.disk, id)
  }

  /** The body that a running Install has put in place, unless the outside world took it. */
  ghost predicate HasPut(c: Cache, id: string, body: Bytes) {
    id in c.disk.bodies ==> c.disk.bodies[id] == body
  }

  /** What holds of an entry while an operation works on it. */
  ghost predicate TaskOk(sha: HashFunction, c: Cache, id: string, task: Task)
    requires IsId(id)
  {
    match task
    case Installing(body, meta, stage) =>
      && Describes(sha, meta, body) && Proportioned(meta)
      && (match stage
          case RenamesBody => Settled(sha, c, id)
          case Commits => Stored(c, id, meta) && HasPut(c, id, body)
          case _ => Settled(sha, LocalCache.LoseBody(c, id), id) && HasPut(c, id, body))
    case LookingUp(stage) =>
      && Settled(sha, c, id)
      && (match stage
          case ChecksFile(meta, path) => Stored(c, id, meta) && path == BodyPath(c.dir, id)
          case MarksMissing => id !in c.disk.bodies
          case ChecksBody(meta) => Stored(c, id, meta)
          case Promotes(meta) => Stored(c, id, meta)
          case _ => true)
    case Removing(RemovesBody) => Settled(sha, c, id)
    case Removing(RemovesMeta) => Settled(sha, c, id) && id !in c.disk.bodies
    case Removing(ForgetsEntry) => SoundAt(sha, c.disk, id) && id !in c.disk.bodies
    case Evicting(unlinked) => Settled(sha, c, id) && (unlinked ==> id !in c.disk.bodies)
  }

  ghost predicate EntryOk(sha: HashFunction, w: World, id: string) {
    if id in w.tasks then IsId(id) && TaskOk(sha, w.cache, id, w.tasks[id]) else Settled(sha, w.cache, id)
  }

  ghost predicate Inv(sha: HashFunction, w: World) {
    Shaped(w.cache) && forall id :: EntryOk(sha, w, id)
  }

  /** Two caches in which one entry and its files look the same. */
  ghost predicate SameAt(c: Cache, d: Cache, id: string) {
    && c.dir == d.dir
    && (id in c.ix.entries <==> id in d.ix.entries) && (id in c.ix.entries ==> c.ix.entries[id] == d.ix.entries[id])
    && (id in c.disk.bodies <==> id in d.disk.bodies)
    && (id in c.disk.bodies ==> c.disk.bodies[id] == d.disk.bodies[id])
    && (id in c.disk.metas <==> id in d.disk.metas) && (id in c.disk.metas ==> c.disk.metas[id] == d.disk.metas[id])
  }

  lemma SettledSame(sha: HashFunction, c: Cache, d: Cache, id: string)
    requires SameAt(c, d, id) && Settled(sha, c, id)
    ensures Settled(sha, d, id)
  {
  }

  lemma TaskSame(sha: HashFunction, c: Cache, d: Cache, id: string, task: Task)
    requires IsId(id) && SameAt(c, d, id) && TaskOk(sha, c, id, task)
    ensures TaskOk(sha, d, id, task)
  {
    assert SameAt(LocalCache.LoseBody(c, id), LocalCache.LoseBody(d, id), id);
    if Settled(sha, c, id) {
      SettledSame(sha, c, d, id);
    }
    if Settled(sha, LocalCache.LoseBody(c, id), id) {
      SettledSame(sha, LocalCache.LoseBody(c, id), LocalCache.LoseBody(d, id), id);
    }
  }

  lemma OthersSame(c: Cache, e: Effect, id: string, other: string)
    requires other != id && (Target(e) == Some(id) || (e.Locked? && e.section.Touch? && e.section.id == id))
    ensures SameAt(c, Perform(c, e), other)
  {
  }

  /** A step of an Install leaves its entry settled, or where its next stage expects it. */
  lemma InstallAdvances(sha: HashFunction, c: Cache, id: string, task: Task, ok: bool, now: int)
    requires Shaped(c) && IsId(id) && task.Installing? && TaskOk(sha, c, id, task)
    ensures var (effect, next) := Next(c, id, task, ok, now);
      var after := PerformIfAny(c, effect);
      if next.Some? then TaskOk(sha, after, id, next.value) else Settled(sha, after, id)
  {
    match task.install
    case RenamesBody =>
    case WritesMeta =>
    case CleansUp =>
    case Commits =>
  }

  lemma LookupAdvances(sha: HashFunction, c: Cache, id: string, task: Task, ok: bool, now: int)
    requires Shaped(c) && IsId(id) && task.LookingUp? && TaskOk(sha, c, id, task)
    ensures var (effect, next) := Next(c, id, task, ok, now);
      var after := PerformIfAny(c, effect);
      if next.Some? then TaskOk(sha, after, id, next.value) else Settled(sha, after, id)
  {
    match task.lookup
    case PeeksIndex =>
    case ChecksFile(_, _) =>
    case MarksMissing =>
    case Touches =>
    case ReadsMeta =>
    case ChecksBody(_) =>
    case Promotes(_) =>
  }

  lemma RemovalAdvances(sha: HashFunction, c: Cache, id: string, task: Task, ok: bool, now: int)
    requires Shaped(c) && IsId(id) && (task.Removing? || task.Evicting?) && TaskOk(sha, c, id, task)
    ensures var (effect, next) := Next(c, id, task, ok, now);
      var after := PerformIfAny(c, effect);
      if next.Some? then TaskOk(sha, after, id, next.value) else Settled(sha, after, id)
  {
  }

  lemma TaskAdvances(sha: HashFunction, c: Cache, id: string, task: Task, ok: bool, now: int)
    requires Shaped(c) && IsId(id) && TaskOk(sha, c, id, task)
    ensures var (effect, next) := Next(c, id, task, ok, now);
      var after := PerformIfAny(c, effect);
      if next.Some? then TaskOk(sha, after, id, next.value) else Settled(sha, after, id)
  {
    match task
    case Installing(_, _, _) => InstallAdvances(sha, c, id, task, ok, now);
    case LookingUp(_) => LookupAdvances(sha, c, id, task, ok, now);
    case _ => RemovalAdvances(sha, c, id, task, ok, now);
  }

  lemma TaskSurvivesLoss(sha: HashFunction, c: Cache, id: string, task: Task)
    requires IsId(id) && TaskOk(sha, c, id, task)
    ensures TaskOk(sha, LocalCache.LoseBody(c, id), id, task)
  {
  }

  lemma EntrySame(sha: HashFunction, w: World, v: World, id: string)
    requires EntryOk(sha, w, id) && SameAt(w.cache, v.cache, id)
    requires (id in w.tasks <==> id in v.tasks) && (id in w.tasks ==> w.tasks[id] == v.tasks[id])
    ensures EntryOk(sha, v, id)
  {
    if id in w.tasks {
      TaskSame(sha, w.cache, v.cache, id, w.tasks[id]);
    } else {
      SettledSame(sha, w.cache, v.cache, id);
    }
  }

  lemma AdvanceInv(sha: HashFunction, w: World, id: string, ok: bool, now: int)
    requires Inv(sha, w) && Enabled(sha, w, Advance(id, ok, now))
    ensures Inv(sha, Step(sha, w, Advance(id, ok, now)))
  {
    var v := Step(sha, w, Advance(id, ok, now));
    var (effect, _) := Next(w.cache, id, w.tasks[id], ok, now);
    assert EntryOk(sha, w, id);
    TaskAdvances(sha, w.cache, id, w.tasks[id], ok, now);
    if effect.Some? {
      PerformKeepsShape(w.cache, effect.value);
    }
    forall other
      ensures EntryOk(sha, v, other)
    {
      if other != id {
        assert EntryOk(sha, w, other);
        if effect.Some? {
          OthersSame(w.cache, effect.value, id, other);
        }
        EntrySame(sha, w, v, other);
      }
    }
  }

  lemma LoseInv(sha: HashFunction, w: World, id: string)
    requires Inv(sha, w) && IsId(id)
    ensures Inv(sha, Step(sha, w, Lose(id)))
  {
    var v := Step(sha, w, Lose(id));
    assert EntryOk(sha, w, id);
    if id in w.tasks {
      TaskSurvivesLoss(sha, w.cache, id, w.tasks[id]);
    }
    forall other
      ensures EntryOk(sha, v, other)
    {
      if other != id {
        assert EntryOk(sha, w, other);
        EntrySame(sha, w, v, other);
      }
    }
  }

  /** A directory is sound exactly when each of its entries is. */
  lemma SoundByEntry(sha: HashFunction, disk: Disk)
    ensures Sound(sha, disk) <==> forall id :: SoundAt(sha, disk, id)
  {
    if forall id :: SoundAt(sha, disk, id) {
      forall id | id in disk.metas
        ensures Proportioned(disk.metas[id]) && (id in disk.bodies ==> Describes(sha, disk.metas[id], disk.bodies[id]))
      {
        assert SoundAt(sha, disk, id);
      }
    }
  }

  /** In any reachable state, the directory is sound, as it stands, exactly when a crash there does no harm. */
  lemma CrashSafeIff(sha: HashFunction, w: World)
    requires Inv(sha, w)
    ensures Sound(sha, w.cache.disk) <==> CrashSafe(sha, w)
  {
    SoundByEntry(sha, w.cache.disk);
    forall id
      ensures SoundAt(sha, w.cache.disk, id) <==>
              (id in w.tasks && Torn(w.tasks[id]) && id in w.cache.disk.bodies ==>
                NothingToContradict(sha, w.cache.disk, id, w.tasks[id].body))
    {
      assert EntryOk(sha, w, id);
    }
  }

  lemma CrashInv(sha: HashFunction, w: World, mtime: string -> int)
    requires Inv(sha, w) && CrashSafe(sha, w)
    ensures Inv(sha, Step(sha, w, Crash(mtime)))
  {
    var v := Step(sha, w, Crash(mtime));
    CrashSafeIff(sha, w);
    SoundByEntry(sha, w.cache.disk);
    RestartAgrees(w.cache.dir, w.cache.disk, mtime);
    AgreementByEntry(v.cache);
  }

  lemma StepInv(sha: HashFunction, w: World, e: Event)
    requires Inv(sha, w) && Enabled(sha, w, e)
    ensures Inv(sha, Step(sha, w, e))
  {
    match e
    case Begin(id, task) =>
      forall other
        ensures EntryOk(sha, Step(sha, w, e), other)
      {
        assert EntryOk(sha, w, other);
      }
    case Advance(id, ok, now) => AdvanceInv(sha, w, id, ok, now);
    case Lose(id) => LoseInv(sha, w, id);
    case Crash(mtime) => CrashInv(sha, w, mtime);
  }

  ghost predicate IsRun(sha: HashFunction, w: World, es: seq<Event>)
    decreases |es|
  {
    es == [] || (Enabled(sha, w, es[0]) && IsRun(sha, Step(sha, w, es[0]), es[1..]))
  }

  ghost function Final(sha: HashFunction, w: World, es: seq<Event>): World
    requires IsRun(sha, w, es)
    decreases |es|
  {
    if es == [] then w else Final(sha, Step(sha, w, es[0]), es[1..])
  }

  lemma {:induction false} RunInv(sha: HashFunction, w: World, es: seq<Event>)
    requires Inv(sha, w) && IsRun(sha, w, es)
    ensures Inv(sha, Final(sha, w, es))
    decreases |es|
  {
    if es == [] {
    } else {
      StepInv(sha, w, es[0]);
      RunInv(sha, Step(sha, w, es[0]), es[1..]);
    }
  }

  lemma EmptyInv(sha: HashFunction, dir: string)
    ensures Inv(sha, World(Empty(dir), map[]))
  {
  }

  /** With nothing in progress, index and directory agree and the directory is sound. */
  lemma QuietIsGood(sha: HashFunction, w: World)
    requires Inv(sha, w) && w.tasks == map[]
    ensures Good(sha, w.cache)
  {
    CrashSafeIff(sha, w);
    forall id
      ensures HoldsAt(Agreement, w.cache, id)
    {
      assert EntryOk(sha, w, id);
    }
    AgreementByEntry(w.cache);
  }

  /**
   * In every interleaving of installs, lookups, removals, evictions, body losses and harmless crashes in
   * which no two operations work on one entry at once: every entry that no operation works on agrees with
   * its files, and its metadata describes its body; with nothing in progress the whole cache is good.
   */
  lemma SeparateEntriesGood(sha: HashFunction, dir: string, es: seq<Event>)
    requires IsRun(sha, World(Empty(dir), map[]), es)
    ensures var w := Final(sha, World(Empty(dir), map[]), es);
      && (forall id :: id !in w.tasks ==> Settled(sha, w.cache, id))
      && (w.tasks == map[] ==> Good(sha, w.cache))
      && (Sound(sha, w.cache.disk) <==> CrashSafe(sha, w))
  {
    EmptyInv(sha, dir);
    RunInv(sha, World(Empty(dir), map[]), es);
    var w := Final(sha, World(Empty(dir), map[]), es);
    CrashSafeIff(sha, w);
    forall id | id !in w.tasks
      ensures Settled(sha, w.cache, id)
    {
      assert EntryOk(sha, w, id);
    }
    if w.tasks == map[] {
      QuietIsGood(sha, w);
    }
  }

  /**
   * In every such interleaving a lookup answers, at the step that settles its answer, what the directory
   * alone says at that moment, and a hit names a body that the returned metadata describes.
   */
  lemma LookupsAnswerForDirectory(sha: HashFunction, dir: string, es: seq<Event>, id: string)
    requires IsRun(sha, World(Empty(dir), map[]), es) && IsId(id)
    ensures var w := Final(sha, World(Empty(dir), map[]), es);
      id in w.tasks && w.tasks[id].LookingUp? && Answer(w.cache, id, w.tasks[id].lookup).Some? ==>
        var found := Answer(w.cache, id, w.tasks[id].lookup).value;
        && found == DiskLookup(w.cache.dir, w.cache.disk, id)
        && (found.hit ==> Describes(sha, found.meta.value, w.cache.disk.bodies[id]))
  {
    EmptyInv(sha, dir);
    RunInv(sha, World(Empty(dir), map[]), es);
    assert EntryOk(sha, Final(sha, World(Empty(dir), map[]), es), id);
  }
}
