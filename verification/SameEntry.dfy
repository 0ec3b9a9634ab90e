/**
 * Installs that overlap, on the same entry or not, call by call: they share the metadata temporary of the
 * entry, and each undoes its body when its metadata cannot be written (internal/cache/disk.go,
 * internal/cache/metadata.go).
 */
module SameEntry {
  import opened Prelude
  import opened Hex
  import opened Names
  import opened DiskIndex
  import opened FileSystem
  import opened Runs

  /** One Install: its body waits in a root temporary of its own. */
  datatype Job = Job(id: string, body: Bytes, meta: Metadata, temp: string)

  datatype Stage = Waiting | Renamed | Wrote | Undoing | Over

  /** Where a file of the directory comes from: the state before all these Installs, or one of them. */
  datatype Origin = Before | From(job: nat)

  /** The metadata temporary of an entry, and whether it holds all of the metadata it was written for. */
  datatype TempFile = TempFile(job: nat, whole: bool)

  datatype Files = Files(
    bodies: map<string, Origin>, temps: map<string, TempFile>, metas: map<string, Origin>, stages: seq<Stage>)

  /**
   * The calls of Install. Racing writers can garble the temporary (whole is false), and take it from each
   * other: a rename that finds none fails. A failed write or rename removes the temporary, whoever wrote it.
   */
  datatype Call =
    | PlaceBody(j: nat)
    | WriteTemp(j: nat, whole: bool)
    | FailWrite(j: nat, removes: bool)
    | PlaceMeta(j: nat)
    | FailPlace(j: nat)
    | Undo(j: nat)

  function Init(disk: Disk, jobs: seq<Job>): Files {
    Files(map id | id in disk.bodies :: Before, map[], map id | id in disk.metas :: Before, seq(|jobs|, _ => Waiting))
  }

  predicate Enabled(jobs: seq<Job>, f: Files, c: Call) {
    && c.j < |jobs| && c.j < |f.stages|
    && match c
       case PlaceBody(j) => f.stages[j].Waiting?
       case WriteTemp(j, _) => f.stages[j].Renamed?
       case FailWrite(j, _) => f.stages[j].Renamed?
       case PlaceMeta(j) => f.stages[j].Wrote? && jobs[j].id in f.temps
       case FailPlace(j) => f.stages[j].Wrote?
       case Undo(j) => f.stages[j].Undoing?
  }

  function Step(jobs: seq<Job>, f: Files, c: Call): Files
    requires Enabled(jobs, f, c)
  {
    var id := jobs[c.j].id;
    match c
    case PlaceBody(j) => f.(bodies := f.bodies[id := From(j)], stages := f.stages[j := Renamed])
    case WriteTemp(j, whole) => f.(temps := f.temps[id := TempFile(j, whole)], stages := f.stages[j := Wrote])
    case FailWrite(j, removes) =>
      f.(temps := if removes then f.temps - {id} else f.temps, stages := f.stages[j := Undoing])
    case PlaceMeta(j) =>
      f.(temps := f.temps - {id},
         metas := if f.temps[id].whole then f.metas[id := From(f.temps[id].job)] else f.metas - {id},
         stages := f.stages[j := Over])
    case FailPlace(j) => f.(temps := f.temps - {id}, stages := f.stages[j := Undoing])
    case Undo(j) => f.(bodies := f.bodies - {id}, stages := f.stages[j := Over])
  }

  ghost predicate IsRun(jobs: seq<Job>, f: Files, cs: seq<Call>)
    decreases |cs|
  {
    cs == [] || (Enabled(jobs, f, cs[0]) && IsRun(jobs, Step(jobs, f, cs[0]), cs[1..]))
  }

  ghost function Final(jobs: seq<Job>, f: Files, cs: seq<Call>): Files
    requires IsRun(jobs, f, cs)
    decreases |cs|
  {
    if cs == [] then f else Final(jobs, Step(jobs, f, cs[0]), cs[1..])
  }

  /** No Install is under way. */
  ghost predicate Quiet(f: Files) {
    forall j :: 0 <= j < |f.stages| ==> f.stages[j].Waiting? || f.stages[j].Over?
  }

  function BodyFrom(disk: Disk, jobs: seq<Job>, id: string, o: Origin): Bytes {
    match o
    case Before => if id in disk.bodies then disk.bodies[id] else []
    case From(j) => if j < |jobs| then jobs[j].body else []
  }

  function MetaFrom(disk: Disk, jobs: seq<Job>, id: string, o: Origin): Metadata {
    match o
    case Before => if id in disk.metas then disk.metas[id] else Metadata("", 0, 0, "", 0)
    case From(j) => if j < |jobs| then jobs[j].meta else Metadata("", 0, 0, "", 0)
  }

  function BodiesOf(disk: Disk, jobs: seq<Job>, origins: map<string, Origin>): map<string, Bytes> {
    map id | id in origins :: BodyFrom(disk, jobs, id, origins[id])
  }

  function MetasOf(disk: Disk, jobs: seq<Job>, origins: map<string, Origin>): map<string, Metadata> {
    map id | id in origins :: MetaFrom(disk, jobs, id, origins[id])
  }

  /** What a lookup sees of the directory. */
  function View(disk: Disk, jobs: seq<Job>, f: Files): Disk {
    Disk(BodiesOf(disk, jobs, f.bodies), MetasOf(disk, jobs, f.metas))
  }

  // ---- The calls are those of the file system ----

  /** A write that fails before there is a temporary to remove touches no file. */
  function DoCall(jobs: seq<Job>, fs: FS, c: Call, now: int): FS
    requires c.j < |jobs|
  {
    if c.FailWrite? && !c.removes then fs else Do(fs, MicroOf(jobs, c, now))
  }

  function MicroOf(jobs: seq<Job>, c: Call, now: int): Micro
    requires c.j < |jobs|
  {
    var job := jobs[c.j];
    match c
    case PlaceBody(_) => RenameBody(job.temp, job.id)
    case WriteTemp(_, whole) => WriteMetaTemp(job.id, if whole then Json(job.meta) else Partial, now)
    case FailWrite(_, _) => Unlink(CacheFile(job.id, MetaTemp))
    case PlaceMeta(_) => RenameMeta(job.id)
    case FailPlace(_) => Unlink(CacheFile(job.id, MetaTemp))
    case Undo(_) => Unlink(CacheFile(job.id, Body))
  }

  /** The files stand for a directory: it shows the same, and holds the temporaries. */
  ghost predicate StandsFor(disk: Disk, jobs: seq<Job>, f: Files, fs: FS) {
    WellFormed(fs) && Shows(fs, View(disk, jobs, f)) && HoldsTemps(jobs, f, fs)
  }

  ghost predicate MetaTempHeld(jobs: seq<Job>, f: Files, fs: FS, id: string)
    requires id in f.temps
  {
    && f.temps[id].job < |jobs| && CacheFile(id, MetaTemp) in fs
    && fs[CacheFile(id, MetaTemp)].content == if f.temps[id].whole then Json(jobs[f.temps[id].job].meta) else Partial
  }

  ghost predicate HoldsTemps(jobs: seq<Job>, f: Files, fs: FS) {
    && |f.stages| == |jobs|
    && (forall id :: id in f.temps ==> MetaTempHeld(jobs, f, fs, id))
    && (forall j :: 0 <= j < |jobs| && f.stages[j].Waiting? ==>
          Temp(jobs[j].temp) in fs && fs[Temp(jobs[j].temp)].content == Blob(jobs[j].body))
  }

  ghost predicate OwnTemps(jobs: seq<Job>) {
    && (forall j :: 0 <= j < |jobs| ==> IsId(jobs[j].id))
    && (forall i, j :: 0 <= i < j < |jobs| ==> jobs[i].temp != jobs[j].temp)
  }

  lemma BodiesOfUpdate(disk: Disk, jobs: seq<Job>, origins: map<string, Origin>, id: string, o: Origin)
    ensures BodiesOf(disk, jobs, origins[id := o]) == BodiesOf(disk, jobs, origins)[id := BodyFrom(disk, jobs, id, o)]
    ensures BodiesOf(disk, jobs, origins - {id}) == BodiesOf(disk, jobs, origins) - {id}
  {
  }

  lemma MetasOfUpdate(disk: Disk, jobs: seq<Job>, origins: map<string, Origin>, id: string, o: Origin)
    ensures MetasOf(disk, jobs, origins[id := o]) == MetasOf(disk, jobs, origins)[id := MetaFrom(disk, jobs, id, o)]
    ensures MetasOf(disk, jobs, origins - {id}) == MetasOf(disk, jobs, origins) - {id}
  {
  }

  lemma ViewOfStep(disk: Disk, jobs: seq<Job>, f: Files, fs: FS, c: Call, now: int)
    requires StandsFor(disk, jobs, f, fs) && Enabled(jobs, f, c)
    ensures View(disk, jobs, Step(jobs, f, c)) == Effect(fs, View(disk, jobs, f), MicroOf(jobs, c, now))
  {
    var id := jobs[c.j].id;
    match c
    case PlaceBody(j) => BodiesOfUpdate(disk, jobs, f.bodies, id, From(j));
    case PlaceMeta(_) => MetasOfUpdate(disk, jobs, f.metas, id, From(f.temps[id].job));
    case Undo(_) => BodiesOfUpdate(disk, jobs, f.bodies, id, Before);
    case _ =>
  }

  lemma MetaTempOfStep(jobs: seq<Job>, f: Files, fs: FS, c: Call, now: int, id: string)
    requires HoldsTemps(jobs, f, fs) && Enabled(jobs, f, c) && id in Step(jobs, f, c).temps
    ensures MetaTempHeld(jobs, Step(jobs, f, c), DoCall(jobs, fs, c, now), id)
  {
    if id in f.temps {
      assert MetaTempHeld(jobs, f, fs, id);
    }
  }

  lemma BodyTempOfStep(jobs: seq<Job>, f: Files, fs: FS, c: Call, now: int, j: nat)
    requires OwnTemps(jobs) && HoldsTemps(jobs, f, fs) && Enabled(jobs, f, c)
    requires j < |jobs| && Step(jobs, f, c).stages[j].Waiting?
    ensures var next := DoCall(jobs, fs, c, now);
      Temp(jobs[j].temp) in next && next[Temp(jobs[j].temp)].content == Blob(jobs[j].body)
  {
  }

  lemma TempsOfStep(jobs: seq<Job>, f: Files, fs: FS, c: Call, now: int)
    requires OwnTemps(jobs) && HoldsTemps(jobs, f, fs) && Enabled(jobs, f, c)
    ensures HoldsTemps(jobs, Step(jobs, f, c), DoCall(jobs, fs, c, now))
  {
    forall id | id in Step(jobs, f, c).temps
      ensures MetaTempHeld(jobs, Step(jobs, f, c), DoCall(jobs, fs, c, now), id)
    {
      MetaTempOfStep(jobs, f, fs, c, now, id);
    }
    forall j: nat | j < |jobs| && Step(jobs, f, c).stages[j].Waiting? {
      BodyTempOfStep(jobs, f, fs, c, now, j);
    }
  }

  /** Each call here is the file-system call of the same name, seen through the directory. */
  lemma CallIsMicro(disk: Disk, jobs: seq<Job>, f: Files, fs: FS, c: Call, now: int)
    requires OwnTemps(jobs) && StandsFor(disk, jobs, f, fs) && Enabled(jobs, f, c)
    ensures StandsFor(disk, jobs, Step(jobs, f, c), DoCall(jobs, fs, c, now))
  {
    ViewOfStep(disk, jobs, f, fs, c, now);
    TempsOfStep(jobs, f, fs, c, now);
    var m := MicroOf(jobs, c, now);
    MicroKeepsShape(fs, m);
    BodiesEffect(fs, View(disk, jobs, f), m);
    MetasEffect(fs, View(disk, jobs, f), m);
  }

  // ---- When the survivors fit together ----

  /** Every Install of an entry carries metadata that describes the bytes of every other Install of it. */
  ghost predicate Interchangeable(sha: HashFunction, jobs: seq<Job>) {
    forall i, j :: 0 <= i < |jobs| && 0 <= j < |jobs| && jobs[i].id == jobs[j].id ==>
      Describes(sha, jobs[i].meta, jobs[j].body)
  }

  ghost predicate Proper(sha: HashFunction, jobs: seq<Job>) {
    forall j :: 0 <= j < |jobs| ==> Describes(sha, jobs[j].meta, jobs[j].body) && Proportioned(jobs[j].meta)
  }

  ghost predicate OriginOk(jobs: seq<Job>, stages: seq<Stage>, id: string, o: Origin)
    requires |stages| == |jobs|
  {
    o.From? ==> o.job < |jobs| && jobs[o.job].id == id && !stages[o.job].Waiting?
  }

  /** A body is from before only while no Install of its entry has begun; a kept one has had its metadata replaced. */
  ghost predicate BodiesOk(disk: Disk, jobs: seq<Job>, f: Files)
    requires |f.stages| == |jobs|
  {
    forall id :: id in f.bodies ==>
      && OriginOk(jobs, f.stages, id, f.bodies[id])
      && (f.bodies[id].Before? ==>
            id in disk.bodies && forall j :: 0 <= j < |jobs| && jobs[j].id == id ==> f.stages[j].Waiting?)
      && (f.bodies[id].From? && f.stages[f.bodies[id].job].Over? && id in f.metas ==> f.metas[id].From?)
  }

  ghost predicate MetasOk(disk: Disk, jobs: seq<Job>, f: Files)
    requires |f.stages| == |jobs|
  {
    && (forall id :: id in f.metas ==>
          OriginOk(jobs, f.stages, id, f.metas[id]) && (f.metas[id].Before? ==> id in disk.metas))
    && (forall id :: id in f.temps ==> OriginOk(jobs, f.stages, id, From(f.temps[id].job)))
  }

  ghost predicate Inv(disk: Disk, jobs: seq<Job>, f: Files) {
    |f.stages| == |jobs| && BodiesOk(disk, jobs, f) && MetasOk(disk, jobs, f)
  }

  lemma OriginsStay(jobs: seq<Job>, f: Files, c: Call, id: string, o: Origin)
    requires |f.stages| == |jobs| && Enabled(jobs, f, c) && OriginOk(jobs, f.stages, id, o)
    ensures OriginOk(jobs, Step(jobs, f, c).stages, id, o)
  {
  }

  lemma StepBodies(disk: Disk, jobs: seq<Job>, f: Files, c: Call, id: string)
    requires Inv(disk, jobs, f) && Enabled(jobs, f, c) && id in Step(jobs, f, c).bodies
    ensures var next := Step(jobs, f, c);
      && OriginOk(jobs, next.stages, id, next.bodies[id])
      && (next.bodies[id].Before? ==>
            id in disk.bodies && forall j :: 0 <= j < |jobs| && jobs[j].id == id ==> next.stages[j].Waiting?)
      && (next.bodies[id].From? && next.stages[next.bodies[id].job].Over? && id in next.metas ==> next.metas[id].From?)
  {
    if id in f.bodies {
      OriginsStay(jobs, f, c, id, f.bodies[id]);
    }
  }

  lemma StepMetas(disk: Disk, jobs: seq<Job>, f: Files, c: Call)
    requires Inv(disk, jobs, f) && Enabled(jobs, f, c)
    ensures MetasOk(disk, jobs, Step(jobs, f, c))
  {
    var next := Step(jobs, f, c);
    forall id | id in next.metas
      ensures OriginOk(jobs, next.stages, id, next.metas[id]) && (next.metas[id].Before? ==> id in disk.metas)
    {
      OriginsStay(jobs, f, c, id, next.metas[id]);
    }
    forall id | id in next.temps
      ensures OriginOk(jobs, next.stages, id, From(next.temps[id].job))
    {
      if id in f.temps {
        OriginsStay(jobs, f, c, id, From(f.temps[id].job));
      }
    }
  }

  lemma StepInv(disk: Disk, jobs: seq<Job>, f: Files, c: Call)
    requires Inv(disk, jobs, f) && Enabled(jobs, f, c)
    ensures Inv(disk, jobs, Step(jobs, f, c))
  {
    forall id | id in Step(jobs, f, c).bodies {
      StepBodies(disk, jobs, f, c, id);
    }
    StepMetas(disk, jobs, f, c);
  }

  lemma {:induction false} RunInv(disk: Disk, jobs: seq<Job>, f: Files, cs: seq<Call>)
    requires Inv(disk, jobs, f) && IsRun(jobs, f, cs)
    ensures Inv(disk, jobs, Final(jobs, f, cs))
    decreases |cs|
  {
    if cs == [] {
    } else {
      StepInv(disk, jobs, f, cs[0]);
      RunInv(disk, jobs, Step(jobs, f, cs[0]), cs[1..]);
    }
  }

  lemma InterchangeableIsSound(sha: HashFunction, disk: Disk, jobs: seq<Job>, f: Files)
    requires Sound(sha, disk) && Proper(sha, jobs) && Interchangeable(sha, jobs) && Inv(disk, jobs, f) && Quiet(f)
    ensures Sound(sha, View(disk, jobs, f))
  {
    var view := View(disk, jobs, f);
    forall id | id in view.metas && id in view.bodies
      ensures Describes(sha, view.metas[id], view.bodies[id])
    {
      if f.bodies[id].Before? {
        assert f.metas[id].Before?;
      } else {
        assert f.stages[f.bodies[id].job].Over?;
      }
    }
  }

  lemma RunCons(jobs: seq<Job>, f: Files, c: Call, cs: seq<Call>) returns (longer: seq<Call>)
    requires Enabled(jobs, f, c) && IsRun(jobs, Step(jobs, f, c), cs)
    ensures IsRun(jobs, f, longer) && Final(jobs, f, longer) == Final(jobs, Step(jobs, f, c), cs)
  {
    longer := [c] + cs;
    assert longer[1..] == cs;
  }

  /** An Install whose body is in place writes its metadata undisturbed. */
  function Published(jobs: seq<Job>, f: Files, k: nat): (p: Files)
    requires |f.stages| == |jobs| && k < |jobs| && f.stages[k].Renamed?
    ensures p.bodies == f.bodies && p.stages == f.stages[k := Over] && p.metas == f.metas[jobs[k].id := From(k)]
  {
    Step(jobs, Step(jobs, f, WriteTemp(k, true)), PlaceMeta(k))
  }

  lemma PublishRun(jobs: seq<Job>, f: Files, k: nat, rest: seq<Call>) returns (cs: seq<Call>)
    requires |f.stages| == |jobs| && k < |jobs| && f.stages[k].Renamed? && IsRun(jobs, Published(jobs, f, k), rest)
    ensures IsRun(jobs, f, cs) && Final(jobs, f, cs) == Final(jobs, Published(jobs, f, k), rest)
  {
    cs := RunCons(jobs, Step(jobs, f, WriteTemp(k, true)), PlaceMeta(k), rest);
    cs := RunCons(jobs, f, WriteTemp(k, true), cs);
  }

  /** Body of one, body of the other, metadata of the other, metadata of the first. */
  lemma CrossedRun(jobs: seq<Job>, f: Files, i: nat, j: nat) returns (cs: seq<Call>)
    requires |f.stages| == |jobs| && i < |jobs| && j < |jobs| && i != j && jobs[i].id == jobs[j].id
    requires f.stages[i].Waiting? && f.stages[j].Waiting?
    ensures IsRun(jobs, f, cs)
    ensures var end := Final(jobs, f, cs);
      && end.stages == f.stages[i := Over][j := Over]
      && jobs[i].id in end.bodies && end.bodies[jobs[i].id] == From(j)
      && jobs[i].id in end.metas && end.metas[jobs[i].id] == From(i)
  {
    var f1 := Step(jobs, f, PlaceBody(i));
    var f2 := Step(jobs, f1, PlaceBody(j));
    var f3 := Published(jobs, f2, j);
    var f4 := Published(jobs, f3, i);
    assert f4.stages == f.stages[i := Over][j := Over];
    cs := PublishRun(jobs, f3, i, []);
    cs := PublishRun(jobs, f2, j, cs);
    cs := RunCons(jobs, f1, PlaceBody(j), cs);
    cs := RunCons(jobs, f, PlaceBody(i), cs);
  }

  lemma CrossedIsUnsound(sha: HashFunction, disk: Disk, jobs: seq<Job>, i: nat, j: nat) returns (cs: seq<Call>)
    requires i < |jobs| && j < |jobs| && i != j && jobs[i].id == jobs[j].id
    requires !Describes(sha, jobs[i].meta, jobs[j].body)
    ensures IsRun(jobs, Init(disk, jobs), cs) && Quiet(Final(jobs, Init(disk, jobs), cs))
    ensures !Sound(sha, View(disk, jobs, Final(jobs, Init(disk, jobs), cs)))
  {
    cs := CrossedRun(jobs, Init(disk, jobs), i, j);
    var view := View(disk, jobs, Final(jobs, Init(disk, jobs), cs));
    assert jobs[i].id in view.metas && jobs[i].id in view.bodies;
  }

  /**
   * Whatever way their calls interleave, Installs leave a sound directory whenever none is under way,
   * exactly when all Installs of the same entry are interchangeable. Installs of distinct entries always are.
   */
  lemma OverlappingInstallsSoundIff(sha: HashFunction, disk: Disk, jobs: seq<Job>)
    requires Sound(sha, disk) && Proper(sha, jobs)
    ensures (forall cs :: IsRun(jobs, Init(disk, jobs), cs) && Quiet(Final(jobs, Init(disk, jobs), cs)) ==>
              Sound(sha, View(disk, jobs, Final(jobs, Init(disk, jobs), cs))))
            <==> Interchangeable(sha, jobs)
  {
    if Interchangeable(sha, jobs) {
      forall cs | IsRun(jobs, Init(disk, jobs), cs) && Quiet(Final(jobs, Init(disk, jobs), cs))
        ensures Sound(sha, View(disk, jobs, Final(jobs, Init(disk, jobs), cs)))
      {
        RunInv(disk, jobs, Init(disk, jobs), cs);
        InterchangeableIsSound(sha, disk, jobs, Final(jobs, Init(disk, jobs), cs));
      }
    } else {
      var i, j :|
        0 <= i < |jobs| && 0 <= j < |jobs| && jobs[i].id == jobs[j].id && !Describes(sha, jobs[i].meta, jobs[j].body);
      var cs := CrossedIsUnsound(sha, disk, jobs, i, j);
    }
  }

  /** Without collisions, Installs are interchangeable exactly when those of one entry carry the same bytes. */
  lemma InterchangeableIff(sha: HashFunction, jobs: seq<Job>)
    requires Proper(sha, jobs) && NoCollision(sha, set j | 0 <= j < |jobs| :: jobs[j].body)
    ensures Interchangeable(sha, jobs) <==>
            forall i, j :: 0 <= i < |jobs| && 0 <= j < |jobs| && jobs[i].id == jobs[j].id ==>
              jobs[i].body == jobs[j].body
  {
    forall i, j | 0 <= i < |jobs| && 0 <= j < |jobs|
      ensures Describes(sha, jobs[i].meta, jobs[j].body) <==> jobs[i].body == jobs[j].body
    {
      var bodies := set k | 0 <= k < |jobs| :: jobs[k].body;
      assert jobs[i].body in bodies && jobs[j].body in bodies;
    }
  }
}
