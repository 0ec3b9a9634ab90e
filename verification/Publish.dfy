/** Background publishing as a step machine: any number of populates over one store (internal/handler/put.go). */
module Publish {
  import opened Prelude

  /** The four blobs an entry rests on, in upload order, the entry's key, and whether updates are enabled. */
  datatype Job = Job(blobs: seq<string>, key: string, publishes: bool)

  const BLOBS := 4

  /** Where a populate stands: about to ask for blob i, about to upload it, or about to update the action cache. */
  datatype Stage = Check(i: nat) | Push(i: nat) | Update(attempt: nat) | Finished(ok: bool)

  /** round is 1 after the restart that FAILED_PRECONDITION causes; updates counts update RPCs issued. */
  datatype Populate = Populate(job: Job, stage: Stage, round: nat, updates: nat)

  /** accepted records each action-cache write with what the store held at that moment. */
  datatype World = World(
    cas: set<string>, ac: map<string, Job>, populates: seq<Populate>, accepted: seq<(Job, set<string>)>)

  /** An update RPC may be applied although the client sees an error. */
  datatype UpdateOutcome = Accepted | Transient | TransientApplied | FailedPrecondition | Refused | RefusedApplied

  datatype Event =
    | Start(job: Job)
    | FindMissing(p: nat, ok: bool)
    | Upload(p: nat, applied: bool, ok: bool)
    | UpdateResult(p: nat, outcome: UpdateOutcome)
    | Drop(blobs: set<string>)

  /** collects: the store may drop blobs; strict: it applies no update whose blobs are not all present. */
  datatype Server = Server(collects: bool, strict: bool)

  predicate Complete(job: Job, cas: set<string>) {
    forall i :: 0 <= i < |job.blobs| ==> job.blobs[i] in cas
  }

  predicate Applies(o: UpdateOutcome) {
    o.Accepted? || o.TransientApplied? || o.RefusedApplied?
  }

  predicate Enabled(s: Server, w: World, e: Event) {
    match e
    case Start(job) => |job.blobs| == BLOBS
    case FindMissing(p, _) => p < |w.populates| && w.populates[p].stage.Check?
    case Upload(p, applied, ok) => p < |w.populates| && w.populates[p].stage.Push? && (ok ==> applied)
    case UpdateResult(p, outcome) =>
      && p < |w.populates| && w.populates[p].stage.Update?
      && (s.strict && Applies(outcome) ==> Complete(w.populates[p].job, w.cas))
    case Drop(_) => s.collects
  }

  function After(job: Job, i: nat): Stage {
    if i + 1 < BLOBS then Check(i + 1) else if job.publishes then Update(0) else Finished(true)
  }

  /** The retry loop makes three attempts; FAILED_PRECONDITION restarts the uploads once. */
  function AfterUpdate(m: Populate, outcome: UpdateOutcome): Populate
    requires m.stage.Update?
  {
    var stage :=
      match outcome
      case Accepted => Finished(true)
      case Transient => if m.stage.attempt < 2 then Update(m.stage.attempt + 1) else Finished(false)
      case TransientApplied => if m.stage.attempt < 2 then Update(m.stage.attempt + 1) else Finished(false)
      case FailedPrecondition => if m.round == 0 then Check(0) else Finished(false)
      case _ => Finished(false);
    Populate(m.job, stage, if outcome.FailedPrecondition? && m.round == 0 then 1 else m.round, m.updates + 1)
  }

  /** Stage indices stay in range, there are at most two rounds, and three update RPCs a round. */
  predicate Shaped(m: Populate) {
    && |m.job.blobs| == BLOBS
    && m.round <= 1
    && match m.stage
       case Check(i) => i < BLOBS && m.updates <= 3 * m.round
       case Push(i) => i < BLOBS && m.updates <= 3 * m.round
       case Update(attempt) => attempt <= 2 && m.updates <= 3 * m.round + attempt
       case Finished(_) => m.updates <= 3 * m.round + 3
  }

  /** What a populate knows to be in the store, as long as nothing is dropped. */
  predicate Secured(m: Populate, cas: set<string>)
    requires Shaped(m)
  {
    match m.stage
    case Check(n) => forall i :: 0 <= i < n ==> m.job.blobs[i] in cas
    case Push(n) => forall i :: 0 <= i < n ==> m.job.blobs[i] in cas
    case Update(_) => Complete(m.job, cas)
    case Finished(_) => true
  }

  ghost predicate AllShaped(w: World) {
    forall p :: 0 <= p < |w.populates| ==> Shaped(w.populates[p])
  }

  function Step(s: Server, w: World, e: Event): World
    requires Enabled(s, w, e) && AllShaped(w)
  {
    match e
    case Start(job) => w.(populates := w.populates + [Populate(job, Check(0), 0, 0)])
    case FindMissing(p, ok) =>
      var m := w.populates[p];
      assert Shaped(m);
      var i := m.stage.i;
      var stage := if !ok then Finished(false) else if m.job.blobs[i] in w.cas then After(m.job, i) else Push(i);
      w.(populates := w.populates[p := m.(stage := stage)])
    case Upload(p, applied, ok) =>
      var m := w.populates[p];
      assert Shaped(m);
      var i := m.stage.i;
      w.(cas := if applied then w.cas + {m.job.blobs[i]} else w.cas,
         populates := w.populates[p := m.(stage := if ok then After(m.job, i) else Finished(false))])
    case UpdateResult(p, outcome) =>
      var m := w.populates[p];
      World(w.cas,
            if Applies(outcome) then w.ac[m.job.key := m.job] else w.ac,
            w.populates[p := AfterUpdate(m, outcome)],
            if Applies(outcome) then w.accepted + [(m.job, w.cas)] else w.accepted)
    case Drop(blobs) => w.(cas := w.cas - blobs)
  }

  lemma StepKeepsShape(s: Server, w: World, e: Event)
    requires AllShaped(w) && Enabled(s, w, e)
    ensures AllShaped(Step(s, w, e))
  {
  }

  ghost predicate EntriesComplete(w: World) {
    forall k :: k in w.ac ==> w.ac[k].key == k && Complete(w.ac[k], w.cas)
  }

  ghost predicate AcceptedComplete(w: World) {
    forall i :: 0 <= i < |w.accepted| ==> Complete(w.accepted[i].0, w.accepted[i].1)
  }

  /** A run is a sequence of events, each enabled where it happens. */
  ghost predicate IsRun(s: Server, w: World, es: seq<Event>)
    requires AllShaped(w)
    decreases |es|
  {
    es == [] || (Enabled(s, w, es[0]) && (StepKeepsShape(s, w, es[0]); IsRun(s, Step(s, w, es[0]), es[1..])))
  }

  ghost function Final(s: Server, w: World, es: seq<Event>): World
    requires AllShaped(w) && IsRun(s, w, es)
    decreases |es|
  {
    if es == [] then w else StepKeepsShape(s, w, es[0]); Final(s, Step(s, w, es[0]), es[1..])
  }

  lemma StepSecures(s: Server, w: World, e: Event, p: nat)
    requires AllShaped(w) && Enabled(s, w, e) && !e.Drop?
    requires p < |w.populates| && Secured(w.populates[p], w.cas)
    ensures p < |Step(s, w, e).populates| && Shaped(Step(s, w, e).populates[p])
    ensures Secured(Step(s, w, e).populates[p], Step(s, w, e).cas)
    ensures w.cas <= Step(s, w, e).cas
  {
  }

  /** As long as nothing is dropped, a populate that starts or restarts reaches its update with all blobs in place. */
  lemma {:induction false} RunSecures(s: Server, w: World, es: seq<Event>, p: nat)
    requires AllShaped(w) && IsRun(s, w, es) && forall i :: 0 <= i < |es| ==> !es[i].Drop?
    requires p < |w.populates| && Secured(w.populates[p], w.cas)
    ensures var end := Final(s, w, es);
      p < |end.populates| && Shaped(end.populates[p]) && Secured(end.populates[p], end.cas)
    decreases |es|
  {
    if es == [] {
    } else {
      StepSecures(s, w, es[0], p);
      StepKeepsShape(s, w, es[0]);
      RunSecures(s, Step(s, w, es[0]), es[1..], p);
    }
  }

  /**
   * The restart works: whatever was dropped before, a populate sent back to its first blob is complete
   * when it updates again, provided nothing is dropped meanwhile.
   */
  lemma RestartCompletes(s: Server, w: World, es: seq<Event>, p: nat)
    requires AllShaped(w) && IsRun(s, w, es) && forall i :: 0 <= i < |es| ==> !es[i].Drop?
    requires p < |w.populates| && w.populates[p].stage == Check(0)
    ensures var end := Final(s, w, es);
      && p < |end.populates|
      && (end.populates[p].stage.Update? ==> Complete(end.populates[p].job, end.cas))
  {
    RunSecures(s, w, es, p);
  }

  ghost predicate Ordered(w: World) {
    AllShaped(w) && EntriesComplete(w) && forall p :: 0 <= p < |w.populates| ==> Secured(w.populates[p], w.cas)
  }

  lemma StepOrdered(s: Server, w: World, e: Event)
    requires Ordered(w) && Enabled(s, w, e) && !e.Drop?
    ensures Ordered(Step(s, w, e))
  {
    StepKeepsShape(s, w, e);
    var next := Step(s, w, e);
    forall p | 0 <= p < |next.populates|
      ensures Secured(next.populates[p], next.cas)
    {
      if p < |w.populates| {
        StepSecures(s, w, e, p);
      }
    }
  }

  /**
   * Publish ordering: on a store that drops nothing, in every interleaving of any number of populates,
   * every action-cache entry has all four of its blobs in the store.
   */
  lemma {:induction false} PublishOrdering(s: Server, w: World, es: seq<Event>)
    requires !s.collects && Ordered(w) && IsRun(s, w, es)
    ensures Ordered(Final(s, w, es))
    decreases |es|
  {
    if es == [] {
    } else {
      StepOrdered(s, w, es[0]);
      StepKeepsShape(s, w, es[0]);
      PublishOrdering(s, Step(s, w, es[0]), es[1..]);
    }
  }

  function NoPopulates(cas: set<string>): World {
    World(cas, map[], [], [])
  }

  lemma {:induction false} RunKeepsShape(s: Server, w: World, es: seq<Event>)
    requires AllShaped(w) && IsRun(s, w, es)
    ensures AllShaped(Final(s, w, es))
    decreases |es|
  {
    if es == [] {
    } else {
      StepKeepsShape(s, w, es[0]);
      RunKeepsShape(s, Step(s, w, es[0]), es[1..]);
    }
  }

  /** On every server and in every run, a populate makes at most two update rounds of at most three RPCs. */
  lemma AtMostTwoRounds(s: Server, w: World, es: seq<Event>)
    requires AllShaped(w) && IsRun(s, w, es)
    ensures var end := Final(s, w, es);
      forall p :: 0 <= p < |end.populates| ==> end.populates[p].round <= 1 && end.populates[p].updates <= 6
  {
    RunKeepsShape(s, w, es);
    var end := Final(s, w, es);
    forall p | 0 <= p < |end.populates|
      ensures end.populates[p].round <= 1 && end.populates[p].updates <= 6
    {
      assert Shaped(end.populates[p]);
    }
  }

  /** With collection, a server that rejects incomplete updates has had every entry complete when it accepted it. */
  lemma {:induction false} AcceptedWhenComplete(s: Server, w: World, es: seq<Event>)
    requires s.strict && AllShaped(w) && AcceptedComplete(w) && IsRun(s, w, es)
    ensures AcceptedComplete(Final(s, w, es))
    decreases |es|
  {
    if es == [] {
    } else {
      StepKeepsShape(s, w, es[0]);
      AcceptedWhenComplete(s, Step(s, w, es[0]), es[1..]);
    }
  }

  lemma RunCons(s: Server, w: World, e: Event, es: seq<Event>)
    requires AllShaped(w) && Enabled(s, w, e) && AllShaped(Step(s, w, e)) && IsRun(s, Step(s, w, e), es)
    ensures IsRun(s, w, [e] + es) && Final(s, w, [e] + es) == Final(s, Step(s, w, e), es)
  {
    assert ([e] + es)[1..] == es;
  }

  // ---- What an update RPC leads to ----

  /**
   * A populate whose update meets FAILED_PRECONDITION for the first time starts over with its first blob and,
   * if nothing is dropped meanwhile, has all blobs in place when it updates again; the second time it fails.
   */
  lemma FailedPreconditionReuploads(s: Server, w: World, p: nat, es: seq<Event>)
    requires AllShaped(w) && Enabled(s, w, UpdateResult(p, FailedPrecondition))
    requires AllShaped(Step(s, w, UpdateResult(p, FailedPrecondition)))
    requires IsRun(s, Step(s, w, UpdateResult(p, FailedPrecondition)), es) && forall i :: 0 <= i < |es| ==> !es[i].Drop?
    ensures var next := Step(s, w, UpdateResult(p, FailedPrecondition));
      var end := Final(s, next, es);
      && next.cas == w.cas && next.ac == w.ac && next.accepted == w.accepted
      && p < |next.populates| && next.populates[p].job == w.populates[p].job
      && (w.populates[p].round == 0 ==> next.populates[p].stage == Check(0) && next.populates[p].round == 1)
      && (w.populates[p].round != 0 ==> next.populates[p].stage == Finished(false))
      && p < |end.populates|
      && (w.populates[p].round == 0 && end.populates[p].stage.Update? ==> Complete(end.populates[p].job, end.cas))
  {
    RunKeeps(s, Step(s, w, UpdateResult(p, FailedPrecondition)), es);
    if w.populates[p].round == 0 {
      RestartCompletes(s, Step(s, w, UpdateResult(p, FailedPrecondition)), es, p);
    }
  }

  lemma {:induction false} RunKeeps(s: Server, w: World, es: seq<Event>)
    requires AllShaped(w) && IsRun(s, w, es)
    ensures |w.populates| <= |Final(s, w, es).populates|
    decreases |es|
  {
    if es == [] {
    } else {
      StepKeepsShape(s, w, es[0]);
      RunKeeps(s, Step(s, w, es[0]), es[1..]);
    }
  }

  /** An accepted update ends a populate well and leaves its entry; a refused one fails it; others are retried. */
  lemma UpdateEnds(s: Server, w: World, p: nat, outcome: UpdateOutcome)
    requires AllShaped(w) && Enabled(s, w, UpdateResult(p, outcome)) && outcome != FailedPrecondition
    ensures var next := Step(s, w, UpdateResult(p, outcome));
      var before, after := w.populates[p], next.populates[p];
      && next.cas == w.cas && after.job == before.job && after.round == before.round
      && (outcome == Accepted ==> after.stage == Finished(true))
      && (outcome == Accepted || outcome == TransientApplied || outcome == RefusedApplied ==>
            before.job.key in next.ac && next.ac[before.job.key] == before.job)
      && (outcome == Transient || outcome == Refused ==> next.ac == w.ac)
      && (outcome == Refused || outcome == RefusedApplied ==> after.stage == Finished(false))
      && (outcome == Transient || outcome == TransientApplied ==>
            after.stage == if before.stage.attempt == 2 then Finished(false) else Update(before.stage.attempt + 1))
  {
    assert Shaped(w.populates[p]);
  }

  /** A failed question or upload ends the populate without an entry; an upload may have arrived nevertheless. */
  lemma FailedRpcEnds(s: Server, w: World, p: nat, applied: bool)
    requires AllShaped(w) && p < |w.populates| && (w.populates[p].stage.Check? || w.populates[p].stage.Push?)
    ensures var e := if w.populates[p].stage.Check? then FindMissing(p, false) else Upload(p, applied, false);
      Enabled(s, w, e) && Step(s, w, e).populates == w.populates[p := w.populates[p].(stage := Finished(false))]
      && Step(s, w, e).ac == w.ac && Step(s, w, e).accepted == w.accepted
      && Step(s, w, e).cas == (if w.populates[p].stage.Push? && applied
                               then w.cas + {w.populates[p].job.blobs[w.populates[p].stage.i]} else w.cas)
  {
    assert Shaped(w.populates[p]);
  }

  // ---- A populate that meets no errors ----

  predicate AtBlob(w: World, p: nat) {
    p < |w.populates| && w.populates[p].stage.Check?
  }

  /** The populate at a blob gets it into the store, by finding it there or by uploading it. */
  lemma BlobArrives(s: Server, w: World, p: nat) returns (es: seq<Event>, next: World)
    requires AllShaped(w) && AtBlob(w, p)
    ensures AllShaped(next) && IsRun(s, w, es) && Final(s, w, es) == next
    ensures next.cas == w.cas + {w.populates[p].job.blobs[w.populates[p].stage.i]} && next.ac == w.ac
    ensures next.populates
            == w.populates[p := w.populates[p].(stage := After(w.populates[p].job, w.populates[p].stage.i))]
  {
    StepKeepsShape(s, w, FindMissing(p, true));
    var asked := Step(s, w, FindMissing(p, true));
    if w.populates[p].job.blobs[w.populates[p].stage.i] in w.cas {
      next, es := asked, [FindMissing(p, true)];
      assert w.cas + {w.populates[p].job.blobs[w.populates[p].stage.i]} == w.cas;
      RunCons(s, w, FindMissing(p, true), []);
      assert es == [FindMissing(p, true)] + [];
    } else {
      StepKeepsShape(s, asked, Upload(p, true, true));
      next, es := Step(s, asked, Upload(p, true, true)), [FindMissing(p, true), Upload(p, true, true)];
      RunCons(s, asked, Upload(p, true, true), []);
      RunCons(s, w, FindMissing(p, true), [Upload(p, true, true)]);
      assert es == [FindMissing(p, true)] + ([Upload(p, true, true)] + []);
    }
  }

  lemma {:induction false} RunAfterRun(s: Server, w: World, es: seq<Event>, fs: seq<Event>)
    requires AllShaped(w) && IsRun(s, w, es) && AllShaped(Final(s, w, es)) && IsRun(s, Final(s, w, es), fs)
    ensures IsRun(s, w, es + fs) && Final(s, w, es + fs) == Final(s, Final(s, w, es), fs)
    decreases |es|
  {
    if es == [] {
      assert es + fs == fs;
    } else {
      StepKeepsShape(s, w, es[0]);
      RunAfterRun(s, Step(s, w, es[0]), es[1..], fs);
      assert (es + fs)[1..] == es[1..] + fs;
    }
  }

  /** From any blob on, the populate comes past its last one. */
  lemma {:induction false} BlobsArrive(s: Server, w: World, p: nat) returns (es: seq<Event>, next: World)
    requires AllShaped(w) && AtBlob(w, p)
    ensures AllShaped(next) && IsRun(s, w, es) && Final(s, w, es) == next && next.ac == w.ac && w.cas <= next.cas
    ensures |next.populates| == |w.populates| && next.populates[p].job == w.populates[p].job
    ensures next.populates[p].stage == if w.populates[p].job.publishes then Update(0) else Finished(true)
    ensures forall i :: w.populates[p].stage.i <= i < BLOBS ==> w.populates[p].job.blobs[i] in next.cas
    decreases BLOBS - w.populates[p].stage.i
  {
    assert Shaped(w.populates[p]);
    var i := w.populates[p].stage.i;
    es, next := BlobArrives(s, w, p);
    if i + 1 < BLOBS {
      var more, end := BlobsArrive(s, next, p);
      RunAfterRun(s, w, es, more);
      es, next := es + more, end;
    }
  }

  /**
   * Whatever the store holds, a populate that starts and meets no errors gets all four blobs into the store
   * and ends well, with its entry in the action cache when updates are enabled and without one when not.
   */
  lemma HealthyPopulate(s: Server, w: World, job: Job) returns (es: seq<Event>, end: World)
    requires AllShaped(w) && |job.blobs| == BLOBS
    ensures IsRun(s, w, es) && Final(s, w, es) == end && Complete(job, end.cas)
    ensures |end.populates| == |w.populates| + 1
    ensures end.populates[|w.populates|].job == job && end.populates[|w.populates|].stage == Finished(true)
    ensures if job.publishes then job.key in end.ac && end.ac[job.key] == job else end.ac == w.ac
  {
    var p := |w.populates|;
    StepKeepsShape(s, w, Start(job));
    var started := Step(s, w, Start(job));
    var blobs, ready := BlobsArrive(s, started, p);
    if job.publishes {
      var last := UpdateResult(p, Accepted);
      StepKeepsShape(s, ready, last);
      end := Step(s, ready, last);
      RunCons(s, ready, last, []);
      assert [last] + [] == [last];
      RunAfterRun(s, started, blobs, [last]);
      RunCons(s, w, Start(job), blobs + [last]);
      es := [Start(job)] + (blobs + [last]);
    } else {
      end := ready;
      RunCons(s, w, Start(job), blobs);
      es := [Start(job)] + blobs;
    }
  }

  // ---- Which servers keep what ----

  /** On a store that drops nothing, every accepted update was complete, whether or not the server checks. */
  lemma {:induction false} AcceptedWhenNothingDropped(s: Server, w: World, es: seq<Event>)
    requires !s.collects && Ordered(w) && AcceptedComplete(w) && IsRun(s, w, es)
    ensures AcceptedComplete(Final(s, w, es))
    decreases |es|
  {
    if es == [] {
    } else {
      StepOrdered(s, w, es[0]);
      StepKeepsShape(s, w, es[0]);
      AcceptedWhenNothingDropped(s, Step(s, w, es[0]), es[1..]);
    }
  }

  const SAMPLE := Job(["body", "command", "directory", "action"], "action", true)

  /** Populate p at its i-th blob, which is missing: it asks, and uploads. */
  function Stored(s: Server, w: World, p: nat): (next: World)
    requires AllShaped(w) && p < |w.populates| && w.populates[p].stage.Check?
    requires w.populates[p].job.blobs[w.populates[p].stage.i] !in w.cas
    ensures AllShaped(next) && next.ac == w.ac && next.accepted == w.accepted
    ensures next.cas == w.cas + {w.populates[p].job.blobs[w.populates[p].stage.i]}
    ensures next.populates
            == w.populates[p := w.populates[p].(stage := After(w.populates[p].job, w.populates[p].stage.i))]
  {
    StepKeepsShape(s, w, FindMissing(p, true));
    var asked := Step(s, w, FindMissing(p, true));
    StepKeepsShape(s, asked, Upload(p, true, true));
    Step(s, asked, Upload(p, true, true))
  }

  lemma StoredRun(s: Server, w: World, p: nat, rest: seq<Event>) returns (es: seq<Event>)
    requires AllShaped(w) && p < |w.populates| && w.populates[p].stage.Check?
    requires w.populates[p].job.blobs[w.populates[p].stage.i] !in w.cas
    requires IsRun(s, Stored(s, w, p), rest)
    ensures IsRun(s, w, es) && Final(s, w, es) == Final(s, Stored(s, w, p), rest)
  {
    StepKeepsShape(s, w, FindMissing(p, true));
    var asked := Step(s, w, FindMissing(p, true));
    RunCons(s, asked, Upload(p, true, true), rest);
    RunCons(s, w, FindMissing(p, true), [Upload(p, true, true)] + rest);
    es := [FindMissing(p, true)] + ([Upload(p, true, true)] + rest);
  }

  /** One populate, alone on a store that has dropped everything, with its first n blobs stored. */
  function AfterBlobs(n: nat): World
    requires n <= BLOBS
  {
    World(set i | 0 <= i < n :: SAMPLE.blobs[i], map[],
          [Populate(SAMPLE, if n < BLOBS then Check(n) else Update(0), 0, 0)], [])
  }

  lemma {:induction false} BlobsRun(s: Server, n: nat, rest: seq<Event>) returns (es: seq<Event>)
    requires n <= BLOBS && IsRun(s, AfterBlobs(BLOBS), rest)
    ensures IsRun(s, AfterBlobs(n), es) && Final(s, AfterBlobs(n), es) == Final(s, AfterBlobs(BLOBS), rest)
    decreases BLOBS - n
  {
    if n == BLOBS {
      es := rest;
    } else {
      es := BlobsRun(s, n + 1, rest);
      StoredNext(s, n);
      es := StoredRun(s, AfterBlobs(n), 0, es);
    }
  }

  lemma StoredNext(s: Server, n: nat)
    requires n < BLOBS
    ensures SAMPLE.blobs[n] !in AfterBlobs(n).cas
    ensures Stored(s, AfterBlobs(n), 0) == AfterBlobs(n + 1)
  {
    var b := SAMPLE.blobs;
    assert b[0] != b[1] && b[0] != b[2] && b[0] != b[3] && b[1] != b[2] && b[1] != b[3] && b[2] != b[3];
    assert Stored(s, AfterBlobs(n), 0).cas == AfterBlobs(n + 1).cas;
  }

  /** On a collecting store, whatever it held, the one populate can come to its update with all blobs stored. */
  lemma SampleRun(s: Server, cas: set<string>, rest: seq<Event>) returns (es: seq<Event>)
    requires s.collects && IsRun(s, AfterBlobs(BLOBS), rest)
    ensures IsRun(s, NoPopulates(cas), es) && Final(s, NoPopulates(cas), es) == Final(s, AfterBlobs(BLOBS), rest)
  {
    es := BlobsRun(s, 0, rest);
    var dropped := Step(s, NoPopulates(cas), Drop(cas));
    assert dropped == NoPopulates({});
    assert Step(s, dropped, Start(SAMPLE)) == AfterBlobs(0);
    RunCons(s, dropped, Start(SAMPLE), es);
    RunCons(s, NoPopulates(cas), Drop(cas), [Start(SAMPLE)] + es);
    es := [Drop(cas)] + ([Start(SAMPLE)] + es);
  }

  /** An entry goes stale when the store drops a blob after accepting it, even on a server that checks. */
  lemma StaleEntryExample(s: Server, cas: set<string>) returns (es: seq<Event>)
    requires s.collects
    ensures IsRun(s, NoPopulates(cas), es) && !EntriesComplete(Final(s, NoPopulates(cas), es))
  {
    var ready := AfterBlobs(BLOBS);
    assert SAMPLE.blobs[0] == "body";
    assert forall i :: 0 <= i < BLOBS ==> SAMPLE.blobs[i] in ready.cas;
    var updated := Step(s, ready, UpdateResult(0, Accepted));
    StepKeepsShape(s, ready, UpdateResult(0, Accepted));
    var stale := Step(s, updated, Drop({"body"}));
    RunCons(s, updated, Drop({"body"}), []);
    RunCons(s, ready, UpdateResult(0, Accepted), [Drop({"body"})]);
    es := SampleRun(s, cas, [UpdateResult(0, Accepted), Drop({"body"})]);
    assert [UpdateResult(0, Accepted), Drop({"body"})] == [UpdateResult(0, Accepted)] + [Drop({"body"})];
    assert "action" in stale.ac && stale.ac["action"].blobs[0] !in stale.cas;
  }

  /** A server that does not check accepts an update whose blob was dropped before it. */
  lemma IncompleteUpdateExample(s: Server, cas: set<string>) returns (es: seq<Event>)
    requires s.collects && !s.strict
    ensures IsRun(s, NoPopulates(cas), es) && !AcceptedComplete(Final(s, NoPopulates(cas), es))
  {
    var ready := AfterBlobs(BLOBS);
    var lacking := Step(s, ready, Drop({"body"}));
    StepKeepsShape(s, ready, Drop({"body"}));
    var updated := Step(s, lacking, UpdateResult(0, Accepted));
    RunCons(s, lacking, UpdateResult(0, Accepted), []);
    RunCons(s, ready, Drop({"body"}), [UpdateResult(0, Accepted)]);
    es := SampleRun(s, cas, [Drop({"body"}), UpdateResult(0, Accepted)]);
    assert [Drop({"body"}), UpdateResult(0, Accepted)] == [Drop({"body"})] + [UpdateResult(0, Accepted)];
    assert SAMPLE.blobs[0] !in lacking.cas;
    assert updated.accepted[0] == (SAMPLE, lacking.cas);
  }

  /** Which servers keep every entry complete: exactly those that drop nothing. */
  lemma EntriesCompleteIff(s: Server, cas: set<string>)
    ensures (forall es :: IsRun(s, NoPopulates(cas), es) ==> EntriesComplete(Final(s, NoPopulates(cas), es)))
            <==> !s.collects
  {
    if s.collects {
      var es := StaleEntryExample(s, cas);
    } else {
      forall es | IsRun(s, NoPopulates(cas), es)
        ensures EntriesComplete(Final(s, NoPopulates(cas), es))
      {
        PublishOrdering(s, NoPopulates(cas), es);
      }
    }
  }

  /** Which servers accept complete updates only: exactly those that check, or drop nothing. */
  lemma AcceptedCompleteIff(s: Server, cas: set<string>)
    ensures (forall es :: IsRun(s, NoPopulates(cas), es) ==> AcceptedComplete(Final(s, NoPopulates(cas), es)))
            <==> s.strict || !s.collects
  {
    if s.collects && !s.strict {
      var es := IncompleteUpdateExample(s, cas);
    } else {
      forall es | IsRun(s, NoPopulates(cas), es)
        ensures AcceptedComplete(Final(s, NoPopulates(cas), es))
      {
        if s.strict {
          AcceptedWhenComplete(s, NoPopulates(cas), es);
        } else {
          AcceptedWhenNothingDropped(s, NoPopulates(cas), es);
        }
      }
    }
  }
}
