/**
 * For which inputs, worker counts and semaphores the request loop gets stuck, crashes, or ends without its
 * barrier: exact conditions, each with a run that shows it (internal/handler/handler.go, cmd/gocache-rbe/main.go).
 */
module PoolLimits {
  import opened Prelude
  import opened Pool

  ghost predicate SomeMustCrash(rs: seq<Request>) {
    exists r :: r in rs && MustCrash(r)
  }

  ghost predicate SomeMayCrash(rs: seq<Request>) {
    exists r :: r in rs && MayCrash(r)
  }

  ghost predicate SomePublishable(rs: seq<Request>) {
    exists r :: r in rs && Publishable(r)
  }

  datatype Setup = Setup(input: seq<Item>, numWorkers: nat, semaphore: nat)

  function Start(x: Setup): State {
    Init(x.input, x.numWorkers, x.semaphore)
  }

  ghost predicate Reachable(x: Setup, s: State) {
    exists es :: IsRun(Start(x), es) && Final(Start(x), es) == s
  }

  // ---- Putting runs together ----

  lemma {:induction false} RunConcat(s: State, es: seq<Event>, fs: seq<Event>)
    requires IsRun(s, es) && IsRun(Final(s, es), fs)
    ensures IsRun(s, es + fs) && Final(s, es + fs) == Final(Final(s, es), fs)
    decreases |es|
  {
    if es == [] {
      assert es + fs == fs;
    } else {
      RunConcat(Step(s, es[0]), es[1..], fs);
      assert (es + fs)[1..] == es[1..] + fs;
    }
  }

  lemma RunOne(s: State, e: Event)
    requires Enabled(s, e)
    ensures IsRun(s, [e]) && Final(s, [e]) == Step(s, e)
  {
    assert [e][1..] == [];
  }

  /** A run of es that ends in cur goes on by one event. */
  lemma Extend(s: State, es: seq<Event>, cur: State, e: Event) returns (longer: seq<Event>, next: State)
    requires IsRun(s, es) && Final(s, es) == cur && Enabled(cur, e)
    ensures next == Step(cur, e) && IsRun(s, longer) && Final(s, longer) == next
  {
    RunOne(cur, e);
    RunConcat(s, es, [e]);
    longer, next := es + [e], Step(cur, e);
  }

  // ---- One worker serves everything ----

  /** Between two requests: nothing is queued, and every worker waits. */
  ghost predicate Ready(s: State) {
    && s.reader.Reading? && s.queue == [] && !s.crashed && s.workers != []
    && forall w :: 0 <= w < |s.workers| ==> s.workers[w] == Idle
  }

  /** The first worker holds the next request, and all others wait. */
  ghost predicate Holding(s: State, r: Request) {
    && s.reader.Reading? && s.queue == [] && !s.crashed && s.workers != [] && s.workers[0] == Busy(r)
    && forall w :: 1 <= w < |s.workers| ==> s.workers[w] == Idle
  }

  lemma Hold(s: State) returns (es: seq<Event>, next: State)
    requires Ready(s) && s.unread != [] && s.unread[0].Req?
    ensures IsRun(s, es) && Final(s, es) == next && Holding(next, s.unread[0].r)
    ensures next.unread == s.unread[1..] && |next.workers| == |s.workers| && next.semaphore == s.semaphore
    ensures next.queued == s.queued && next.nextPublish == s.nextPublish
  {
    es, next := Extend(s, [], s, ReadItem);
    es, next := Extend(s, es, next, Enqueue);
    es, next := Extend(s, es, next, Dequeue(0));
  }

  lemma Release(s: State, r: Request) returns (es: seq<Event>, next: State)
    requires Holding(s, r) && !MustCrash(r)
    ensures IsRun(s, es) && Final(s, es) == next && Ready(next)
    ensures next.unread == s.unread && |next.workers| == |s.workers| && next.semaphore == s.semaphore
    ensures next.queued == if Publishable(r) then s.queued + {s.nextPublish} else s.queued
  {
    es, next := Extend(s, [], s, if r.kind.PutKind? then FinishPut(0, 0, Publishable(r)) else AnswerLocally(0, 0));
    es, next := Extend(s, es, next, WriteReply(0));
  }

  lemma ServeOne(s: State) returns (es: seq<Event>, next: State)
    requires Ready(s) && s.unread != [] && s.unread[0].Req? && !MustCrash(s.unread[0].r)
    ensures IsRun(s, es) && Final(s, es) == next && Ready(next)
    ensures next.unread == s.unread[1..] && |next.workers| == |s.workers| && next.semaphore == s.semaphore
    ensures Publishable(s.unread[0].r) || s.queued != {} ==> next.queued != {}
  {
    var held;
    es, held := Hold(s);
    var more;
    more, next := Release(held, s.unread[0].r);
    RunConcat(s, es, more);
    es := es + more;
    if Publishable(s.unread[0].r) {
      assert s.nextPublish in next.queued;
    }
  }

  /** All requests are served one by one, if none of them must crash; every publishable put starts its publish. */
  lemma {:induction false} ServeAll(s: State) returns (es: seq<Event>, next: State)
    requires Ready(s) && !SomeMustCrash(RequestsBefore(s.unread))
    ensures IsRun(s, es) && Final(s, es) == next && Ready(next)
    ensures RequestsBefore(next.unread) == [] && CloseOf(next.unread) == CloseOf(s.unread)
    ensures |next.workers| == |s.workers| && next.semaphore == s.semaphore
    ensures SomePublishable(RequestsBefore(s.unread)) || s.queued != {} ==> next.queued != {}
    decreases |s.unread|
  {
    if RequestsBefore(s.unread) == [] {
      es, next := [], s;
    } else {
      var r := s.unread[0].r;
      assert RequestsBefore(s.unread) == [r] + RequestsBefore(s.unread[1..]);
      assert r in RequestsBefore(s.unread);
      var served;
      es, served := ServeOne(s);
      assert forall q :: q in RequestsBefore(s.unread[1..]) ==> q in RequestsBefore(s.unread);
      var more;
      more, next := ServeAll(served);
      RunConcat(s, es, more);
      es := es + more;
      if SomePublishable(RequestsBefore(s.unread)) && !Publishable(r) {
        var q :| q in RequestsBefore(s.unread) && Publishable(q);
        assert q in RequestsBefore(s.unread[1..]);
      }
    }
  }

  /** The requests in front of the first one that can crash are served, and then it does. */
  lemma {:induction false} ServeUntilCrash(s: State) returns (es: seq<Event>)
    requires Ready(s) && SomeMayCrash(RequestsBefore(s.unread))
    ensures IsRun(s, es) && Final(s, es).crashed
    decreases |s.unread|
  {
    var r := s.unread[0].r;
    assert RequestsBefore(s.unread) == [r] + RequestsBefore(s.unread[1..]);
    if MayCrash(r) {
      var held;
      es, held := Hold(s);
      es, held := Extend(s, es, held, Crash(0));
    } else {
      var served, more;
      es, served := ServeOne(s);
      var q :| q in RequestsBefore(s.unread) && MayCrash(q);
      assert q in RequestsBefore(s.unread[1..]);
      more := ServeUntilCrash(served);
      RunConcat(s, es, more);
      es := es + more;
    }
  }

  /** With the channel closed and empty, the workers leave one after the other. */
  lemma {:induction false} AllLeave(s: State, n: nat) returns (es: seq<Event>, next: State)
    requires s.reader.Draining? && s.queue == [] && !s.crashed && n <= |s.workers|
    requires forall w :: 0 <= w < |s.workers| ==> s.workers[w] == if w < n then Exited else Idle
    ensures IsRun(s, es) && Final(s, es) == next && AllExited(next)
    ensures next.reader == s.reader && next.queued == s.queued && next.semaphore == s.semaphore && !next.crashed
    decreases |s.workers| - n
  {
    if n == |s.workers| {
      es, next := [], s;
    } else {
      var left;
      es, left := Extend(s, [], s, Exit(n));
      var more;
      more, next := AllLeave(left, n + 1);
      RunConcat(s, es, more);
      es := es + more;
    }
  }

  /** After the last request the loop comes past its workers, with the publishes as they are. */
  lemma PastWorkers(s: State) returns (es: seq<Event>, next: State)
    requires Ready(s) && RequestsBefore(s.unread) == []
    ensures IsRun(s, es) && Final(s, es) == next
    ensures next.reader == if CloseOf(s.unread).Some? then WaitingPublishes(CloseOf(s.unread).value) else Stopped(None)
    ensures AllExited(next) && next.queued == s.queued && next.semaphore == s.semaphore && !next.crashed
  {
    var draining, more, left;
    es, draining := Extend(s, [], s, ReadItem);
    more, left := AllLeave(draining, 0);
    RunConcat(s, es, more);
    es, next := Extend(s, es + more, left, WorkersDone);
  }

  /** The whole input can be served by one worker, if no request in it must crash. */
  lemma WholeRun(x: Setup) returns (s: State)
    requires 1 <= x.numWorkers && !SomeMustCrash(RequestsBefore(x.input))
    ensures Reachable(x, s) && AllExited(s) && !s.crashed
    ensures s.reader == if CloseOf(x.input).Some? then WaitingPublishes(CloseOf(x.input).value) else Stopped(None)
    ensures SomePublishable(RequestsBefore(x.input)) ==> s.queued != {}
  {
    var es, served := ServeAll(Start(x));
    var more;
    more, s := PastWorkers(served);
    RunConcat(Start(x), es, more);
  }

  // ---- What every reachable state tells about the input ----

  lemma ReachableInv(x: Setup, s: State)
    requires Reachable(x, s)
    ensures Inv(s, x.input) && |s.workers| == x.numWorkers && s.semaphore == x.semaphore
  {
    var es :| IsRun(Start(x), es) && Final(Start(x), es) == s;
    InitInv(x.input, x.numWorkers, x.semaphore);
    RunInv(Start(x), x.input, es);
  }

  /** Whatever has been taken is a request in front of the end of the input. */
  lemma TakenFromInput(input: seq<Item>, s: State, r: Request)
    requires InputInv(s, input) && r in s.taken
    ensures r in RequestsBefore(input)
  {
  }

  lemma {:induction false} CountedIfTaken(rs: seq<Request>, r: Request)
    requires r in rs && MustCrash(r)
    ensures 0 < InRequests(rs, Crashers)
  {
    if rs[0] == r {
    } else {
      CountedIfTaken(rs[1..], r);
    }
  }

  lemma {:induction false} NoCrasherReplies(out: seq<Line>)
    ensures InReplies(out, Crashers) == 0
  {
    if out == [] {
    } else {
      NoCrasherReplies(out[..|out| - 1]);
    }
  }

  /** Once all workers have left, no request that must crash has been taken. */
  lemma NoneMustCrash(s: State, input: seq<Item>)
    requires Inv(s, input) && AllExited(s) && s.queue == [] && ChannelClosed(s)
    ensures !SomeMustCrash(RequestsBefore(input))
  {
    NoWorkHeld(s.workers, Crashers);
    NoCrasherReplies(s.out);
    assert Conserved(s, Crashers);
    if SomeMustCrash(RequestsBefore(input)) {
      var r :| r in RequestsBefore(input) && MustCrash(r);
      CountedIfTaken(s.taken, r);
    }
  }

  /** A publish that is queued or running was started by a publishable put of the input. */
  lemma LivePublish(s: State, input: seq<Item>)
    requires Inv(s, input) && (s.queued != {} || s.running != {})
    ensures s.workers != [] && SomePublishable(RequestsBefore(input))
  {
    var n :| n in s.queued || n in s.running;
    assert n < s.nextPublish;
    var r :| r in s.taken && Publishable(r);
    TakenFromInput(input, s, r);
  }

  // ---- Crashes ----

  predicate HasWorkers(x: Setup) {
    1 <= x.numWorkers
  }

  /** The process can crash exactly when, in front of the end of the input, a get or put has an empty action. */
  lemma CrashIff(x: Setup)
    ensures (exists s :: Reachable(x, s) && s.crashed) <==> HasWorkers(x) && SomeMayCrash(RequestsBefore(x.input))
  {
    if HasWorkers(x) && SomeMayCrash(RequestsBefore(x.input)) {
      var es := ServeUntilCrash(Start(x));
      assert Reachable(x, Final(Start(x), es));
    }
    forall s | Reachable(x, s) && s.crashed
      ensures HasWorkers(x) && SomeMayCrash(RequestsBefore(x.input))
    {
      ReachableInv(x, s);
      var r :| r in s.taken && MayCrash(r);
      TakenFromInput(x.input, s, r);
    }
  }

  // ---- Getting stuck ----

  /** The two ways to get stuck: no worker takes the first request, or a close waits for a publish without a slot. */
  ghost predicate CanStick(x: Setup) {
    if !HasWorkers(x) then RequestsBefore(x.input) != []
    else
      && x.semaphore == 0 && CloseOf(x.input).Some?
      && SomePublishable(RequestsBefore(x.input)) && !SomeMustCrash(RequestsBefore(x.input))
  }

  lemma Stick(x: Setup) returns (s: State)
    requires CanStick(x)
    ensures Reachable(x, s) && Stuck(s)
  {
    if !HasWorkers(x) {
      RunOne(Start(x), ReadItem);
      s := Step(Start(x), ReadItem);
      assert Final(Start(x), [ReadItem]) == s;
    } else {
      s := WholeRun(x);
      ReachableInv(x, s);
      assert s.running == {} && s.waitGroup == |s.queued| && 0 < |s.queued|;
    }
  }

  /** Outside these two ways, something can happen until the loop or the process has ended. */
  lemma MovesUnlessStuck(x: Setup, s: State) returns (e: Event)
    requires Reachable(x, s) && !s.reader.Stopped? && !s.crashed && !CanStick(x)
    ensures Enabled(s, e)
  {
    ReachableInv(x, s);
    if s.workers != [] && s.semaphore != 0 {
      e := NoDeadlock(s, x.input);
    } else {
      match s.reader
      case Reading => e := ReadItem;
      case Sending(r) =>
        TakenFromInput(x.input, s, r);
        if |s.queue| < 2 * |s.workers| {
          e := Enqueue;
        } else {
          e := WorkerCanMove(s, x.input, 0);
        }
      case Draining(_) =>
        if AllExited(s) {
          e := WorkersDone;
        } else {
          var w :| 0 <= w < |s.workers| && !s.workers[w].Exited?;
          e := WorkerCanMove(s, x.input, w);
        }
      case WaitingPublishes(_) =>
        if s.queued != {} || s.running != {} {
          LivePublish(s, x.input);
          assert s.workers[0].Exited?;
          NoneMustCrash(s, x.input);
        }
        e := PublishesDone;
      case Trimming(_) => e := TrimDone;
      case ClosingClient(_) => e := ClientClosed;
      case Replying(_) => e := WriteCloseReply;
    }
  }

  /** A stuck state can be reached exactly in these two ways; the program runs with four slots for each worker. */
  lemma StuckIff(x: Setup)
    ensures (exists s :: Reachable(x, s) && Stuck(s)) <==> CanStick(x)
  {
    if CanStick(x) {
      var s := Stick(x);
    } else {
      forall s | Reachable(x, s)
        ensures !Stuck(s)
      {
        if !s.reader.Stopped? && !s.crashed {
          var e := MovesUnlessStuck(x, s);
        }
      }
    }
  }

  // ---- Ending well ----

  /** No run goes on from here. */
  ghost predicate Maximal(s: State) {
    forall e :: !Enabled(s, e)
  }

  /**
   * Every run that cannot go on has ended the loop with every request answered exactly when there is no way
   * to get stuck and no worker can meet a get or put with an empty action.
   */
  lemma EndsWellIff(x: Setup)
    ensures (forall s :: Reachable(x, s) && Maximal(s) ==> s.reader.Stopped? && AnswersAll(s.out, x.input))
            <==> !CanStick(x) && !(HasWorkers(x) && SomeMayCrash(RequestsBefore(x.input)))
  {
    StuckIff(x);
    CrashIff(x);
    if CanStick(x) {
      var s := Stick(x);
      assert Maximal(s);
    } else if HasWorkers(x) && SomeMayCrash(RequestsBefore(x.input)) {
      var s :| Reachable(x, s) && s.crashed;
      CrashedDoesNotEnd(x, s);
    } else {
      forall s | Reachable(x, s) && Maximal(s)
        ensures s.reader.Stopped? && AnswersAll(s.out, x.input)
      {
        assert !Stuck(s) && !s.crashed;
        var es :| IsRun(Start(x), es) && Final(Start(x), es) == s;
        RequestLoopExact(x.input, x.numWorkers, x.semaphore, es);
      }
    }
  }

  /** A run that has crashed goes no further, and had not ended before. */
  lemma {:induction false} CrashedStays(s: State, es: seq<Event>)
    requires IsRun(s, es) && !s.reader.Stopped? && Final(s, es).crashed
    ensures !Final(s, es).reader.Stopped?
    decreases |es|
  {
    if es == [] || Step(s, es[0]).reader.Stopped? {
    } else {
      CrashedStays(Step(s, es[0]), es[1..]);
    }
  }

  lemma CrashedDoesNotEnd(x: Setup, s: State)
    requires Reachable(x, s) && s.crashed
    ensures Maximal(s) && !s.reader.Stopped?
  {
    var es :| IsRun(Start(x), es) && Final(Start(x), es) == s;
    CrashedStays(Start(x), es);
  }

  // ---- The barrier at the end of the input ----

  /** When a run can end with a publish still queued or running. */
  ghost predicate CanSkipBarrier(x: Setup) {
    && HasWorkers(x) && CloseOf(x.input).None?
    && SomePublishable(RequestsBefore(x.input)) && !SomeMustCrash(RequestsBefore(x.input))
  }

  /**
   * Every run that ends the loop has awaited all publishes exactly when a close request ends the input, or
   * no put in front of its end can publish, or the loop cannot end: it has no worker, or a get must crash.
   */
  lemma BarrierIff(x: Setup)
    ensures (forall s :: Reachable(x, s) && s.reader.Stopped? ==> s.queued == {} && s.running == {})
            <==> !CanSkipBarrier(x)
  {
    if CanSkipBarrier(x) {
      var s := WholeRun(x);
    } else {
      forall s | Reachable(x, s) && s.reader.Stopped?
        ensures s.queued == {} && s.running == {}
      {
        StoppedBarrier(x, s);
      }
    }
  }

  lemma StoppedBarrier(x: Setup, s: State)
    requires Reachable(x, s) && s.reader.Stopped? && !CanSkipBarrier(x)
    ensures s.queued == {} && s.running == {}
  {
    ReachableInv(x, s);
    if s.reader.close.Some? {
      assert s.waitGroup == 0 && |s.queued| == 0 && |s.running| == 0;
    } else if s.queued != {} || s.running != {} {
      LivePublish(s, x.input);
      assert s.workers[0].Exited?;
      NoneMustCrash(s, x.input);
    }
  }
}
