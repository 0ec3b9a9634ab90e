/**
 * Where the answers of the request loop come from, and the order in which requests are started, over whole
 * runs (internal/handler/handler.go, internal/handler/get.go).
 */
module PoolAnswers {
  import opened Prelude
  import opened Pool

  /** The state in which the k-th event of a run happens. */
  ghost function Before(start: State, es: seq<Event>, k: nat): State
    requires k <= |es|
  {
    if IsRun(start, es[..k]) then Final(start, es[..k]) else start
  }

  /**
   * The k-th event settles this answer for the request that worker w holds: the worker answers by itself, or
   * it leads a shared lookup that finishes, or it waits for one whose leader finishes with this answer.
   */
  ghost predicate Settles(start: State, es: seq<Event>, k: nat, w: nat, r: Request, a: Answer)
    requires k < |es|
  {
    var s := Before(start, es, k);
    && w < |s.workers|
    && match es[k]
       case AnswerLocally(v, data) => v == w && s.workers[w] == Busy(r) && a == Answer(r.action, data)
       case FinishPut(v, data, _) => v == w && s.workers[w] == Busy(r) && a == Answer(r.action, data)
       case FinishFlight(v, data) =>
         && v < |s.workers| && s.workers[v].Leading? && a == Answer(s.workers[v].r.action, data)
         && (if v == w then s.workers[w].r == r else s.workers[w] == Waiting(r, s.workers[v].flight))
       case _ => false
  }

  ghost predicate Settled(start: State, es: seq<Event>, w: nat, r: Request, a: Answer) {
    exists k: nat :: k < |es| && Settles(start, es, k, w, r, a)
  }

  /** Answers in hand, answers a waiter can wake to, and answers written have been settled by an event of the run. */
  ghost predicate AnswersSettled(start: State, es: seq<Event>, s: State) {
    && (forall w: nat :: w < |s.workers| && s.workers[w].Answering? ==>
          Settled(start, es, w, s.workers[w].r, s.workers[w].answer))
    && (forall w: nat :: w < |s.workers| && s.workers[w].Waiting? && s.workers[w].flight in s.results ==>
          Settled(start, es, w, s.workers[w].r, s.results[s.workers[w].flight]))
    && (forall i :: 0 <= i < |s.out| && s.out[i].Reply? ==> ReplySettled(start, es, s.out[i]))
  }

  ghost predicate ReplySettled(start: State, es: seq<Event>, line: Line)
    requires line.Reply?
  {
    exists w: nat, r: Request :: r.id == line.id && Settled(start, es, w, r, line.answer)
  }

  lemma SettledStays(start: State, es: seq<Event>, e: Event, w: nat, r: Request, a: Answer)
    requires Settled(start, es, w, r, a)
    ensures Settled(start, es + [e], w, r, a)
  {
    var k: nat :| k < |es| && Settles(start, es, k, w, r, a);
    assert (es + [e])[..k] == es[..k] && (es + [e])[k] == es[k];
    assert Settles(start, es + [e], k, w, r, a);
  }

  /** What the last event of a run settles. */
  lemma SettledNow(start: State, es: seq<Event>, e: Event, s: State, w: nat, r: Request, a: Answer)
    requires IsRun(start, es) && Final(start, es) == s && Enabled(s, e) && w < |s.workers|
    requires match e
             case AnswerLocally(v, data) => v == w && s.workers[w] == Busy(r) && a == Answer(r.action, data)
             case FinishPut(v, data, _) => v == w && s.workers[w] == Busy(r) && a == Answer(r.action, data)
             case FinishFlight(v, data) =>
               && a == Answer(s.workers[v].r.action, data)
               && (if v == w then s.workers[w].r == r else s.workers[w] == Waiting(r, s.workers[v].flight))
             case _ => false
    ensures Settled(start, es + [e], w, r, a)
  {
    assert (es + [e])[..|es|] == es && (es + [e])[|es|] == e;
    assert Settles(start, es + [e], |es|, w, r, a);
  }

  lemma StepWorkerSettled(start: State, es: seq<Event>, s: State, e: Event, w: nat)
    requires IsRun(start, es) && Final(start, es) == s && Enabled(s, e) && AnswersSettled(start, es, s)
    requires w < |Step(s, e).workers| && Step(s, e).workers[w].Answering?
    ensures Settled(start, es + [e], w, Step(s, e).workers[w].r, Step(s, e).workers[w].answer)
  {
    var next := Step(s, e).workers[w];
    if s.workers[w] == next {
      SettledStays(start, es, e, w, next.r, next.answer);
    } else if e.Wake? {
      SettledStays(start, es, e, w, next.r, next.answer);
    } else {
      SettledNow(start, es, e, s, w, next.r, next.answer);
    }
  }

  lemma StepWaiterSettled(start: State, es: seq<Event>, s: State, e: Event, w: nat)
    requires IsRun(start, es) && Final(start, es) == s && Enabled(s, e) && AnswersSettled(start, es, s) && FlightsInv(s)
    requires w < |Step(s, e).workers| && Step(s, e).workers[w].Waiting?
    requires Step(s, e).workers[w].flight in Step(s, e).results
    ensures Settled(start, es + [e], w, Step(s, e).workers[w].r, Step(s, e).results[Step(s, e).workers[w].flight])
  {
    var r, f := Step(s, e).workers[w].r, Step(s, e).workers[w].flight;
    assert s.workers[w] == Waiting(r, f);
    if e.FinishFlight? && s.workers[e.w].flight == f {
      SettledNow(start, es, e, s, w, r, Step(s, e).results[f]);
    } else {
      SettledStays(start, es, e, w, r, s.results[f]);
    }
  }

  lemma ReplyStays(start: State, es: seq<Event>, e: Event, line: Line)
    requires line.Reply? && ReplySettled(start, es, line)
    ensures ReplySettled(start, es + [e], line)
  {
    var w: nat, r: Request :| r.id == line.id && Settled(start, es, w, r, line.answer);
    SettledStays(start, es, e, w, r, line.answer);
  }

  lemma StepReplySettled(start: State, es: seq<Event>, s: State, e: Event, i: nat)
    requires IsRun(start, es) && Final(start, es) == s && Enabled(s, e) && AnswersSettled(start, es, s)
    requires i < |Step(s, e).out| && Step(s, e).out[i].Reply?
    ensures ReplySettled(start, es + [e], Step(s, e).out[i])
  {
    if i < |s.out| {
      assert Step(s, e).out[i] == s.out[i];
      ReplyStays(start, es, e, s.out[i]);
    } else {
      assert e.WriteReply?;
      SettledStays(start, es, e, e.w, s.workers[e.w].r, s.workers[e.w].answer);
    }
  }

  lemma StepSettled(start: State, es: seq<Event>, s: State, e: Event)
    requires IsRun(start, es) && Final(start, es) == s && Enabled(s, e) && AnswersSettled(start, es, s) && FlightsInv(s)
    ensures AnswersSettled(start, es + [e], Step(s, e))
  {
    var next := Step(s, e);
    forall w: nat | w < |next.workers| && next.workers[w].Answering?
      ensures Settled(start, es + [e], w, next.workers[w].r, next.workers[w].answer)
    {
      StepWorkerSettled(start, es, s, e, w);
    }
    forall w: nat | w < |next.workers| && next.workers[w].Waiting? && next.workers[w].flight in next.results
      ensures Settled(start, es + [e], w, next.workers[w].r, next.results[next.workers[w].flight])
    {
      StepWaiterSettled(start, es, s, e, w);
    }
    forall i | 0 <= i < |next.out| && next.out[i].Reply?
      ensures ReplySettled(start, es + [e], next.out[i])
    {
      StepReplySettled(start, es, s, e, i);
    }
  }

  /** A run is its front and one more event. */
  lemma {:induction false} RunSplits(s: State, es: seq<Event>)
    requires es != [] && IsRun(s, es)
    ensures var front, last := es[..|es| - 1], es[|es| - 1];
      IsRun(s, front) && Enabled(Final(s, front), last) && Final(s, es) == Step(Final(s, front), last)
    decreases |es|
  {
    if |es| == 1 {
      assert es[1..] == [] && es[..0] == [];
    } else {
      RunSplits(Step(s, es[0]), es[1..]);
      var front := es[..|es| - 1];
      assert front[1..] == es[1..][..|es| - 2] && front[0] == es[0] && es[1..][|es| - 2] == es[|es| - 1];
    }
  }

  lemma {:induction false} RunFlights(s: State, es: seq<Event>)
    requires FlightsInv(s) && IsRun(s, es)
    ensures FlightsInv(Final(s, es))
    decreases |es|
  {
    if es == [] {
    } else {
      StepFlights(s, es[0]);
      RunFlights(Step(s, es[0]), es[1..]);
    }
  }

  lemma {:induction false} RunSettled(start: State, es: seq<Event>)
    requires FlightsInv(start) && IsRun(start, es) && AnswersSettled(start, [], start)
    ensures AnswersSettled(start, es, Final(start, es))
    decreases |es|
  {
    if es == [] {
    } else {
      RunSplits(start, es);
      var front, last := es[..|es| - 1], es[|es| - 1];
      RunSettled(start, front);
      RunFlights(start, front);
      StepSettled(start, front, Final(start, front), last);
      assert front + [last] == es;
    }
  }

  /**
   * Every reply in the output carries the answer that an event of the run settled for its request: its own
   * worker's, or, for a lookup it shared, the answer with which the leader of that lookup finished.
   */
  lemma RepliesAreSettled(input: seq<Item>, numWorkers: nat, semaphore: nat, es: seq<Event>)
    requires IsRun(Init(input, numWorkers, semaphore), es)
    ensures var start := Init(input, numWorkers, semaphore);
      var s := Final(start, es);
      && (forall i :: 0 <= i < |s.out| && s.out[i].Reply? ==> ReplySettled(start, es, s.out[i]))
      && AnswersSettled(start, es, s)
  {
    InitInv(input, numWorkers, semaphore);
    RunSettled(Init(input, numWorkers, semaphore), es);
  }

  // ---- What counts as the input ----

  function AsItems(rs: seq<Request>): seq<Item> {
    if rs == [] then [] else [Req(rs[0])] + AsItems(rs[1..])
  }

  /** The requests that count are those in front of the first close, undecodable line or end of the input. */
  lemma {:induction false} InputEnds(rs: seq<Request>, end: Item, rest: seq<Item>)
    requires !end.Req?
    ensures RequestsBefore(AsItems(rs)) == rs && CloseOf(AsItems(rs)) == None
    ensures RequestsBefore(AsItems(rs) + [end] + rest) == rs
    ensures CloseOf(AsItems(rs) + [end] + rest) == if end.Close? then Some(end.id) else None
  {
    var items := AsItems(rs) + [end] + rest;
    if rs == [] {
      assert items[0] == end;
    } else {
      InputEnds(rs[1..], end, rest);
      assert items[0] == Req(rs[0]) && items[1..] == AsItems(rs[1..]) + [end] + rest;
      assert [rs[0]] + rs[1..] == rs;
    }
  }

  // ---- Order and capacity of the channel ----

  /** What one event hands to a worker. */
  function Handed(s: State, e: Event): seq<Request> {
    if e.Dequeue? && s.queue != [] then [s.queue[0]] else []
  }

  /** The requests that the events of a run have handed to a worker, in order. */
  ghost function Started(s: State, es: seq<Event>): seq<Request>
    requires IsRun(s, es)
    decreases |es|
  {
    if es == [] then []
    else Handed(s, es[0]) + Started(Step(s, es[0]), es[1..])
  }

  function InHand(r: Reader): seq<Request> {
    if r.Sending? then [r.r] else []
  }

  /** What has been taken from the input but not yet handed to a worker, oldest first. */
  function Pending(s: State): seq<Request> {
    s.queue + InHand(s.reader)
  }

  lemma DequeuePending(handed: seq<Request>, s: State, w: nat)
    requires Enabled(s, Dequeue(w)) && s.taken == handed + Pending(s)
    ensures Step(s, Dequeue(w)).taken == handed + Handed(s, Dequeue(w)) + Pending(Step(s, Dequeue(w)))
  {
    assert handed + ([s.queue[0]] + (s.queue[1..] + InHand(s.reader))) == handed + (s.queue + InHand(s.reader));
  }

  lemma ReaderPending(handed: seq<Request>, s: State, e: Event)
    requires Enabled(s, e) && (e.Enqueue? || e.ReadItem?) && s.taken == handed + Pending(s)
    ensures Step(s, e).taken == handed + Pending(Step(s, e))
  {
    if e.ReadItem? && s.unread != [] && s.unread[0].Req? {
      assert handed + s.queue + [s.unread[0].r] == handed + (s.queue + [s.unread[0].r]);
      assert s.queue + [] == s.queue;
    }
  }

  lemma StepPending(handed: seq<Request>, s: State, e: Event)
    requires Enabled(s, e) && s.taken == handed + Pending(s) && |s.queue| <= 2 * |s.workers|
    ensures Step(s, e).taken == handed + Handed(s, e) + Pending(Step(s, e))
    ensures |Step(s, e).queue| <= 2 * |Step(s, e).workers|
  {
    assert handed + [] == handed;
    if e.Dequeue? {
      DequeuePending(handed, s, e.w);
    } else if e.Enqueue? || e.ReadItem? {
      ReaderPending(handed, s, e);
    } else {
      assert Pending(Step(s, e)) == Pending(s);
    }
  }

  lemma StartedCons(s: State, es: seq<Event>)
    requires es != [] && IsRun(s, es)
    ensures Started(s, es) == Handed(s, es[0]) + Started(Step(s, es[0]), es[1..])
  {
  }

  /** First come, first served: requests are handed to workers in the order they were read. */
  lemma {:induction false} StartedInOrder(handed: seq<Request>, s: State, es: seq<Event>)
    requires IsRun(s, es) && s.taken == handed + Pending(s) && |s.queue| <= 2 * |s.workers|
    ensures Final(s, es).taken == handed + Started(s, es) + Pending(Final(s, es))
    ensures |Final(s, es).queue| <= 2 * |Final(s, es).workers|
    decreases |es|
  {
    if es == [] {
      assert handed + [] == handed;
    } else {
      StepPending(handed, s, es[0]);
      StartedInOrder(handed + Handed(s, es[0]), Step(s, es[0]), es[1..]);
      StartedCons(s, es);
      var more := Started(Step(s, es[0]), es[1..]);
      assert handed + Handed(s, es[0]) + more == handed + (Handed(s, es[0]) + more);
    }
  }

  lemma Regroup(started: seq<Request>, s: State)
    ensures [] + started + Pending(s) == started + s.queue + InHand(s.reader)
  {
  }

  lemma {:induction false} RunKeepsWorkers(s: State, es: seq<Event>)
    requires IsRun(s, es)
    ensures |Final(s, es).workers| == |s.workers|
    decreases |es|
  {
    if es == [] {
    } else {
      StepKeepsSizes(s, es[0]);
      RunKeepsWorkers(Step(s, es[0]), es[1..]);
    }
  }

  /**
   * From the start: what has been handed to workers, then the queue, then the request in the reader's hand,
   * is what has been read, in order; and the channel never holds more than two requests for each worker.
   */
  lemma ChannelKeepsOrder(input: seq<Item>, numWorkers: nat, semaphore: nat, es: seq<Event>)
    requires IsRun(Init(input, numWorkers, semaphore), es)
    ensures var start := Init(input, numWorkers, semaphore);
      var s := Final(start, es);
      && s.taken == Started(start, es) + s.queue + InHand(s.reader)
      && |s.queue| <= 2 * numWorkers
  {
    var start := Init(input, numWorkers, semaphore);
    StartedInOrder([], start, es);
    RunKeepsWorkers(start, es);
    Regroup(Started(start, es), Final(start, es));
  }

  // ---- The close sequence ----

  predicate IsCloseStep(e: Event) {
    e.PublishesDone? || e.TrimDone? || e.ClientClosed? || e.WriteCloseReply?
  }

  function IfCloseStep(e: Event): seq<Event> {
    if IsCloseStep(e) then [e] else []
  }

  /** The steps of the close path in a run, in order. */
  function CloseSteps(es: seq<Event>): seq<Event> {
    if es == [] then [] else IfCloseStep(es[0]) + CloseSteps(es[1..])
  }

  /** What the close path has left to do. */
  function CloseStepsLeft(r: Reader): seq<Event> {
    match r
    case Trimming(_) => [TrimDone, ClientClosed, WriteCloseReply]
    case ClosingClient(_) => [ClientClosed, WriteCloseReply]
    case Replying(_) => [WriteCloseReply]
    case Stopped(_) => []
    case _ => [PublishesDone, TrimDone, ClientClosed, WriteCloseReply]
  }

  predicate EndedWithoutClose(r: Reader) {
    r.Stopped? && r.close.None?
  }

  lemma StepClose(s: State, e: Event)
    requires Enabled(s, e) && !EndedWithoutClose(Step(s, e).reader)
    ensures IfCloseStep(e) + CloseStepsLeft(Step(s, e).reader) == CloseStepsLeft(s.reader)
  {
  }

  lemma {:induction false} CloseStepsInOrder(s: State, es: seq<Event>)
    requires IsRun(s, es) && !EndedWithoutClose(Final(s, es).reader)
    ensures CloseSteps(es) + CloseStepsLeft(Final(s, es).reader) == CloseStepsLeft(s.reader)
    decreases |es|
  {
    if es == [] {
      assert [] + CloseStepsLeft(s.reader) == CloseStepsLeft(s.reader);
    } else {
      var next, rest := Step(s, es[0]), es[1..];
      CloseStepsInOrder(next, rest);
      assert EndedWithoutClose(next.reader) ==> rest == [];
      StepClose(s, es[0]);
      var left := CloseStepsLeft(Final(s, es).reader);
      assert IfCloseStep(es[0]) + (CloseSteps(rest) + left) == IfCloseStep(es[0]) + CloseSteps(rest) + left;
    }
  }

  /** A run ended by a close request has awaited publishes, trimmed, closed the client and replied, in this order. */
  lemma CloseInOrder(input: seq<Item>, numWorkers: nat, semaphore: nat, es: seq<Event>)
    requires IsRun(Init(input, numWorkers, semaphore), es)
    requires var r := Final(Init(input, numWorkers, semaphore), es).reader; r.Stopped? && r.close.Some?
    ensures CloseSteps(es) == [PublishesDone, TrimDone, ClientClosed, WriteCloseReply]
  {
    CloseStepsInOrder(Init(input, numWorkers, semaphore), es);
    assert CloseSteps(es) + [] == CloseSteps(es);
  }
}
