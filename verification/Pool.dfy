/**
 * The request loop: reader, bounded channel, workers, shared lookups, background publishes and close
 * (internal/handler/handler.go).
 */
module Pool {
  import opened Prelude

  datatype Kind = GetKind | PutKind | OtherKind

  datatype Request = Request(id: int, kind: Kind, action: string)

  /** A get of an empty action panics before it can answer. */
  predicate MustCrash(r: Request) {
    r.kind.GetKind? && r.action == ""
  }

  /** A put of an empty action panics in Install, unless an earlier check refuses it. */
  predicate MayCrash(r: Request) {
    !r.kind.OtherKind? && r.action == ""
  }

  /** A put that can get as far as starting a publish. */
  predicate Publishable(r: Request) {
    r.kind.PutKind? && r.action != ""
  }

  /** What the protocol reader yields next; Bad is a line it cannot decode, the end of the list the end of input. */
  datatype Item = Req(r: Request) | Close(id: int) | Bad

  /** What a response says, and which action it says it about. */
  datatype Answer = Answer(action: string, data: int)

  datatype Line = Handshake | Reply(id: int, answer: Answer) | CloseReply(id: int)

  datatype Reader =
    | Reading
    | Sending(r: Request)
    | Draining(close: Option<int>)
    | WaitingPublishes(id: int)
    | Trimming(id: int)
    | ClosingClient(id: int)
    | Replying(id: int)
    | Stopped(close: Option<int>)

  datatype Worker =
    | Idle
    | Busy(r: Request)
    | Leading(r: Request, flight: nat)
    | Waiting(r: Request, flight: nat)
    | Answering(r: Request, answer: Answer)
    | Exited

  /** A shared remote lookup in progress, and the worker running it. */
  datatype Flight = Flight(serial: nat, leader: nat)

  /** crashed is set by a panic in a worker, which ends the whole process. */
  datatype State = State(
    unread: seq<Item>, reader: Reader, queue: seq<Request>, workers: seq<Worker>,
    inflight: map<string, Flight>, results: map<nat, Answer>, nextFlight: nat,
    queued: set<nat>, running: set<nat>, nextPublish: nat, waitGroup: int, semaphore: nat,
    out: seq<Line>, taken: seq<Request>, crashed: bool)

  function Init(input: seq<Item>, numWorkers: nat, semaphore: nat): State {
    State(input, Reading, [], seq(numWorkers, _ => Idle), map[], map[], 0, {}, {}, 0, 0, semaphore,
          [Handshake], [], false)
  }

  datatype Event =
    | ReadItem
    | Enqueue
    | Dequeue(w: nat)
    | AnswerLocally(w: nat, data: int)
    | LookUpRemotely(w: nat)
    | FinishFlight(w: nat, data: int)
    | Wake(w: nat)
    | FinishPut(w: nat, data: int, publishes: bool)
    | Crash(w: nat)
    | WriteReply(w: nat)
    | Exit(w: nat)
    | Acquire(serial: nat)
    | FinishPublish(serial: nat)
    | WorkersDone
    | PublishesDone
    | TrimDone
    | ClientClosed
    | WriteCloseReply

  predicate ChannelClosed(s: State) {
    !s.reader.Reading? && !s.reader.Sending?
  }

  predicate AllExited(s: State) {
    forall w :: 0 <= w < |s.workers| ==> s.workers[w].Exited?
  }

  predicate Enabled(s: State, e: Event) {
    && !s.reader.Stopped? && !s.crashed
    && match e
       case ReadItem => s.reader.Reading?
       case Enqueue => s.reader.Sending? && |s.queue| < 2 * |s.workers|
       case Dequeue(w) => w < |s.workers| && s.workers[w].Idle? && s.queue != []
       case AnswerLocally(w, _) =>
         w < |s.workers| && s.workers[w].Busy? && !s.workers[w].r.kind.PutKind? && !MustCrash(s.workers[w].r)
       case LookUpRemotely(w) =>
         w < |s.workers| && s.workers[w].Busy? && s.workers[w].r.kind.GetKind? && !MustCrash(s.workers[w].r)
       case FinishFlight(w, _) => w < |s.workers| && s.workers[w].Leading?
       case Wake(w) => w < |s.workers| && s.workers[w].Waiting? && s.workers[w].flight in s.results
       case FinishPut(w, _, publishes) =>
         && w < |s.workers| && s.workers[w].Busy? && s.workers[w].r.kind.PutKind?
         && (publishes ==> Publishable(s.workers[w].r))
       case Crash(w) => w < |s.workers| && s.workers[w].Busy? && MayCrash(s.workers[w].r)
       case WriteReply(w) => w < |s.workers| && s.workers[w].Answering?
       case Exit(w) => w < |s.workers| && s.workers[w].Idle? && ChannelClosed(s) && s.queue == []
       case Acquire(n) => n in s.queued && |s.running| < s.semaphore
       case FinishPublish(n) => n in s.running
       case WorkersDone => s.reader.Draining? && AllExited(s)
       case PublishesDone => s.reader.WaitingPublishes? && s.waitGroup == 0
       case TrimDone => s.reader.Trimming?
       case ClientClosed => s.reader.ClosingClient?
       case WriteCloseReply => s.reader.Replying?
  }

  function Set(s: State, w: nat, worker: Worker): State
    requires w < |s.workers|
  {
    s.(workers := s.workers[w := worker])
  }

  function Step(s: State, e: Event): State
    requires Enabled(s, e)
  {
    match e
    case ReadItem =>
      if s.unread == [] then s.(reader := Draining(None))
      else
        (match s.unread[0]
         case Req(r) => s.(unread := s.unread[1..], reader := Sending(r), taken := s.taken + [r])
         case Close(id) => s.(unread := s.unread[1..], reader := Draining(Some(id)))
         case Bad => s.(unread := s.unread[1..], reader := Draining(None)))
    case Enqueue => s.(reader := Reading, queue := s.queue + [s.reader.r])
    case Dequeue(w) => Set(s, w, Busy(s.queue[0])).(queue := s.queue[1..])
    case AnswerLocally(w, data) => var r := s.workers[w].r; Set(s, w, Answering(r, Answer(r.action, data)))
    case LookUpRemotely(w) =>
      var r := s.workers[w].r;
      if r.action in s.inflight then Set(s, w, Waiting(r, s.inflight[r.action].serial))
      else
        Set(s, w, Leading(r, s.nextFlight))
          .(inflight := s.inflight[r.action := Flight(s.nextFlight, w)], nextFlight := s.nextFlight + 1)
    case FinishFlight(w, data) =>
      var r, f := s.workers[w].r, s.workers[w].flight;
      Set(s, w, Answering(r, Answer(r.action, data)))
        .(inflight := s.inflight - {r.action}, results := s.results[f := Answer(r.action, data)])
    case Wake(w) => Set(s, w, Answering(s.workers[w].r, s.results[s.workers[w].flight]))
    case FinishPut(w, data, publishes) =>
      var r := s.workers[w].r;
      var answered := Set(s, w, Answering(r, Answer(r.action, data)));
      if publishes
      then
        answered.(queued := s.queued + {s.nextPublish}, nextPublish := s.nextPublish + 1,
                  waitGroup := s.waitGroup + 1)
      else answered
    case Crash(_) => s.(crashed := true)
    case WriteReply(w) =>
      Set(s, w, Idle).(out := s.out + [Reply(s.workers[w].r.id, s.workers[w].answer)])
    case Exit(w) => Set(s, w, Exited)
    case Acquire(n) => s.(queued := s.queued - {n}, running := s.running + {n})
    case FinishPublish(n) => s.(running := s.running - {n}, waitGroup := s.waitGroup - 1)
    case WorkersDone =>
      s.(reader := if s.reader.close.Some? then WaitingPublishes(s.reader.close.value) else Stopped(None))
    case PublishesDone => s.(reader := Trimming(s.reader.id))
    case TrimDone => s.(reader := ClosingClient(s.reader.id))
    case ClientClosed => s.(reader := Replying(s.reader.id))
    case WriteCloseReply => s.(reader := Stopped(Some(s.reader.id)), out := s.out + [CloseReply(s.reader.id)])
  }

  ghost predicate IsRun(s: State, es: seq<Event>)
    decreases |es|
  {
    es == [] || (Enabled(s, es[0]) && IsRun(Step(s, es[0]), es[1..]))
  }

  ghost function Final(s: State, es: seq<Event>): State
    requires IsRun(s, es)
    decreases |es|
  {
    if es == [] then s else Final(Step(s, es[0]), es[1..])
  }

  // ---- Input: which requests have been taken, and how the input ended ----

  /** The requests in front of the first close, undecodable line, or end of input. */
  function RequestsBefore(items: seq<Item>): seq<Request> {
    if items == [] || !items[0].Req? then [] else [items[0].r] + RequestsBefore(items[1..])
  }

  /** The close request that ends the input, if that is what ends it. */
  function CloseOf(items: seq<Item>): Option<int> {
    if items == [] then None
    else
      match items[0]
      case Req(_) => CloseOf(items[1..])
      case Close(id) => Some(id)
      case Bad => None
  }

  function CloseSeen(r: Reader): Option<int> {
    match r
    case Reading => None
    case Sending(_) => None
    case Draining(c) => c
    case WaitingPublishes(id) => Some(id)
    case Trimming(id) => Some(id)
    case ClosingClient(id) => Some(id)
    case Replying(id) => Some(id)
    case Stopped(c) => c
  }

  ghost predicate InputInv(s: State, input: seq<Item>) {
    if ChannelClosed(s) then s.taken == RequestsBefore(input) && CloseSeen(s.reader) == CloseOf(input)
    else RequestsBefore(input) == s.taken + RequestsBefore(s.unread) && CloseOf(input) == CloseOf(s.unread)
  }

  lemma StepInput(s: State, input: seq<Item>, e: Event)
    requires Enabled(s, e) && InputInv(s, input)
    ensures InputInv(Step(s, e), input)
  {
    if e.ReadItem? && s.unread != [] && s.unread[0].Req? {
      var r := s.unread[0].r;
      assert s.taken + ([r] + RequestsBefore(s.unread[1..])) == s.taken + [r] + RequestsBefore(s.unread[1..]);
    } else if e.ReadItem? {
      assert s.taken + [] == s.taken;
    }
  }

  // ---- Conservation: every request taken is in exactly one place ----

  /** What is counted: an identifier together with the action it is about, or the requests that must crash. */
  datatype Tag = Tag(id: int, action: string) | Crashers

  function One(r: Request, t: Tag): nat {
    if (if t.Crashers? then MustCrash(r) else t == Tag(r.id, r.action)) then 1 else 0
  }

  function InRequests(rs: seq<Request>, t: Tag): nat {
    if rs == [] then 0 else One(rs[0], t) + InRequests(rs[1..], t)
  }

  function InWorker(w: Worker, t: Tag): nat {
    if w.Idle? || w.Exited? then 0 else One(w.r, t)
  }

  function InWorkers(ws: seq<Worker>, t: Tag): nat {
    if ws == [] then 0 else InWorker(ws[0], t) + InWorkers(ws[1..], t)
  }

  function InReader(r: Reader, t: Tag): nat {
    if r.Sending? then One(r.r, t) else 0
  }

  function InLine(line: Line, t: Tag): nat {
    if line.Reply? && t == Tag(line.id, line.answer.action) then 1 else 0
  }

  /** The replies with this identifier whose answer is about this action. */
  function InReplies(out: seq<Line>, t: Tag): nat {
    if out == [] then 0 else InReplies(out[..|out| - 1], t) + InLine(out[|out| - 1], t)
  }

  ghost predicate Conserved(s: State, t: Tag) {
    InRequests(s.taken, t)
    == InReader(s.reader, t) + InRequests(s.queue, t) + InWorkers(s.workers, t) + InReplies(s.out, t)
  }

  lemma {:induction false} RequestsAppend(rs: seq<Request>, r: Request, t: Tag)
    ensures InRequests(rs + [r], t) == InRequests(rs, t) + One(r, t)
  {
    if rs != [] {
      RequestsAppend(rs[1..], r, t);
      assert (rs + [r])[1..] == rs[1..] + [r];
    } else {
      assert rs + [r] == [r] && [r][1..] == [];
    }
  }

  lemma {:induction false} WorkersUpdate(ws: seq<Worker>, i: nat, w: Worker, t: Tag)
    requires i < |ws|
    ensures InWorkers(ws[i := w], t) + InWorker(ws[i], t) == InWorkers(ws, t) + InWorker(w, t)
  {
    if i > 0 {
      WorkersUpdate(ws[1..], i - 1, w, t);
      assert ws[i := w][1..] == ws[1..][i - 1 := w];
    } else {
      assert ws[i := w][1..] == ws[1..];
    }
  }

  lemma RepliesAppend(out: seq<Line>, line: Line, t: Tag)
    ensures InReplies(out + [line], t) == InReplies(out, t) + InLine(line, t)
  {
    assert (out + [line])[..|out|] == out;
  }

  /** An event that moves one worker without touching the reader, the queue or the output. */
  lemma WorkerMoveConserves(s: State, next: State, w: nat, t: Tag)
    requires Conserved(s, t) && w < |s.workers| == |next.workers| && next.workers == s.workers[w := next.workers[w]]
    requires InWorker(next.workers[w], t) == InWorker(s.workers[w], t)
    requires next.taken == s.taken && next.reader == s.reader && next.queue == s.queue && next.out == s.out
    ensures Conserved(next, t)
  {
    WorkersUpdate(s.workers, w, next.workers[w], t);
  }

  lemma ReplyConserves(s: State, w: nat, t: Tag)
    requires Conserved(s, t) && Enabled(s, WriteReply(w))
    requires s.workers[w].answer.action == s.workers[w].r.action && !MustCrash(s.workers[w].r)
    ensures Conserved(Step(s, WriteReply(w)), t)
  {
    var r, reply := s.workers[w].r, Reply(s.workers[w].r.id, s.workers[w].answer);
    WorkersUpdate(s.workers, w, Idle, t);
    RepliesAppend(s.out, reply, t);
    assert InWorker(s.workers[w], t) == One(r, t) == InLine(reply, t) && InWorker(Idle, t) == 0;
  }

  lemma DequeueConserves(s: State, w: nat, t: Tag)
    requires Conserved(s, t) && Enabled(s, Dequeue(w))
    ensures Conserved(Step(s, Dequeue(w)), t)
  {
    WorkersUpdate(s.workers, w, Busy(s.queue[0]), t);
  }

  lemma ReaderMoveConserves(s: State, e: Event, t: Tag)
    requires Enabled(s, e) && Conserved(s, t) && (e.ReadItem? || e.Enqueue? || e.WriteCloseReply?)
    ensures Conserved(Step(s, e), t)
  {
    if e.Enqueue? {
      RequestsAppend(s.queue, s.reader.r, t);
    } else if e.WriteCloseReply? {
      RepliesAppend(s.out, CloseReply(s.reader.id), t);
    } else if s.unread != [] && s.unread[0].Req? {
      RequestsAppend(s.taken, s.unread[0].r, t);
    }
  }

  /** The events that move one worker on to its next stage. */
  predicate Moves(e: Event, w: nat) {
    (e.AnswerLocally? || e.LookUpRemotely? || e.FinishFlight? || e.Wake? || e.FinishPut? || e.Exit?) && e.w == w
  }

  lemma WorkerEventConserves(s: State, e: Event, w: nat, t: Tag)
    requires Enabled(s, e) && Moves(e, w) && Conserved(s, t)
    ensures Conserved(Step(s, e), t)
  {
    WorkerMoveConserves(s, Step(s, e), w, t);
  }

  lemma StepConserves(s: State, e: Event, t: Tag)
    requires Enabled(s, e) && FlightsInv(s) && TakenInv(s) && Conserved(s, t)
    ensures Conserved(Step(s, e), t)
  {
    match e
    case ReadItem => ReaderMoveConserves(s, e, t);
    case Enqueue => ReaderMoveConserves(s, e, t);
    case WriteCloseReply => ReaderMoveConserves(s, e, t);
    case WriteReply(w) => ReplyConserves(s, w, t);
    case Dequeue(w) => DequeueConserves(s, w, t);
    case AnswerLocally(w, _) => WorkerEventConserves(s, e, w, t);
    case LookUpRemotely(w) => WorkerEventConserves(s, e, w, t);
    case FinishFlight(w, _) => WorkerEventConserves(s, e, w, t);
    case Wake(w) => WorkerEventConserves(s, e, w, t);
    case FinishPut(w, _, _) => WorkerEventConserves(s, e, w, t);
    case Exit(w) => WorkerEventConserves(s, e, w, t);
    case _ =>
  }

  // ---- Origins: what is in the machine has been taken from the input ----

  /** A request that must crash gets no further than the start of its work. */
  ghost predicate WorkerOk(w: Worker, taken: seq<Request>) {
    w.Idle? || w.Exited? || (w.r in taken && (MustCrash(w.r) ==> w.Busy?))
  }

  ghost predicate TakenInv(s: State) {
    && (s.reader.Sending? ==> s.reader.r in s.taken)
    && (forall i :: 0 <= i < |s.queue| ==> s.queue[i] in s.taken)
    && (forall w :: 0 <= w < |s.workers| ==> WorkerOk(s.workers[w], s.taken))
    && (0 < s.nextPublish ==> s.workers != [] && exists r :: r in s.taken && Publishable(r))
    && (s.crashed ==> s.workers != [] && exists r :: r in s.taken && MayCrash(r))
  }

  lemma StepTakenWorkers(s: State, e: Event)
    requires Enabled(s, e) && TakenInv(s)
    ensures forall w :: 0 <= w < |Step(s, e).workers| ==> WorkerOk(Step(s, e).workers[w], Step(s, e).taken)
  {
    forall w | 0 <= w < |Step(s, e).workers|
      ensures WorkerOk(Step(s, e).workers[w], Step(s, e).taken)
    {
      assert WorkerOk(s.workers[w], s.taken);
    }
  }

  lemma StepTakenQueue(s: State, e: Event)
    requires Enabled(s, e) && TakenInv(s)
    ensures Step(s, e).reader.Sending? ==> Step(s, e).reader.r in Step(s, e).taken
    ensures forall i :: 0 <= i < |Step(s, e).queue| ==> Step(s, e).queue[i] in Step(s, e).taken
  {
  }

  lemma StepTakenCauses(s: State, e: Event)
    requires Enabled(s, e) && TakenInv(s)
    ensures 0 < Step(s, e).nextPublish ==> s.workers != [] && exists r :: r in s.taken && Publishable(r)
    ensures Step(s, e).crashed ==> s.workers != [] && exists r :: r in s.taken && MayCrash(r)
    ensures |Step(s, e).workers| == |s.workers| && forall r :: r in s.taken ==> r in Step(s, e).taken
  {
    if e.FinishPut? || e.Crash? {
      assert WorkerOk(s.workers[e.w], s.taken);
    }
  }

  lemma StepTaken(s: State, e: Event)
    requires Enabled(s, e) && TakenInv(s)
    ensures TakenInv(Step(s, e))
  {
    StepTakenWorkers(s, e);
    StepTakenQueue(s, e);
    StepTakenCauses(s, e);
  }

  // ---- Shared lookups: answers are about the action they are given for ----

  ghost predicate FlightsOk(ws: seq<Worker>, inflight: map<string, Flight>, results: map<nat, Answer>,
                            nextFlight: nat)
  {
    && (forall w :: 0 <= w < |ws| && ws[w].Leading? ==>
          ws[w].r.action in inflight && inflight[ws[w].r.action] == Flight(ws[w].flight, w))
    && (forall k :: k in inflight ==>
          && inflight[k].leader < |ws| && ws[inflight[k].leader].Leading? && ws[inflight[k].leader].r.action == k
          && inflight[k].serial < nextFlight && inflight[k].serial !in results)
    && (forall j, k :: j in inflight && k in inflight && inflight[j].serial == inflight[k].serial ==> j == k)
    && (forall f :: f in results ==> f < nextFlight)
    && (forall w :: 0 <= w < |ws| && ws[w].Waiting? ==> WaitsFor(inflight, results, ws[w].r, ws[w].flight))
    && (forall w :: 0 <= w < |ws| && ws[w].Answering? ==> ws[w].answer.action == ws[w].r.action)
  }

  /** A waiter's lookup has an answer about its action, or is still led by a worker for that action. */
  ghost predicate WaitsFor(inflight: map<string, Flight>, results: map<nat, Answer>, r: Request, f: nat) {
    if f in results then results[f].action == r.action else r.action in inflight && inflight[r.action].serial == f
  }

  ghost predicate FlightsInv(s: State) {
    FlightsOk(s.workers, s.inflight, s.results, s.nextFlight)
  }

  /** A worker that neither leaves nor takes the lead of a lookup. */
  lemma FlightsAfterSet(s: State, w: nat, worker: Worker)
    requires FlightsInv(s) && w < |s.workers| && !s.workers[w].Leading? && !worker.Leading?
    requires worker.Waiting? ==> WaitsFor(s.inflight, s.results, worker.r, worker.flight)
    requires worker.Answering? ==> worker.answer.action == worker.r.action
    ensures FlightsOk(s.workers[w := worker], s.inflight, s.results, s.nextFlight)
  {
  }

  lemma FlightsAfterLead(s: State, w: nat)
    requires FlightsInv(s) && Enabled(s, LookUpRemotely(w)) && s.workers[w].r.action !in s.inflight
    ensures FlightsInv(Step(s, LookUpRemotely(w)))
  {
    var next := Step(s, LookUpRemotely(w));
    assert s.nextFlight !in s.results;
    forall v | 0 <= v < |next.workers| && next.workers[v].Waiting?
      ensures WaitsFor(next.inflight, next.results, next.workers[v].r, next.workers[v].flight)
    {
      assert WaitsFor(s.inflight, s.results, s.workers[v].r, s.workers[v].flight);
    }
  }

  lemma FlightsAfterFinish(s: State, w: nat, data: int)
    requires FlightsInv(s) && Enabled(s, FinishFlight(w, data))
    ensures FlightsInv(Step(s, FinishFlight(w, data)))
  {
    var next := Step(s, FinishFlight(w, data));
    var k := s.workers[w].r.action;
    assert s.inflight[k].leader == w;
    forall v | 0 <= v < |next.workers| && next.workers[v].Waiting?
      ensures WaitsFor(next.inflight, next.results, next.workers[v].r, next.workers[v].flight)
    {
      assert WaitsFor(s.inflight, s.results, s.workers[v].r, s.workers[v].flight);
    }
  }

  lemma StepFlights(s: State, e: Event)
    requires Enabled(s, e) && FlightsInv(s)
    ensures FlightsInv(Step(s, e))
  {
    match e
    case Dequeue(w) => FlightsAfterSet(s, w, Busy(s.queue[0]));
    case AnswerLocally(w, _) => FlightsAfterSet(s, w, Step(s, e).workers[w]);
    case LookUpRemotely(w) =>
      if s.workers[w].r.action in s.inflight {
        FlightsAfterSet(s, w, Step(s, e).workers[w]);
      } else {
        FlightsAfterLead(s, w);
      }
    case FinishFlight(w, data) => FlightsAfterFinish(s, w, data);
    case Wake(w) => FlightsAfterSet(s, w, Step(s, e).workers[w]);
    case FinishPut(w, _, _) => FlightsAfterSet(s, w, Step(s, e).workers[w]);
    case WriteReply(w) => FlightsAfterSet(s, w, Idle);
    case Exit(w) => FlightsAfterSet(s, w, Exited);
    case _ =>
  }

  // ---- Publishes, output order and the end of the loop ----

  /** The wait group counts the live publishes, and the semaphore bounds the running ones. */
  ghost predicate PublishOk(queued: set<nat>, running: set<nat>, nextPublish: nat, waitGroup: int, semaphore: nat) {
    && queued !! running
    && (forall n :: n in queued || n in running ==> n < nextPublish)
    && waitGroup == |queued| + |running|
    && |running| <= semaphore
  }

  ghost predicate PublishInv(s: State) {
    PublishOk(s.queued, s.running, s.nextPublish, s.waitGroup, s.semaphore)
  }

  lemma PublishQueued(queued: set<nat>, running: set<nat>, next: nat, wg: int, sem: nat)
    requires PublishOk(queued, running, next, wg, sem)
    ensures next !in queued && PublishOk(queued + {next}, running, next + 1, wg + 1, sem)
  {
    assert |queued + {next}| == |queued| + 1;
  }

  lemma PublishAcquired(queued: set<nat>, running: set<nat>, next: nat, wg: int, sem: nat, n: nat)
    requires PublishOk(queued, running, next, wg, sem) && n in queued && |running| < sem
    ensures n !in running && PublishOk(queued - {n}, running + {n}, next, wg, sem)
  {
    assert |queued - {n}| == |queued| - 1 && |running + {n}| == |running| + 1;
  }

  lemma PublishFinished(queued: set<nat>, running: set<nat>, next: nat, wg: int, sem: nat, n: nat)
    requires PublishOk(queued, running, next, wg, sem) && n in running
    ensures 0 < wg && PublishOk(queued, running - {n}, next, wg - 1, sem)
  {
    assert |running - {n}| == |running| - 1;
  }

  lemma StepPublish(s: State, e: Event)
    requires Enabled(s, e) && PublishInv(s)
    ensures PublishInv(Step(s, e))
  {
    if e.FinishPut? {
      PublishQueued(s.queued, s.running, s.nextPublish, s.waitGroup, s.semaphore);
    } else if e.Acquire? {
      PublishAcquired(s.queued, s.running, s.nextPublish, s.waitGroup, s.semaphore, e.serial);
    } else if e.FinishPublish? {
      PublishFinished(s.queued, s.running, s.nextPublish, s.waitGroup, s.semaphore, e.serial);
    }
  }

  /** Past the close barrier of the reader: all publishes awaited. */
  predicate PastBarrier(r: Reader) {
    r.Trimming? || r.ClosingClient? || r.Replying? || (r.Stopped? && r.close.Some?)
  }

  /** Workers leave only once the channel is closed and empty; then all are gone, and past the barrier all publishes. */
  ghost predicate DrainInv(s: State) {
    && (forall w :: 0 <= w < |s.workers| && s.workers[w].Exited? ==> ChannelClosed(s) && s.queue == [])
    && (ChannelClosed(s) && !s.reader.Draining? ==> AllExited(s))
    && (s.workers == [] ==> s.queue == [])
    && (PastBarrier(s.reader) ==> s.waitGroup == 0)
  }

  lemma StepExits(s: State, e: Event)
    requires Enabled(s, e) && DrainInv(s)
    ensures forall w :: 0 <= w < |Step(s, e).workers| && Step(s, e).workers[w].Exited? ==>
              ChannelClosed(Step(s, e)) && Step(s, e).queue == []
    ensures Step(s, e).workers == [] ==> Step(s, e).queue == []
  {
  }

  lemma StepAllExited(s: State, e: Event)
    requires Enabled(s, e) && DrainInv(s)
    ensures ChannelClosed(Step(s, e)) && !Step(s, e).reader.Draining? ==> AllExited(Step(s, e))
  {
  }

  lemma BusyBeforeBarrier(s: State, w: nat)
    requires DrainInv(s) && w < |s.workers| && !s.workers[w].Exited?
    ensures !PastBarrier(s.reader)
  {
  }

  lemma StepBarrier(s: State, e: Event)
    requires Enabled(s, e) && DrainInv(s) && PublishInv(s)
    ensures PastBarrier(Step(s, e).reader) ==> Step(s, e).waitGroup == 0
  {
    if e.FinishPublish? {
      PublishFinished(s.queued, s.running, s.nextPublish, s.waitGroup, s.semaphore, e.serial);
    } else if e.FinishPut? {
      BusyBeforeBarrier(s, e.w);
    } else {
      assert Step(s, e).waitGroup == s.waitGroup;
    }
  }

  lemma StepDrain(s: State, e: Event)
    requires Enabled(s, e) && DrainInv(s) && PublishInv(s)
    ensures DrainInv(Step(s, e))
  {
    StepExits(s, e);
    StepAllExited(s, e);
    StepBarrier(s, e);
  }

  /** The handshake, then replies, then the close reply if the loop ended by one. */
  ghost predicate OutputInv(s: State) {
    && s.out != [] && s.out[0] == Handshake
    && (if s.reader.Stopped? && s.reader.close.Some?
        then |s.out| >= 2 && s.out[|s.out| - 1] == CloseReply(s.reader.close.value)
             && forall i :: 1 <= i < |s.out| - 1 ==> s.out[i].Reply?
        else forall i :: 1 <= i < |s.out| ==> s.out[i].Reply?)
  }

  lemma StepOutput(s: State, e: Event)
    requires Enabled(s, e) && OutputInv(s)
    ensures OutputInv(Step(s, e))
  {
  }

  ghost predicate Inv(s: State, input: seq<Item>) {
    && InputInv(s, input) && TakenInv(s) && FlightsInv(s) && PublishInv(s) && DrainInv(s) && OutputInv(s)
    && forall t :: Conserved(s, t)
  }

  lemma StepConservesAll(s: State, e: Event)
    requires Enabled(s, e) && FlightsInv(s) && TakenInv(s) && forall t :: Conserved(s, t)
    ensures forall t :: Conserved(Step(s, e), t)
  {
    forall t
      ensures Conserved(Step(s, e), t)
    {
      StepConserves(s, e, t);
    }
  }

  lemma StepInv(s: State, input: seq<Item>, e: Event)
    requires Enabled(s, e) && Inv(s, input)
    ensures Inv(Step(s, e), input)
  {
    StepInput(s, input, e);
    StepTaken(s, e);
    StepFlights(s, e);
    StepPublish(s, e);
    StepDrain(s, e);
    StepOutput(s, e);
    StepConservesAll(s, e);
  }

  lemma StepKeepsSizes(s: State, e: Event)
    requires Enabled(s, e)
    ensures |Step(s, e).workers| == |s.workers| && Step(s, e).semaphore == s.semaphore
  {
  }

  lemma {:induction false} RunInv(s: State, input: seq<Item>, es: seq<Event>)
    requires Inv(s, input) && IsRun(s, es)
    ensures Inv(Final(s, es), input)
    ensures |Final(s, es).workers| == |s.workers| && Final(s, es).semaphore == s.semaphore
    decreases |es|
  {
    if es == [] {
    } else {
      StepInv(s, input, es[0]);
      StepKeepsSizes(s, es[0]);
      RunInv(Step(s, es[0]), input, es[1..]);
    }
  }

  lemma {:induction false} NoWorkHeld(ws: seq<Worker>, t: Tag)
    requires forall w :: 0 <= w < |ws| ==> ws[w].Idle? || ws[w].Exited?
    ensures InWorkers(ws, t) == 0
  {
    if ws == [] {
    } else {
      NoWorkHeld(ws[1..], t);
    }
  }

  lemma InitInv(input: seq<Item>, numWorkers: nat, semaphore: nat)
    ensures Inv(Init(input, numWorkers, semaphore), input)
  {
    var s := Init(input, numWorkers, semaphore);
    assert [] + RequestsBefore(input) == RequestsBefore(input);
    forall t
      ensures Conserved(s, t)
    {
      NoWorkHeld(s.workers, t);
      assert s.out[..0] == [];
    }
  }

  /** The output owed for an input: one reply per request before its end, by identifier and action. */
  ghost predicate AnswersAll(out: seq<Line>, input: seq<Item>) {
    forall t: Tag :: t.Tag? ==> InReplies(out, t) == InRequests(RequestsBefore(input), t)
  }

  /**
   * Request loop exactness: in every interleaving, when the loop has ended, the output is the handshake,
   * then exactly one reply per request read, each with its own identifier and an answer about its own
   * action, and then, if a close request ended the input, the reply to it.
   */
  lemma RequestLoopExact(input: seq<Item>, numWorkers: nat, semaphore: nat, es: seq<Event>)
    requires IsRun(Init(input, numWorkers, semaphore), es)
    requires Final(Init(input, numWorkers, semaphore), es).reader.Stopped?
    ensures var end := Final(Init(input, numWorkers, semaphore), es);
      && end.reader.close == CloseOf(input)
      && end.out != [] && end.out[0] == Handshake
      && AnswersAll(end.out, input)
      && (CloseOf(input).Some? ==> |end.out| >= 2 && end.out[|end.out| - 1] == CloseReply(CloseOf(input).value)
                                   && forall i :: 1 <= i < |end.out| - 1 ==> end.out[i].Reply?)
      && (CloseOf(input).None? ==> forall i :: 1 <= i < |end.out| ==> end.out[i].Reply?)
  {
    InitInv(input, numWorkers, semaphore);
    RunInv(Init(input, numWorkers, semaphore), input, es);
    var end := Final(Init(input, numWorkers, semaphore), es);
    forall t: Tag | t.Tag?
      ensures InReplies(end.out, t) == InRequests(RequestsBefore(input), t)
    {
      assert Conserved(end, t);
      NoWorkHeld(end.workers, t);
      if end.workers != [] {
        assert end.workers[0].Exited?;
      }
    }
  }

  /**
   * Close barrier: in every reachable state the wait group counts the live publishes and the semaphore
   * bounds the running ones, and from the moment Trim may run until the close reply is out, no publish
   * is queued or running, so no body that waits for its upload can be evicted.
   */
  lemma CloseBarrier(input: seq<Item>, numWorkers: nat, semaphore: nat, es: seq<Event>)
    requires IsRun(Init(input, numWorkers, semaphore), es)
    ensures var s := Final(Init(input, numWorkers, semaphore), es);
      && s.waitGroup == |s.queued| + |s.running| && |s.running| <= semaphore
      && (PastBarrier(s.reader) ==> s.queued == {} && s.running == {} && AllExited(s))
  {
    InitInv(input, numWorkers, semaphore);
    RunInv(Init(input, numWorkers, semaphore), input, es);
    var s := Final(Init(input, numWorkers, semaphore), es);
    if PastBarrier(s.reader) {
      assert |s.queued| == 0 && |s.running| == 0;
    }
  }

  // ---- Progress ----

  /** Something a worker that has not left can do, or that the worker it waits for can do. */
  lemma WorkerCanMove(s: State, input: seq<Item>, w: nat) returns (e: Event)
    requires Inv(s, input) && !s.reader.Stopped? && !s.crashed && w < |s.workers| && !s.workers[w].Exited?
    requires s.workers[w].Idle? ==> s.queue != [] || ChannelClosed(s)
    ensures Enabled(s, e)
  {
    match s.workers[w]
    case Idle => e := if s.queue != [] then Dequeue(w) else Exit(w);
    case Busy(r) =>
      e := if MustCrash(r) then Crash(w) else if r.kind.PutKind? then FinishPut(w, 0, false) else AnswerLocally(w, 0);
    case Leading(_, _) => e := FinishFlight(w, 0);
    case Waiting(r, f) =>
      assert WaitsFor(s.inflight, s.results, r, f);
      e := if f in s.results then Wake(w) else FinishFlight(s.inflight[r.action].leader, 0);
    case Answering(_, _) => e := WriteReply(w);
  }

  /** No deadlock: with a worker and a semaphore slot, something can happen until the loop or the process has ended. */
  lemma NoDeadlock(s: State, input: seq<Item>) returns (e: Event)
    requires Inv(s, input) && 1 <= |s.workers| && 1 <= s.semaphore && !s.reader.Stopped? && !s.crashed
    ensures Enabled(s, e)
  {
    match s.reader
    case Reading => e := ReadItem;
    case Sending(_) =>
      if |s.queue| < 2 * |s.workers| {
        e := Enqueue;
      } else {
        e := WorkerCanMove(s, input, 0);
      }
    case Draining(_) =>
      if AllExited(s) {
        e := WorkersDone;
      } else {
        var w :| 0 <= w < |s.workers| && !s.workers[w].Exited?;
        e := WorkerCanMove(s, input, w);
      }
    case WaitingPublishes(_) =>
      if s.waitGroup == 0 {
        e := PublishesDone;
      } else if s.running != {} {
        var n :| n in s.running;
        e := FinishPublish(n);
      } else {
        assert s.queued != {};
        var n :| n in s.queued;
        e := Acquire(n);
      }
    case Trimming(_) => e := TrimDone;
    case ClosingClient(_) => e := ClientClosed;
    case Replying(_) => e := WriteCloseReply;
  }

  function ReaderWeight(r: Reader): nat {
    match r
    case Reading => 6
    case Sending(_) => 15
    case Draining(_) => 5
    case WaitingPublishes(_) => 4
    case Trimming(_) => 3
    case ClosingClient(_) => 2
    case Replying(_) => 1
    case Stopped(_) => 0
  }

  function WorkerWeight(w: Worker): nat {
    match w
    case Idle => 1
    case Busy(_) => 7
    case Leading(_, _) => 4
    case Waiting(_, _) => 4
    case Answering(_, _) => 3
    case Exited => 0
  }

  function WorkersWeight(ws: seq<Worker>): nat {
    if ws == [] then 0 else WorkerWeight(ws[0]) + WorkersWeight(ws[1..])
  }

  /** What is left to do: unread and queued requests, the stages of workers and publishes, the steps to the end. */
  function Measure(s: State): nat {
    10 * |s.unread| + ReaderWeight(s.reader) + 8 * |s.queue| + WorkersWeight(s.workers)
    + 2 * |s.queued| + |s.running| + (if s.crashed then 0 else 1)
  }

  lemma {:induction false} WeightUpdate(ws: seq<Worker>, i: nat, w: Worker)
    requires i < |ws|
    ensures WorkersWeight(ws[i := w]) + WorkerWeight(ws[i]) == WorkersWeight(ws) + WorkerWeight(w)
  {
    if i > 0 {
      WeightUpdate(ws[1..], i - 1, w);
      assert ws[i := w][1..] == ws[1..][i - 1 := w];
    } else {
      assert ws[i := w][1..] == ws[1..];
    }
  }

  lemma WorkerMoveDecreases(s: State, e: Event, w: nat)
    requires Enabled(s, e) && PublishInv(s) && w < |s.workers|
    requires e == Dequeue(w) || e == LookUpRemotely(w) || e == Wake(w) || e == WriteReply(w) || e == Exit(w)
          || (e.AnswerLocally? && e.w == w) || (e.FinishFlight? && e.w == w) || (e.FinishPut? && e.w == w)
    ensures Measure(Step(s, e)) < Measure(s)
  {
    WeightUpdate(s.workers, w, Step(s, e).workers[w]);
    if e.FinishPut? && e.publishes {
      assert s.nextPublish !in s.queued;
    }
  }

  lemma ReaderMoveDecreases(s: State, e: Event)
    requires Enabled(s, e)
    requires e == ReadItem || e == Enqueue || e == WorkersDone || e == PublishesDone || e == TrimDone
          || e == ClientClosed || e == WriteCloseReply
    ensures Measure(Step(s, e)) < Measure(s)
  {
  }

  lemma StepDecreases(s: State, e: Event)
    requires Enabled(s, e) && PublishInv(s)
    ensures Measure(Step(s, e)) < Measure(s)
  {
    match e
    case Dequeue(w) => WorkerMoveDecreases(s, e, w);
    case AnswerLocally(w, _) => WorkerMoveDecreases(s, e, w);
    case LookUpRemotely(w) => WorkerMoveDecreases(s, e, w);
    case FinishFlight(w, _) => WorkerMoveDecreases(s, e, w);
    case Wake(w) => WorkerMoveDecreases(s, e, w);
    case FinishPut(w, _, _) => WorkerMoveDecreases(s, e, w);
    case WriteReply(w) => WorkerMoveDecreases(s, e, w);
    case Exit(w) => WorkerMoveDecreases(s, e, w);
    case Acquire(n) => assert n !in s.running;
    case FinishPublish(_) =>
    case Crash(_) =>
    case _ => ReaderMoveDecreases(s, e);
  }

  /** Every run is finite: its length and what is left to do never exceed what there was to do. */
  lemma {:induction false} RunBounded(s: State, es: seq<Event>)
    requires IsRun(s, es) && PublishInv(s)
    ensures |es| + Measure(Final(s, es)) <= Measure(s)
    decreases |es|
  {
    if es == [] {
    } else {
      StepPublish(s, es[0]);
      StepDecreases(s, es[0]);
      RunBounded(Step(s, es[0]), es[1..]);
    }
  }

  /** Nothing can happen any more, although neither the loop nor the process has ended. */
  ghost predicate Stuck(s: State) {
    !s.reader.Stopped? && !s.crashed && forall e :: !Enabled(s, e)
  }

  /**
   * With a worker and a semaphore slot every run ends: no run is longer than the initial measure, and a
   * run that cannot go on has ended the loop, or the process by a panic.
   */
  lemma EveryRunEnds(input: seq<Item>, numWorkers: nat, semaphore: nat, es: seq<Event>)
    requires 1 <= numWorkers && 1 <= semaphore && IsRun(Init(input, numWorkers, semaphore), es)
    ensures |es| <= Measure(Init(input, numWorkers, semaphore))
    ensures !Stuck(Final(Init(input, numWorkers, semaphore), es))
  {
    var start := Init(input, numWorkers, semaphore);
    InitInv(input, numWorkers, semaphore);
    RunInv(start, input, es);
    RunBounded(start, es);
    var s := Final(start, es);
    if !s.reader.Stopped? && !s.crashed {
      var e := NoDeadlock(s, input);
    }
  }
}
