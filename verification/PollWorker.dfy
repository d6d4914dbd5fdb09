/** The poll worker (dbus_ev/worker.py): a main loop and a worker thread that share a queue of one place, a
    stop event and nothing else. Every access to shared state is a step of its own. */
module PollWorker {
  import opened Results

  type Job = nat

  datatype Item = Work(job: Job) | Quit

  /** A completed poll: whether it succeeded, and the clock from before it began. */
  datatype Snapshot = Snapshot(ok: bool, startedAt: int)

  datatype Delivery = Delivery(job: Job, snapshot: Snapshot)

  /** Where the main thread is: between calls, or inside `poll` or `stop`. */
  datatype Main = Idle | Putting(job: Job) | Marking | Draining | Ending

  /** Where the worker thread is: at `get`, with an item, behind its look at the stop event, in `client.poll`,
      before `dispatch`, in the `finally` block, or gone. */
  datatype Thread =
    | Getting | Got(item: Item) | Starting(job: Job) | Polling(job: Job, startedAt: int) | Done(delivery: Delivery)
    | Closing | Exited

  /** `Polled` is a client poll with the clock read before it, `Returned` how the latest poll ended. */
  datatype Event =
    | Accepted(job: Job) | Stopped | Polled(job: Job, at: int) | Returned(ok: bool)
    | Called(job: Job, snapshot: Snapshot) | Closed

  datatype State = State(queue: seq<Item>, stopping: bool, pending: bool, main: Main, thread: Thread,
                         dispatched: seq<Delivery>, full: bool, trace: seq<Event>)

  const START := State([], false, false, Idle, Getting, [], false, [])

  /** Steps of the main thread and, from `Take` on, of the worker. `Break` is an exception that leaves
      the loop. */
  datatype Action =
    | CallPoll(job: Job) | PutWork | MarkPending
    | CallStop | Drain | PutQuit
    | Deliver
    | Take | Check | Begin(now: int) | FinishPoll(ok: bool) | Dispatch | Break | Close

  /** `put_nowait`; `full` records the exception that a full queue would raise. */
  function Put(s: State, item: Item): State {
    if |s.queue| >= 1 then s.(full := true) else s.(queue := s.queue + [item])
  }

  predicate Enabled(s: State, a: Action) {
    match a
    case CallPoll(_) => s.main.Idle?
    case PutWork => s.main.Putting?
    case MarkPending => s.main.Marking?
    case CallStop => s.main.Idle?
    case Drain => s.main.Draining?
    case PutQuit => s.main.Ending?
    case Deliver => s.main.Idle? && s.dispatched != []
    case Take => s.thread.Getting? && s.queue != []
    case Check => s.thread.Got?
    case Begin(_) => s.thread.Starting?
    case FinishPoll(_) => s.thread.Polling?
    case Dispatch => s.thread.Done?
    case Break => s.thread.Polling? || s.thread.Done?
    case Close => s.thread.Closing?
  }

  predicate ByWorker(a: Action) {
    a.Take? || a.Check? || a.Begin? || a.FinishPoll? || a.Dispatch? || a.Break? || a.Close?
  }

  function Step(s: State, a: Action): State {
    if !Enabled(s, a) then s
    else
      match a
      case CallPoll(job) => if s.pending || s.stopping then s else s.(main := Putting(job))
      case PutWork => Put(s, Work(s.main.job)).(main := Marking, trace := s.trace + [Accepted(s.main.job)])
      case MarkPending => s.(pending := true, main := Idle)
      case CallStop => if s.stopping then s else s.(stopping := true, main := Draining, trace := s.trace + [Stopped])
      case Drain => s.(queue := if s.queue == [] then [] else s.queue[1..], main := Ending)
      case PutQuit => Put(s, Quit).(main := Idle)
      case Deliver =>
        var d := s.dispatched[0];
        s.(dispatched := s.dispatched[1..], pending := false,
           trace := if s.stopping then s.trace else s.trace + [Called(d.job, d.snapshot)])
      case Take => s.(queue := s.queue[1..], thread := Got(s.queue[0]))
      case Check =>
        (match s.thread.item
         case Quit => s.(thread := Closing)
         case Work(job) => s.(thread := if s.stopping then Getting else Starting(job)))
      case Begin(now) => s.(thread := Polling(s.thread.job, now), trace := s.trace + [Polled(s.thread.job, now)])
      case FinishPoll(ok) =>
        s.(thread := Done(Delivery(s.thread.job, Snapshot(ok, s.thread.startedAt))),
           trace := s.trace + [Returned(ok)])
      case Dispatch => s.(thread := Getting, dispatched := s.dispatched + [s.thread.delivery])
      case Break => s.(thread := Closing)
      case Close => s.(thread := Exited, trace := s.trace + [Closed])
  }

  function Run(s: State, actions: seq<Action>): State
    decreases |actions|
  {
    if actions == [] then s else Run(Step(s, actions[0]), actions[1..])
  }

  // ---- The object -------------------------------------------------------------------------

  /** Calls that nothing interrupts. */
  class Worker {
    var queue: seq<Item>
    var stopping: bool
    var pending: bool
    var thread: Thread
    var dispatched: seq<Delivery>
    var full: bool
    var trace: seq<Event>

    function Now(): State
      reads this
    {
      State(queue, stopping, pending, Idle, thread, dispatched, full, trace)
    }

    constructor ()
      ensures Now() == START
    {
      queue, stopping, pending, thread, dispatched, full, trace := [], false, false, Getting, [], false, [];
    }

    method Poll(job: Job) returns (accepted: bool)
      modifies this
      ensures accepted <==> !old(pending) && !old(stopping)
      ensures Now() == if accepted then Step(Step(Step(old(Now()), CallPoll(job)), PutWork), MarkPending)
                       else old(Now())
    {
      if pending || stopping {
        return false;
      }
      if |queue| >= 1 {
        full := true;
      } else {
        queue := queue + [Work(job)];
      }
      trace := trace + [Accepted(job)];
      pending := true;
      accepted := true;
    }

    /** `_deliver` of the oldest dispatched snapshot; the callback runs when one is returned. */
    method DeliverNext() returns (called: Option<Delivery>)
      requires dispatched != []
      modifies this
      ensures Now() == Step(old(Now()), Deliver)
      ensures called == if old(stopping) then None else Some(old(dispatched)[0])
    {
      var d := dispatched[0];
      dispatched := dispatched[1..];
      pending := false;
      if stopping {
        return None;
      }
      trace := trace + [Called(d.job, d.snapshot)];
      called := Some(d);
    }

    /** `stop` up to the join; it returns whether the thread is gone. */
    method Stop() returns (gone: bool)
      modifies this
      ensures Now() == if old(stopping) then old(Now()) else Step(Step(Step(old(Now()), CallStop), Drain), PutQuit)
      ensures gone <==> thread.Exited?
    {
      if !stopping {
        stopping := true;
        trace := trace + [Stopped];
        if queue != [] {
          queue := queue[1..];
        }
        if |queue| >= 1 {
          full := true;
        } else {
          queue := queue + [Quit];
        }
      }
      gone := thread.Exited?;
    }

    /** One round of the worker's loop with the given outcome of `client.poll`. */
    method Round(now: int, ok: bool)
      requires thread.Getting? && queue != []
      modifies this
      ensures var taken := Step(Step(old(Now()), Take), Check);
        Now() == if taken.thread.Starting? then Step(Step(Step(taken, Begin(now)), FinishPoll(ok)), Dispatch)
                 else if taken.thread.Closing? then Step(taken, Close) else taken
    {
      hide Step;
      RoundIs(Now(), now, ok);
      var item := queue[0];
      queue := queue[1..];
      if item.Quit? {
        trace := trace + [Closed];
        thread := Exited;
        return;
      }
      if stopping {
        return;
      }
      trace := trace + [Polled(item.job, now)] + [Returned(ok)];
      dispatched := dispatched + [Delivery(item.job, Snapshot(ok, now))];
    }
  }

  /** What the steps of one uninterrupted round come to. */
  lemma RoundIs(s: State, now: int, ok: bool)
    requires s.thread.Getting? && s.queue != []
    ensures var taken, rest := Step(Step(s, Take), Check), s.queue[1..];
      match s.queue[0]
      case Quit =>
        && taken.thread.Closing?
        && Step(taken, Close) == s.(queue := rest, thread := Exited, trace := s.trace + [Closed])
      case Work(job) =>
        && (s.stopping ==> taken == s.(queue := rest))
        && (!s.stopping ==>
              && taken == s.(queue := rest, thread := Starting(job))
              && Step(Step(Step(taken, Begin(now)), FinishPoll(ok)), Dispatch) ==
                 s.(queue := rest, dispatched := s.dispatched + [Delivery(job, Snapshot(ok, now))],
                    trace := s.trace + [Polled(job, now)] + [Returned(ok)]))
  {
  }

  // ---- The invariant ----------------------------------------------------------------------

  function Waiting(queue: seq<Item>): nat {
    if queue == [] then 0 else (if queue[0].Work? then 1 else 0) + Waiting(queue[1..])
  }

  function Held(t: Thread): nat {
    if t.Starting? || t.Polling? || t.Done? || (t.Got? && t.item.Work?) then 1 else 0
  }

  /** Requests queued, held by the worker, and dispatched but not delivered. */
  function Outstanding(s: State): nat {
    Waiting(s.queue) + Held(s.thread) + |s.dispatched|
  }

  function Count(trace: seq<Event>, e: Event): nat {
    if trace == [] then 0 else Count(trace[..|trace| - 1], e) + if trace[|trace| - 1] == e then 1 else 0
  }

  /** The stop request has been put, and the worker has not yet left its loop because of it or otherwise. */
  predicate Ended(s: State) {
    s.stopping && !s.main.Draining? && !s.main.Ending?
  }

  predicate QueueKept(s: State) {
    && !s.full && |s.queue| <= 1
    && ((s.main.Putting? || s.main.Ending?) ==> s.queue == [])
    && ((s.queue != [] && s.queue[0].Quit?) ==> Ended(s))
    && (s.thread.Got? && s.thread.item.Quit? ==> Ended(s) && s.queue == [])
    && (Ended(s) && (s.thread.Getting? || (s.thread.Got? && s.thread.item.Work?) || s.thread.Starting?
                     || s.thread.Polling? || s.thread.Done?) ==>
          s.queue == [Quit])
  }

  /** Nothing asked the worker to end, and no exception ended it. */
  predicate Alive(s: State) {
    !s.stopping && !s.thread.Closing? && !s.thread.Exited?
  }

  /** `pending` holds between calls exactly while a request is under way, and for good once the worker broke. */
  predicate PendingKept(s: State) {
    && Outstanding(s) <= 1
    && (Outstanding(s) == 1 ==> s.pending || s.main.Marking?)
    && (s.main.Putting? || s.main.Marking? ==> !s.pending && !s.stopping)
    && (s.main.Putting? ==> Outstanding(s) == 0)
    && (s.main.Draining? || s.main.Ending? ==> s.stopping)
    && (s.main.Putting? ==> Alive(s))
    && (s.main.Marking? ==> Outstanding(s) == 1 || !Alive(s))
    && (s.main.Idle? && !s.stopping ==> (s.pending <==> Outstanding(s) == 1 || !Alive(s)))
  }

  /** No callback after the stop, one close, and no poll after it. */
  predicate TraceKept(trace: seq<Event>, stopping: bool, exited: bool) {
    && (Stopped in trace <==> stopping)
    && (forall i, j | 0 <= i < j < |trace| && trace[i] == Stopped :: !trace[j].Called?)
    && Count(trace, Closed) == (if exited then 1 else 0)
    && (Closed in trace ==> exited)
    && (forall i, j | 0 <= i < j < |trace| && trace[i] == Closed :: !trace[j].Polled?)
  }

  function AcceptedJobs(trace: seq<Event>): seq<Job> {
    if trace == [] then []
    else AcceptedJobs(trace[..|trace| - 1]) + if trace[|trace| - 1].Accepted? then [trace[|trace| - 1].job] else []
  }

  function CalledJobs(trace: seq<Event>): seq<Job> {
    if trace == [] then []
    else CalledJobs(trace[..|trace| - 1]) + if trace[|trace| - 1].Called? then [trace[|trace| - 1].job] else []
  }

  /** The requests on their way, the oldest first. */
  function UnderWay(s: State): seq<Job> {
    (if s.dispatched != [] then [s.dispatched[0].job] else [])
    + (match s.thread
       case Got(Work(job)) => [job]
       case Starting(job) => [job]
       case Polling(job, _) => [job]
       case Done(d) => [d.job]
       case _ => [])
    + if s.queue != [] && s.queue[0].Work? then [s.queue[0].job] else []
  }

  /** The latest poll of the client. */
  function LastPoll(trace: seq<Event>): Option<Event> {
    if trace == [] then None
    else if trace[|trace| - 1].Polled? then Some(trace[|trace| - 1])
    else LastPoll(trace[..|trace| - 1])
  }

  /** What the polls came to, in their order: each with the clock read before it and its own end. */
  function Answers(trace: seq<Event>): seq<Delivery> {
    if trace == [] then []
    else
      var before, last := trace[..|trace| - 1], trace[|trace| - 1];
      Answers(before)
      + match LastPoll(before)
        case Some(Polled(job, at)) => if last.Returned? then [Delivery(job, Snapshot(last.ok, at))] else []
        case _ => []
  }

  /** What the callbacks were given, in their order. */
  function Calls(trace: seq<Event>): seq<Delivery> {
    if trace == [] then []
    else
      Calls(trace[..|trace| - 1])
      + match trace[|trace| - 1]
        case Called(job, snapshot) => [Delivery(job, snapshot)]
        case _ => []
  }

  /** Callbacks get the answers in their order, each with its own clock and end. */
  predicate AnswersKept(s: State) {
    && Calls(s.trace) <= Answers(s.trace)
    && (s.thread.Polling? ==> LastPoll(s.trace) == Some(Polled(s.thread.job, s.thread.startedAt)))
    && (Alive(s) ==>
          Answers(s.trace) == Calls(s.trace) + s.dispatched + if s.thread.Done? then [s.thread.delivery] else [])
  }

  /** Callbacks run for the accepted requests in their order, and none is lost before the stop or a
      break of the worker. */
  predicate OrderKept(s: State) {
    && CalledJobs(s.trace) <= AcceptedJobs(s.trace)
    && (Alive(s) ==> AcceptedJobs(s.trace) == CalledJobs(s.trace) + UnderWay(s))
    && (!s.stopping && !Alive(s) ==> s.dispatched == [])
  }

  /** At most one poll begins after the stop: that of a worker which had looked at the stop event before. */
  predicate LateKept(s: State) {
    (s.thread.Starting? && s.stopping ==> NoPollAfterStop(s.trace)) && OnePollAfterStop(s.trace)
  }

  predicate OnePollAfterStop(trace: seq<Event>) {
    forall i, j, k | 0 <= i < j < k < |trace| && trace[i] == Stopped :: !(trace[j].Polled? && trace[k].Polled?)
  }

  predicate NoPollAfterStop(trace: seq<Event>) {
    forall i, j | 0 <= i < j < |trace| && trace[i] == Stopped :: !trace[j].Polled?
  }

  predicate Inv(s: State) {
    QueueKept(s) && PendingKept(s) && OrderKept(s) && AnswersKept(s)
    && LateKept(s) && TraceKept(s.trace, s.stopping, s.thread.Exited?)
  }

  lemma StartKept()
    ensures Inv(START)
  {
  }

  lemma TraceGrows(trace: seq<Event>, stopping: bool, exited: bool, e: Event)
    requires TraceKept(trace, stopping, exited)
    requires (e.Called? ==> !stopping) && (e.Polled? || e.Closed? ==> !exited)
    ensures TraceKept(trace + [e], stopping || e.Stopped?, exited || e.Closed?)
  {
    hide Count;
    assert Count(trace + [e], Closed) == Count(trace, Closed) + (if e == Closed then 1 else 0) by {
      CountGrows(trace, e);
    }
    assert forall x :: x in trace + [e] <==> x in trace || x == e;
    assert forall i | 0 <= i < |trace| :: trace[i] in trace;
  }

  lemma CountGrows(trace: seq<Event>, e: Event)
    ensures Count(trace + [e], Closed) == Count(trace, Closed) + if e == Closed then 1 else 0
  {
    assert (trace + [e])[..|trace|] == trace;
  }

  lemma QueueStep(s: State, a: Action)
    requires Inv(s)
    ensures QueueKept(Step(s, a))
  {
    hide TraceKept, Count, Waiting;
    ShortQueue(s.queue);
  }

  lemma PendingStep(s: State, a: Action)
    requires Inv(s)
    ensures PendingKept(Step(s, a))
  {
    hide TraceKept, Count, Waiting;
    QueueStep(s, a);
    ShortQueue(s.queue);
    ShortQueue(Step(s, a).queue);
  }

  lemma ShortQueue(queue: seq<Item>)
    requires |queue| <= 1
    ensures Waiting(queue) == if queue != [] && queue[0].Work? then 1 else 0
  {
  }

  /** What a step adds to the trace. */
  lemma StepTrace(s: State, a: Action) returns (e: Option<Event>)
    ensures var next := Step(s, a);
      && next.trace == (if e.Some? then s.trace + [e.value] else s.trace)
      && (next.stopping <==> s.stopping || e == Some(Stopped))
      && (next.thread.Exited? <==> s.thread.Exited? || e == Some(Closed))
      && (e.Some? && e.value.Called? ==> !s.stopping)
      && (e.Some? && e.value.Polled? ==> s.thread.Starting? && !next.thread.Starting?)
      && (e.Some? && e.value.Closed? ==> s.thread.Closing?)
      && (next.thread.Starting? ==> s.thread.Starting? || !s.stopping)
  {
    var next := Step(s, a);
    e := if |next.trace| > |s.trace| then Some(next.trace[|s.trace|]) else None;
  }

  lemma TraceStep(s: State, a: Action)
    requires Inv(s)
    ensures TraceKept(Step(s, a).trace, Step(s, a).stopping, Step(s, a).thread.Exited?)
  {
    hide Step, QueueKept, PendingKept, OrderKept, AnswersKept, LateKept, TraceKept;
    var e := StepTrace(s, a);
    if e.Some? {
      TraceGrows(s.trace, s.stopping, s.thread.Exited?, e.value);
    }
  }

  lemma JobsGrow(trace: seq<Event>, e: Event)
    ensures AcceptedJobs(trace + [e]) == AcceptedJobs(trace) + if e.Accepted? then [e.job] else []
    ensures CalledJobs(trace + [e]) == CalledJobs(trace) + if e.Called? then [e.job] else []
  {
    assert (trace + [e])[..|trace|] == trace;
  }

  lemma OrderStep(s: State, a: Action)
    requires Inv(s)
    ensures OrderKept(Step(s, a))
  {
    hide TraceKept, LateKept, AnswersKept, Waiting, AcceptedJobs, CalledJobs;
    ShortQueue(s.queue);
    var next := Step(s, a);
    if |next.trace| > |s.trace| {
      var e := next.trace[|s.trace|];
      assert next.trace == s.trace + [e];
      JobsGrow(s.trace, e);
    }
  }

  lemma AnswersGrow(trace: seq<Event>, e: Event)
    ensures LastPoll(trace + [e]) == if e.Polled? then Some(e) else LastPoll(trace)
    ensures Calls(trace + [e]) == Calls(trace) + if e.Called? then [Delivery(e.job, e.snapshot)] else []
    ensures Answers(trace + [e]) ==
            Answers(trace) + match LastPoll(trace)
                             case Some(Polled(job, at)) =>
                               if e.Returned? then [Delivery(job, Snapshot(e.ok, at))] else []
                             case _ => []
  {
    assert (trace + [e])[..|trace|] == trace;
  }

  lemma AnswersStep(s: State, a: Action)
    requires Inv(s)
    ensures AnswersKept(Step(s, a))
  {
    hide TraceKept, LateKept, Waiting, AcceptedJobs, CalledJobs, Answers, Calls, LastPoll;
    ShortQueue(s.queue);
    var next := Step(s, a);
    if |next.trace| > |s.trace| {
      var e := next.trace[|s.trace|];
      assert next.trace == s.trace + [e];
      AnswersGrow(s.trace, e);
    }
  }

  lemma LateGrows(trace: seq<Event>, e: Event)
    requires OnePollAfterStop(trace) && (e.Polled? ==> Stopped !in trace || NoPollAfterStop(trace))
    ensures OnePollAfterStop(trace + [e])
    ensures Stopped !in trace || (NoPollAfterStop(trace) && !e.Polled?) ==> NoPollAfterStop(trace + [e])
  {
    assert forall i | 0 <= i < |trace| :: trace[i] in trace;
  }

  lemma LateStep(s: State, a: Action)
    requires Inv(s)
    ensures LateKept(Step(s, a))
  {
    hide Step, QueueKept, PendingKept, OrderKept, AnswersKept, Count, OnePollAfterStop, NoPollAfterStop;
    var e := StepTrace(s, a);
    if e.Some? {
      LateGrows(s.trace, e.value);
    }
  }

  lemma {:induction false} RunKept(s: State, actions: seq<Action>)
    requires Inv(s)
    ensures Inv(Run(s, actions))
    decreases |actions|
  {
    hide QueueKept, PendingKept, OrderKept, AnswersKept, LateKept, TraceKept, Step;
    if actions != [] {
      QueueStep(s, actions[0]);
      PendingStep(s, actions[0]);
      OrderStep(s, actions[0]);
      AnswersStep(s, actions[0]);
      LateStep(s, actions[0]);
      TraceStep(s, actions[0]);
      RunKept(Step(s, actions[0]), actions[1..]);
    }
  }

  // ---- Main results -----------------------------------------------------------------------

  /** In every interleaving at most one request is outstanding and the queue is never found full. */
  lemma OneAtATime(actions: seq<Action>)
    ensures var s := Run(START, actions);
      && Outstanding(s) <= 1 && |s.queue| <= 1 && !s.full
      && (s.main.Putting? || s.main.Ending? ==> s.queue == [])
  {
    hide Run;
    StartKept();
    RunKept(START, actions);
  }

  /** Callbacks run once per request and in the order of the requests; before the stop or a break every
      accepted request has been answered or is under way. */
  lemma NoneLost(actions: seq<Action>)
    ensures var s := Run(START, actions);
      && CalledJobs(s.trace) <= AcceptedJobs(s.trace)
      && (Alive(s) ==> AcceptedJobs(s.trace) == CalledJobs(s.trace) + UnderWay(s) && |UnderWay(s)| <= 1)
  {
    hide Run, CalledJobs, AcceptedJobs, TraceKept, QueueKept, Waiting;
    StartKept();
    RunKept(START, actions);
    UnderWayIsOutstanding(Run(START, actions));
  }

  lemma UnderWayIsOutstanding(s: State)
    requires QueueKept(s) && PendingKept(s)
    ensures |UnderWay(s)| == Outstanding(s) <= 1
  {
    hide Waiting;
    ShortQueue(s.queue);
  }

  /** Callbacks get the answers of the client in their order, each with the clock read before its own poll
      and its own end; before the stop or a break none is left out. */
  lemma AnswersAreCalled(actions: seq<Action>)
    ensures var s := Run(START, actions);
      && Calls(s.trace) <= Answers(s.trace)
      && (Alive(s) ==> Answers(s.trace) == Calls(s.trace) + s.dispatched
                                           + if s.thread.Done? then [s.thread.delivery] else [])
  {
    hide Run, Calls, Answers, TraceKept, QueueKept, OrderKept;
    StartKept();
    RunKept(START, actions);
  }

  /** `poll` from start to end. */
  function Asked(job: Job): seq<Action> {
    [CallPoll(job), PutWork, MarkPending]
  }

  lemma AskedSteps(s: State, job: Job)
    ensures Run(s, Asked(job)) == Step(Step(Step(s, CallPoll(job)), PutWork), MarkPending)
  {
    hide Step;
    var asked := Asked(job);
    assert asked[1..] == [PutWork, MarkPending] && asked[1..][1..] == [MarkPending] && asked[1..][1..][1..] == [];
    var s1 := Step(s, asked[0]);
    var s2 := Step(s1, PutWork);
    assert Run(s, asked) == Run(s1, asked[1..]) == Run(s2, [MarkPending]) == Run(Step(s2, MarkPending), []);
  }

  /** Between calls a poll is accepted, and put at once, exactly if no request is under way and neither a stop
      nor a break ended the worker; otherwise it changes nothing. */
  lemma PollIsAccepted(actions: seq<Action>, job: Job)
    ensures var s := Run(START, actions);
      s.main.Idle? ==>
        Run(s, Asked(job)) ==
        if Alive(s) && UnderWay(s) == []
        then s.(queue := [Work(job)], pending := true, trace := s.trace + [Accepted(job)])
        else s
  {
    hide Run, TraceKept, OrderKept, AnswersKept, Waiting;
    StartKept();
    RunKept(START, actions);
    var s := Run(START, actions);
    UnderWayIsOutstanding(s);
    ShortQueue(s.queue);
    AskedSteps(s, job);
  }

  /** The delivery of an answer calls back and lets the next poll in. */
  lemma DeliveryFrees(actions: seq<Action>, job: Job)
    ensures var s := Run(START, actions);
      s.main.Idle? && Alive(s) && s.dispatched != [] ==>
        var d := s.dispatched[0];
        var next := Run(Step(s, Deliver), Asked(job));
        && next.trace == s.trace + [Called(d.job, d.snapshot), Accepted(job)]
        && next.queue == [Work(job)] && UnderWay(next) == [job]
  {
    hide Run, TraceKept, OrderKept, AnswersKept, Waiting;
    StartKept();
    RunKept(START, actions);
    var s := Run(START, actions);
    UnderWayIsOutstanding(s);
    ShortQueue(s.queue);
    AskedSteps(Step(s, Deliver), job);
  }

  /** Steps of the worker until the request under way is dispatched. */
  function Left(s: State): nat {
    match s.thread
    case Getting => if s.dispatched == [] then 5 else 0
    case Got(_) => 4
    case Starting(_) => 3
    case Polling(_, _) => 2
    case Done(_) => 1
    case _ => 0
  }

  /** Neither a stop, nor a break, nor a delivery. */
  predicate Undisturbed(actions: seq<Action>) {
    forall a | a in actions :: !a.CallStop? && !a.Break? && !a.Deliver?
  }

  lemma ServingStep(s: State, a: Action)
    requires Inv(s) && Alive(s) && Outstanding(s) == 1 && !a.CallStop? && !a.Break? && !a.Deliver?
    ensures Alive(Step(s, a)) && Outstanding(Step(s, a)) == 1
    ensures Left(s) == Left(Step(s, a)) + if ByWorker(a) && Enabled(s, a) then 1 else 0
  {
    hide TraceKept, OrderKept, AnswersKept, Waiting;
    ShortQueue(s.queue);
    ShortQueue(Step(s, a).queue);
  }

  /** A request under way is dispatched after at most five steps of the worker, which is never stuck before
      that except in the client; then it only waits for the main loop to be idle. */
  lemma {:induction false} RequestEnds(s: State, actions: seq<Action>)
    requires Inv(s) && Alive(s) && Outstanding(s) == 1 && Undisturbed(actions)
    ensures var t := Run(s, actions);
      && WorkerSteps(s, actions) + Left(t) == Left(s) <= 5 && (Left(t) == 0 <==> t.dispatched != [])
      && (t.dispatched == [] ==> exists a :: ByWorker(a) && !a.Break? && Enabled(t, a))
    decreases |actions|
  {
    hide TraceKept, OrderKept, AnswersKept, Step, Waiting;
    if actions == [] {
      ShortQueue(s.queue);
      match s.thread
      case Getting => assert s.dispatched == [] ==> Enabled(s, Take);
      case Got(_) => assert Enabled(s, Check);
      case Starting(_) => assert Enabled(s, Begin(0));
      case Polling(_, _) => assert Enabled(s, FinishPoll(true));
      case Done(_) => assert Enabled(s, Dispatch);
    } else {
      assert actions[0] in actions;
      ServingStep(s, actions[0]);
      QueueStep(s, actions[0]);
      PendingStep(s, actions[0]);
      OrderStep(s, actions[0]);
      AnswersStep(s, actions[0]);
      LateStep(s, actions[0]);
      TraceStep(s, actions[0]);
      RequestEnds(Step(s, actions[0]), actions[1..]);
    }
  }

  /** No callback follows the stop, and at most one poll, of a worker already past its look at the stop event;
      the client is closed once, by the time the thread is gone, and not polled after that. */
  lemma CleanStop(actions: seq<Action>)
    ensures var s := Run(START, actions);
      && (forall i, j | 0 <= i < j < |s.trace| && s.trace[i] == Stopped :: !s.trace[j].Called?)
      && (forall i, j, k | 0 <= i < j < k < |s.trace| && s.trace[i] == Stopped ::
            !(s.trace[j].Polled? && s.trace[k].Polled?))
      && (s.stopping && (exists i, j :: 0 <= i < j < |s.trace| && s.trace[i] == Stopped && s.trace[j].Polled?) ==>
            !s.thread.Starting?)
      && Count(s.trace, Closed) == (if s.thread.Exited? then 1 else 0)
      && (forall i, j | 0 <= i < j < |s.trace| && s.trace[i] == Closed :: !s.trace[j].Polled?)
  {
    hide Run, Count;
    StartKept();
    RunKept(START, actions);
  }

  /** Steps the worker takes at most until it is gone, once the stop request has been put. */
  function Rank(t: Thread): nat {
    match t
    case Exited => 0
    case Closing => 1
    case Got(Quit) => 2
    case Getting => 3
    case Got(Work(_)) => 4
    case Done(_) => 4
    case Polling(_, _) => 5
    case Starting(_) => 6
  }

  /** The steps of the worker among some actions. */
  function WorkerSteps(s: State, actions: seq<Action>): nat
    decreases |actions|
  {
    if actions == [] then 0
    else
      (if ByWorker(actions[0]) && Enabled(s, actions[0]) then 1 else 0)
      + WorkerSteps(Step(s, actions[0]), actions[1..])
  }

  /** `stop` drops what is queued and leaves nothing but the end marker for the worker; a second call changes
      nothing. */
  lemma StopIsPut(actions: seq<Action>)
    ensures var s := Run(START, actions);
      s.main.Idle? ==>
        var t := Step(Step(Step(s, CallStop), Drain), PutQuit);
        if s.stopping then t == s
        else t == s.(queue := [Quit], stopping := true, trace := s.trace + [Stopped]) && Ended(t)
  {
    hide Run, TraceKept, OrderKept, AnswersKept, LateKept, Waiting;
    StartKept();
    RunKept(START, actions);
    ShortQueue(Run(START, actions).queue);
  }

  lemma EndingStep(s: State, a: Action)
    requires Inv(s) && Ended(s)
    ensures Ended(Step(s, a))
    ensures ByWorker(a) && Enabled(s, a) ==> Rank(Step(s, a).thread) < Rank(s.thread)
    ensures !(ByWorker(a) && Enabled(s, a)) ==> Step(s, a).thread == s.thread
  {
    hide TraceKept, Count;
  }

  /** After a stop the worker is never stuck, except in the client, and it is gone after at most six of
      its own steps, four once the active poll has returned. */
  lemma {:induction false} StopEnds(s: State, actions: seq<Action>)
    requires Inv(s) && Ended(s)
    ensures WorkerSteps(s, actions) + Rank(Run(s, actions).thread) <= Rank(s.thread)
    ensures Rank(s.thread) <= if s.thread.Starting? then 6 else if s.thread.Polling? then 5 else 4
    ensures var t := Run(s, actions);
      !t.thread.Exited? ==> exists a :: ByWorker(a) && Enabled(t, a)
    decreases |actions|
  {
    hide TraceKept, OrderKept, Count, Step;
    if actions == [] {
      match s.thread
      case Getting => assert Enabled(s, Take);
      case Got(_) => assert Enabled(s, Check);
      case Starting(_) => assert Enabled(s, Begin(0));
      case Polling(_, _) => assert Enabled(s, FinishPoll(true));
      case Done(_) => assert Enabled(s, Dispatch);
      case Closing => assert Enabled(s, Close);
      case Exited =>
    } else {
      EndingStep(s, actions[0]);
      QueueStep(s, actions[0]);
      PendingStep(s, actions[0]);
      OrderStep(s, actions[0]);
      AnswersStep(s, actions[0]);
      LateStep(s, actions[0]);
      TraceStep(s, actions[0]);
      StopEnds(Step(s, actions[0]), actions[1..]);
    }
  }
}
