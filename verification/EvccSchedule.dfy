/** The schedule of the vehicle engine (dbus_ev/providers/evcc.py): reservations on disk come before every
    engine poll and every engine start. Times are those of a wall clock that never goes back. */
module EvccSchedule {
  import opened Results

  const MIN_INTERVAL := 1800.0
  const LOGIN_INTERVAL := 21600.0
  const MAX_FAILURES := 5

  /** The state file; absent keys hold their defaults. */
  datatype Schedule = Schedule(nextPoll: real, nextLogin: real, failures: int, blocked: bool)

  const EMPTY := Schedule(0.0, 0.0, 0, false)

  /** How a save ends: the file is replaced or not, and the process may die on either side of it. */
  datatype Save = Saved | Unsaved | DiedBefore | DiedAfter

  datatype Kind = Authorization | Configuration | Storage | RateLimit | Provider | Transport

  /** `Broken` is an exception of the engine, `Gone` a crash of this process. */
  datatype Reply = Good | Refused(kind: Kind, retryAfter: real) | Broken | Gone

  /** What one poll meets: the clock it reads, the two reservations, the times at which the engine is really
      created and polled behind them, the reply, and up to two times and saves behind it. */
  datatype Env = Env(now: real, poll: Save, login: Save, created: real, polled: real, reply: Reply,
                     answered: real, result: Save, retried: real, retry: Save)

  /** An engine poll and an engine start hold the clock their reservations were made with and, in `really`,
      when they happen. A poll whose engine cannot be started counts as a poll; `Reserved` is a reservation that no
      poll followed, with that of an engine start or without. `HeldBack` is a failure on record. */
  datatype Event =
    | Polled(at: real, really: real, interval: real) | Created(at: real, really: real, interval: real)
    | Reserved(at: real, interval: real, start: bool)
    | HeldBack(at: real, interval: real, kind: Kind, asked: real, delay: real, blocked: bool)
    | Succeeded(at: real, interval: real) | Authorized

  /** A client: the effective interval of its process, and whether an engine runs. */
  datatype Client = Client(interval: real, engine: bool)

  datatype Outcome = Outcome(client: Option<Client>, disk: Schedule, events: seq<Event>)

  function Max(a: real, b: real): real {
    if a < b then b else a
  }

  function Min(a: int, b: int): int {
    if a < b then a else b
  }

  function Doubled(n: nat): real {
    if n == 0 then 1.0 else 2.0 * Doubled(n - 1)
  }

  /** 1800 s for the first failure, doubled by the next ones up to the fifth. */
  function Backoff(failures: int): real
    requires failures >= 1
  {
    var delay := 1800.0 * Doubled(failures - 1);
    if delay < LOGIN_INTERVAL then delay else LOGIN_INTERVAL
  }

  predicate Reaches(save: Save) {
    save.Saved? || save.DiedAfter?
  }

  predicate Dies(save: Save) {
    save.DiedBefore? || save.DiedAfter?
  }

  predicate Blocks(kind: Kind) {
    kind in {Authorization, Configuration, Storage}
  }

  function DelayOf(c: Client, failures: int, retryAfter: real): real
    requires failures >= 1
  {
    Max(Max(c.interval, Backoff(failures)), retryAfter)
  }

  predicate Due(d: Schedule, c: Client, now: real) {
    !d.blocked && now >= d.nextPoll && (c.engine || now >= d.nextLogin)
  }

  // ---- One poll ---------------------------------------------------------------------------

  function PollOf(c: Client, e: Env): Event {
    Polled(e.now, e.polled, c.interval)
  }

  function StartOf(c: Client, e: Env): Event {
    Created(e.now, e.created, c.interval)
  }

  /** `_failure`: the schedule and the event if it is saved. */
  function FailureSaved(d: Schedule, c: Client, kind: Kind, retryAfter: real, at: real): Schedule
    requires d.failures >= 0
  {
    var failures := Min(MAX_FAILURES, d.failures + 1);
    d.(nextPoll := at + DelayOf(c, failures, retryAfter), failures := failures, blocked := Blocks(kind))
  }

  function Failure(d: Schedule, c: Client, kind: Kind, retryAfter: real, at: real): Event
    requires d.failures >= 0
  {
    HeldBack(at, c.interval, kind, retryAfter, DelayOf(c, Min(MAX_FAILURES, d.failures + 1), retryAfter), Blocks(kind))
  }

  /** The exception path: the engine is stopped, and the failure is saved or the exception leaves. */
  function Broke(d: Schedule, c: Client, at: real, save: Save, before: seq<Event>): Outcome
    requires d.failures >= 0
  {
    Outcome(if Dies(save) then None else Some(c.(engine := false)),
            if Reaches(save) then FailureSaved(d, c, Transport, 0.0, at) else d,
            before + if Reaches(save) then [Failure(d, c, Transport, 0.0, at)] else [])
  }

  /** From the reply on; `c` has its engine. */
  function Answered(d: Schedule, c: Client, e: Env, before: seq<Event>): Outcome
    requires d.failures >= 0
  {
    match e.reply
    case Gone => Outcome(None, d, before)
    case Broken => Broke(d, c, e.answered, e.result, before)
    case Good =>
      if e.result.Unsaved? then Broke(d, c, e.retried, e.retry, before)
      else Outcome(if Dies(e.result) then None else Some(c),
                   if Reaches(e.result) then d.(failures := 0, nextPoll := e.answered + c.interval) else d,
                   before + if Reaches(e.result) then [Succeeded(e.answered, c.interval)] else [])
    case Refused(kind, retryAfter) =>
      if e.result.Unsaved? then Broke(d, c, e.retried, e.retry, before)
      else Outcome(if Dies(e.result) then None else Some(c.(engine := c.engine && !Blocks(kind) && !kind.RateLimit?)),
                   if Reaches(e.result) then FailureSaved(d, c, kind, retryAfter, e.answered) else d,
                   before + if Reaches(e.result) then [Failure(d, c, kind, retryAfter, e.answered)] else [])
  }

  /** `poll` as far as it touches the schedule. */
  function Poll(d: Schedule, c: Client, e: Env): Outcome
    requires d.failures >= 0
  {
    if !Due(d, c, e.now) then Outcome(Some(c), d, [])
    else
      var reserved := if Reaches(e.poll) then d.(nextPoll := e.now + c.interval) else d;
      if !e.poll.Saved? then
        Outcome(if Dies(e.poll) then None else Some(c), reserved,
                if Reaches(e.poll) then [Reserved(e.now, c.interval, false)] else [])
      else if c.engine then Answered(reserved, c, e, [PollOf(c, e)])
      else
        var started := if Reaches(e.login) then reserved.(nextLogin := e.now + LOGIN_INTERVAL) else reserved;
        if !e.login.Saved? then
          Outcome(if Dies(e.login) then None else Some(c), started, [Reserved(e.now, c.interval, Reaches(e.login))])
        else Answered(started, c.(engine := true), e, [PollOf(c, e), StartOf(c, e)])
  }

  /** The client object with the store it holds; its copy of the schedule is always the file's. */
  class EvccClient {
    const interval: real
    var disk: Schedule
    var engine: bool
    var alive: bool

    function Now(): Option<Client>
      reads this
    {
      if alive then Some(Client(interval, engine)) else None
    }

    constructor (effective: real, file: Schedule)
      ensures disk == file && Now() == Some(Client(effective, false))
    {
      interval, disk, engine, alive := effective, file, false, true;
    }

    method Store(next: Schedule, save: Save) returns (ok: bool)
      requires alive
      modifies this`disk, this`alive
      ensures disk == if save.Saved? || save.DiedAfter? then next else old(disk)
      ensures alive <==> save.Saved? || save.Unsaved?
      ensures ok <==> save.Saved?
    {
      if Reaches(save) {
        disk := next;
      }
      alive := !Dies(save);
      ok := save.Saved?;
    }

    /** `_failure`; without `ok` its save raised. */
    method Fail(kind: Kind, retryAfter: real, at: real, save: Save) returns (ok: bool, events: seq<Event>)
      requires alive && disk.failures >= 0
      modifies this
      ensures disk == if Reaches(save) then FailureSaved(old(disk), Client(interval, old(engine)), kind, retryAfter, at)
                      else old(disk)
      ensures events == if Reaches(save) then [Failure(old(disk), Client(interval, old(engine)), kind, retryAfter, at)]
                        else []
      ensures (alive <==> !Dies(save)) && (ok <==> save.Saved?)
      ensures engine == (old(engine) && !(ok && (Blocks(kind) || kind.RateLimit?)))
    {
      var failures := Min(MAX_FAILURES, disk.failures + 1);
      var delay := DelayOf(Client(interval, engine), failures, retryAfter);
      events := if Reaches(save) then [HeldBack(at, interval, kind, retryAfter, delay, Blocks(kind))] else [];
      ok := Store(disk.(nextPoll := at + delay, failures := failures, blocked := Blocks(kind)), save);
      if ok && (Blocks(kind) || kind.RateLimit?) {
        engine := false;
      }
    }

    method PollNow(e: Env) returns (events: seq<Event>)
      requires alive && disk.failures >= 0
      modifies this
      ensures Outcome(Now(), disk, events) == Poll(old(disk), old(Client(interval, engine)), e)
    {
      hide Answered;
      events := [];
      if !Due(disk, Client(interval, engine), e.now) {
        return;
      }
      var ok := Store(disk.(nextPoll := e.now + interval), e.poll);
      if !ok {
        events := if Reaches(e.poll) then [Reserved(e.now, interval, false)] else [];
        return;
      }
      var created := !engine;
      if created {
        ok := Store(disk.(nextLogin := e.now + LOGIN_INTERVAL), e.login);
        if !ok {
          events := [Reserved(e.now, interval, Reaches(e.login))];
          return;
        }
        engine := true;
      }
      var poll := Polled(e.now, e.polled, interval);
      events := if created then [poll, Created(e.now, e.created, interval)] else [poll];
      AnsweredBehind(disk, Client(interval, engine), e, events);
      var more := Conclude(e);
      events := events + more;
    }

    /** From the reply on. */
    method Conclude(e: Env) returns (events: seq<Event>)
      requires alive && disk.failures >= 0
      modifies this
      ensures Outcome(Now(), disk, events) == Answered(old(disk), old(Client(interval, engine)), e, [])
    {
      events := [];
      var ok;
      match e.reply {
        case Gone => alive := false;
        case Broken =>
          engine := false;
          ok, events := Fail(Transport, 0.0, e.answered, e.result);
        case Good =>
          ok := Store(disk.(failures := 0, nextPoll := e.answered + interval), e.result);
          if Reaches(e.result) {
            events := [Succeeded(e.answered, interval)];
          }
        case Refused(kind, retryAfter) =>
          ok, events := Fail(kind, retryAfter, e.answered, e.result);
      }
      if (e.reply.Good? || e.reply.Refused?) && e.result.Unsaved? {
        engine := false;
        ok, events := Fail(Transport, 0.0, e.retried, e.retry);
      }
    }
  }

  /** What happened before the reply stays in front. */
  lemma AnsweredBehind(d: Schedule, c: Client, e: Env, before: seq<Event>)
    requires d.failures >= 0
    ensures var r := Answered(d, c, e, []);
      Answered(d, c, e, before) == Outcome(r.client, r.disk, before + r.events)
  {
  }

  // ---- Histories --------------------------------------------------------------------------

  datatype World = World(clock: real, disk: Schedule, client: Option<Client>, log: seq<Event>)

  /** `Authorize` is a successful run of the operator command, which needs the lock no client holds. */
  datatype Action = Start(now: real, interval: real) | Stop | Authorize | PollOnce(env: Env)

  const EARLIEST := World(0.0, EMPTY, None, [])

  predicate Timely(clock: real, e: Env) {
    && clock <= e.now <= e.created <= e.polled <= e.answered <= e.retried
    && (e.reply.Refused? ==> e.reply.retryAfter >= 0.0)
  }

  function Step(w: World, a: Action): World {
    match a
    case Start(now, interval) =>
      if w.client.None? && w.clock <= now && interval >= MIN_INTERVAL
      then w.(clock := now, client := Some(Client(interval, false))) else w
    case Stop => w.(client := None)
    case Authorize =>
      if w.client.None? then w.(disk := EMPTY, log := w.log + [Authorized]) else w
    case PollOnce(e) =>
      if w.client.Some? && w.disk.failures >= 0 && Timely(w.clock, e) then
        var r := Poll(w.disk, w.client.value, e);
        World(if Due(w.disk, w.client.value, e.now) then e.retried else e.now, r.disk, r.client, w.log + r.events)
      else w
  }

  function Run(w: World, actions: seq<Action>): World
    decreases |actions|
  {
    if actions == [] then w else Run(Step(w, actions[0]), actions[1..])
  }

  // ---- The invariant ----------------------------------------------------------------------

  /** Consecutive failures on record. */
  function Streak(log: seq<Event>): nat {
    if log == [] then 0
    else
      var e := log[|log| - 1];
      if e.Succeeded? || e.Authorized? then 0 else Streak(log[..|log| - 1]) + if e.HeldBack? then 1 else 0
  }

  /** No operator authorization after entry `i`. */
  predicate Current(log: seq<Event>, i: int) {
    forall k | 0 <= k < |log| && i < k :: !log[k].Authorized?
  }

  /** What an event forbids before a time: the next poll, and the next engine start. */
  predicate PollsFrom(e: Event, time: real) {
    && (e.Polled? || e.Created? || e.Reserved? ==> e.at + e.interval <= time)
    && (e.HeldBack? ==> e.at + e.delay <= time && !e.blocked)
  }

  predicate StartsFrom(e: Event, time: real) {
    e.Created? || (e.Reserved? && e.start) ==> e.at + LOGIN_INTERVAL <= time
  }

  /** An event after which the next poll, or the next engine start, is due exactly at this time. */
  predicate PollDue(e: Event, time: real) {
    match e
    case Polled(at, _, interval) => time == at + interval
    case Created(at, _, interval) => time == at + interval
    case Reserved(at, interval, _) => time == at + interval
    case Succeeded(at, interval) => time == at + interval
    case HeldBack(at, _, _, _, delay, _) => time == at + delay
    case Authorized => false
  }

  predicate StartDue(e: Event, time: real) {
    match e
    case Created(at, _, _) => time == at + LOGIN_INTERVAL
    case Reserved(at, _, start) => start && time == at + LOGIN_INTERVAL
    case _ => false
  }

  /** Everything the schedule holds polls and starts back for is on record since the last authorization. */
  predicate DiskExplained(d: Schedule, log: seq<Event>) {
    && (d.nextPoll > 0.0 ==> exists i | 0 <= i < |log| :: Current(log, i) && PollDue(log[i], d.nextPoll))
    && (d.nextLogin > 0.0 ==> exists i | 0 <= i < |log| :: Current(log, i) && StartDue(log[i], d.nextLogin))
    && (d.blocked ==> exists i | 0 <= i < |log| :: Current(log, i) && log[i].HeldBack? && log[i].blocked)
  }

  predicate DiskKnows(d: Schedule, log: seq<Event>) {
    && d.failures == Min(MAX_FAILURES, Streak(log)) && DiskExplained(d, log)
    && forall i | 0 <= i < |log| && Current(log, i) ::
         (d.blocked || PollsFrom(log[i], d.nextPoll)) && StartsFrom(log[i], d.nextLogin)
  }

  /** Engine polls and starts keep their distance from everything since the last authorization. */
  predicate Paced(log: seq<Event>) {
    && (forall i, j | 0 <= i < j < |log| && log[j].Polled? && Current(log[..j], i) :: PollsFrom(log[i], log[j].at))
    && (forall i, j | 0 <= i < j < |log| && log[j].Created? && Current(log[..j], i) ::
          StartsFrom(log[i], log[j].at) && (log[i].Created? ==> PollsFrom(log[i], log[j].at)))
  }

  /** Polls and starts happen behind their reservations, and before the next reservation of their kind. */
  predicate Timed(log: seq<Event>) {
    && (forall i | 0 <= i < |log| && (log[i].Polled? || log[i].Created?) :: log[i].at <= log[i].really)
    && (forall i, j | 0 <= i < j < |log| && log[i].Polled? && log[j].Polled? :: log[i].really <= log[j].at)
    && (forall i, j | 0 <= i < j < |log| && log[i].Created? && log[j].Created? :: log[i].really <= log[j].at)
  }

  /** Nothing on record is later than the clock. */
  predicate Past(clock: real, log: seq<Event>) {
    forall i | 0 <= i < |log| && (log[i].Polled? || log[i].Created?) :: log[i].really <= clock
  }

  /** A failure delays by exactly the longest of the interval, what its place since the last success asks for, and
      its Retry-After; and it blocks exactly if it is one of authorization, configuration or storage. */
  predicate Delays(k: nat, e: Event)
    requires e.HeldBack? && k >= 1
  {
    && e.delay >= e.interval && e.delay >= Backoff(Min(MAX_FAILURES, k)) && e.delay >= e.asked
    && (e.delay == e.interval || e.delay == Backoff(Min(MAX_FAILURES, k)) || e.delay == e.asked)
    && (e.blocked <==> e.kind == Authorization || e.kind == Configuration || e.kind == Storage)
  }

  /** Every failure does, by its place. */
  predicate LongEnough(log: seq<Event>) {
    forall j | 0 <= j < |log| && log[j].HeldBack? :: Delays(Streak(log[..j]) + 1, log[j])
  }

  predicate Inv(w: World) {
    && Paced(w.log) && LongEnough(w.log) && DiskKnows(w.disk, w.log)
    && (w.client.Some? ==> w.client.value.interval >= MIN_INTERVAL)
  }

  lemma EarliestKept()
    ensures Inv(EARLIEST)
  {
  }

  lemma {:induction false} DoubledGrows(m: nat, n: nat)
    requires m <= n
    ensures 1.0 <= Doubled(m) <= Doubled(n)
    decreases n
  {
    if m < n {
      DoubledGrows(m, n - 1);
    } else if n > 0 {
      DoubledGrows(m - 1, n - 1);
    }
  }

  lemma BackoffGrows(a: int, b: int)
    requires 1 <= a <= b
    ensures 1800.0 <= Backoff(a) <= Backoff(b) <= LOGIN_INTERVAL
  {
    DoubledGrows(a - 1, b - 1);
  }

  lemma Appended(log: seq<Event>, e: Event)
    ensures (log + [e])[..|log|] == log && (log + [e])[|log|] == e
    ensures Streak(log + [e]) == if e.Succeeded? || e.Authorized? then 0 else Streak(log) + if e.HeldBack? then 1 else 0
    ensures forall i | 0 <= i < |log| :: (log + [e])[i] == log[i] && (log + [e])[..i] == log[..i]
  {
    assert (log + [e])[..|log|] == log;
    forall i | 0 <= i < |log| ensures (log + [e])[..i] == log[..i] {
    }
  }

  lemma CurrentBefore(log: seq<Event>, e: Event, i: nat)
    requires i < |log| && Current(log + [e], i)
    ensures Current(log, i) && !e.Authorized?
  {
    assert (log + [e])[|log|] == e;
    assert forall k | 0 <= k < |log| :: (log + [e])[k] == log[k];
  }

  /** A poll that is due comes after everything the disk knows. */
  lemma DueIsPaced(d: Schedule, log: seq<Event>, now: real, starts: bool)
    requires DiskKnows(d, log) && !d.blocked && now >= d.nextPoll && (starts ==> now >= d.nextLogin)
    ensures forall i | 0 <= i < |log| && Current(log, i) ::
              PollsFrom(log[i], now) && (starts ==> StartsFrom(log[i], now))
  {
    hide Current, Streak;
  }

  lemma PacedGrows(log: seq<Event>, e: Event)
    requires Paced(log)
    requires e.Polled? ==> forall i | 0 <= i < |log| && Current(log, i) :: PollsFrom(log[i], e.at)
    requires e.Created? ==> forall i | 0 <= i < |log| && Current(log, i) ::
               StartsFrom(log[i], e.at) && (log[i].Created? ==> PollsFrom(log[i], e.at))
    ensures Paced(log + [e])
  {
    hide Current, Streak, PollsFrom, StartsFrom;
    Appended(log, e);
  }

  lemma LongGrows(log: seq<Event>, e: Event)
    requires LongEnough(log) && (e.HeldBack? ==> Delays(Streak(log) + 1, e))
    ensures LongEnough(log + [e])
  {
    hide Streak, Delays;
    Appended(log, e);
  }

  /** The schedule is explained by the old reasons and the new event. */
  lemma ExplainedMoves(d: Schedule, next: Schedule, log: seq<Event>, e: Event)
    requires DiskExplained(d, log) && !e.Authorized?
    requires next.nextPoll == d.nextPoll || PollDue(e, next.nextPoll)
    requires next.nextLogin == d.nextLogin || StartDue(e, next.nextLogin)
    requires next.blocked ==> d.blocked || (e.HeldBack? && e.blocked)
    ensures DiskExplained(next, log + [e])
  {
    hide PollDue, StartDue;
    var more := log + [e];
    assert more[|log|] == e && Current(more, |log|);
    forall i | 0 <= i < |log| && Current(log, i) ensures Current(more, i) && more[i] == log[i] {
    }
  }

  /** The schedule moves on with its event. */
  lemma DiskMoves(d: Schedule, next: Schedule, log: seq<Event>, e: Event)
    requires DiskKnows(d, log) && d.nextPoll <= next.nextPoll && d.nextLogin <= next.nextLogin
             && (d.blocked ==> next.blocked)
    requires next.failures == Min(MAX_FAILURES, Streak(log + [e]))
    requires (next.blocked || PollsFrom(e, next.nextPoll)) && StartsFrom(e, next.nextLogin) && !e.Authorized?
    requires next.nextPoll == d.nextPoll || PollDue(e, next.nextPoll)
    requires next.nextLogin == d.nextLogin || StartDue(e, next.nextLogin)
    requires next.blocked ==> d.blocked || (e.HeldBack? && e.blocked)
    ensures DiskKnows(next, log + [e])
  {
    ExplainedMoves(d, next, log, e);
    hide Streak, Current, DiskExplained;
    forall i | 0 <= i < |log + [e]| && Current(log + [e], i)
      ensures (next.blocked || PollsFrom((log + [e])[i], next.nextPoll)) && StartsFrom((log + [e])[i], next.nextLogin) {
      if i < |log| {
        CurrentBefore(log, e, i);
        assert (log + [e])[i] == log[i];
      }
    }
  }

  predicate Kept(d: Schedule, log: seq<Event>) {
    Paced(log) && LongEnough(log) && DiskKnows(d, log)
  }

  /** A failure that is saved. */
  lemma FailureKeeps(d: Schedule, c: Client, kind: Kind, retryAfter: real, at: real, log: seq<Event>)
    requires Kept(d, log) && !d.blocked && d.nextPoll <= at + c.interval
    ensures d.failures >= 0
            && Kept(FailureSaved(d, c, kind, retryAfter, at), log + [Failure(d, c, kind, retryAfter, at)])
  {
    hide Streak, Current, Backoff, DiskExplained;
    var e := Failure(d, c, kind, retryAfter, at);
    Appended(log, e);
    assert Delays(Streak(log) + 1, e);
    PacedGrows(log, e);
    LongGrows(log, e);
    DiskMoves(d, FailureSaved(d, c, kind, retryAfter, at), log, e);
  }

  lemma SuccessKeeps(d: Schedule, c: Client, at: real, log: seq<Event>)
    requires Kept(d, log) && d.nextPoll <= at + c.interval
    ensures Kept(d.(failures := 0, nextPoll := at + c.interval), log + [Succeeded(at, c.interval)])
  {
    hide Streak, Current, Backoff, DiskExplained;
    var e := Succeeded(at, c.interval);
    Appended(log, e);
    PacedGrows(log, e);
    LongGrows(log, e);
    DiskMoves(d, d.(failures := 0, nextPoll := at + c.interval), log, e);
  }

  lemma BrokeKeeps(d: Schedule, c: Client, at: real, save: Save, log: seq<Event>, before: seq<Event>)
    requires Kept(d, log + before) && !d.blocked && d.nextPoll <= at + c.interval && d.failures >= 0
    ensures var r := Broke(d, c, at, save, before);
      Kept(r.disk, log + r.events) && (r.client.Some? ==> r.client.value.interval == c.interval)
  {
    hide Kept, FailureSaved, Failure;
    FailureKeeps(d, c, Transport, 0.0, at, log + before);
    assert log + (before + [Failure(d, c, Transport, 0.0, at)]) == (log + before) + [Failure(d, c, Transport, 0.0, at)];
    assert before + [] == before;
  }

  lemma AnsweredKeeps(d: Schedule, c: Client, e: Env, log: seq<Event>, before: seq<Event>)
    requires Kept(d, log + before) && !d.blocked && d.failures >= 0
    requires d.nextPoll <= e.answered + c.interval && e.answered <= e.retried
    ensures var r := Answered(d, c, e, before);
      Kept(r.disk, log + r.events) && (r.client.Some? ==> r.client.value.interval == c.interval)
  {
    hide Kept, FailureSaved, Failure, Broke;
    assert before + [] == before;
    match e.reply {
      case Gone =>
      case Broken => BrokeKeeps(d, c, e.answered, e.result, log, before);
      case Good =>
        if e.result.Unsaved? {
          BrokeKeeps(d, c, e.retried, e.retry, log, before);
        } else {
          SuccessKeeps(d, c, e.answered, log + before);
          var s := Succeeded(e.answered, c.interval);
          assert log + (before + [s]) == (log + before) + [s];
        }
      case Refused(kind, retryAfter) =>
        if e.result.Unsaved? {
          BrokeKeeps(d, c, e.retried, e.retry, log, before);
        } else {
          FailureKeeps(d, c, kind, retryAfter, e.answered, log + before);
          var f := Failure(d, c, kind, retryAfter, e.answered);
          assert log + (before + [f]) == (log + before) + [f];
        }
    }
  }

  /** The reservation of a due poll, on record with the poll or by itself. */
  lemma ReservedKeeps(d: Schedule, c: Client, e: Env, log: seq<Event>, p: Event)
    requires Kept(d, log) && Due(d, c, e.now) && c.interval >= MIN_INTERVAL
    requires p == PollOf(c, e) || p == Reserved(e.now, c.interval, false)
    ensures Kept(d.(nextPoll := e.now + c.interval), log + [p])
  {
    hide Streak, Current, Backoff, DiskExplained;
    DueIsPaced(d, log, e.now, !c.engine);
    Appended(log, p);
    PacedGrows(log, p);
    LongGrows(log, p);
    DiskMoves(d, d.(nextPoll := e.now + c.interval), log, p);
  }

  /** With that of an engine start. */
  lemma StartReservedKeeps(d: Schedule, c: Client, e: Env, log: seq<Event>)
    requires Kept(d, log) && Due(d, c, e.now) && c.interval >= MIN_INTERVAL && !c.engine
    ensures var started := d.(nextPoll := e.now + c.interval, nextLogin := e.now + LOGIN_INTERVAL);
      Kept(started, log + [Reserved(e.now, c.interval, true)]) && Kept(started, log + [PollOf(c, e), StartOf(c, e)])
  {
    var started := d.(nextPoll := e.now + c.interval, nextLogin := e.now + LOGIN_INTERVAL);
    var r, p, created := Reserved(e.now, c.interval, true), PollOf(c, e), StartOf(c, e);
    ReservedKeeps(d, c, e, log, p);
    hide Streak, Current, Backoff, DiskExplained;
    DueIsPaced(d, log, e.now, true);
    Appended(log, r);
    PacedGrows(log, r);
    LongGrows(log, r);
    DiskMoves(d, started, log, r);
    Appended(log, p);
    Appended(log + [p], created);
    assert log + [p, created] == (log + [p]) + [created];
    StartPaced(log, p, created);
    LongGrows(log + [p], created);
    DiskMoves(d.(nextPoll := e.now + c.interval), started, log + [p], created);
  }

  lemma StartPaced(log: seq<Event>, p: Event, created: Event)
    requires Paced(log + [p]) && p.Polled? && created.Created?
    requires forall i | 0 <= i < |log| && Current(log, i) ::
               PollsFrom(log[i], created.at) && StartsFrom(log[i], created.at)
    ensures Paced((log + [p]) + [created])
  {
    hide Streak, Current, PollsFrom;
    forall i | 0 <= i < |log + [p]| && Current(log + [p], i)
      ensures StartsFrom((log + [p])[i], created.at)
      ensures (log + [p])[i].Created? ==> PollsFrom((log + [p])[i], created.at) {
      if i < |log| {
        CurrentBefore(log, p, i);
        assert (log + [p])[i] == log[i];
      }
    }
    PacedGrows(log + [p], created);
  }

  lemma PollKeeps(d: Schedule, c: Client, e: Env, log: seq<Event>)
    requires Kept(d, log) && d.failures >= 0 && c.interval >= MIN_INTERVAL && e.now <= e.answered <= e.retried
    ensures var r := Poll(d, c, e);
      Kept(r.disk, log + r.events) && (r.client.Some? ==> r.client.value.interval == c.interval)
  {
    hide Kept, Answered;
    assert log + [] == log;
    if Due(d, c, e.now) {
      ReservedKeeps(d, c, e, log, Reserved(e.now, c.interval, false));
      ReservedKeeps(d, c, e, log, PollOf(c, e));
      if !c.engine {
        StartReservedKeeps(d, c, e, log);
      }
      var polled := d.(nextPoll := e.now + c.interval);
      if e.poll.Saved? {
        if c.engine {
          AnsweredKeeps(polled, c, e, log, [PollOf(c, e)]);
        } else if e.login.Saved? {
          AnsweredKeeps(polled.(nextLogin := e.now + LOGIN_INTERVAL), c.(engine := true), e, log,
                        [PollOf(c, e), StartOf(c, e)]);
        }
      }
    }
  }

  /** At most one poll and one engine start, at their places. */
  predicate FromPoll(events: seq<Event>, e: Env) {
    forall i | 0 <= i < |events| ::
      && (events[i].Polled? ==> i == 0 && events[i].at == e.now && events[i].really == e.polled)
      && (events[i].Created? ==> i == 1 && events[i].at == e.now && events[i].really == e.created)
  }

  lemma PollEvents(d: Schedule, c: Client, e: Env)
    requires d.failures >= 0
    ensures FromPoll(Poll(d, c, e).events, e)
  {
    hide FailureSaved, Backoff, DelayOf;
  }

  lemma TimedGrows(log: seq<Event>, clock: real, events: seq<Event>, e: Env)
    requires Timed(log) && Past(clock, log) && Timely(clock, e) && FromPoll(events, e)
    ensures Timed(log + events) && Past(e.retried, log + events)
  {
  }

  /** A step keeps the recorded times in order. */
  lemma StepTimed(w: World, a: Action)
    requires Timed(w.log) && Past(w.clock, w.log)
    ensures Timed(Step(w, a).log) && Past(Step(w, a).clock, Step(w, a).log)
  {
    hide Poll, Due;
    if a.PollOnce? && w.client.Some? && w.disk.failures >= 0 && Timely(w.clock, a.env) {
      PollEvents(w.disk, w.client.value, a.env);
      if !Due(w.disk, w.client.value, a.env.now) {
        NotDue(w.disk, w.client.value, a.env);
      }
      TimedGrows(w.log, w.clock, Poll(w.disk, w.client.value, a.env).events, a.env);
    }
  }

  lemma NotDue(d: Schedule, c: Client, e: Env)
    requires d.failures >= 0 && !Due(d, c, e.now)
    ensures Poll(d, c, e).events == []
  {
  }

  lemma {:induction false} RunTimed(w: World, actions: seq<Action>)
    requires Timed(w.log) && Past(w.clock, w.log)
    ensures Timed(Run(w, actions).log)
    decreases |actions|
  {
    hide Step, Timed, Past;
    if actions != [] {
      StepTimed(w, actions[0]);
      RunTimed(Step(w, actions[0]), actions[1..]);
    }
  }

  lemma AuthorizedKeeps(d: Schedule, log: seq<Event>)
    requires Kept(d, log)
    ensures Kept(EMPTY, log + [Authorized])
  {
    hide Streak, Backoff;
    Appended(log, Authorized);
    PacedGrows(log, Authorized);
    LongGrows(log, Authorized);
    forall i | 0 <= i < |log| ensures !Current(log + [Authorized], i) {
      assert (log + [Authorized])[|log|] == Authorized;
    }
  }

  lemma {:induction false} RunKept(w: World, actions: seq<Action>)
    requires Inv(w)
    ensures Inv(Run(w, actions))
    decreases |actions|
  {
    hide Paced, LongEnough, DiskKnows, Poll;
    if actions != [] {
      var a := actions[0];
      if a.Authorize? {
        AuthorizedKeeps(w.disk, w.log);
      } else if a.PollOnce? && w.client.Some? && w.disk.failures >= 0 && Timely(w.clock, a.env) {
        PollKeeps(w.disk, w.client.value, a.env, w.log);
      }
      RunKept(Step(w, a), actions[1..]);
    }
  }

  // ---- Main results -----------------------------------------------------------------------

  /** Between operator authorizations, whatever crashes and restarts happen: an engine poll is reserved an
      effective interval after the poll before it and not before a failure's delay is over, and never
      after a blocking failure; engine starts are reserved six hours apart. */
  lemma PollsArePaced(actions: seq<Action>)
    ensures Paced(Run(EARLIEST, actions).log)
  {
    hide Run, Paced;
    EarliestKept();
    RunKept(EARLIEST, actions);
  }

  /** The least time between two polls or starts of which the earlier was reserved for `distance` and
      which began `l1` and `l2` after the clock was read for their reservations. */
  function LeastGap(distance: real, l1: real, l2: real): real {
    Max(distance - l1, 0.0) + l2
  }

  /** Between operator authorizations the engine is really polled, and really started, at least this far
      apart; starts keep the longer of the interval and six hours. */
  lemma ActualGaps(actions: seq<Action>, i: nat, j: nat)
    requires i < j < |Run(EARLIEST, actions).log| && Current(Run(EARLIEST, actions).log[..j], i)
    ensures var d, e := Run(EARLIEST, actions).log[i], Run(EARLIEST, actions).log[j];
      && (d.Polled? && e.Polled? ==>
            e.really - d.really >= LeastGap(d.interval, d.really - d.at, e.really - e.at))
      && (d.Created? && e.Created? ==>
            e.really - d.really >= LeastGap(Max(d.interval, LOGIN_INTERVAL), d.really - d.at, e.really - e.at))
  {
    hide Run, Current;
    PollsArePaced(actions);
    RunTimed(EARLIEST, actions);
  }

  // ---- Runs that reach the bounds ---------------------------------------------------------

  /** A poll whose saves succeed, `late` after the clock was read for it. */
  function PollAt(now: real, late: real, reply: Reply): Action {
    PollOnce(Env(now, Saved, Saved, now + late, now + late, reply, now + late, Saved, now + late, Saved))
  }

  /** A process starts and dies in a poll for which it starts the engine. */
  lemma DiesInPoll(w: World, interval: real, now: real, late: real)
    requires w.client.None? && w.clock <= now && w.disk.failures >= 0 && interval >= MIN_INTERVAL && late >= 0.0
    requires !w.disk.blocked && now >= w.disk.nextPoll && now >= w.disk.nextLogin
    ensures Step(Step(w, Start(now, interval)), PollAt(now, late, Gone))
         == World(now + late, w.disk.(nextPoll := now + interval, nextLogin := now + LOGIN_INTERVAL), None,
                  w.log + [Polled(now, now + late, interval), Created(now, now + late, interval)])
  {
    assert Step(w, Start(now, interval)) == w.(clock := now, client := Some(Client(interval, false)));
  }

  /** The process dies in its first poll, which starts the engine; the next process starts it again. */
  function StartsAgain(interval: real, l1: real, l2: real): seq<Action> {
    var next := Max(Max(interval, LOGIN_INTERVAL), l1);
    [Start(0.0, interval), PollAt(0.0, l1, Gone), Start(next, interval), PollAt(next, l2, Gone)] + []
  }

  /** For all times that reservations take, two engine starts are as close as `ActualGaps` admits. */
  lemma StartGapIsReached(interval: real, l1: real, l2: real)
    requires interval >= MIN_INTERVAL && l1 >= 0.0 && l2 >= 0.0
    ensures var log := Run(EARLIEST, StartsAgain(interval, l1, l2)).log;
      var next := Max(Max(interval, LOGIN_INTERVAL), l1);
      && log == [Polled(0.0, l1, interval), Created(0.0, l1, interval)]
                + [Polled(next, next + l2, interval), Created(next, next + l2, interval)]
      && log[3].really - log[1].really == LeastGap(Max(interval, LOGIN_INTERVAL), l1, l2)
  {
    hide Run, Step;
    var next := Max(Max(interval, LOGIN_INTERVAL), l1);
    DiesInPoll(EARLIEST, interval, 0.0, l1);
    var w2 := Step(Step(EARLIEST, Start(0.0, interval)), PollAt(0.0, l1, Gone));
    DiesInPoll(w2, interval, next, l2);
    RunOfFour(EARLIEST, Start(0.0, interval), PollAt(0.0, l1, Gone), Start(next, interval), PollAt(next, l2, Gone), []);
    RunOfNone(Step(Step(w2, Start(next, interval)), PollAt(next, l2, Gone)));
  }

  /** The process dies in its second poll, when a new engine may be started at once. */
  function PollsAgain(interval: real, l1: real, l2: real): seq<Action> {
    var second := interval + LOGIN_INTERVAL;
    var third := second + Max(interval, l1);
    [Start(0.0, interval), PollAt(0.0, 0.0, Good), PollAt(second, l1, Gone), Start(third, interval)]
    + [PollAt(third, l2, Gone)]
  }

  /** Its first poll, which succeeds at once. */
  lemma FirstPoll(interval: real)
    requires interval >= MIN_INTERVAL
    ensures Step(Step(EARLIEST, Start(0.0, interval)), PollAt(0.0, 0.0, Good))
         == World(0.0, Schedule(interval, LOGIN_INTERVAL, 0, false), Some(Client(interval, true)),
                  [Polled(0.0, 0.0, interval), Created(0.0, 0.0, interval), Succeeded(0.0, interval)])
  {
    assert Step(EARLIEST, Start(0.0, interval)).client == Some(Client(interval, false));
  }

  /** A poll with a running engine, in which the process dies. */
  lemma SecondPoll(w: World, now: real, late: real)
    requires w.client.Some? && w.client.value.engine && w.clock <= now && w.disk.failures >= 0 && late >= 0.0
    requires !w.disk.blocked && now >= w.disk.nextPoll
    ensures var interval := w.client.value.interval;
      Step(w, PollAt(now, late, Gone))
      == World(now + late, w.disk.(nextPoll := now + interval), None, w.log + [Polled(now, now + late, interval)])
  {
  }

  /** For all intervals and all times that reservations take, two polls are as close as `ActualGaps`
      admits: they keep the interval exactly when the later reservation takes at least as long as the
      earlier one, or the interval. */
  lemma PollGapIsReached(interval: real, l1: real, l2: real)
    requires interval >= MIN_INTERVAL && l1 >= 0.0 && l2 >= 0.0
    ensures var log := Run(EARLIEST, PollsAgain(interval, l1, l2)).log;
      && |log| == 6 && log[3].Polled? && log[3].really - log[3].at == l1
      && log[4].Polled? && log[4].really - log[4].at == l2
      && log[4].really - log[3].really == LeastGap(interval, l1, l2)
      && (log[4].really - log[3].really >= interval <==> l2 >= l1 || l2 >= interval)
  {
    hide Run, Step;
    var second := interval + LOGIN_INTERVAL;
    var third := second + Max(interval, l1);
    var first := PollAt(0.0, 0.0, Good);
    FirstPoll(interval);
    var w2 := Step(Step(EARLIEST, Start(0.0, interval)), first);
    SecondPoll(w2, second, l1);
    var w3 := Step(w2, PollAt(second, l1, Gone));
    DiesInPoll(w3, interval, third, l2);
    RunOfFour(EARLIEST, Start(0.0, interval), first, PollAt(second, l1, Gone), Start(third, interval),
              [PollAt(third, l2, Gone)]);
    RunOfOne(Step(w3, Start(third, interval)), PollAt(third, l2, Gone));
  }

  lemma RunOfFour(w: World, a: Action, b: Action, c: Action, d: Action, rest: seq<Action>)
    ensures Run(w, [a, b, c, d] + rest) == Run(Step(Step(Step(Step(w, a), b), c), d), rest)
  {
    RunOfTwo(w, a, b, [c, d] + rest);
    assert [a, b] + ([c, d] + rest) == [a, b, c, d] + rest;
    RunOfTwo(Step(Step(w, a), b), c, d, rest);
  }

  lemma RunOfTwo(w: World, a: Action, b: Action, rest: seq<Action>)
    ensures Run(w, [a, b] + rest) == Run(Step(Step(w, a), b), rest)
  {
    hide Step;
    assert ([a, b] + rest)[1..] == [b] + rest && ([b] + rest)[1..] == rest;
    assert Run(w, [a, b] + rest) == Run(Step(w, a), [b] + rest);
  }

  lemma RunOfOne(w: World, a: Action)
    ensures Run(w, [a]) == Step(w, a)
  {
    hide Step;
    assert [a][1..] == [];
    assert Run(w, [a]) == Run(Step(w, a), []);
  }

  lemma RunOfNone(w: World)
    ensures Run(w, []) == w
  {
  }

  /** The backoffs in seconds: half an hour, doubled up to six hours. */
  lemma BackoffIs(k: nat)
    requires 1 <= k <= 5
    ensures Backoff(k) == [1800.0, 3600.0, 7200.0, 14400.0, 21600.0][k - 1]
  {
    assert Doubled(0) == 1.0 && Doubled(1) == 2.0 && Doubled(2) == 2.0 * Doubled(1);
    assert Doubled(3) == 2.0 * Doubled(2) && Doubled(4) == 2.0 * Doubled(3);
  }

  /** A save in which the process dies. */
  predicate Kills(save: Save) {
    save == DiedBefore || save == DiedAfter
  }

  /** How a poll leaves the process and its engine. Without its reservations the engine stays as it was. Behind a
      reply the engine runs on exactly if the outcome was saved and is good, or a failure that is neither one of
      authorization, configuration or storage nor a rate limit; an outcome that cannot be saved stops the engine and
      becomes a transport failure, if that can be saved. */
  lemma PollEnds(d: Schedule, c: Client, e: Env)
    requires d.failures >= 0 && Due(d, c, e.now)
    ensures var r := Poll(d, c, e);
      var tried := if e.poll == Saved then e.login else e.poll;
      var again := e.result == Unsaved && !e.reply.Broken?;
      if e.poll == Saved && (c.engine || e.login == Saved) then
        if e.reply.Gone? || Kills(e.result) || (again && Kills(e.retry)) then r.client.None?
        else
          && r.client == Some(Client(c.interval, e.result == Saved && (e.reply.Good?
                                                  || (e.reply.Refused? && e.reply.kind in {Provider, Transport}))))
          && (again && e.retry == Saved ==>
                var last := r.events[|r.events| - 1];
                last.HeldBack? && last.kind == Transport && last.at == e.retried && r.disk.failures >= 1)
      else r.client == if Kills(tried) then None else Some(c)
  {
    hide Backoff, DelayOf;
  }

  /** What may hold a poll back since the last authorization: a blocking failure, an interval or a delay that is not
      over, or an engine start less than six hours ago without an engine to poll. */
  predicate HasReason(log: seq<Event>, engine: bool, now: real) {
    exists i | 0 <= i < |log| :: Current(log, i) && Forbids(log[i], engine, now)
  }

  predicate Forbids(e: Event, engine: bool, now: real) {
    match e
    case HeldBack(at, _, _, _, delay, blocked) => blocked || now < at + delay
    case Authorized => false
    case Succeeded(at, interval) => now < at + interval
    case Polled(at, _, interval) => now < at + interval
    case Created(at, _, interval) => now < at + interval || (!engine && now < at + 21600.0)
    case Reserved(at, interval, start) => now < at + interval || (!engine && start && now < at + 21600.0)
  }

  lemma NotDueIsExplained(d: Schedule, log: seq<Event>, c: Client, now: real)
    requires DiskExplained(d, log) && now >= 0.0 && !Due(d, c, now)
    ensures HasReason(log, c.engine, now)
  {
    hide Current;
    if d.blocked {
      var i :| 0 <= i < |log| && Current(log, i) && log[i].HeldBack? && log[i].blocked;
      assert Forbids(log[i], c.engine, now);
    } else if now < d.nextPoll {
      var i :| 0 <= i < |log| && Current(log, i) && PollDue(log[i], d.nextPoll);
      assert Forbids(log[i], c.engine, now);
    } else {
      var i :| 0 <= i < |log| && Current(log, i) && StartDue(log[i], d.nextLogin);
      assert Forbids(log[i], c.engine, now);
    }
  }

  /** In every reachable state a poll without a reason against it on record is made, exactly if its reservations
      are saved. */
  lemma Admission(actions: seq<Action>, e: Env)
    ensures var w := Run(EARLIEST, actions);
      w.client.Some? && Timely(w.clock, e) && !HasReason(w.log, w.client.value.engine, e.now) ==>
        var next := Step(w, PollOnce(e)).log;
        (|next| > |w.log| && next[|w.log|] == Polled(e.now, e.polled, w.client.value.interval))
        <==> e.poll.Saved? && (w.client.value.engine || e.login.Saved?)
  {
    hide Run, HasReason, Paced, LongEnough, Answered;
    EarliestKept();
    RunKept(EARLIEST, actions);
    ClockIsLater(EARLIEST, actions);
    var w := Run(EARLIEST, actions);
    if w.client.Some? && Timely(w.clock, e) && !HasReason(w.log, w.client.value.engine, e.now) {
      if !Due(w.disk, w.client.value, e.now) {
        NotDueIsExplained(w.disk, w.log, w.client.value, e.now);
      }
      var c := w.client.value.(engine := true);
      AnsweredBehind(w.disk.(nextPoll := e.now + c.interval), w.client.value, e, [PollOf(w.client.value, e)]);
      AnsweredBehind(w.disk.(nextPoll := e.now + c.interval, nextLogin := e.now + LOGIN_INTERVAL), c, e,
                     [PollOf(c, e), StartOf(c, e)]);
    }
  }

  lemma {:induction false} ClockIsLater(w: World, actions: seq<Action>)
    requires w.clock >= 0.0
    ensures Run(w, actions).clock >= 0.0
    decreases |actions|
  {
    hide Poll;
    if actions != [] {
      ClockIsLater(Step(w, actions[0]), actions[1..]);
    }
  }

  /** The k-th consecutive failure delays by exactly the longest of the interval of its process, the k-th backoff and
      its Retry-After, and blocks exactly if it is one of authorization, configuration or storage. */
  lemma FailuresDelay(actions: seq<Action>)
    ensures LongEnough(Run(EARLIEST, actions).log)
  {
    hide Run, LongEnough, Backoff;
    EarliestKept();
    RunKept(EARLIEST, actions);
  }

  /** A blocked schedule admits no engine poll, whatever the clients do. */
  lemma {:induction false} BlockedAdmitsNone(w: World, actions: seq<Action>)
    requires w.disk.blocked && forall a | a in actions :: !a.Authorize?
    ensures Run(w, actions).log == w.log && Run(w, actions).disk == w.disk
    decreases |actions|
  {
    if actions != [] {
      assert actions[0] in actions;
      assert w.log + [] == w.log;
      BlockedAdmitsNone(Step(w, actions[0]), actions[1..]);
    }
  }
}
