/** The request gate of the vehicle engine (vehicle-engine/traffic.go): its state is written before a
    request leaves, so a restart does not get around its limits. Times are whole nanoseconds of a wall
    clock that never goes back. */
module EngineTraffic {
  import opened Results

  const SECOND := 1_000_000_000
  const HOUR := 3600 * SECOND
  const GAP := 2 * SECOND
  const CEILING := 60
  const LONGEST := 21600
  const CENTURY := 100 * 365 * 24 * 3600
  const MAX_FAILURES := 5

  datatype Reason = NoReason | Auth | RateLimit

  /** `trafficState`; the zero value is what an absent file gives. */
  datatype State = State(window: int, count: int, next: int, pause: int, reason: Reason, failures: int)

  const ZERO := State(0, 0, 0, 0, NoReason, 0)

  /** How `save` ends: the file is replaced or not, and the process may die before or after the rename. */
  datatype Save = Saved | Unsaved | DiedBefore | DiedAfter

  datatype Reply = Plain | Refused(reason: Reason, retryAfter: real) | Died

  /** What one call meets: the clock at its start, whether its context ends while it waits, the clock
      after the wait, the first save, the moment of sending, the answer, the clock then, the second save. */
  datatype Env = Env(now: int, canceled: bool, stamp: int, save: Save, sent: int, reply: Reply, answered: int,
                     resave: Save)

  /** `Sent` holds the window a request was charged to and its stamp, `Spent` a charge whose request never left;
      `Paused` a pause that was set, with the Retry-After of the refusal. */
  datatype Event =
    | Started | Sent(window: int, stamp: int, at: int) | Spent(window: int, stamp: int)
    | Paused(since: int, until: int, reason: Reason, asked: real, saved: bool)

  /** After a call: the memory of the process unless it died, the file, and what happened. */
  datatype Outcome = Outcome(memory: Option<State>, disk: Option<State>, events: seq<Event>)

  function Min(a: int, b: int): int {
    if a < b then a else b
  }

  function Max(a: int, b: int): int {
    if a < b then b else a
  }

  function MaxReal(a: real, b: real): real {
    if a < b then b else a
  }

  function Power(n: nat): nat {
    if n == 0 then 1 else 2 * Power(n - 1)
  }

  /** 1800 s, doubled by every failure up to the fifth. */
  function Backoff(failures: int): int
    requires failures >= 1
  {
    Min(LONGEST, 1800 * Power(failures - 1))
  }

  /** The pause in whole seconds, as the conversion to a Duration truncates it. */
  function Delay(failures: int, reason: Reason, retryAfter: real): int
    requires failures >= 1
  {
    var delay := MaxReal(Backoff(failures) as real, retryAfter);
    var least := if reason == Auth then MaxReal(delay, LONGEST as real) else delay;
    (if least < CENTURY as real then least else CENTURY as real).Floor
  }

  // ---- One call ---------------------------------------------------------------------------

  function Renewed(s: State, now: int): State {
    if now - s.window >= HOUR then s.(window := now, count := 0) else s
  }

  function Charged(s: State, stamp: int): State {
    s.(count := s.count + 1, next := stamp + GAP)
  }

  function PausedBy(s: State, reason: Reason, retryAfter: real, now: int): State
    requires s.failures >= 0
  {
    var failures := Min(MAX_FAILURES, s.failures + 1);
    s.(failures := failures, reason := reason, pause := now + Delay(failures, reason, retryAfter) * SECOND)
  }

  /** From the sending on. */
  function Answered(s: State, e: Env): Outcome
    requires s.failures >= 0
  {
    var sent := [Sent(s.window, e.stamp, e.sent)];
    match e.reply
    case Plain => Outcome(Some(s), Some(s), sent)
    case Died => Outcome(None, Some(s), sent)
    case Refused(reason, retryAfter) =>
      var next := PausedBy(s, reason, retryAfter, e.answered);
      var kept := e.resave.Saved? || e.resave.DiedAfter?;
      Outcome(if e.resave.DiedBefore? || e.resave.DiedAfter? then None else Some(next), Some(if kept then next else s),
              sent + [Paused(e.answered, next.pause, reason, retryAfter, kept)])
  }

  /** `RoundTrip`. */
  function RoundTrip(s: State, disk: Option<State>, e: Env): Outcome
    requires s.failures >= 0
  {
    if e.now < s.pause then Outcome(Some(s), disk, [])
    else
      var renewed := Renewed(s, e.now);
      if renewed.count >= CEILING || (renewed.next > e.now && e.canceled) then Outcome(Some(renewed), disk, [])
      else
        var next := Charged(renewed, e.stamp);
        match e.save
        case Unsaved => Outcome(Some(next), disk, [Spent(next.window, e.stamp)])
        case DiedBefore => Outcome(None, disk, [])
        case DiedAfter => Outcome(None, Some(next), [Spent(next.window, e.stamp)])
        case Saved => Answered(next, e)
  }

  /** The gate object and its file. */
  class Traffic {
    var window: int
    var count: int
    var next: int
    var pause: int
    var reason: Reason
    var failures: int
    var alive: bool
    var disk: Option<State>

    function Now(): State
      reads this
    {
      State(window, count, next, pause, reason, failures)
    }

    function Memory(): Option<State>
      reads this
    {
      if alive then Some(Now()) else None
    }

    /** `newTraffic`. */
    constructor (file: Option<State>)
      ensures alive && disk == file && Now() == if file.Some? then file.value else ZERO
    {
      var s := if file.Some? then file.value else ZERO;
      window, count, next, pause, reason, failures := s.window, s.count, s.next, s.pause, s.reason, s.failures;
      alive, disk := true, file;
    }

    method SaveState(result: Save) returns (ok: bool)
      requires alive
      modifies this`disk, this`alive
      ensures disk == if result.Saved? || result.DiedAfter? then Some(old(Now())) else old(disk)
      ensures alive <==> result.Saved? || result.Unsaved?
      ensures ok <==> result.Saved?
    {
      if result.Saved? || result.DiedAfter? {
        disk := Some(Now());
      }
      alive := result.Saved? || result.Unsaved?;
      ok := result.Saved?;
    }

    method Send(e: Env) returns (events: seq<Event>)
      requires alive && failures >= 0
      modifies this
      ensures Outcome(Memory(), disk, events) == RoundTrip(old(Now()), old(disk), e)
    {
      hide Delay;
      events := [];
      if e.now < pause {
        return;
      }
      if e.now - window >= HOUR {
        window, count := e.now, 0;
      }
      if count >= CEILING {
        return;
      }
      if next > e.now && e.canceled {
        return;
      }
      count := count + 1;
      next := e.stamp + GAP;
      var saved := SaveState(e.save);
      if !saved {
        events := if e.save.DiedBefore? then [] else [Spent(window, e.stamp)];
        return;
      }
      events := [Sent(window, e.stamp, e.sent)];
      match e.reply {
        case Plain =>
        case Died => alive := false;
        case Refused(why, retryAfter) =>
          failures := Min(MAX_FAILURES, failures + 1);
          pause := e.answered + Delay(failures, why, retryAfter) * SECOND;
          reason := why;
          events := events + [Paused(e.answered, pause, why, retryAfter, e.resave.Saved? || e.resave.DiedAfter?)];
          var _ := SaveState(e.resave);
      }
    }
  }

  // ---- Runs with crashes and restarts -----------------------------------------------------

  datatype World = World(memory: Option<State>, disk: Option<State>, clock: int, log: seq<Event>)

  const EARLIEST := World(None, None, 0, [])

  datatype Action = Start(now: int) | Crash(now: int) | Call(env: Env)

  /** The call returns without touching the network or its file. */
  predicate Refuses(s: State, e: Env) {
    e.now < s.pause || Renewed(s, e.now).count >= CEILING || (s.next > e.now && e.canceled)
  }

  /** The clock does not go back, a wait is not cut short, and a Retry-After is not negative. */
  predicate Possible(s: State, clock: int, e: Env) {
    && clock <= e.now
    && (Refuses(s, e) || (e.now <= e.stamp <= e.sent <= e.answered && s.next <= e.stamp
                          && (e.reply.Refused? ==> e.reply.retryAfter >= 0.0)))
  }

  function Contents(disk: Option<State>): State {
    if disk.Some? then disk.value else ZERO
  }

  /** One step; observations that cannot be made change nothing. */
  function Step(w: World, a: Action): World {
    match a
    case Start(now) =>
      if w.clock <= now then World(Some(Contents(w.disk)), w.disk, now, w.log + [Started]) else w
    case Crash(now) => if w.clock <= now then w.(memory := None, clock := now) else w
    case Call(e) =>
      if w.memory.Some? && w.memory.value.failures >= 0 && Possible(w.memory.value, w.clock, e) then
        var r := RoundTrip(w.memory.value, w.disk, e);
        World(r.memory, r.disk, if Refuses(w.memory.value, e) then e.now else e.answered, w.log + r.events)
      else w
  }

  function Run(w: World, actions: seq<Action>): World
    decreases |actions|
  {
    if actions == [] then w else Run(Step(w, actions[0]), actions[1..])
  }

  // ---- The invariant ----------------------------------------------------------------------

  /** The requests charged to one window. */
  function ChargedTo(log: seq<Event>, window: int): nat {
    if log == [] then 0
    else ChargedTo(log[..|log| - 1], window) + if log[|log| - 1].Sent? && log[|log| - 1].window == window then 1 else 0
  }

  function SavedPauses(log: seq<Event>): nat {
    if log == [] then 0
    else SavedPauses(log[..|log| - 1]) + if log[|log| - 1].Paused? && log[|log| - 1].saved then 1 else 0
  }

  /** The pauses a process cannot forget: those that were saved, and all since it was started. */
  function KnownPauses(log: seq<Event>): nat {
    if log == [] then 0
    else
      var before := log[..|log| - 1];
      if log[|log| - 1].Started? then SavedPauses(before)
      else KnownPauses(before) + if log[|log| - 1].Paused? then 1 else 0
  }

  /** All pauses, remembered or not. */
  function AllPauses(log: seq<Event>): nat {
    if log == [] then 0 else AllPauses(log[..|log| - 1]) + if log[|log| - 1].Paused? then 1 else 0
  }

  predicate IsCharge(e: Event) {
    e.Sent? || e.Spent?
  }

  /** All charges to one window, sent or not. */
  function Charges(log: seq<Event>, window: int): nat {
    if log == [] then 0
    else
      var last := log[|log| - 1];
      Charges(log[..|log| - 1], window) + if IsCharge(last) && last.window == window then 1 else 0
  }

  /** The charges stamped after a time. */
  function ChargesAfter(log: seq<Event>, time: int): nat {
    if log == [] then 0
    else ChargesAfter(log[..|log| - 1], time) + if IsCharge(log[|log| - 1]) && log[|log| - 1].stamp > time then 1 else 0
  }

  /** Everything that holds requests back is on record. */
  predicate Explained(s: State, log: seq<Event>) {
    && (s.pause > 0 ==>
          exists i | 0 <= i < |log| :: log[i].Paused? && log[i].until == s.pause && log[i].reason == s.reason)
    && s.count <= Charges(log, s.window)
    && (s.next > 0 ==> exists i | 0 <= i < |log| :: IsCharge(log[i]) && log[i].stamp + GAP == s.next)
    && s.failures <= AllPauses(log)
  }

  /** The process that wrote entry `i` has not been restarted since. */
  predicate SameProcess(log: seq<Event>, i: int) {
    forall k | 0 <= k < |log| && i < k :: !log[k].Started?
  }

  /** A window state accounts for a sent request: it is the window, or a later one by an hour that also
      began after the sending. */
  predicate Accounts(window: int, e: Event)
    requires e.Sent?
  {
    e.window == window || (e.window + HOUR <= window && e.at <= window)
  }

  predicate CoversSends(s: State, log: seq<Event>) {
    && (forall i | 0 <= i < |log| && log[i].Sent? :: Accounts(s.window, log[i]) && log[i].stamp + GAP <= s.next)
    && ChargedTo(log, s.window) <= s.count
  }

  /** The state knows of every saved pause, and, with `mine`, of those its own process did not get saved. */
  predicate CoversPauses(s: State, log: seq<Event>, mine: bool) {
    && (forall i | 0 <= i < |log| && log[i].Paused? && (log[i].saved || (mine && SameProcess(log, i))) ::
          log[i].until <= s.pause)
    && Min(MAX_FAILURES, if mine then KnownPauses(log) else SavedPauses(log)) <= s.failures <= MAX_FAILURES
  }

  predicate Covers(s: State, clock: int, log: seq<Event>, mine: bool) {
    s.window <= clock && CoversSends(s, log) && CoversPauses(s, log, mine) && Explained(s, log)
  }

  /** The requests so far keep the limits. */
  ghost predicate Paced(log: seq<Event>) {
    && (forall i, j | 0 <= i < j < |log| && log[i].Sent? && log[j].Sent? ::
          Accounts(log[j].window, log[i]) && log[i].stamp + GAP <= log[j].stamp && log[i].at <= log[j].stamp)
    && (forall i | 0 <= i < |log| && log[i].Sent? :: log[i].window <= log[i].stamp <= log[i].at)
    && forall window :: ChargedTo(log, window) <= CEILING
  }

  /** No request leaves before a pause ends, unless the pause was never saved and the process restarted;
      pauses that remain known never move back. */
  predicate Respects(log: seq<Event>) {
    forall i, j | 0 <= i < j < |log| && log[i].Paused? && (log[i].saved || forall k | i < k < j :: !log[k].Started?) ::
      (log[j].Sent? ==> log[i].until <= log[j].stamp) && (log[j].Paused? ==> log[i].until <= log[j].until)
  }

  /** The pause is at least what `k` refusals ask for, and its Retry-After as far as it fits. */
  predicate IsLong(k: nat, e: Event)
    requires e.Paused?
  {
    var length := e.until - e.since;
    && length >= Backoff(Min(k + 1, MAX_FAILURES)) * SECOND && (e.reason == Auth ==> length >= LONGEST * SECOND)
    && (e.asked < CENTURY as real ==> length as real > (e.asked - 1.0) * SECOND as real)
    && length <= CENTURY * SECOND
  }

  /** It is no longer than that of `n` refusals, than what was asked for, or than six hours behind a failed
      login. */
  predicate IsShort(n: nat, e: Event)
    requires e.Paused?
  {
    var length := e.until - e.since;
    || length <= Backoff(Min(n + 1, MAX_FAILURES)) * SECOND
    || length as real <= e.asked * SECOND as real
    || (e.reason == Auth && length == LONGEST * SECOND)
  }

  /** Every pause is at least what the refusals its process knows of ask for. */
  predicate LongEnough(log: seq<Event>) {
    forall j | 0 <= j < |log| && log[j].Paused? :: IsLong(KnownPauses(log[..j]), log[j])
  }

  /** And no pause is longer than what all refusals so far ask for, or its own answer. */
  predicate ShortEnough(log: seq<Event>) {
    forall j | 0 <= j < |log| && log[j].Paused? :: IsShort(AllPauses(log[..j]), log[j])
  }

  /** Charges are stamped within the window they began in, or later. */
  predicate Stamped(log: seq<Event>) {
    forall i | 0 <= i < |log| && IsCharge(log[i]) :: log[i].window <= log[i].stamp
  }

  predicate Past(clock: int, log: seq<Event>) {
    forall i | 0 <= i < |log| :: (log[i].Sent? ==> log[i].at <= clock) && (log[i].Paused? ==> log[i].since <= clock)
  }

  ghost predicate Inv(w: World) {
    && Paced(w.log) && Respects(w.log) && LongEnough(w.log) && ShortEnough(w.log) && Stamped(w.log)
    && Past(w.clock, w.log)
    && (w.memory.Some? ==> Covers(w.memory.value, w.clock, w.log, true))
    && Covers(Contents(w.disk), w.clock, w.log, false)
  }

  // ---- Bounds of a pause ------------------------------------------------------------------

  lemma PowerBounds(n: nat)
    requires n <= 4
    ensures Power(0) == 1 && Power(1) == 2 && Power(2) == 4 && Power(3) == 8 && Power(4) == 16
    ensures 1 <= Power(n) <= 16
  {
    assert Power(1) == 2 * Power(0);
    assert Power(2) == 2 * Power(1);
    assert Power(3) == 2 * Power(2);
    assert Power(4) == 2 * Power(3);
  }

  lemma BackoffGrows(a: int, b: int)
    requires 1 <= a <= b <= MAX_FAILURES
    ensures 1800 <= Backoff(a) <= Backoff(b) <= LONGEST
  {
    PowerBounds(a - 1);
  }

  /** For every Retry-After the pause is between the backoff and a century, and its nanoseconds fit the
      64 bits of a Duration. */
  lemma DelayBounds(failures: int, reason: Reason, retryAfter: real)
    requires 1 <= failures <= MAX_FAILURES
    ensures Backoff(failures) <= Delay(failures, reason, retryAfter) <= CENTURY
    ensures reason == Auth ==> LONGEST <= Delay(failures, reason, retryAfter)
    ensures 0 < Delay(failures, reason, retryAfter) * SECOND < 0x8000_0000_0000_0000
    ensures retryAfter < CENTURY as real ==> Delay(failures, reason, retryAfter) as real > retryAfter - 1.0
    ensures || Delay(failures, reason, retryAfter) == Backoff(failures)
            || Delay(failures, reason, retryAfter) as real <= retryAfter
            || (reason == Auth && Delay(failures, reason, retryAfter) == LONGEST)
  {
    BackoffGrows(1, failures);
    BackoffGrows(failures, failures);
  }

  // ---- Steps keep the invariant -----------------------------------------------------------

  lemma EarliestKept()
    ensures Inv(EARLIEST)
  {
  }

  lemma Appended(log: seq<Event>, e: Event)
    ensures (log + [e])[..|log|] == log && |log + [e]| == |log| + 1 && (log + [e])[|log|] == e
    ensures forall window ::
              ChargedTo(log + [e], window) == ChargedTo(log, window) + if e.Sent? && e.window == window then 1 else 0
    ensures SavedPauses(log + [e]) == SavedPauses(log) + if e.Paused? && e.saved then 1 else 0
    ensures KnownPauses(log + [e])
         == if e.Started? then SavedPauses(log) else KnownPauses(log) + if e.Paused? then 1 else 0
    ensures AllPauses(log + [e]) == AllPauses(log) + if e.Paused? then 1 else 0
    ensures forall window ::
              Charges(log + [e], window) == Charges(log, window) + if IsCharge(e) && e.window == window then 1 else 0
    ensures forall i | 0 <= i < |log| :: (log + [e])[i] == log[i] && (log + [e])[..i] == log[..i]
  {
    assert (log + [e])[..|log|] == log;
    forall i | 0 <= i < |log| ensures (log + [e])[..i] == log[..i] {
    }
  }

  lemma {:induction false} NoneCharged(log: seq<Event>, window: int)
    requires forall i | 0 <= i < |log| && log[i].Sent? :: log[i].window != window
    ensures ChargedTo(log, window) == 0
    decreases |log|
  {
    if log != [] {
      NoneCharged(log[..|log| - 1], window);
    }
  }

  /** What is on record stays so. */
  lemma ExplainedStays(s: State, log: seq<Event>, e: Event)
    requires Explained(s, log)
    ensures Explained(s, log + [e])
  {
    hide Charges, AllPauses;
    Appended(log, e);
    if s.pause > 0 {
      var i :| 0 <= i < |log| && log[i].Paused? && log[i].until == s.pause && log[i].reason == s.reason;
      assert (log + [e])[i] == log[i];
    }
    if s.next > 0 {
      var i :| 0 <= i < |log| && IsCharge(log[i]) && log[i].stamp + GAP == s.next;
      assert (log + [e])[i] == log[i];
    }
  }

  /** A charge and a pause are explained by their own entries. */
  lemma ChargeExplained(s: State, log: seq<Event>, e: Event, stamp: int)
    requires Explained(s, log) && IsCharge(e) && e.window == s.window && e.stamp == stamp
    ensures Explained(Charged(s, stamp), log + [e])
  {
    hide Charges, AllPauses;
    ExplainedStays(s, log, e);
    Appended(log, e);
    assert (log + [e])[|log|] == e;
  }

  lemma PauseExplained(s: State, log: seq<Event>, e: Event, next: State)
    requires Explained(s, log) && e.Paused? && e.until == next.pause && e.reason == next.reason
    requires next.failures <= s.failures + 1
    requires next == s.(failures := next.failures, reason := next.reason, pause := next.pause)
    ensures Explained(next, log + [e])
  {
    hide Charges, AllPauses;
    ExplainedStays(s, log, e);
    Appended(log, e);
    assert (log + [e])[|log|] == e;
  }

  lemma RenewedCovers(s: State, clock: int, log: seq<Event>, now: int, mine: bool)
    requires Covers(s, clock, log, mine) && Past(clock, log) && clock <= now
    ensures Covers(Renewed(s, now), now, log, mine) && Past(now, log)
  {
    if now - s.window >= HOUR {
      NoneCharged(log, now);
    }
  }

  lemma LaterCovers(s: State, clock: int, log: seq<Event>, now: int, mine: bool)
    requires Covers(s, clock, log, mine) && clock <= now
    ensures Covers(s, now, log, mine)
  {
  }

  lemma {:induction false} KnownAreMore(log: seq<Event>)
    ensures SavedPauses(log) <= KnownPauses(log)
  {
    if log != [] {
      KnownAreMore(log[..|log| - 1]);
    }
  }

  lemma CoversAlone(s: State, clock: int, log: seq<Event>)
    requires Covers(s, clock, log, true)
    ensures Covers(s, clock, log, false)
  {
    KnownAreMore(log);
  }

  /** A request that is charged but not sent. */
  lemma SpentCovers(s: State, clock: int, log: seq<Event>, stamp: int, mine: bool)
    requires Covers(s, clock, log, mine) && s.next <= stamp
    ensures Covers(Charged(s, stamp), clock, log + [Spent(s.window, stamp)], mine)
  {
    hide ChargedTo, SavedPauses, KnownPauses, Accounts, Explained;
    QuietSends(s, log, Spent(s.window, stamp));
    QuietPauses(s, log, Spent(s.window, stamp), mine);
    ChargeExplained(s, log, Spent(s.window, stamp), stamp);
  }

  lemma SpentStays(s: State, clock: int, log: seq<Event>, e: Event, mine: bool)
    requires Covers(s, clock, log, mine) && e.Spent?
    ensures Covers(s, clock, log + [e], mine)
  {
    hide ChargedTo, SavedPauses, KnownPauses, Accounts, Explained;
    QuietSends(s, log, e);
    QuietPauses(s, log, e, mine);
    ExplainedStays(s, log, e);
  }

  /** An entry that is neither a pause nor a start. */
  lemma QuietPauses(s: State, log: seq<Event>, e: Event, mine: bool)
    requires CoversPauses(s, log, mine) && IsCharge(e)
    ensures CoversPauses(s, log + [e], mine)
  {
    hide ChargedTo, SavedPauses, KnownPauses;
    Appended(log, e);
    var next := log + [e];
    forall i | 0 <= i < |next| && next[i].Paused? && (next[i].saved || (mine && SameProcess(next, i)))
      ensures next[i].until <= s.pause {
      if mine && SameProcess(next, i) {
        assert forall k | 0 <= k < |log| && i < k :: !next[k].Started?;
        assert SameProcess(log, i);
      }
    }
  }

  /** A request that is charged and sent. */
  lemma SentCovers(s: State, clock: int, log: seq<Event>, stamp: int, at: int, mine: bool)
    requires Covers(s, clock, log, mine) && s.next <= stamp
    ensures Covers(Charged(s, stamp), clock, log + [Sent(s.window, stamp, at)], mine)
  {
    hide ChargedTo, SavedPauses, KnownPauses, Accounts, Explained;
    Appended(log, Sent(s.window, stamp, at));
    AccountsItself(s.window, stamp, at);
    QuietPauses(s, log, Sent(s.window, stamp, at), mine);
    ChargeExplained(s, log, Sent(s.window, stamp, at), stamp);
  }

  lemma AccountsItself(window: int, stamp: int, at: int)
    ensures Accounts(window, Sent(window, stamp, at))
  {
  }

  lemma SentPaced(s: State, log: seq<Event>, stamp: int, at: int)
    requires Paced(log) && CoversSends(s, log) && s.count < CEILING && s.next <= stamp && s.window <= stamp <= at
    requires Past(stamp, log)
    ensures Paced(log + [Sent(s.window, stamp, at)])
  {
    hide ChargedTo, Accounts;
    Appended(log, Sent(s.window, stamp, at));
  }

  /** The pause of the state has run out, so every pause it knows has. */
  lemma SentRespects(s: State, log: seq<Event>, stamp: int, at: int)
    requires Respects(log) && CoversPauses(s, log, true) && s.pause <= stamp
    ensures Respects(log + [Sent(s.window, stamp, at)])
  {
    hide SavedPauses, KnownPauses;
    var next := log + [Sent(s.window, stamp, at)];
    forall i, j | 0 <= i < j < |next| && next[i].Paused? && (next[i].saved || forall k | i < k < j :: !next[k].Started?)
      ensures (next[j].Sent? ==> next[i].until <= next[j].stamp)
              && (next[j].Paused? ==> next[i].until <= next[j].until) {
      if j == |log| {
        assert next[i] == log[i];
        if !log[i].saved {
          assert forall k | 0 <= k < |log| && i < k :: log[k] == next[k];
          assert SameProcess(log, i);
        }
      } else {
        assert next[i] == log[i] && next[j] == log[j];
        assert forall k | i < k < j :: next[k] == log[k];
      }
    }
  }

  lemma PausedRespects(s: State, log: seq<Event>, p: Event)
    requires Respects(log) && CoversPauses(s, log, true) && p.Paused? && s.pause <= p.until
    ensures Respects(log + [p])
  {
    hide SavedPauses, KnownPauses;
    var next := log + [p];
    forall i, j | 0 <= i < j < |next| && next[i].Paused? && (next[i].saved || forall k | i < k < j :: !next[k].Started?)
      ensures (next[j].Sent? ==> next[i].until <= next[j].stamp)
              && (next[j].Paused? ==> next[i].until <= next[j].until) {
      if j == |log| {
        assert next[i] == log[i];
        if !log[i].saved {
          assert forall k | 0 <= k < |log| && i < k :: log[k] == next[k];
          assert SameProcess(log, i);
        }
      } else {
        assert next[i] == log[i] && next[j] == log[j];
        assert forall k | i < k < j :: next[k] == log[k];
      }
    }
  }

  lemma StartedRespects(log: seq<Event>)
    requires Respects(log)
    ensures Respects(log + [Started])
  {
    var next := log + [Started];
    forall i, j | 0 <= i < j < |next| && next[i].Paused? && (next[i].saved || forall k | i < k < j :: !next[k].Started?)
      ensures (next[j].Sent? ==> next[i].until <= next[j].stamp)
              && (next[j].Paused? ==> next[i].until <= next[j].until) {
      if j < |log| {
        assert next[i] == log[i] && next[j] == log[j];
        assert forall k | i < k < j :: next[k] == log[k];
      }
    }
  }

  lemma LongStays(log: seq<Event>, e: Event)
    requires LongEnough(log) && (e.Paused? ==> IsLong(KnownPauses(log), e))
    ensures LongEnough(log + [e])
  {
    hide SavedPauses, KnownPauses, IsLong;
    Appended(log, e);
  }

  lemma ShortStays(log: seq<Event>, e: Event)
    requires ShortEnough(log) && (e.Paused? ==> IsShort(AllPauses(log), e))
    ensures ShortEnough(log + [e])
  {
    hide AllPauses, IsShort;
    Appended(log, e);
  }

  lemma StampedStays(log: seq<Event>, e: Event)
    requires Stamped(log) && (IsCharge(e) ==> e.window <= e.stamp)
    ensures Stamped(log + [e])
  {
  }

  /** A charge that no request followed breaks nothing. */
  lemma SpentLog(log: seq<Event>, e: Event)
    requires Paced(log) && Respects(log) && LongEnough(log) && ShortEnough(log) && Stamped(log)
    requires e.Spent? && e.window <= e.stamp
    ensures var next := log + [e];
      Paced(next) && Respects(next) && LongEnough(next) && ShortEnough(next) && Stamped(next)
  {
    QuietPaced(log, e);
    LongStays(log, e);
    ShortStays(log, e);
    StampedStays(log, e);
    hide Paced, LongEnough, ShortEnough, Stamped;
    var next := log + [e];
    forall i, j | 0 <= i < j < |next| && next[i].Paused? && (next[i].saved || forall k | i < k < j :: !next[k].Started?)
      ensures (next[j].Sent? ==> next[i].until <= next[j].stamp)
              && (next[j].Paused? ==> next[i].until <= next[j].until) {
      if j < |log| {
        assert next[i] == log[i] && next[j] == log[j];
        assert forall k | i < k < j :: next[k] == log[k];
      }
    }
  }

  lemma QuietPaced(log: seq<Event>, e: Event)
    requires Paced(log) && !e.Sent?
    ensures Paced(log + [e])
  {
    hide ChargedTo, Accounts;
    Appended(log, e);
  }

  lemma QuietSends(s: State, log: seq<Event>, e: Event)
    requires CoversSends(s, log) && !e.Sent?
    ensures CoversSends(s, log + [e])
  {
    hide ChargedTo, Accounts;
    Appended(log, e);
  }

  /** A pause that was set: the state that set it knows it, and one that does not may be on disk if it
      was not saved. */
  lemma PausedCovers(s: State, clock: int, log: seq<Event>, reason: Reason, retryAfter: real, now: int, saved: bool)
    requires Covers(s, clock, log, true) && s.pause <= now && clock <= now
    ensures var next := PausedBy(s, reason, retryAfter, now);
      var p := Paused(now, next.pause, reason, retryAfter, saved);
      && s.pause <= next.pause && Covers(next, now, log + [p], true)
      && (!saved ==> Covers(s, now, log + [p], false))
  {
    hide ChargedTo, SavedPauses, KnownPauses, Delay, Accounts, Explained;
    var next := PausedBy(s, reason, retryAfter, now);
    var p := Paused(now, next.pause, reason, retryAfter, saved);
    DelayBounds(next.failures, reason, retryAfter);
    BackoffGrows(1, next.failures);
    KnownAreMore(log);
    Appended(log, p);
    QuietSends(s, log, p);
    ExplainedStays(s, log, p);
    PauseExplained(s, log, p, next);
    assert CoversSends(next, log + [p]);
    forall i | 0 <= i < |log| && SameProcess(log + [p], i) ensures SameProcess(log, i) {
      assert forall k | 0 <= k < |log| && i < k :: (log + [p])[k] == log[k];
    }
    hide Backoff;
  }

  /** A pause has the length its refusals and its Retry-After ask for. */
  lemma PauseLength(s: State, clock: int, log: seq<Event>, reason: Reason, retryAfter: real, now: int, saved: bool)
    requires Covers(s, clock, log, true)
    ensures var p := Paused(now, PausedBy(s, reason, retryAfter, now).pause, reason, retryAfter, saved);
      IsLong(KnownPauses(log), p) && IsShort(AllPauses(log), p)
  {
    var failures := Min(MAX_FAILURES, s.failures + 1);
    DelayBounds(failures, reason, retryAfter);
    BackoffGrows(Min(KnownPauses(log) + 1, MAX_FAILURES), failures);
    BackoffGrows(failures, Min(AllPauses(log) + 1, MAX_FAILURES));
    hide Delay, Backoff, KnownPauses, AllPauses;
  }

  lemma StartedCovers(s: State, clock: int, log: seq<Event>)
    requires Covers(s, clock, log, false)
    ensures Covers(s, clock, log + [Started], true) && Covers(s, clock, log + [Started], false)
  {
    hide ChargedTo, SavedPauses, KnownPauses, Accounts, Explained;
    Appended(log, Started);
    ExplainedStays(s, log, Started);
    QuietSends(s, log, Started);
    forall i | 0 <= i < |log| ensures !SameProcess(log + [Started], i) {
      assert (log + [Started])[|log|] == Started;
    }
  }

  // ---- Calls ------------------------------------------------------------------------------

  /** The log after a request was sent. */
  lemma SendKept(w: World, e: Env)
    requires Inv(w) && w.memory.Some? && !Refuses(w.memory.value, e) && Possible(w.memory.value, w.clock, e)
    ensures var s := Renewed(w.memory.value, e.now);
      Inv(World(Some(Charged(s, e.stamp)), Some(Charged(s, e.stamp)), e.answered,
                w.log + [Sent(s.window, e.stamp, e.sent)]))
  {
    hide Paced, Respects, LongEnough, ShortEnough, Stamped, SavedPauses, KnownPauses, ChargedTo, Accounts, Explained;
    var s := Renewed(w.memory.value, e.now);
    var sent := Sent(s.window, e.stamp, e.sent);
    RenewedCovers(w.memory.value, w.clock, w.log, e.now, true);
    LaterCovers(s, e.now, w.log, e.answered, true);
    SentCovers(s, e.answered, w.log, e.stamp, e.sent, true);
    CoversAlone(Charged(s, e.stamp), e.answered, w.log + [sent]);
    SentPaced(s, w.log, e.stamp, e.sent);
    SentRespects(s, w.log, e.stamp, e.sent);
    LongStays(w.log, sent);
    ShortStays(w.log, sent);
    StampedStays(w.log, sent);
    Appended(w.log, sent);
  }

  /** A refused answer after it. */
  lemma PauseKept(w: World, e: Env, reason: Reason, retryAfter: real, kept: bool, alive: bool)
    requires Inv(w) && w.memory.Some? && w.disk == w.memory && w.clock == e.answered
             && w.memory.value.pause <= e.answered
    ensures var next := PausedBy(w.memory.value, reason, retryAfter, e.answered);
      Inv(World(if alive then Some(next) else None, Some(if kept then next else w.memory.value), e.answered,
                w.log + [Paused(e.answered, next.pause, reason, retryAfter, kept)]))
  {
    hide Paced, Respects, LongEnough, ShortEnough, Stamped, SavedPauses, KnownPauses, ChargedTo, Accounts, Delay,
         Backoff, Explained, AllPauses, IsLong, IsShort;
    var s := w.memory.value;
    var next := PausedBy(s, reason, retryAfter, e.answered);
    var p := Paused(e.answered, next.pause, reason, retryAfter, kept);
    PausedCovers(s, w.clock, w.log, reason, retryAfter, e.answered, kept);
    PauseLength(s, w.clock, w.log, reason, retryAfter, e.answered, kept);
    CoversAlone(next, e.answered, w.log + [p]);
    QuietPaced(w.log, p);
    PausedRespects(s, w.log, p);
    LongStays(w.log, p);
    ShortStays(w.log, p);
    StampedStays(w.log, p);
    Appended(w.log, p);
  }

  /** A step without an event. */
  lemma QuietKept(w: World, memory: Option<State>, disk: Option<State>, clock: int)
    requires Inv(w) && w.clock <= clock
    requires memory.Some? ==> Covers(memory.value, clock, w.log, true)
    requires disk == w.disk || (disk.Some? && Covers(disk.value, clock, w.log, false))
    ensures Inv(World(memory, disk, clock, w.log))
  {
    hide Paced, Respects, LongEnough, ShortEnough, Stamped, SavedPauses, KnownPauses, ChargedTo, CoversSends,
         CoversPauses, Explained;
  }

  /** A charge without a request. */
  lemma SpentKept(w: World, memory: Option<State>, disk: Option<State>, clock: int, e: Event)
    requires Inv(w) && w.clock <= clock && e.Spent? && e.window <= e.stamp
    requires memory.Some? ==> Covers(memory.value, clock, w.log + [e], true)
    requires disk == w.disk || (disk.Some? && Covers(disk.value, clock, w.log + [e], false))
    ensures Inv(World(memory, disk, clock, w.log + [e]))
  {
    hide Paced, Respects, LongEnough, ShortEnough, Stamped, Covers;
    SpentLog(w.log, e);
    LaterCovers(Contents(w.disk), w.clock, w.log, clock, false);
    SpentStays(Contents(w.disk), clock, w.log, e, false);
  }

  lemma CallKept(w: World, e: Env)
    requires Inv(w) && w.memory.Some? && w.memory.value.failures >= 0 && Possible(w.memory.value, w.clock, e)
    ensures Inv(Step(w, Call(e)))
  {
    hide Inv, Covers, PausedBy;
    var m := w.memory.value;
    InvParts(w);
    RenewedCovers(m, w.clock, w.log, e.now, true);
    if Refuses(m, e) {
      LaterCovers(m, w.clock, w.log, e.now, true);
      var memory := if e.now < m.pause then m else Renewed(m, e.now);
      QuietKept(w, Some(memory), w.disk, e.now);
      assert RoundTrip(m, w.disk, e) == Outcome(Some(memory), w.disk, []) && w.log + [] == w.log;
    } else {
      var s := Renewed(m, e.now);
      var next := Charged(s, e.stamp);
      LaterCovers(s, e.now, w.log, e.answered, true);
      var spent := Spent(next.window, e.stamp);
      SpentCovers(s, e.answered, w.log, e.stamp, true);
      CoversAlone(next, e.answered, w.log + [spent]);
      WindowBefore(s, e.now, w.log, e.stamp);
      match e.save {
        case Unsaved => SpentKept(w, Some(next), w.disk, e.answered, spent);
        case DiedBefore =>
          QuietKept(w, None, w.disk, e.answered);
          assert w.log + [] == w.log;
        case DiedAfter => SpentKept(w, None, Some(next), e.answered, spent);
        case Saved =>
          SendKept(w, e);
          var sent := w.log + [Sent(next.window, e.stamp, e.sent)];
          AnsweredKept(World(Some(next), Some(next), e.answered, sent), w.log, e);
      }
    }
  }

  lemma WindowBefore(s: State, now: int, log: seq<Event>, stamp: int)
    requires Covers(s, now, log, true) && now <= stamp
    ensures Charged(s, stamp).window == s.window <= stamp
  {
  }

  lemma AnsweredKept(w: World, before: seq<Event>, e: Env)
    requires Inv(w) && w.memory.Some? && w.disk == w.memory && w.clock == e.answered && w.memory.value.failures >= 0
    requires w.memory.value.pause <= e.answered && w.log == before + [Sent(w.memory.value.window, e.stamp, e.sent)]
    ensures var r := Answered(w.memory.value, e);
      Inv(World(r.memory, r.disk, e.answered, before + r.events))
  {
    hide Inv, PausedBy;
    var s := w.memory.value;
    match e.reply {
      case Plain =>
      case Died => Forgotten(w);
      case Refused(reason, retryAfter) =>
        var kept := e.resave.Saved? || e.resave.DiedAfter?;
        PauseKept(w, e, reason, retryAfter, kept, !(e.resave.DiedBefore? || e.resave.DiedAfter?));
        var next := PausedBy(s, reason, retryAfter, e.answered);
        var p := Paused(e.answered, next.pause, reason, retryAfter, kept);
        assert before + ([Sent(s.window, e.stamp, e.sent)] + [p]) == w.log + [p];
    }
  }

  lemma Forgotten(w: World)
    requires Inv(w)
    ensures Inv(w.(memory := None))
  {
    hide Paced, Respects, LongEnough, ShortEnough, Stamped, Covers;
  }

  lemma InvParts(w: World)
    requires Inv(w)
    ensures Past(w.clock, w.log)
            && (w.memory.Some? ==> Covers(w.memory.value, w.clock, w.log, true) && w.memory.value.failures >= 0)
    ensures Covers(Contents(w.disk), w.clock, w.log, false)
  {
    hide Paced, Respects, LongEnough, ShortEnough, Stamped, SavedPauses, KnownPauses, ChargedTo, Explained;
  }

  lemma StartKept(w: World, now: int)
    requires Inv(w) && w.clock <= now
    ensures Inv(Step(w, Start(now)))
  {
    hide Paced, Respects, LongEnough, ShortEnough, Stamped, Covers, SavedPauses, KnownPauses, ChargedTo;
    var s := Contents(w.disk);
    LaterCovers(s, w.clock, w.log, now, false);
    StartedCovers(s, now, w.log);
    QuietPaced(w.log, Started);
    StartedRespects(w.log);
    LongStays(w.log, Started);
    ShortStays(w.log, Started);
    StampedStays(w.log, Started);
    Appended(w.log, Started);
  }

  lemma StepKept(w: World, a: Action)
    requires Inv(w)
    ensures Inv(Step(w, a))
  {
    hide Inv, Covers, RoundTrip, Possible;
    match a
    case Start(now) =>
      if w.clock <= now {
        StartKept(w, now);
      }
    case Crash(now) =>
      if w.clock <= now {
        InvParts(w);
        LaterCovers(Contents(w.disk), w.clock, w.log, now, false);
        QuietKept(w, None, w.disk, now);
      }
    case Call(e) =>
      if w.memory.Some? && w.memory.value.failures >= 0 && Possible(w.memory.value, w.clock, e) {
        CallKept(w, e);
      }
  }

  lemma {:induction false} RunKept(w: World, actions: seq<Action>)
    requires Inv(w)
    ensures Inv(Run(w, actions))
    decreases |actions|
  {
    hide Inv, Step;
    if actions != [] {
      StepKept(w, actions[0]);
      RunKept(Step(w, actions[0]), actions[1..]);
    }
  }

  // ---- Main results -----------------------------------------------------------------------

  /** Over every history of calls, failed saves, crashes and restarts: stamps are 2 s apart, a window is
      charged with at most 60 requests, and different windows are an hour apart. */
  lemma Pacing(actions: seq<Action>)
    ensures var log := Run(EARLIEST, actions).log;
      && (forall i, j | 0 <= i < j < |log| && log[i].Sent? && log[j].Sent? ::
            && log[i].stamp + 2 * SECOND <= log[j].stamp && log[i].at <= log[j].stamp
            && (log[i].window == log[j].window || log[i].window + 3600 * SECOND <= log[j].window))
      && forall window :: ChargedTo(log, window) <= 60
  {
    hide Run, ChargedTo;
    EarliestKept();
    RunKept(EARLIEST, actions);
  }

  /** Requests sent at times from `a` on and charged to windows up to `top`. */
  function SentSince(log: seq<Event>, a: int, top: int): nat {
    if log == [] then 0
    else SentSince(log[..|log| - 1], a, top)
         + if log[|log| - 1].Sent? && a <= log[|log| - 1].at && log[|log| - 1].window <= top then 1 else 0
  }

  /** Requests sent in the span from `a` up to but not including `b`. */
  function SentIn(log: seq<Event>, a: int, b: int): nat {
    if log == [] then 0
    else SentIn(log[..|log| - 1], a, b) + if log[|log| - 1].Sent? && a <= log[|log| - 1].at < b then 1 else 0
  }

  predicate Counts(e: Event, a: int, top: int) {
    e.Sent? && a <= e.at && e.window <= top
  }

  lemma {:induction false} SentSplit(log: seq<Event>, a: int, top: int, window: int)
    requires forall i | 0 <= i < |log| && Counts(log[i], a, top) ::
               log[i].window == window || log[i].window <= window - HOUR
    ensures SentSince(log, a, top) <= ChargedTo(log, window) + SentSince(log, a, window - HOUR)
    decreases |log|
  {
    if log != [] {
      SentSplit(log[..|log| - 1], a, top, window);
    }
  }

  lemma {:induction false} NoneSince(log: seq<Event>, a: int, top: int)
    requires forall i | 0 <= i < |log| :: !Counts(log[i], a, top)
    ensures SentSince(log, a, top) == 0
    decreases |log|
  {
    if log != [] {
      NoneSince(log[..|log| - 1], a, top);
    }
  }

  /** The newest counted request; the earlier ones are charged to its window or well before. */
  lemma {:induction false} NewestCounted(log: seq<Event>, a: int, top: int, n: nat) returns (last: int)
    requires n <= |log|
    ensures -1 <= last < n && (last >= 0 ==> Counts(log[last], a, top))
    ensures forall i | last < i < n :: !Counts(log[i], a, top)
  {
    if n == 0 || Counts(log[n - 1], a, top) {
      last := n - 1;
    } else {
      last := NewestCounted(log, a, top, n - 1);
    }
  }

  /** At most 60 requests for every hour the windows may have begun in, and 60 for the window before. */
  lemma {:induction false} SinceBound(log: seq<Event>, a: int, top: int)
    requires Paced(log)
    ensures SentSince(log, a, top) <= CEILING * (if top < a then 1 else (top - a) / HOUR + 2)
    decreases if top < a then 0 else top - a + 1
  {
    hide ChargedTo, SentSince;
    var last := NewestCounted(log, a, top, |log|);
    if last < 0 {
      NoneSince(log, a, top);
    } else {
      var window := log[last].window;
      SentSplit(log, a, top, window);
      assert ChargedTo(log, window) <= CEILING;
      if window < a {
        NoneEarlier(log, a, window);
      } else {
        SinceBound(log, a, window - HOUR);
      }
      Hours(top - a, window - HOUR - a);
    }
  }

  lemma Hours(x: int, y: int)
    requires y + HOUR <= x
    ensures y >= 0 ==> y / HOUR + 1 <= x / HOUR
  {
  }

  /** Requests counted from `a` on are charged to no window that ended its turn before `a`. */
  lemma NoneEarlier(log: seq<Event>, a: int, window: int)
    requires Paced(log) && window < a && exists i | 0 <= i < |log| ::
               log[i].Sent? && log[i].window == window && a <= log[i].at
    ensures SentSince(log, a, window - HOUR) == 0
  {
    hide ChargedTo, SentSince;
    var j :| 0 <= j < |log| && log[j].Sent? && log[j].window == window && a <= log[j].at;
    forall i | 0 <= i < |log| ensures !Counts(log[i], a, window - HOUR) {
      assert i < j || i == j || j < i;
    }
    NoneSince(log, a, window - HOUR);
  }

  lemma {:induction false} SpanIsSince(log: seq<Event>, a: int, b: int)
    requires forall i | 0 <= i < |log| && log[i].Sent? :: log[i].window <= log[i].at
    ensures SentIn(log, a, b) <= SentSince(log, a, b - 1)
    decreases |log|
  {
    if log != [] {
      SpanIsSince(log[..|log| - 1], a, b);
    }
  }

  /** A span of up to `n` hours sees at most 60 (n + 1) requests, by the times they really left. */
  lemma SpanLimit(actions: seq<Action>, a: int, b: int, n: nat)
    requires n >= 1 && b - a <= n * 3600 * SECOND
    ensures SentIn(Run(EARLIEST, actions).log, a, b) <= 60 * (n + 1)
  {
    hide Run, SentIn, SentSince;
    var log := Run(EARLIEST, actions).log;
    EarliestKept();
    RunKept(EARLIEST, actions);
    SpanIsSince(log, a, b);
    SinceBound(log, a, b - 1);
    assert b - 1 >= a ==> (b - 1 - a) / HOUR <= n - 1;
  }

  /** No request leaves before a pause ends that is saved or that the running process set, and such
      pauses only move forward. A refusal pauses at least the k-th backoff when its process knows of k - 1
      refusals before it: those that were saved, and all its own; and at least what its Retry-After asks, but
      no longer than that, the backoff of all refusals so far, or six hours behind a failed login. */
  lemma Pauses(actions: seq<Action>)
    ensures var log := Run(EARLIEST, actions).log;
      Respects(log) && LongEnough(log) && ShortEnough(log)
  {
    hide Run, Respects, LongEnough, ShortEnough;
    EarliestKept();
    RunKept(EARLIEST, actions);
  }

  /** The backoffs in seconds: half an hour, doubled up to six hours. */
  lemma BackoffIs(k: nat)
    requires 1 <= k <= 5
    ensures Backoff(k) == [1800, 3600, 7200, 14400, 21600][k - 1]
  {
    PowerBounds(0);
  }

  // ---- Nothing is held back without reason ------------------------------------------------

  lemma {:induction false} ChargesAreAfter(log: seq<Event>, window: int, time: int)
    requires Stamped(log) && time < window
    ensures Charges(log, window) <= ChargesAfter(log, time)
    decreases |log|
  {
    if log != [] {
      ChargesAreAfter(log[..|log| - 1], window, time);
    }
  }

  /** What may hold a request back: a pause that has not ended, 60 charges within the last hour, or a charge less
      than 2 s ago and a caller that does not wait. */
  predicate HasReason(log: seq<Event>, e: Env) {
    || (exists i | 0 <= i < |log| :: log[i].Paused? && e.now < log[i].until)
    || ChargesAfter(log, e.now - 3600 * SECOND) >= 60
    || (e.canceled && exists i | 0 <= i < |log| :: IsCharge(log[i]) && e.now < log[i].stamp + 2 * SECOND)
  }

  /** The request left, charged to a window that began within the last hour. */
  predicate Leaves(w: World, e: Env) {
    var next := Step(w, Call(e));
    && |next.log| > |w.log| && next.log[..|w.log|] == w.log
    && next.log[|w.log|].Sent? && next.log[|w.log|].stamp == e.stamp && next.log[|w.log|].at == e.sent
    && e.now - 3600 * SECOND < next.log[|w.log|].window <= e.now
  }

  lemma RefusedIsExplained(s: State, clock: int, log: seq<Event>, e: Env)
    requires Explained(s, log) && Stamped(log) && clock <= e.now && clock >= 0 && s.window <= clock && Refuses(s, e)
    ensures HasReason(log, e)
  {
    hide Charges, ChargesAfter;
    if e.now < s.pause {
      assert exists i | 0 <= i < |log| :: log[i].Paused? && log[i].until == s.pause;
    } else if Renewed(s, e.now).count >= CEILING {
      ChargesAreAfter(log, s.window, e.now - 3600 * SECOND);
    } else {
      assert exists i | 0 <= i < |log| :: IsCharge(log[i]) && log[i].stamp + GAP == s.next;
    }
  }

  /** In every reachable state a running process refuses a request only for a reason on record; any other request
      leaves, exactly if the state behind it was saved. */
  lemma Admission(actions: seq<Action>, e: Env)
    ensures var w := Run(EARLIEST, actions);
      w.memory.Some? && Possible(w.memory.value, w.clock, e) ==>
        && (Refuses(w.memory.value, e) ==> HasReason(w.log, e))
        && (!HasReason(w.log, e) ==> (Leaves(w, e) <==> e.save.Saved?))
  {
    hide Run, HasReason, Paced, Respects, LongEnough, ShortEnough, PausedBy;
    EarliestKept();
    RunKept(EARLIEST, actions);
    ClockIsLater(EARLIEST, actions);
    var w := Run(EARLIEST, actions);
    if w.memory.Some? && Possible(w.memory.value, w.clock, e) {
      if Refuses(w.memory.value, e) {
        RefusedIsExplained(w.memory.value, w.clock, w.log, e);
      } else {
        NotRefused(w, e);
      }
    }
  }

  lemma NotRefused(w: World, e: Env)
    requires Inv(w) && w.memory.Some? && w.memory.value.failures >= 0
    requires Possible(w.memory.value, w.clock, e) && !Refuses(w.memory.value, e)
    ensures Leaves(w, e) <==> e.save.Saved?
  {
    hide PausedBy, Paced, Respects, LongEnough, ShortEnough, Stamped;
    var s := Charged(Renewed(w.memory.value, e.now), e.stamp);
    assert w.memory.value.window <= w.clock;
    if e.save.Saved? {
      var events := Answered(s, e).events;
      assert events[0] == Sent(s.window, e.stamp, e.sent);
    }
  }

  lemma {:induction false} ClockIsLater(w: World, actions: seq<Action>)
    requires w.clock >= 0
    ensures Run(w, actions).clock >= 0
    decreases |actions|
  {
    hide RoundTrip;
    if actions != [] {
      ClockIsLater(Step(w, actions[0]), actions[1..]);
    }
  }

  // ---- Times of sending -------------------------------------------------------------------

  /** The least time between two requests whose saves took `l1` and `l2`. */
  function LeastGap(l1: int, l2: int): int {
    Max(GAP - l1, 0) + l2
  }

  /** Two requests really leave at least this far apart. */
  lemma ActualGap(actions: seq<Action>, i: nat, j: nat)
    requires i < j < |Run(EARLIEST, actions).log|
    requires Run(EARLIEST, actions).log[i].Sent? && Run(EARLIEST, actions).log[j].Sent?
    ensures var d, e := Run(EARLIEST, actions).log[i], Run(EARLIEST, actions).log[j];
      e.at - d.at >= LeastGap(d.at - d.stamp, e.at - e.stamp)
  {
    hide Run;
    Pacing(actions);
  }

  function Sends(now: int, stamp: int, latency: int): Action {
    Call(Env(now, false, stamp, Saved, stamp + latency, Plain, stamp + latency, Saved))
  }

  /** For all save times the bound is reached, so the 2 s hold between sendings exactly when the second
      save takes at least as long as the first, or 2 s. */
  lemma GapIsReached(l1: int, l2: int)
    requires l1 >= 0 && l2 >= 0
    ensures var log := Run(EARLIEST, [Start(0), Sends(0, 0, l1), Sends(l1, Max(l1, GAP), l2)]).log;
      && |log| == 3 && log[1] == Sent(0, 0, l1) && log[2].Sent? && log[2].stamp == Max(l1, GAP)
         && log[2].at == log[2].stamp + l2
      && log[2].at - log[1].at == LeastGap(l1, l2)
      && (log[2].at - log[1].at >= GAP <==> l2 >= Min(l1, GAP))
  {
    var first, second := Sends(0, 0, l1), Sends(l1, Max(l1, GAP), l2);
    var w1 := Step(EARLIEST, Start(0));
    var w2 := Step(w1, first);
    assert w2.memory == Some(State(0, 1, GAP, 0, NoReason, 0)) && w2.log == [Started, Sent(0, 0, l1)];
    var w3 := Step(w2, second);
    assert |w3.log| == 3 && w3.log[2].Sent? && w3.log[2].stamp == Max(l1, GAP);
    RunOfThree(EARLIEST, Start(0), first, second);
  }

  lemma RunOfThree(w: World, a: Action, b: Action, c: Action)
    ensures Run(w, [a, b, c]) == Step(Step(Step(w, a), b), c)
  {
    hide Step;
    assert [a, b, c][1..] == [b, c] && [b, c][1..] == [c] && [c][1..] == [];
    assert Run(w, [a, b, c]) == Run(Step(w, a), [b, c]) == Run(Step(Step(w, a), b), [c]);
    assert Run(Step(Step(w, a), b), [c]) == Run(Step(Step(Step(w, a), b), c), []);
  }

  // ---- Pauses and restarts ----------------------------------------------------------------

  /** The save behind a refused answer replaces the file. */
  predicate PauseReaches(e: Env) {
    e.resave.Saved? || e.resave.DiedAfter?
  }

  /** A request that left and was refused. */
  predicate IsRefusal(w: World, e: Env) {
    && w.memory.Some? && w.memory.value.failures >= 0 && Possible(w.memory.value, w.clock, e)
    && !Refuses(w.memory.value, e) && e.save.Saved? && e.reply.Refused?
  }

  /** The state with which the request left. */
  function LeftWith(w: World, e: Env): State
    requires w.memory.Some?
  {
    Charged(Renewed(w.memory.value, e.now), e.stamp)
  }

  /** The end of the pause that the refusal sets. */
  function PauseEnd(w: World, e: Env): int
    requires IsRefusal(w, e)
  {
    PausedBy(LeftWith(w, e), e.reply.reason, e.reply.retryAfter, e.answered).pause
  }

  lemma RefusalStep(w: World, e: Env)
    requires IsRefusal(w, e)
    ensures var s, next := Step(w, Call(e)), PausedBy(LeftWith(w, e), e.reply.reason, e.reply.retryAfter, e.answered);
      && s.disk == Some(if PauseReaches(e) then next else LeftWith(w, e)) && s.clock == e.answered
      && s.log == w.log + [Sent(LeftWith(w, e).window, e.stamp, e.sent),
                           Paused(e.answered, next.pause, e.reply.reason, e.reply.retryAfter, PauseReaches(e))]
  {
    hide PausedBy, Possible;
  }

  /** A pause survives a restart exactly if its save replaced the file: from every reachable state, the
      process that is started next knows the pause if and only if it was saved. If not, it knows none that
      lasts, and before the end of the pause it sends a request whenever the window has room. */
  lemma PauseSurvives(actions: seq<Action>, e: Env, now: int)
    requires IsRefusal(Run(EARLIEST, actions), e) && now >= e.answered
    ensures var w := Run(EARLIEST, actions);
      var after := Step(Step(w, Call(e)), Start(now));
      && after.memory.Some?
      && (after.memory.value.pause >= PauseEnd(w, e) <==> PauseReaches(e))
      && (!PauseReaches(e) ==> after.memory.value.pause <= e.now)
      && (!PauseReaches(e) && now < PauseEnd(w, e) && Renewed(after.memory.value, now).count < CEILING ==>
            SendsBefore(after, now, PauseEnd(w, e)))
  {
    hide Run;
    var w := Run(EARLIEST, actions);
    EarliestKept();
    RunKept(EARLIEST, actions);
    InvParts(w);
    RefusalStep(w, e);
    var reason, retryAfter := e.reply.reason, e.reply.retryAfter;
    var s, next := LeftWith(w, e), PausedBy(LeftWith(w, e), reason, retryAfter, e.answered);
    DelayBounds(next.failures, reason, retryAfter);
    BackoffGrows(1, next.failures);
    if !PauseReaches(e) && now < next.pause && Renewed(s, now).count < CEILING {
      RoomSends(Step(Step(w, Call(e)), Start(now)), now, next.pause);
    }
  }

  /** A call at `now` sends a request before `until`. */
  predicate SendsBefore(w: World, now: int, until: int) {
    && w.memory.Some?
    && var stamp := Max(now, w.memory.value.next);
       var next := Step(w, Sends(now, stamp, 0));
       |next.log| == |w.log| + 1 && next.log[|w.log|].Sent? && next.log[|w.log|].at == stamp < until
  }

  lemma RoomSends(w: World, now: int, until: int)
    requires w.memory.Some? && w.memory.value.failures >= 0 && w.clock <= now < until
    requires w.memory.value.pause <= now && w.memory.value.next < until
    requires Renewed(w.memory.value, now).count < CEILING
    ensures SendsBefore(w, now, until)
  {
  }

  /** An instance: a pause whose save failed does not survive a restart. */
  lemma UnsavedPauseIsLost()
    ensures var refused := Call(Env(0, false, 0, Saved, 0, Refused(RateLimit, 0.0), 0, Unsaved));
      var log := Run(EARLIEST, [Start(0), refused] + [Start(1), Sends(1, GAP, 0)]).log;
      |log| == 5 && log[2].Paused? && log[4].Sent? && log[4].at < log[2].until
  {
    var refused := Call(Env(0, false, 0, Saved, 0, Refused(RateLimit, 0.0), 0, Unsaved));
    PowerBounds(0);
    var w2 := Step(Step(EARLIEST, Start(0)), refused);
    assert w2.disk == Some(State(0, 1, GAP, 0, NoReason, 0));
    assert w2.log == [Started, Sent(0, 0, 0), Paused(0, 1800 * SECOND, RateLimit, 0.0, false)];
    var w4 := Step(Step(w2, Start(1)), Sends(1, GAP, 0));
    assert w4.log == w2.log + [Started] + [Sent(0, GAP, GAP)];
    RunOfTwo(EARLIEST, Start(0), refused, [Start(1), Sends(1, GAP, 0)]);
    RunOfTwo(w2, Start(1), Sends(1, GAP, 0), []);
    assert [Start(1), Sends(1, GAP, 0)] + [] == [Start(1), Sends(1, GAP, 0)];
  }

  lemma RunOfTwo(w: World, a: Action, b: Action, rest: seq<Action>)
    ensures Run(w, [a, b] + rest) == Run(Step(Step(w, a), b), rest)
  {
    hide Step;
    assert ([a, b] + rest)[1..] == [b] + rest && ([b] + rest)[1..] == rest;
    assert Run(w, [a, b] + rest) == Run(Step(w, a), [b] + rest);
  }
}
