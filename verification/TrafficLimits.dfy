/** The request limits of a Mercedes account (dbus_ev/mercedes/traffic.py, store.py): deadlines that are
    written before requests and shared, under the token lock, by the daemon and the login command. The
    wall clock and the monotonic clock advance together; a reboot moves the monotonic one. */
module TrafficLimits {
  import opened Results

  const RATE_LIMIT_MIN := 1800.0
  const RATE_LIMIT_MAX := 21600.0
  const LOGIN_INTERVAL := 21600.0

  /** The file; absent keys hold their defaults. */
  datatype Data = Data(requestAfter: real, loginAfter: real, rateRetry: real, loginFailed: bool)

  const EMPTY := Data(0.0, 0.0, RATE_LIMIT_MIN, false)

  /** What the owning process holds; the deadlines are monotonic times. */
  datatype Limits = Limits(deadline: real, loginDeadline: real, data: Data)

  datatype Clock = Clock(wall: real, mono: real)

  function Later(c: Clock, duration: real): Clock {
    Clock(c.wall + duration, c.mono + duration)
  }

  /** How a save ends: the file is replaced or not, and the process may die on either side of it. */
  datatype Save = Saved | Unsaved | DiedBefore | DiedAfter

  predicate Reaches(save: Save) {
    save.Saved? || save.DiedAfter?
  }

  /** A Retry-After header as `retry_delay` tells it apart. */
  datatype RetryAfter = Absent | Unreadable | Seconds(n: real) | At(time: real) | NotFinite

  function Max(a: real, b: real): real {
    if a < b then b else a
  }

  function Min(a: real, b: real): real {
    if a < b then a else b
  }

  /** `retry_delay`. */
  function RetryDelay(header: RetryAfter, minimum: real, wall: real): (delay: real)
    ensures delay >= minimum
    ensures header.Seconds? ==> delay >= header.n
    ensures header.At? ==> wall + delay >= header.time
    ensures || delay == minimum || (header.Seconds? && delay == header.n)
            || (header.At? && wall + delay == header.time)
  {
    match header
    case Seconds(n) => Max(minimum, n)
    case At(time) => Max(minimum, time - wall)
    case _ => minimum
  }

  // ---- The operations on values -----------------------------------------------------------

  /** What the constructor accepts. */
  predicate Readable(d: Data) {
    d.requestAfter >= 0.0 && d.loginAfter >= 0.0 && d.rateRetry >= 0.0
  }

  function Opened(d: Data, c: Clock): Limits {
    var pause, login := Max(0.0, d.requestAfter - c.wall), Max(0.0, d.loginAfter - c.wall);
    Limits(if pause != 0.0 then c.mono + pause else 0.0, if login != 0.0 then c.mono + login else 0.0, d)
  }

  function Remaining(l: Limits, c: Clock): (r: real)
    ensures r >= 0.0
  {
    Max(0.0, l.deadline - c.mono)
  }

  function Paused(l: Limits, delay: real, c: Clock): Limits {
    var d := Max(delay, Remaining(l, c));
    l.(deadline := c.mono + d, data := l.data.(requestAfter := c.wall + d))
  }

  /** The minimum of the next 429. */
  function RateMinimum(d: Data): real {
    Max(RATE_LIMIT_MIN, d.rateRetry)
  }

  function RateLimited(l: Limits, header: RetryAfter, c: Clock): Limits {
    var minimum := RateMinimum(l.data);
    Paused(l.(data := l.data.(rateRetry := Min(minimum * 2.0, RATE_LIMIT_MAX))), RetryDelay(header, minimum, c.wall), c)
  }

  predicate Resets(l: Limits, c: Clock) {
    Remaining(l, c) == 0.0 && l.data.rateRetry != RATE_LIMIT_MIN
  }

  function Healthy(l: Limits): Limits {
    l.(data := l.data.(rateRetry := RATE_LIMIT_MIN))
  }

  predicate MayLogIn(l: Limits, c: Clock) {
    Remaining(l, c) == 0.0 && !l.data.loginFailed && c.mono >= l.loginDeadline
  }

  function LoginReserved(l: Limits, c: Clock): Limits {
    l.(loginDeadline := c.mono + LOGIN_INTERVAL, data := l.data.(loginAfter := c.wall + LOGIN_INTERVAL))
  }

  function LoginFailed(l: Limits): Limits {
    l.(data := l.data.(loginFailed := true))
  }

  function ManuallyLoggedIn(l: Limits, c: Clock): Limits {
    LoginReserved(l.(data := l.data.(loginFailed := false)), c)
  }

  // ---- The objects ------------------------------------------------------------------------

  /** The limits file and the lock file of the token store that guards it. */
  class Files {
    var limits: Data
    var locked: bool
  }

  /** `TokenStore` as lock and durable cell. */
  class TokenStore {
    const files: Files
    var held: bool
    var data: Data

    constructor (f: Files)
      ensures files == f && !held && data == f.limits
    {
      files := f;
      held, data := false, f.limits;
    }

    /** Reads again once the lock is held. */
    method Acquire() returns (ok: bool)
      requires !held
      modifies this, files`locked
      ensures ok <==> !old(files.locked)
      ensures ok ==> held && files.locked && data == files.limits
      ensures !ok ==> !held && files.locked && data == old(data)
    {
      ok := !files.locked;
      if ok {
        files.locked := true;
        held := true;
        data := files.limits;
      }
    }

    /** A save that raises, or during which the process dies, is not `ok`. */
    method Save(d: Data, save: Save) returns (ok: bool)
      modifies this`data, files`limits
      ensures files.limits == if save.Saved? || save.DiedAfter? then d else old(files.limits)
      ensures data == if ok then d else old(data)
      ensures ok <==> save.Saved?
    {
      if Reaches(save) {
        files.limits := d;
      }
      ok := save.Saved?;
      if ok {
        data := d;
      }
    }

    method Close()
      modifies this`held, files`locked
      ensures !held && files.locked == (old(files.locked) && !old(held))
    {
      if held {
        files.locked := false;
        held := false;
      }
    }
  }

  class TrafficLimits {
    const store: TokenStore
    var deadline: real
    var loginDeadline: real
    var data: Data

    function Now(): Limits
      reads this
    {
      Limits(deadline, loginDeadline, data)
    }

    constructor (s: TokenStore, c: Clock)
      ensures store == s && Now() == Opened(s.data, c)
    {
      store, data := s, s.data;
      var pause, login := Max(0.0, s.data.requestAfter - c.wall), Max(0.0, s.data.loginAfter - c.wall);
      deadline := if pause != 0.0 then c.mono + pause else 0.0;
      loginDeadline := if login != 0.0 then c.mono + login else 0.0;
    }

    /** Limits from a file that is no valid one are refused. */
    static method Open(s: TokenStore, c: Clock) returns (l: Result<TrafficLimits>)
      ensures l.Ok? <==> s.data.requestAfter >= 0.0 && s.data.loginAfter >= 0.0 && s.data.rateRetry >= 0.0
      ensures l.Ok? ==> fresh(l.value) && l.value.store == s && l.value.Now() == Opened(s.data, c)
    {
      if !Readable(s.data) {
        return Failed;
      }
      var limits := new TrafficLimits(s, c);
      l := Ok(limits);
    }

    method Pause(delay: real, c: Clock, save: Save) returns (pause: Result<real>)
      modifies this`deadline, this`data, store`data, store.files`limits
      ensures Now() == Paused(old(Now()), delay, c)
      ensures store.files.limits == if Reaches(save) then data else old(store.files.limits)
      ensures pause == if save.Saved? then Ok(Max(delay, Remaining(old(Now()), c))) else Failed
      ensures pause.Ok? ==> deadline == c.mono + pause.value
    {
      var d := Max(delay, Remaining(Now(), c));
      deadline := c.mono + d;
      data := data.(requestAfter := c.wall + d);
      var ok := store.Save(data, save);
      pause := if ok then Ok(d) else Failed;
    }

    method TooMany(header: RetryAfter, c: Clock, save: Save) returns (pause: Result<real>)
      modifies this`deadline, this`data, store`data, store.files`limits
      ensures Now() == RateLimited(old(Now()), header, c)
      ensures store.files.limits == if Reaches(save) then data else old(store.files.limits)
      ensures pause.Ok? <==> save.Saved?
      ensures pause.Ok? ==> pause.value >= RateMinimum(old(data)) && deadline == c.mono + pause.value
    {
      var minimum := Max(RATE_LIMIT_MIN, data.rateRetry);
      data := data.(rateRetry := Min(minimum * 2.0, RATE_LIMIT_MAX));
      pause := Pause(RetryDelay(header, minimum, c.wall), c, save);
    }

    method Reset(c: Clock, save: Save) returns (ok: bool)
      modifies this`data, store`data, store.files`limits
      ensures var resets := old(deadline) <= c.mono && old(data.rateRetry) != 1800.0;
        && Now() == (if resets then Healthy(old(Now())) else old(Now()))
        && store.files.limits == (if resets && Reaches(save) then data else old(store.files.limits))
        && (ok <==> !resets || save.Saved?)
    {
      ok := true;
      if Remaining(Now(), c) == 0.0 && data.rateRetry != RATE_LIMIT_MIN {
        data := data.(rateRetry := RATE_LIMIT_MIN);
        ok := store.Save(data, save);
      }
    }

    /** Credentials may be sent only after `Ok(true)`, so after the save. */
    method ReserveLogin(c: Clock, save: Save) returns (r: Result<bool>)
      modifies this`loginDeadline, this`data, store`data, store.files`limits
      ensures var may := MayLogIn(old(Now()), c);
        && r == (if !may then Ok(false) else if save.Saved? then Ok(true) else Failed)
        && Now() == (if may then LoginReserved(old(Now()), c) else old(Now()))
        && store.files.limits == (if may && Reaches(save) then data else old(store.files.limits))
    {
      if Remaining(Now(), c) != 0.0 || data.loginFailed || c.mono < loginDeadline {
        return Ok(false);
      }
      loginDeadline := c.mono + LOGIN_INTERVAL;
      data := data.(loginAfter := c.wall + LOGIN_INTERVAL);
      var ok := store.Save(data, save);
      r := if ok then Ok(true) else Failed;
    }

    method RecordFailure(save: Save) returns (ok: bool)
      modifies this`data, store`data, store.files`limits
      ensures Now() == LoginFailed(old(Now())) && (ok <==> save.Saved?)
      ensures store.files.limits == if Reaches(save) then data else old(store.files.limits)
    {
      data := data.(loginFailed := true);
      ok := store.Save(data, save);
    }

    method RecordManualLogin(c: Clock, save: Save) returns (ok: bool)
      modifies this`loginDeadline, this`data, store`data, store.files`limits
      ensures Now() == ManuallyLoggedIn(old(Now()), c) && (ok <==> save.Saved?)
      ensures store.files.limits == if Reaches(save) then data else old(store.files.limits)
    {
      data := data.(loginFailed := false, loginAfter := c.wall + LOGIN_INTERVAL);
      loginDeadline := c.mono + LOGIN_INTERVAL;
      ok := store.Save(data, save);
    }
  }

  // ---- Histories --------------------------------------------------------------------------

  datatype Operation =
    | Pause(delay: real) | TooMany(header: RetryAfter) | Reset | ReserveLogin | RecordFailure | RecordManualLogin

  /** `done` tells whether the change reached the file. A login attempt by the daemon is `AutoLogin`: its
      reservation is stamped `at`, and its credentials leave at `sent`, behind the save; `Reserved` is one whose
      credentials never left. */
  datatype Event =
    | PauseSet(since: real, asked: real, until: real, done: bool)
    | Limited(since: real, header: RetryAfter, until: real, done: bool)
    | Renewed(at: real, done: bool)
    | AutoLogin(at: real, sent: real)
    | Reserved(at: real)
    | ManualLogin(at: real, done: bool)
    | Failure(done: bool)

  datatype World = World(clock: Clock, disk: Data, owner: Option<Limits>, log: seq<Event>)

  /** `took` is the time an operation takes with its save, and for a login until its credentials leave. */
  datatype Action =
    | Tick(duration: real) | Reboot(mono: real) | Acquire | Release
    | Perform(operation: Operation, save: Save, took: real)

  const EARLIEST := World(Clock(0.0, 0.0), EMPTY, None, [])

  predicate Applies(l: Limits, c: Clock, o: Operation) {
    match o
    case Reset => Resets(l, c)
    case ReserveLogin => MayLogIn(l, c)
    case _ => true
  }

  function Changed(l: Limits, c: Clock, o: Operation): Limits {
    match o
    case Pause(delay) => Paused(l, delay, c)
    case TooMany(header) => RateLimited(l, header, c)
    case Reset => Healthy(l)
    case ReserveLogin => LoginReserved(l, c)
    case RecordFailure => LoginFailed(l)
    case RecordManualLogin => ManuallyLoggedIn(l, c)
  }

  /** What is recorded; credentials are sent only after the save of a reservation. */
  function EventsOf(next: Limits, c: Clock, o: Operation, save: Save, took: real): seq<Event> {
    match o
    case Pause(delay) => [PauseSet(c.wall, delay, next.data.requestAfter, Reaches(save))]
    case TooMany(header) => [Limited(c.wall, header, next.data.requestAfter, Reaches(save))]
    case Reset => [Renewed(c.wall, Reaches(save))]
    case ReserveLogin => [if save.Saved? then AutoLogin(c.wall, c.wall + took) else Reserved(c.wall)]
    case RecordFailure => [Failure(Reaches(save))]
    case RecordManualLogin => [ManualLogin(c.wall, Reaches(save))]
  }

  function Performed(w: World, l: Limits, o: Operation, save: Save, took: real): World {
    if !Applies(l, w.clock, o) then w
    else
      var next := Changed(l, w.clock, o);
      World(Later(w.clock, took), if Reaches(save) then next.data else w.disk,
            if save.Saved? || save.Unsaved? then Some(next) else None,
            w.log + EventsOf(next, w.clock, o, save, took))
  }

  function Step(w: World, a: Action): World {
    match a
    case Tick(d) => if d >= 0.0 then w.(clock := Later(w.clock, d)) else w
    case Reboot(mono) => if mono >= 0.0 then w.(owner := None, clock := w.clock.(mono := mono)) else w
    case Acquire => if w.owner.None? && Readable(w.disk) then w.(owner := Some(Opened(w.disk, w.clock))) else w
    case Release => w.(owner := None)
    case Perform(o, save, took) =>
      if w.owner.Some? && took >= 0.0 then Performed(w, w.owner.value, o, save, took) else w
  }

  function Run(w: World, actions: seq<Action>): World
    decreases |actions|
  {
    if actions == [] then w else Run(Step(w, actions[0]), actions[1..])
  }

  // ---- The invariant ----------------------------------------------------------------------

  /** A completed pause. */
  predicate IsPause(e: Event) {
    (e.PauseSet? || e.Limited?) && e.done
  }

  /** A login that is on record. */
  predicate IsLogin(e: Event) {
    e.AutoLogin? || (e.ManualLogin? && e.done)
  }

  /** Completed 429s since the last reset. */
  function Streak(log: seq<Event>): nat {
    if log == [] then 0
    else
      var e := log[|log| - 1];
      if e.Renewed? then 0 else Streak(log[..|log| - 1]) + if e.Limited? && e.done then 1 else 0
  }

  /** A recorded failure that no manual login followed. */
  predicate Blocked(log: seq<Event>) {
    if log == [] then false
    else
      var e := log[|log| - 1];
      if e.ManualLogin? then false else (e.Failure? && e.done) || Blocked(log[..|log| - 1])
  }

  function Doubled(n: nat): real {
    if n == 0 then 1.0 else 2.0 * Doubled(n - 1)
  }

  /** The least pause of the i-th 429 since a reset. */
  function Level(i: nat): real
    requires i >= 1
  {
    Min(RATE_LIMIT_MIN * Doubled(i - 1), RATE_LIMIT_MAX)
  }

  /** At most so many 429s can have escalated the pause: all since a reset that reached the file. */
  function MostStreak(log: seq<Event>): nat {
    if log == [] then 0
    else
      var e := log[|log| - 1];
      if e.Renewed? && e.done then 0 else MostStreak(log[..|log| - 1]) + if e.Limited? then 1 else 0
  }

  /** A failure, recorded or only known to its process, that no recorded manual login followed. */
  predicate MaybeBlocked(log: seq<Event>) {
    if log == [] then false
    else
      var e := log[|log| - 1];
      if e.ManualLogin? && e.done then false else e.Failure? || MaybeBlocked(log[..|log| - 1])
  }

  predicate SetsPause(e: Event) {
    e.PauseSet? || e.Limited?
  }

  predicate SetsLogin(e: Event) {
    e.AutoLogin? || e.Reserved? || e.ManualLogin?
  }

  /** Some pause ends at this time. */
  predicate PauseEnds(log: seq<Event>, time: real) {
    exists e | e in log :: SetsPause(e) && e.until == time
  }

  /** Some login or reservation was six hours before this time. */
  predicate LoginEnds(log: seq<Event>, time: real) {
    exists e | e in log :: SetsLogin(e) && e.at + LOGIN_INTERVAL == time
  }

  /** Everything the data hold back requests and logins for is on record. */
  predicate DataExplained(d: Data, log: seq<Event>) {
    && (d.requestAfter > 0.0 ==> PauseEnds(log, d.requestAfter))
    && (d.loginAfter > 0.0 ==> LoginEnds(log, d.loginAfter))
    && RateMinimum(d) <= Level(MostStreak(log) + 1)
    && (d.loginFailed ==> MaybeBlocked(log))
  }

  /** So are the deadlines of the owner. */
  predicate DeadlinesExplained(l: Limits, c: Clock, log: seq<Event>) {
    && (l.deadline > c.mono ==> PauseEnds(log, c.wall + (l.deadline - c.mono)))
    && (l.loginDeadline > c.mono ==> LoginEnds(log, c.wall + (l.loginDeadline - c.mono)))
  }

  /** The data know all that completed. */
  predicate DataKnow(d: Data, log: seq<Event>) {
    && Readable(d) && DataExplained(d, log)
    && (forall e | e in log && IsPause(e) :: e.until <= d.requestAfter)
    && (forall e | e in log && IsLogin(e) :: e.at + LOGIN_INTERVAL <= d.loginAfter)
    && RateMinimum(d) >= Level(Streak(log) + 1)
    && (Blocked(log) ==> d.loginFailed)
  }

  /** So do the deadlines of the owner, as far as they matter. */
  predicate DeadlinesKnow(l: Limits, c: Clock, log: seq<Event>) {
    && DeadlinesExplained(l, c, log)
    && (forall e | e in log && IsPause(e) :: e.until <= c.wall || e.until <= c.wall + (l.deadline - c.mono))
    && (forall e | e in log && IsLogin(e) ::
          e.at + LOGIN_INTERVAL <= c.wall || e.at + LOGIN_INTERVAL <= c.wall + (l.loginDeadline - c.mono))
  }

  /** An automatic login keeps its distance from every login before it, and no two overlap. */
  predicate Spaced(log: seq<Event>) {
    forall i, j | 0 <= i < j < |log| && log[j].AutoLogin? && IsLogin(log[i]) ::
      log[i].at + 21600.0 <= log[j].at && (log[i].AutoLogin? ==> log[i].sent <= log[j].at)
  }

  /** An automatic login waits for the operator after a failure. */
  predicate Waiting(log: seq<Event>) {
    forall j | 0 <= j < |log| && log[j].AutoLogin? :: !Blocked(log[..j])
  }

  /** The time a Retry-After asks to wait for. */
  function AskedUntil(since: real, header: RetryAfter): real {
    match header
    case Seconds(n) => since + n
    case At(time) => time
    case _ => since
  }

  /** A pause is at least what was asked for, and a 429 is answered at its level and as its header asks; the level
      is reset only when every completed pause has ended. */
  predicate LongPause(log: seq<Event>, e: Event) {
    && (e.Limited? ==> e.until >= e.since + Level(Streak(log) + 1) && e.until >= AskedUntil(e.since, e.header))
    && (e.PauseSet? ==> e.until >= e.since + e.asked)
    && (e.Renewed? ==> forall p | p in log && IsPause(p) :: p.until <= e.at)
  }

  /** And it is no longer: it ends at a level of the 429s so far, where its header or caller asks, or where a pause
      set before ends. */
  predicate ShortPause(log: seq<Event>, e: Event) {
    && (e.Limited? ==>
          || e.until <= e.since + Level(MostStreak(log) + 1) || e.until == AskedUntil(e.since, e.header)
          || PauseEnds(log, e.until))
    && (e.PauseSet? ==> e.until == e.since + e.asked || e.until == e.since || PauseEnds(log, e.until))
  }

  predicate Levelled(log: seq<Event>) {
    forall j | 0 <= j < |log| :: LongPause(log[..j], log[j]) && ShortPause(log[..j], log[j])
  }

  predicate LogKept(log: seq<Event>) {
    Spaced(log) && Waiting(log) && Levelled(log)
  }

  predicate Past(c: Clock, log: seq<Event>) {
    forall e | e in log && IsLogin(e) :: e.at <= c.wall && (e.AutoLogin? ==> e.at <= e.sent <= c.wall)
  }

  predicate Inv(w: World) {
    && w.clock.mono >= 0.0 && w.clock.wall >= 0.0 && LogKept(w.log) && Past(w.clock, w.log)
    && DataKnow(w.disk, w.log)
    && (w.owner.Some? ==> DataKnow(w.owner.value.data, w.log) && DeadlinesKnow(w.owner.value, w.clock, w.log))
  }

  lemma EarliestKept()
    ensures Inv(EARLIEST)
  {
  }

  lemma {:induction false} LevelGrows(i: nat)
    requires i >= 1
    ensures Level(i + 1) == Min(2.0 * Level(i), RATE_LIMIT_MAX) && RATE_LIMIT_MIN <= Level(i) <= RATE_LIMIT_MAX
  {
    DoubledIsPositive(i - 1);
    assert Doubled(i) == 2.0 * Doubled(i - 1);
  }

  lemma {:induction false} DoubledIsPositive(n: nat)
    ensures Doubled(n) >= 1.0
  {
    if n > 0 {
      DoubledIsPositive(n - 1);
    }
  }

  lemma Appended(log: seq<Event>, e: Event)
    ensures (log + [e])[..|log|] == log && (forall x :: x in log + [e] <==> x in log || x == e)
    ensures Streak(log + [e]) == if e.Renewed? then 0 else Streak(log) + if e.Limited? && e.done then 1 else 0
    ensures Blocked(log + [e]) <==> !e.ManualLogin? && ((e.Failure? && e.done) || Blocked(log))
    ensures MostStreak(log + [e]) == if e.Renewed? && e.done then 0 else MostStreak(log) + if e.Limited? then 1 else 0
    ensures MaybeBlocked(log + [e]) <==> !(e.ManualLogin? && e.done) && (e.Failure? || MaybeBlocked(log))
  {
    assert (log + [e])[..|log|] == log;
  }

  lemma PrefixOf(log: seq<Event>, e: Event, j: nat)
    requires j <= |log|
    ensures (log + [e])[..j] == log[..j] && (j < |log| ==> (log + [e])[j] == log[j])
  {
  }

  /** A moment that is far enough behind every login on record. */
  predicate Follows(log: seq<Event>, at: real) {
    forall e | e in log && IsLogin(e) :: e.at + LOGIN_INTERVAL <= at && (e.AutoLogin? ==> e.sent <= at)
  }

  lemma SpacedGrows(log: seq<Event>, e: Event)
    requires Spaced(log) && (e.AutoLogin? ==> Follows(log, e.at))
    ensures Spaced(log + [e])
  {
    assert forall i | 0 <= i < |log| :: log[i] in log;
  }

  lemma WaitingGrows(log: seq<Event>, e: Event)
    requires Waiting(log) && (e.AutoLogin? ==> !Blocked(log))
    ensures Waiting(log + [e])
  {
    hide Blocked;
    forall j | 0 <= j < |log + [e]| && (log + [e])[j].AutoLogin? ensures !Blocked((log + [e])[..j]) {
      PrefixOf(log, e, j);
      assert log[..|log|] == log;
    }
  }

  lemma LevelledGrows(log: seq<Event>, e: Event)
    requires Levelled(log) && LongPause(log, e) && ShortPause(log, e)
    ensures Levelled(log + [e])
  {
    hide LongPause, ShortPause;
    forall j | 0 <= j < |log + [e]|
      ensures LongPause((log + [e])[..j], (log + [e])[j]) && ShortPause((log + [e])[..j], (log + [e])[j]) {
      PrefixOf(log, e, j);
      assert log[..|log|] == log;
    }
  }

  lemma LogGrows(log: seq<Event>, e: Event)
    requires LogKept(log)
    requires e.AutoLogin? ==> !Blocked(log) && Follows(log, e.at)
    requires LongPause(log, e) && ShortPause(log, e)
    ensures LogKept(log + [e])
  {
    hide Spaced, Waiting, Levelled;
    SpacedGrows(log, e);
    WaitingGrows(log, e);
    LevelledGrows(log, e);
  }

  // ---- Steps that record nothing ----------------------------------------------------------

  lemma OpenedKnows(d: Data, c: Clock, log: seq<Event>)
    requires DataKnow(d, log) && c.mono >= 0.0 && c.wall >= 0.0
    ensures DataKnow(Opened(d, c).data, log) && DeadlinesKnow(Opened(d, c), c, log)
  {
    hide Streak, Blocked, Level, MostStreak, MaybeBlocked, PauseEnds, LoginEnds;
    var l := Opened(d, c);
    assert l.deadline > c.mono ==> c.wall + (l.deadline - c.mono) == d.requestAfter;
    assert l.loginDeadline > c.mono ==> c.wall + (l.loginDeadline - c.mono) == d.loginAfter;
  }

  lemma LaterKnows(l: Limits, c: Clock, d: real, log: seq<Event>)
    requires DeadlinesKnow(l, c, log) && d >= 0.0
    ensures DeadlinesKnow(l, Later(c, d), log)
  {
    hide PauseEnds, LoginEnds;
    var next := Later(c, d);
    assert next.wall + (l.deadline - next.mono) == c.wall + (l.deadline - c.mono);
    assert next.wall + (l.loginDeadline - next.mono) == c.wall + (l.loginDeadline - c.mono);
  }

  lemma TickKeeps(w: World, d: real)
    requires Inv(w) && d >= 0.0
    ensures Inv(Step(w, Tick(d)))
  {
    hide LogKept, DataKnow, DeadlinesKnow;
    if w.owner.Some? {
      LaterKnows(w.owner.value, w.clock, d, w.log);
    }
  }

  /** What is on record stays so. */
  lemma EndsStay(log: seq<Event>, e: Event, time: real)
    ensures PauseEnds(log, time) ==> PauseEnds(log + [e], time)
    ensures LoginEnds(log, time) ==> LoginEnds(log + [e], time)
    ensures SetsPause(e) && e.until == time ==> PauseEnds(log + [e], time)
    ensures SetsLogin(e) && e.at + LOGIN_INTERVAL == time ==> LoginEnds(log + [e], time)
  {
    assert e in log + [e] && forall x | x in log :: x in log + [e];
  }

  lemma {:induction false} LevelMonotone(i: nat, j: nat)
    requires 1 <= i <= j
    ensures Level(i) <= Level(j)
    decreases j
  {
    hide Level;
    if i < j {
      LevelMonotone(i, j - 1);
      LevelGrows(j - 1);
    }
  }

  // ---- Operations -------------------------------------------------------------------------

  /** The owner after an operation knows its event, whether it reached the file or not. */
  lemma OwnerGrows(l: Limits, c: Clock, log: seq<Event>, o: Operation, save: Save, took: real, e: Event)
    requires DataKnow(l.data, log) && DeadlinesKnow(l, c, log) && Past(c, log) && c.wall >= 0.0 && Applies(l, c, o)
    requires EventsOf(Changed(l, c, o), c, o, save, took) == [e]
    ensures DataKnow(Changed(l, c, o).data, log + [e]) && DeadlinesKnow(Changed(l, c, o), c, log + [e])
  {
    OwnerExplained(l, c, log, o, save, took, e);
    hide Streak, Blocked, Level, MostStreak, MaybeBlocked, PauseEnds, LoginEnds, DataExplained, DeadlinesExplained;
    Appended(log, e);
    LevelGrows(Streak(log) + 1);
    LevelOne();
  }

  lemma OwnerExplained(l: Limits, c: Clock, log: seq<Event>, o: Operation, save: Save, took: real, e: Event)
    requires DataExplained(l.data, log) && DeadlinesExplained(l, c, log) && c.wall >= 0.0
    requires EventsOf(Changed(l, c, o), c, o, save, took) == [e]
    ensures DataExplained(Changed(l, c, o).data, log + [e]) && DeadlinesExplained(Changed(l, c, o), c, log + [e])
  {
    hide Streak, Blocked, Level, MostStreak, MaybeBlocked, PauseEnds, LoginEnds, RetryDelay;
    Appended(log, e);
    var next := Changed(l, c, o);
    EndsStay(log, e, next.data.requestAfter);
    EndsStay(log, e, next.data.loginAfter);
    EndsStay(log, e, c.wall + (next.deadline - c.mono));
    EndsStay(log, e, c.wall + (next.loginDeadline - c.mono));
    LevelGrows(MostStreak(log) + 1);
    LevelGrows(MostStreak(log + [e]) + 1);
    LevelOne();
  }

  /** A pause has the length its level and its caller ask for. */
  lemma PauseLength(l: Limits, c: Clock, log: seq<Event>, o: Operation, save: Save, took: real, e: Event)
    requires DataKnow(l.data, log) && DeadlinesKnow(l, c, log) && Applies(l, c, o)
    requires EventsOf(Changed(l, c, o), c, o, save, took) == [e]
    ensures LongPause(log, e) && ShortPause(log, e)
  {
    hide Streak, Blocked, Level, MostStreak, MaybeBlocked, PauseEnds, LoginEnds;
  }

  /** The file need not know what did not reach it. */
  lemma FileStays(d: Data, log: seq<Event>, e: Event)
    requires DataKnow(d, log) && !IsPause(e) && !IsLogin(e) && !(e.Failure? && e.done) && !(e.Renewed? && e.done)
    ensures DataKnow(d, log + [e])
  {
    hide Streak, Blocked, Level, MostStreak, MaybeBlocked, PauseEnds, LoginEnds;
    Appended(log, e);
    EndsStay(log, e, d.requestAfter);
    EndsStay(log, e, d.loginAfter);
    LevelGrows(Streak(log) + 1);
    LevelMonotone(MostStreak(log) + 1, MostStreak(log + [e]) + 1);
    LevelOne();
  }

  /** A login that may begin is far enough from every login on record. */
  lemma LoginIsDue(l: Limits, c: Clock, log: seq<Event>)
    requires DataKnow(l.data, log) && DeadlinesKnow(l, c, log) && Past(c, log) && MayLogIn(l, c)
    ensures !Blocked(log) && Follows(log, c.wall)
  {
    hide Streak, Blocked, Level, DataExplained, DeadlinesExplained;
  }

  lemma PerformedKeeps(w: World, o: Operation, save: Save, took: real)
    requires Inv(w) && w.owner.Some? && took >= 0.0
    ensures Inv(Performed(w, w.owner.value, o, save, took))
  {
    hide DataKnow, DeadlinesKnow, LogKept, Changed, Follows, LongPause, ShortPause;
    var l := w.owner.value;
    if Applies(l, w.clock, o) {
      var next := Changed(l, w.clock, o);
      if o.ReserveLogin? {
        LoginIsDue(l, w.clock, w.log);
      }
      var e := EventsOf(next, w.clock, o, save, took)[0];
      OwnerGrows(l, w.clock, w.log, o, save, took, e);
      PauseLength(l, w.clock, w.log, o, save, took, e);
      LaterKnows(next, w.clock, took, w.log + [e]);
      LogGrows(w.log, e);
      if !Reaches(save) {
        FileStays(w.disk, w.log, e);
      }
      Appended(w.log, e);
    }
  }

  lemma {:induction false} RunKept(w: World, actions: seq<Action>)
    requires Inv(w)
    ensures Inv(Run(w, actions))
    decreases |actions|
  {
    hide DataKnow, DeadlinesKnow, LogKept, Performed, Opened;
    if actions != [] {
      var a := actions[0];
      if a.Tick? && a.duration >= 0.0 {
        TickKeeps(w, a.duration);
      } else if a.Acquire? {
        OpenedKnows(w.disk, w.clock, w.log);
      } else if a.Perform? && w.owner.Some? && a.took >= 0.0 {
        PerformedKeeps(w, a.operation, a.save, a.took);
      }
      RunKept(Step(w, a), actions[1..]);
    }
  }

  // ---- Main results -----------------------------------------------------------------------

  /** Whatever happened before, to whoever owns the account: a completed pause lasts until its end. */
  lemma PausesLast(actions: seq<Action>, i: nat)
    requires i < |Run(EARLIEST, actions).log| && IsPause(Run(EARLIEST, actions).log[i])
    ensures var w := Run(EARLIEST, actions);
      w.owner.Some? && w.clock.wall < w.log[i].until ==>
        Remaining(w.owner.value, w.clock) >= w.log[i].until - w.clock.wall && !MayLogIn(w.owner.value, w.clock)
  {
    hide Run;
    EarliestKept();
    RunKept(EARLIEST, actions);
    var w := Run(EARLIEST, actions);
    assert w.log[i] in w.log;
  }

  /** Every 429 is answered with at least the pause of its place since the last reset and what its Retry-After
      asks, and the level is reset only when every completed pause has ended; no pause is longer than the level of
      the 429s since a reset on record, what was asked for, or a pause set before. */
  lemma LevelsHold(actions: seq<Action>)
    ensures Levelled(Run(EARLIEST, actions).log)
  {
    hide Run, Levelled, Spaced, Waiting, DataKnow, DeadlinesKnow;
    EarliestKept();
    RunKept(EARLIEST, actions);
  }

  /** Automatic logins are reserved six hours after every login on record, and none follows a recorded
      failure without a manual login in between. */
  lemma LoginsHold(actions: seq<Action>)
    ensures Spaced(Run(EARLIEST, actions).log) && Waiting(Run(EARLIEST, actions).log)
  {
    hide Run, Spaced, Waiting, Levelled, DataKnow, DeadlinesKnow;
    EarliestKept();
    RunKept(EARLIEST, actions);
  }

  /** The levels in seconds: half an hour, doubled by every 429 up to six hours. */
  lemma LevelIs(i: nat)
    requires i >= 1
    ensures Level(i) == if i == 1 then 1800.0 else if i == 2 then 3600.0 else if i == 3 then 7200.0
                        else if i == 4 then 14400.0 else 21600.0
  {
    LevelOne();
    LevelGrows(1);
    LevelGrows(2);
    LevelGrows(3);
    LevelGrows(4);
    if i > 5 {
      LevelMonotone(5, i);
      LevelGrows(i);
    }
  }

  /** What may hold a login back: a pause that has not ended, a login or a reservation less than six hours ago, or
      a failure that no recorded manual login followed. */
  predicate HoldsLogin(log: seq<Event>, wall: real) {
    || (exists e | e in log :: SetsPause(e) && wall < e.until)
    || (exists e | e in log :: SetsLogin(e) && wall < e.at + 21600.0)
    || MaybeBlocked(log)
  }

  /** In every reachable state requests are held back exactly as long as a pause on record says, and automatic
      logins only for a reason on record. */
  lemma HeldForReason(actions: seq<Action>)
    ensures var w := Run(EARLIEST, actions);
      w.owner.Some? ==>
        && (Remaining(w.owner.value, w.clock) > 0.0 ==>
              PauseEnds(w.log, w.clock.wall + Remaining(w.owner.value, w.clock)))
        && (!MayLogIn(w.owner.value, w.clock) ==> HoldsLogin(w.log, w.clock.wall))
  {
    hide Run, LogKept, MaybeBlocked;
    EarliestKept();
    RunKept(EARLIEST, actions);
    var w := Run(EARLIEST, actions);
    if w.owner.Some? {
      var l := w.owner.value;
      if Remaining(l, w.clock) > 0.0 {
        assert Remaining(l, w.clock) == l.deadline - w.clock.mono;
      }
    }
  }

  /** The least time between two automatic logins whose reservations took `l1` and `l2`. */
  function LeastGap(l1: real, l2: real): real {
    Max(LOGIN_INTERVAL - l1, 0.0) + l2
  }

  /** Credentials of two automatic logins really leave at least this far apart. */
  lemma LoginGap(actions: seq<Action>, i: nat, j: nat)
    requires i < j < |Run(EARLIEST, actions).log|
    requires Run(EARLIEST, actions).log[i].AutoLogin? && Run(EARLIEST, actions).log[j].AutoLogin?
    ensures var d, e := Run(EARLIEST, actions).log[i], Run(EARLIEST, actions).log[j];
      e.sent - d.sent >= LeastGap(d.sent - d.at, e.sent - e.at) && d.sent >= d.at && e.sent >= e.at
  {
    hide Run, Waiting, Levelled, DataKnow, DeadlinesKnow;
    EarliestKept();
    RunKept(EARLIEST, actions);
    var log := Run(EARLIEST, actions).log;
    assert log[i] in log && log[j] in log;
  }

  function LogIn(took: real): Action {
    Perform(ReserveLogin, Saved, took)
  }

  /** What is left of six hours behind a reservation that took `l1`. */
  function Wait(l1: real): real {
    Max(LOGIN_INTERVAL - l1, 0.0)
  }

  /** Two automatic logins as early as possible. */
  function LogsInAgain(l1: real, l2: real): seq<Action> {
    [Acquire, LogIn(l1), Tick(Wait(l1)), LogIn(l2)]
  }

  lemma FirstLogin(l1: real)
    requires l1 >= 0.0
    ensures Step(Step(EARLIEST, Acquire), LogIn(l1))
         == World(Clock(l1, l1), EMPTY.(loginAfter := LOGIN_INTERVAL),
                  Some(Limits(0.0, LOGIN_INTERVAL, EMPTY.(loginAfter := LOGIN_INTERVAL))), [AutoLogin(0.0, l1)])
  {
    assert Step(EARLIEST, Acquire).owner == Some(Limits(0.0, 0.0, EMPTY));
  }

  lemma NextLogin(w: World, took: real)
    requires w.owner.Some? && MayLogIn(w.owner.value, w.clock) && took >= 0.0
    ensures Step(w, LogIn(took)).log == w.log + [AutoLogin(w.clock.wall, w.clock.wall + took)]
  {
  }

  lemma StepTick(w: World, d: real)
    requires d >= 0.0
    ensures Step(w, Tick(d)) == w.(clock := Later(w.clock, d))
  {
  }

  lemma RunOfFour(w: World, a: Action, b: Action, c: Action, d: Action)
    ensures Run(w, [a, b, c, d]) == Step(Step(Step(Step(w, a), b), c), d)
  {
    hide Step;
    assert [a, b, c, d][1..] == [b, c, d] && [b, c, d][1..] == [c, d] && [c, d][1..] == [d] && [d][1..] == [];
    var w1 := Step(w, a);
    var w2 := Step(w1, b);
    var w3 := Step(w2, c);
    assert Run(w, [a, b, c, d]) == Run(w1, [b, c, d]) == Run(w2, [c, d]) == Run(w3, [d]);
    assert Run(w3, [d]) == Run(Step(w3, d), []);
  }

  /** For all durations that bound is reached, so credentials keep six hours exactly when the later
      reservation takes at least as long as the earlier one, or six hours. */
  lemma LoginGapIsReached(l1: real, l2: real)
    requires l1 >= 0.0 && l2 >= 0.0
    ensures var log := Run(EARLIEST, LogsInAgain(l1, l2)).log;
      && log == [AutoLogin(0.0, l1), AutoLogin(l1 + Wait(l1), l1 + Wait(l1) + l2)]
      && log[1].sent - log[0].sent == LeastGap(l1, l2)
      && (log[1].sent - log[0].sent >= LOGIN_INTERVAL <==> l2 >= Min(l1, LOGIN_INTERVAL))
  {
    hide Run, Step;
    var w2 := World(Clock(l1, l1), EMPTY.(loginAfter := LOGIN_INTERVAL),
                    Some(Limits(0.0, LOGIN_INTERVAL, EMPTY.(loginAfter := LOGIN_INTERVAL))), [AutoLogin(0.0, l1)]);
    var w3 := w2.(clock := Later(w2.clock, Wait(l1)));
    FirstLogin(l1);
    NextLogin(w3, l2);
    assert Step(w2, Tick(Wait(l1))) == w3 by {
      StepTick(w2, Wait(l1));
    }
    RunOfFour(EARLIEST, Acquire, LogIn(l1), Tick(Wait(l1)), LogIn(l2));
  }

  /** Pauses of one owner do not shorten each other. */
  lemma PauseOnlyGrows(l: Limits, delay: real, c: Clock)
    ensures Paused(l, delay, c).deadline >= l.deadline && Remaining(Paused(l, delay, c), c) >= Max(delay, 0.0)
    ensures Paused(l, delay, c).data.requestAfter - c.wall == Remaining(Paused(l, delay, c), c)
  {
  }

  lemma LevelOne()
    ensures Level(1) == RATE_LIMIT_MIN
  {
  }
}
