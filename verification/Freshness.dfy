/** From acquisition to /Connected (dbus_ev/main.py, worker.py, mercedes/client.py, providers/evcc.py): the
    start time of a sample travels through caches, the worker and the dispatch queue to the D-Bus service.
    Times are those of the monotonic clock. */
module Freshness {
  import opened Results

  datatype Source = Ha | Mercedes | Evcc

  /** `_source_sample_started_at`: absent, null, or a time. */
  datatype Stamp = Absent | Null | Time(at: real)

  datatype Snapshot = Snapshot(ok: bool, source: Stamp, sampled: real)

  /** `outputs` is what MQTT and the charger are told of the latest snapshot. */
  datatype App = App(lastOk: Option<real>, latestOk: bool, connected: bool, outputs: bool)

  /** An acquisition that succeeded: when its request began and ended, the time the program keeps, and whether it
      has a state of charge. */
  datatype Acquisition = Acquisition(began: real, ended: real, stamp: real, complete: bool)

  /** A result and the moment it is applied. */
  datatype Arrival = Arrival(snapshot: Snapshot, now: real)

  // ---- The application --------------------------------------------------------------------

  predicate Fresh(started: Option<real>, now: real, timeout: real) {
    started.Some? && 0.0 <= now - started.value < timeout
  }

  /** `snapshot.get("_source_sample_started_at", snapshot.get("_sample_started_at", now))`. */
  function StartOf(s: Snapshot): Option<real> {
    match s.source
    case Absent => Some(s.sampled)
    case Null => None
    case Time(at) => Some(at)
  }

  /** `_update_connected` and `_update_outputs`. */
  function Checked(a: App, now: real, timeout: real): App {
    a.(connected := Fresh(a.lastOk, now, timeout), outputs := a.latestOk && Fresh(a.lastOk, now, timeout))
  }

  function Applied(a: App, source: Source, timeout: real, s: Snapshot, now: real): App {
    var ok := s.ok && Fresh(StartOf(s), now, timeout);
    var lastOk := if ok then StartOf(s) else if source.Ha? then a.lastOk else None;
    Checked(App(lastOk, ok, a.connected, a.outputs), now, timeout)
  }

  /** The controller object, as far as it decides what is connected. */
  class Controller {
    const source: Source
    const timeout: real
    var lastOk: Option<real>
    var latestOk: bool
    var connected: bool
    var outputs: bool

    function Now(): App
      reads this
    {
      App(lastOk, latestOk, connected, outputs)
    }

    constructor (s: Source, t: real)
      ensures source == s && timeout == t && Now() == App(None, false, false, false)
    {
      source, timeout, lastOk, latestOk, connected, outputs := s, t, None, false, false, false;
    }

    method Update(now: real)
      modifies this`connected, this`outputs
      ensures Now() == Checked(old(Now()), now, timeout)
    {
      connected := lastOk.Some? && 0.0 <= now - lastOk.value < timeout;
      outputs := latestOk && lastOk.Some? && 0.0 <= now - lastOk.value < timeout;
    }

    method ApplySnapshot(s: Snapshot, now: real)
      modifies this
      ensures Now() == Applied(old(Now()), source, timeout, s, now)
    {
      var started := StartOf(s);
      var ok := s.ok && started.Some? && 0.0 <= now - started.value < timeout;
      if ok {
        lastOk := started;
      } else if source != Ha {
        lastOk := None;
      }
      latestOk := ok;
      Update(now);
    }
  }

  // ---- The system -------------------------------------------------------------------------

  /** The worker thread: idle, in a request whose engine poll (evcc) began at `engine`, or about to
      dispatch. */
  datatype Thread = Idle | Busy(sampled: real, engine: Option<real>) | Done(snapshot: Snapshot)

  datatype World = World(source: Source, timeout: real, clock: real, app: App, cache: Option<real>,
                         complete: bool, stopped: bool, thread: Thread, dispatched: seq<Snapshot>,
                         log: seq<Acquisition>, checkedAt: real, arrivals: seq<Arrival>)

  function Begin(source: Source, timeout: real): World {
    World(source, timeout, 0.0, App(None, false, false, false), None, false, false, Idle, [], [], 0.0, [])
  }

  /** `Request` starts a poll of the worker; `StartEngine` and `EngineReply` are the cloud access inside an
      evcc poll; `HaReply` ends one of Home Assistant and `EvccReturn` one of evcc; `Raise` is an exception
      in either; `Frame` is a push frame or pull answer that Mercedes' client accepts, with a state of charge
      or without; `Tick` and `Deliver` run on the main loop. */
  datatype Action =
    | Advance(duration: real)
    | Request | HaReply(ok: bool, began: real) | StartEngine | EngineReply(ok: bool, began: real) | EvccReturn | Raise
    | Frame(began: real, complete: bool) | Close
    | Dispatch | Tick | Deliver

  /** The cached snapshot of the Mercedes client. */
  function Cached(w: World): Snapshot {
    Snapshot(!w.stopped && Fresh(w.cache, w.clock, w.timeout) && w.complete,
             if w.cache.Some? then Time(w.cache.value) else Null, w.clock)
  }

  /** `apply_snapshot` on the main loop. */
  function Arrived(w: World, s: Snapshot): World {
    w.(checkedAt := w.clock, app := Applied(w.app, w.source, w.timeout, s, w.clock),
       arrivals := w.arrivals + [Arrival(s, w.clock)])
  }

  predicate Enabled(w: World, a: Action) {
    match a
    case Advance(d) => d >= 0.0
    case Request => !w.source.Mercedes? && w.thread.Idle?
    case HaReply(_, began) => w.source.Ha? && w.thread.Busy? && w.thread.sampled <= began <= w.clock
    case StartEngine => w.source.Evcc? && w.thread.Busy? && w.thread.engine.None?
    case EngineReply(_, began) =>
      w.source.Evcc? && w.thread.Busy? && w.thread.engine.Some? && w.thread.engine.value <= began <= w.clock
    case EvccReturn => w.source.Evcc? && w.thread.Busy?
    case Raise => w.thread.Busy?
    case Frame(began, _) => w.source.Mercedes? && began <= w.clock
    case Close => true
    case Dispatch => w.thread.Done?
    case Tick => true
    case Deliver => w.dispatched != []
  }

  function Step(w: World, a: Action): World {
    if !Enabled(w, a) then w
    else
      match a
      case Advance(d) => w.(clock := w.clock + d)
      case Request => w.(thread := Busy(w.clock, None))
      case HaReply(ok, began) =>
        w.(thread := Done(Snapshot(ok, Absent, w.thread.sampled)),
           log := if ok then w.log + [Acquisition(began, w.clock, w.thread.sampled, true)] else w.log)
      case StartEngine => w.(thread := w.thread.(engine := Some(w.clock)))
      case EngineReply(ok, began) =>
        if ok then w.(cache := w.thread.engine, thread := w.thread.(engine := None),
                      log := w.log + [Acquisition(began, w.clock, w.thread.engine.value, true)])
        else w.(thread := w.thread.(engine := None))
      case EvccReturn =>
        w.(thread := Done(Snapshot(Fresh(w.cache, w.clock, w.timeout),
                                   if w.cache.Some? then Time(w.cache.value) else Null, w.thread.sampled)))
      case Raise => w.(thread := Done(Snapshot(false, Absent, w.thread.sampled)))
      case Frame(began, complete) =>
        w.(cache := Some(w.clock), complete := complete,
           log := w.log + [Acquisition(began, w.clock, w.clock, complete)])
      case Close => w.(stopped := true)
      case Dispatch => w.(thread := Idle, dispatched := w.dispatched + [w.thread.snapshot])
      case Tick =>
        if w.source.Mercedes? then Arrived(w, Cached(w))
        else w.(checkedAt := w.clock, app := Checked(w.app, w.clock, w.timeout))
      case Deliver => Arrived(w, w.dispatched[0]).(dispatched := w.dispatched[1..])
  }

  function Run(w: World, actions: seq<Action>): World
    decreases |actions|
  {
    if actions == [] then w else Run(Step(w, actions[0]), actions[1..])
  }

  // ---- The invariant ----------------------------------------------------------------------

  /** The time the program keeps of an acquisition that succeeded. */
  predicate Genuine(log: seq<Acquisition>, t: real) {
    exists q | q in log :: q.stamp == t
  }

  predicate GenuineIfAny(log: seq<Acquisition>, t: Option<real>) {
    t.Some? ==> Genuine(log, t.value)
  }

  predicate SnapshotGenuine(log: seq<Acquisition>, s: Snapshot) {
    s.ok ==> GenuineIfAny(log, StartOf(s))
  }

  /** The kept time: not after the request began, except for Mercedes, where it is the time of receipt. */
  predicate StampedWell(source: Source, q: Acquisition) {
    if source.Mercedes? then q.stamp == q.ended else q.stamp <= q.began
  }

  predicate Inv(w: World) {
    && GenuineIfAny(w.log, w.app.lastOk) && GenuineIfAny(w.log, w.cache)
    && (w.thread.Done? ==> SnapshotGenuine(w.log, w.thread.snapshot))
    && (forall s | s in w.dispatched :: SnapshotGenuine(w.log, s))
    && (forall q | q in w.log :: q.began <= q.ended <= w.clock && q.stamp <= w.clock && StampedWell(w.source, q))
    && (w.thread.Busy? ==> w.thread.sampled <= w.clock && (w.thread.engine.Some? ==> w.thread.engine.value <= w.clock))
    && w.checkedAt <= w.clock && (w.app.connected ==> Fresh(w.app.lastOk, w.checkedAt, w.timeout))
  }

  lemma GenuineStays(log: seq<Acquisition>, q: Acquisition, t: Option<real>)
    requires GenuineIfAny(log, t)
    ensures GenuineIfAny(log + [q], t)
  {
    if t.Some? {
      var p :| p in log && p.stamp == t.value;
      assert p in log + [q];
    }
  }

  lemma SnapshotStays(log: seq<Acquisition>, q: Acquisition, s: Snapshot)
    requires SnapshotGenuine(log, s)
    ensures SnapshotGenuine(log + [q], s)
  {
    if s.ok {
      GenuineStays(log, q, StartOf(s));
    }
  }

  /** A new acquisition: everything genuine stays so, and its stamp is. */
  lemma Acquired(w: World, q: Acquisition)
    requires Inv(w) && q.began <= q.ended <= w.clock && q.stamp <= w.clock && StampedWell(w.source, q)
    ensures Inv(w.(log := w.log + [q])) && Genuine(w.log + [q], q.stamp)
  {
    hide GenuineIfAny, SnapshotGenuine, Genuine, Fresh, StampedWell;
    GenuineStays(w.log, q, w.app.lastOk);
    GenuineStays(w.log, q, w.cache);
    if w.thread.Done? {
      SnapshotStays(w.log, q, w.thread.snapshot);
    }
    forall s | s in w.dispatched ensures SnapshotGenuine(w.log + [q], s) {
      SnapshotStays(w.log, q, s);
    }
    NewIsGenuine(w.log, q);
  }

  lemma NewIsGenuine(log: seq<Acquisition>, q: Acquisition)
    ensures Genuine(log + [q], q.stamp)
  {
    assert q in log + [q];
  }

  lemma ArrivedGenuine(w: World, s: Snapshot)
    requires Inv(w) && SnapshotGenuine(w.log, s)
    ensures Inv(Arrived(w, s))
  {
    hide Genuine, StampedWell;
  }

  lemma ArrivedSame(w: World, s: Snapshot)
    ensures Arrived(w, s).source == w.source && Arrived(w, s).timeout == w.timeout
    ensures Arrived(w, s).dispatched == w.dispatched && Arrived(w, s).log == w.log
  {
  }

  lemma StampIsWell(source: Source, q: Acquisition)
    ensures StampedWell(source, q) <==> if source.Mercedes? then q.stamp == q.ended else q.stamp <= q.began
  {
  }

  lemma CachedGenuine(w: World)
    requires GenuineIfAny(w.log, w.cache)
    ensures SnapshotGenuine(w.log, Cached(w))
  {
    hide Genuine;
  }

  lemma StepKept(w: World, a: Action)
    requires Inv(w)
    ensures Inv(Step(w, a)) && Step(w, a).source == w.source && Step(w, a).timeout == w.timeout
  {
    hide Genuine, StampedWell, Arrived, Cached;
    if Enabled(w, a) {
      match a
      case HaReply(ok, began) =>
        if ok {
          StampIsWell(w.source, Acquisition(began, w.clock, w.thread.sampled, true));
          Acquired(w, Acquisition(began, w.clock, w.thread.sampled, true));
        }
      case EngineReply(ok, began) =>
        if ok {
          StampIsWell(w.source, Acquisition(began, w.clock, w.thread.engine.value, true));
          Acquired(w, Acquisition(began, w.clock, w.thread.engine.value, true));
        }
      case Frame(began, complete) =>
        StampIsWell(w.source, Acquisition(began, w.clock, w.clock, complete));
        Acquired(w, Acquisition(began, w.clock, w.clock, complete));
      case Tick =>
        CachedGenuine(w);
        ArrivedGenuine(w, Cached(w));
        ArrivedSame(w, Cached(w));
      case Deliver =>
        assert w.dispatched[0] in w.dispatched;
        ArrivedGenuine(w, w.dispatched[0]);
        ArrivedSame(w, w.dispatched[0]);
      case _ =>
    }
  }

  lemma {:induction false} RunKept(w: World, actions: seq<Action>)
    requires Inv(w)
    ensures Inv(Run(w, actions)) && Run(w, actions).source == w.source && Run(w, actions).timeout == w.timeout
    decreases |actions|
  {
    hide Inv, Step;
    if actions != [] {
      StepKept(w, actions[0]);
      RunKept(Step(w, actions[0]), actions[1..]);
    }
  }

  lemma BeginKept(source: Source, timeout: real)
    ensures Inv(Begin(source, timeout))
  {
  }

  // ---- Main results -----------------------------------------------------------------------

  /** The acquisition behind a connected service. For Mercedes it may have begun a timeout ago or longer,
      and did not exactly if its age since receipt was below what its latency leaves of the timeout. */
  predicate Behind(w: World, q: Acquisition) {
    && 0.0 <= w.checkedAt - q.stamp < w.timeout && q.began <= q.ended
    && var age, latency := w.checkedAt - q.ended, q.ended - q.began;
       if w.source.Mercedes? then
         && q.stamp == q.ended && w.checkedAt - q.began < w.timeout + latency
         && (w.checkedAt - q.began < w.timeout <==> age < w.timeout - latency)
       else w.checkedAt - q.began < w.timeout
  }

  /** Whenever the service says connected, at the tick or delivery that said so an acquisition that really
      succeeded stood behind it. */
  lemma ConnectedIsGenuine(source: Source, timeout: real, actions: seq<Action>)
    ensures var w := Run(Begin(source, timeout), actions);
      w.app.connected ==> exists q | q in w.log :: Behind(w, q)
  {
    hide Run;
    BeginKept(source, timeout);
    RunKept(Begin(source, timeout), actions);
    var w := Run(Begin(source, timeout), actions);
    if w.app.connected {
      assert Genuine(w.log, w.app.lastOk.value);
      var q :| q in w.log && q.stamp == w.app.lastOk.value;
      assert Behind(w, q);
    }
  }

  /** Every acquisition took at most `latency`. */
  predicate Within(log: seq<Acquisition>, latency: real) {
    forall q | q in log :: q.ended - q.began <= latency
  }

  /** Some acquisition that succeeded began less than `bound` before the last check. */
  predicate BeganWithin(w: World, bound: real) {
    exists q | q in w.log :: w.checkedAt - q.began < bound
  }

  /** In every run whose acquisitions take at most `latency`, connected means begun less than `bound` ago. */
  ghost predicate Promises(source: Source, timeout: real, latency: real, bound: real) {
    forall actions: seq<Action> ::
      var w := Run(Begin(source, timeout), actions);
      w.app.connected && Within(w.log, latency) ==> BeganWithin(w, bound)
  }

  /** How old the beginning behind a connected service may be, exactly: below the timeout for Home
      Assistant and evcc, and for Mercedes below the timeout and the latency together. So Mercedes keeps
      the promise of the other two exactly where answers take no time. */
  lemma FreshnessBound(source: Source, timeout: real, latency: real, bound: real)
    requires latency >= 0.0
    ensures Promises(source, timeout, latency, bound)
       <==> timeout <= 0.0 || bound >= if source.Mercedes? then timeout + latency else timeout
  {
    hide Run;
    var least := if source.Mercedes? then timeout + latency else timeout;
    if timeout <= 0.0 || bound >= least {
      forall actions: seq<Action>
        ensures var w := Run(Begin(source, timeout), actions);
          w.app.connected && Within(w.log, latency) ==> BeganWithin(w, bound) {
        ConnectedIsGenuine(source, timeout, actions);
        RunKept(Begin(source, timeout), actions);
      }
    } else {
      var late := if source.Mercedes? then latency else 0.0;
      var age := if bound > late then bound - late else 0.0;
      AgeIsReached(source, timeout, late, age);
      var w := Run(Begin(source, timeout), Reaching(source, late, age));
      assert w.app.connected && Within(w.log, latency) && !BeganWithin(w, bound);
    }
  }

  /** A single acquisition, and a check `age` after what is kept of it. */
  function Reaching(source: Source, latency: real, age: real): seq<Action> {
    match source
    case Ha => [Request, HaReply(true, 0.0), Dispatch, Advance(age)] + [Deliver]
    case Evcc => [Request, StartEngine, EngineReply(true, 0.0), EvccReturn] + [Dispatch, Advance(age), Deliver]
    case Mercedes => [Advance(latency), Frame(0.0, true), Advance(age), Tick] + []
  }

  /** The state of a service whose only acquisition is `age` old. */
  predicate AgedService(w: World, latency: real, age: real) {
    w.app.connected && w.log == [Acquisition(0.0, latency, latency, true)] && w.checkedAt == latency + age
  }

  lemma HaAge(timeout: real, age: real)
    requires 0.0 <= age < timeout
    ensures AgedService(Run(Begin(Ha, timeout), Reaching(Ha, 0.0, age)), 0.0, age)
  {
    var w0 := Begin(Ha, timeout);
    var w4 := Step(Step(Step(Step(w0, Request), HaReply(true, 0.0)), Dispatch), Advance(age));
    assert w4.dispatched == [Snapshot(true, Absent, 0.0)] && w4.log == [Acquisition(0.0, 0.0, 0.0, true)];
    RunOfFour(w0, Request, HaReply(true, 0.0), Dispatch, Advance(age), [Deliver]);
    RunOfOne(w4, Deliver);
  }

  lemma EvccAge(timeout: real, age: real)
    requires 0.0 <= age < timeout
    ensures AgedService(Run(Begin(Evcc, timeout), Reaching(Evcc, 0.0, age)), 0.0, age)
  {
    var w0 := Begin(Evcc, timeout);
    var w4 := Step(Step(Step(Step(w0, Request), StartEngine), EngineReply(true, 0.0)), EvccReturn);
    assert w4.thread == Done(Snapshot(true, Time(0.0), 0.0)) && w4.log == [Acquisition(0.0, 0.0, 0.0, true)];
    DeliveredAge(w4, age);
    RunOfFour(w0, Request, StartEngine, EngineReply(true, 0.0), EvccReturn, [Dispatch, Advance(age), Deliver]);
  }

  lemma DeliveredAge(w: World, age: real)
    requires w.thread == Done(Snapshot(true, Time(0.0), 0.0)) && w.dispatched == [] && w.clock == 0.0
    requires 0.0 <= age < w.timeout
    ensures var after := Run(w, [Dispatch, Advance(age), Deliver]);
      after.app.connected && after.log == w.log && after.checkedAt == age
  {
    var next := w.(thread := Idle, dispatched := [Snapshot(true, Time(0.0), 0.0)], clock := age);
    assert Step(Step(w, Dispatch), Advance(age)) == next;
    DeliveredIs(next);
    hide Step;
    RunOfThree(w, Dispatch, Advance(age), Deliver);
  }

  lemma DeliveredIs(w: World)
    requires w.dispatched == [Snapshot(true, Time(0.0), 0.0)] && 0.0 <= w.clock < w.timeout
    ensures var after := Step(w, Deliver);
      after.app.connected && after.log == w.log && after.checkedAt == w.clock
  {
  }

  lemma MercedesAge(timeout: real, latency: real, age: real)
    requires 0.0 <= age < timeout && latency >= 0.0
    ensures AgedService(Run(Begin(Mercedes, timeout), Reaching(Mercedes, latency, age)), latency, age)
  {
    var w0 := Begin(Mercedes, timeout);
    var w2 := Step(Step(w0, Advance(latency)), Frame(0.0, true));
    assert w2.log == [Acquisition(0.0, latency, latency, true)] && w2.cache == Some(latency);
    RunOfFour(w0, Advance(latency), Frame(0.0, true), Advance(age), Tick, []);
  }

  /** Every age below the timeout is reached, behind every latency of a Mercedes answer. */
  lemma AgeIsReached(source: Source, timeout: real, latency: real, age: real)
    requires 0.0 <= age < timeout && latency >= 0.0 && (!source.Mercedes? ==> latency == 0.0)
    ensures var w := Run(Begin(source, timeout), Reaching(source, latency, age));
      w.app.connected && w.log == [Acquisition(0.0, latency, latency, true)] && w.checkedAt == latency + age
  {
    hide Run, Reaching;
    match source
    case Ha => HaAge(timeout, age);
    case Evcc => EvccAge(timeout, age);
    case Mercedes => MercedesAge(timeout, latency, age);
  }

  lemma RunOfFour(w: World, a: Action, b: Action, c: Action, d: Action, rest: seq<Action>)
    ensures Run(w, [a, b, c, d] + rest) == Run(Step(Step(Step(Step(w, a), b), c), d), rest)
  {
    hide Step;
    var w1 := Step(w, a);
    var w2 := Step(w1, b);
    var w3 := Step(w2, c);
    assert ([a, b, c, d] + rest)[1..] == [b, c, d] + rest && ([b, c, d] + rest)[1..] == [c, d] + rest;
    assert ([c, d] + rest)[1..] == [d] + rest && ([d] + rest)[1..] == rest;
    assert Run(w, [a, b, c, d] + rest) == Run(w1, [b, c, d] + rest) == Run(w2, [c, d] + rest) == Run(w3, [d] + rest);
  }

  lemma RunOfOne(w: World, a: Action)
    ensures Run(w, [a]) == Step(w, a)
  {
    hide Step;
    assert [a][1..] == [];
    assert Run(w, [a]) == Run(Step(w, a), []);
  }

  lemma RunOfThree(w: World, a: Action, b: Action, c: Action)
    ensures Run(w, [a, b, c]) == Step(Step(Step(w, a), b), c)
  {
    hide Step;
    assert [a, b, c][1..] == [b, c] && [b, c][1..] == [c] && [c][1..] == [];
    assert Run(w, [a, b, c]) == Run(Step(w, a), [b, c]) == Run(Step(Step(w, a), b), [c]);
    assert Run(Step(Step(w, a), b), [c]) == Run(Step(Step(Step(w, a), b), c), []);
  }

  // ---- Exactly when -----------------------------------------------------------------------

  /** A result that says ok and whose start time is younger than the timeout when it arrives. */
  predicate Good(a: Arrival, timeout: real) {
    a.snapshot.ok && StartOf(a.snapshot).Some? && 0.0 <= a.now - StartOf(a.snapshot).value < timeout
  }

  /** The arrival that decides: the last good one, which only with Home Assistant others may have followed. */
  predicate Decides(source: Source, timeout: real, arrivals: seq<Arrival>, i: int) {
    && 0 <= i < |arrivals| && Good(arrivals[i], timeout)
    && if source.Ha? then forall j | i < j < |arrivals| :: !Good(arrivals[j], timeout) else i == |arrivals| - 1
  }

  predicate LastIsGood(w: World) {
    w.arrivals != [] && Good(w.arrivals[|w.arrivals| - 1], w.timeout)
  }

  /** The application is what the arrivals make it, and the caches are what the acquisitions make them. */
  ghost predicate Kept(w: World) {
    && (w.app.lastOk.Some? ==>
          exists i | 0 <= i < |w.arrivals| ::
            Decides(w.source, w.timeout, w.arrivals, i) && w.app.lastOk == StartOf(w.arrivals[i].snapshot))
    && (w.app.lastOk.None? ==> forall i :: !Decides(w.source, w.timeout, w.arrivals, i))
    && (w.app.latestOk <==> LastIsGood(w))
    && (w.app.connected <==> Fresh(w.app.lastOk, w.checkedAt, w.timeout))
    && (w.app.outputs <==> w.app.latestOk && w.app.connected)
    && (!w.source.Ha? ==> w.cache == if w.log == [] then None else Some(w.log[|w.log| - 1].stamp))
    && (w.source.Mercedes? ==> (w.complete <==> w.log != [] && w.log[|w.log| - 1].complete))
  }

  lemma ArrivedKept(w: World, s: Snapshot)
    requires Kept(w)
    ensures Kept(Arrived(w, s))
  {
    hide Good;
    var next := Arrived(w, s);
    var a := Arrival(s, w.clock);
    GoodIsFresh(a, w.timeout);
    if Good(a, w.timeout) {
      assert Decides(w.source, w.timeout, next.arrivals, |w.arrivals|);
    } else if w.source.Ha? {
      forall i ensures Decides(w.source, w.timeout, next.arrivals, i) <==>
                       Decides(w.source, w.timeout, w.arrivals, i) {
        assert next.arrivals[|w.arrivals|] == a;
        assert forall j | 0 <= j < |w.arrivals| :: next.arrivals[j] == w.arrivals[j];
      }
    }
  }

  lemma GoodIsFresh(a: Arrival, timeout: real)
    ensures Good(a, timeout) <==> a.snapshot.ok && Fresh(StartOf(a.snapshot), a.now, timeout)
  {
  }

  lemma StepKeeps(w: World, a: Action)
    requires Kept(w)
    ensures Kept(Step(w, a))
  {
    hide Good, Decides, Arrived, Cached;
    if Enabled(w, a) {
      if a.Tick? && w.source.Mercedes? {
        ArrivedKept(w, Cached(w));
      } else if a.Deliver? {
        ArrivedKept(w, w.dispatched[0]);
        ArrivedSame(w, w.dispatched[0]);
      }
    }
  }

  lemma {:induction false} RunKeeps(w: World, actions: seq<Action>)
    requires Kept(w)
    ensures Kept(Run(w, actions)) && Run(w, actions).source == w.source && Run(w, actions).timeout == w.timeout
    ensures Run(w, actions).stopped <==> w.stopped || Close in actions
    decreases |actions|
  {
    hide Kept, Good, Decides;
    if actions != [] {
      StepKeeps(w, actions[0]);
      RunKeeps(Step(w, actions[0]), actions[1..]);
      assert actions == [actions[0]] + actions[1..];
    }
  }

  lemma BeginKeeps(source: Source, timeout: real)
    ensures Kept(Begin(source, timeout))
  {
    hide Good;
  }

  /** In every run the service is connected exactly if, at the last check, the start time of the deciding arrival
      was younger than the timeout; and MQTT and the charger see a good snapshot exactly if the last arrival was
      good as well. */
  lemma ConnectedIs(source: Source, timeout: real, actions: seq<Action>)
    ensures var w := Run(Begin(source, timeout), actions);
      && (w.app.connected <==>
            exists i | 0 <= i < |w.arrivals| ::
              Decides(source, timeout, w.arrivals, i)
              && 0.0 <= w.checkedAt - StartOf(w.arrivals[i].snapshot).value < timeout)
      && (w.app.outputs <==> w.app.connected && LastIsGood(w))
  {
    hide Run, Good;
    BeginKeeps(source, timeout);
    RunKeeps(Begin(source, timeout), actions);
    var w := Run(Begin(source, timeout), actions);
    forall i, j | Decides(source, timeout, w.arrivals, i) && Decides(source, timeout, w.arrivals, j) ensures i == j {
      assert i < j || i == j || j < i;
    }
  }

  /** What a check says besides: with Mercedes the latest acquisition decides alone, if it had a state of charge and
      the client was never closed; a result of evcc is as good as its latest acquisition, and begins with it. */
  lemma ChecksAre(source: Source, timeout: real, actions: seq<Action>)
    ensures var w := Run(Begin(source, timeout), actions);
      var young := w.log != [] && 0.0 <= w.clock - w.log[|w.log| - 1].stamp < timeout;
      && (source.Mercedes? ==>
            && (Step(w, Tick).app.connected <==> young && w.log[|w.log| - 1].complete && Close !in actions)
            && (Cached(w).ok <==> Step(w, Tick).app.connected))
      && (source.Evcc? && w.thread.Busy? ==>
            Step(w, EvccReturn).thread ==
            Done(Snapshot(young, if w.log == [] then Null else Time(w.log[|w.log| - 1].stamp), w.thread.sampled)))
      && (w.thread.Busy? ==> Step(w, Raise).thread == Done(Snapshot(false, Absent, w.thread.sampled)))
  {
    hide Run, Good, Decides;
    BeginKeeps(source, timeout);
    RunKeeps(Begin(source, timeout), actions);
  }

  // ---- Every answer counts ----------------------------------------------------------------

  /** A good answer of Home Assistant connects exactly while its request is younger than the timeout, whatever
      was before. */
  lemma HaConnects(w: World, a: real, b: real)
    requires w.source.Ha? && w.thread.Idle? && w.dispatched == [] && a >= 0.0 && b >= 0.0
    ensures var after := Run(w, [Request, Advance(a), HaReply(true, w.clock), Dispatch] + [Advance(b), Deliver]);
      && (after.app.outputs <==> a + b < w.timeout) && (a + b < w.timeout ==> after.app.connected)
      && |after.log| == |w.log| + 1 && after.log[|w.log|] == Acquisition(w.clock, w.clock + a, w.clock, true)
  {
    var w4 := Step(Step(Step(Step(w, Request), Advance(a)), HaReply(true, w.clock)), Dispatch);
    assert w4 == w.(clock := w.clock + a, thread := Idle, dispatched := [Snapshot(true, Absent, w.clock)],
                    log := w.log + [Acquisition(w.clock, w.clock + a, w.clock, true)]);
    var after := Step(Step(w4, Advance(b)), Deliver);
    assert after.checkedAt == w.clock + a + b;
    RunOfFour(w, Request, Advance(a), HaReply(true, w.clock), Dispatch, [Advance(b), Deliver]);
    RunOfTwo(w4, Advance(b), Deliver);
  }

  /** So does one of evcc while its engine poll is. */
  lemma EvccConnects(w: World, a: real, b: real)
    requires w.source.Evcc? && w.thread.Idle? && w.dispatched == [] && a >= 0.0 && b >= 0.0
    ensures var reply := [Request, StartEngine, Advance(a), EngineReply(true, w.clock)];
      var after := Run(w, reply + [EvccReturn, Dispatch, Advance(b), Deliver]);
      && (after.app.connected <==> a + b < w.timeout) && after.app.outputs == after.app.connected
      && |after.log| == |w.log| + 1 && after.log[|w.log|] == Acquisition(w.clock, w.clock + a, w.clock, true)
  {
    var w4 := Step(Step(Step(Step(w, Request), StartEngine), Advance(a)), EngineReply(true, w.clock));
    assert w4 == w.(clock := w.clock + a, thread := Busy(w.clock, None), cache := Some(w.clock),
                    log := w.log + [Acquisition(w.clock, w.clock + a, w.clock, true)]);
    RunOfFour(w, Request, StartEngine, Advance(a), EngineReply(true, w.clock),
              [EvccReturn, Dispatch, Advance(b), Deliver]);
    EvccDelivers(w4, b, w.clock);
  }

  lemma EvccDelivers(w: World, b: real, start: real)
    requires w.source.Evcc? && w.thread.Busy? && w.dispatched == [] && w.cache == Some(start) && start <= w.clock
    requires b >= 0.0
    ensures var after := Run(w, [EvccReturn, Dispatch, Advance(b), Deliver]);
      && (after.app.connected <==> w.clock + b - start < w.timeout) && after.app.outputs == after.app.connected
      && after.log == w.log
  {
    var snapshot := Snapshot(w.clock - start < w.timeout, Time(start), w.thread.sampled);
    var w1 := Step(w, EvccReturn);
    assert w1 == w.(thread := Done(snapshot));
    var w2 := Step(w1, Dispatch);
    assert w2 == w.(thread := Idle, dispatched := [snapshot]);
    var w3 := Step(w2, Advance(b));
    assert w3 == w.(clock := w.clock + b, thread := Idle, dispatched := [snapshot]);
    EvccDelivered(w3, snapshot, start);
    hide Step;
    RunOfFour(w, EvccReturn, Dispatch, Advance(b), Deliver, []);
    assert [EvccReturn, Dispatch, Advance(b), Deliver] + [] == [EvccReturn, Dispatch, Advance(b), Deliver];
  }

  lemma EvccDelivered(w: World, snapshot: Snapshot, start: real)
    requires w.source.Evcc? && w.dispatched == [snapshot] && snapshot.source == Time(start) && start <= w.clock
    ensures var after := Step(w, Deliver);
      && (after.app.connected <==> snapshot.ok && w.clock - start < w.timeout)
      && after.app.outputs == after.app.connected && after.log == w.log
  {
  }

  /** And a frame of Mercedes with a state of charge while its receipt is, unless the client is closed. */
  lemma MercedesConnects(w: World, began: real, complete: bool, a: real)
    requires w.source.Mercedes? && began <= w.clock && a >= 0.0
    ensures var after := Run(w, [Frame(began, complete), Advance(a), Tick]);
      && (after.app.connected <==> a < w.timeout && complete && !w.stopped)
      && after.app.outputs == after.app.connected
      && after.log == w.log + [Acquisition(began, w.clock, w.clock, complete)]
  {
    RunOfThree(w, Frame(began, complete), Advance(a), Tick);
  }

  lemma RunOfTwo(w: World, a: Action, b: Action)
    ensures Run(w, [a, b]) == Step(Step(w, a), b)
  {
    hide Step;
    assert [a, b][1..] == [b];
    RunOfOne(Step(w, a), b);
  }

  // ---- Without acquisitions ---------------------------------------------------------------

  predicate Acquires(a: Action) {
    a.Frame? || ((a.HaReply? || a.EngineReply?) && a.ok)
  }

  /** A start time that may still make the service connected: kept, cached, pending or dispatched. */
  predicate Holds(w: World, t: real) {
    || w.app.lastOk == Some(t) || w.cache == Some(t)
    || (w.thread.Done? && w.thread.snapshot.ok && StartOf(w.thread.snapshot) == Some(t))
    || exists s | s in w.dispatched :: s.ok && StartOf(s) == Some(t)
  }

  lemma StepHolds(w: World, a: Action, t: real)
    requires !Acquires(a) && Holds(Step(w, a), t)
    ensures Holds(w, t) && Step(w, a).log == w.log
  {
    if Enabled(w, a) && a.Deliver? {
      assert w.dispatched[0] in w.dispatched;
    }
  }

  lemma {:induction false} RunHolds(w: World, actions: seq<Action>, t: real)
    requires (forall a | a in actions :: !Acquires(a)) && Holds(Run(w, actions), t)
    ensures Holds(w, t)
    decreases |actions|
  {
    hide Step, Holds, Acquires;
    if actions != [] {
      assert actions[0] in actions;
      RunHolds(Step(w, actions[0]), actions[1..], t);
      StepHolds(w, actions[0], t);
    }
  }

  /** Without a new acquisition nothing renews a start time: however often caches are read and however
      late results are delivered, a service is connected only by a time that was already held before, so
      by an acquisition on record then, and only while that is younger than the timeout. */
  lemma NothingRenews(w: World, actions: seq<Action>)
    requires Inv(w) && forall a | a in actions :: !Acquires(a)
    ensures var after := Run(w, actions);
      && (forall t | Holds(after, t) :: Holds(w, t) && Genuine(w.log, t))
      && (after.app.connected ==> exists t :: Holds(w, t) && 0.0 <= after.checkedAt - t < w.timeout)
  {
    hide Run, Acquires, Genuine;
    var after := Run(w, actions);
    RunKept(w, actions);
    forall t | Holds(after, t) ensures Holds(w, t) && Genuine(w.log, t) {
      RunHolds(w, actions, t);
    }
    if after.app.connected {
      assert Holds(after, after.app.lastOk.value);
    }
  }

  function AppliedAll(a: App, source: Source, timeout: real, arrivals: seq<Arrival>): App {
    if arrivals == [] then a
    else
      var last := arrivals[|arrivals| - 1];
      Applied(AppliedAll(a, source, timeout, arrivals[..|arrivals| - 1]), source, timeout, last.snapshot, last.now)
  }

  /** However many failed results follow a good one: they disconnect at once, except with Home Assistant,
      where the good one counts on as if they had not come, up to its own timeout. */
  lemma {:induction false} FailuresInARow(a: App, source: Source, timeout: real, arrivals: seq<Arrival>)
    requires arrivals != []
    requires forall r | r in arrivals :: !(r.snapshot.ok && Fresh(StartOf(r.snapshot), r.now, timeout))
    ensures var after := AppliedAll(a, source, timeout, arrivals);
      && (after.connected <==> source.Ha? && Fresh(a.lastOk, arrivals[|arrivals| - 1].now, timeout))
      && after.lastOk == (if source.Ha? then a.lastOk else None) && !after.latestOk
    decreases |arrivals|
  {
    var before := arrivals[..|arrivals| - 1];
    assert arrivals[|arrivals| - 1] in arrivals;
    if before != [] {
      assert forall r | r in before :: r in arrivals;
      FailuresInARow(a, source, timeout, before);
    }
  }
}
