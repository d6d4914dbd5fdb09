/** Concurrent runs against the version ledger (scripts/release_state.py): every call is a read, a decision
    on the copy it read and a compare-and-swap write, interleaved with the steps of other calls and cut
    short by crashes anywhere. */
module LedgerProtocol {
  import opened Results
  import opened Texts
  import opened VersionPlan
  import opened VersionLedger

  /** A call in progress: it has read the file (`previous` is the content whose identity it holds), and
      later it has also decided, on what it saw of GitHub then. */
  datatype Call =
    | Planning(q: Request, previous: Option<Ledger>)
    | Planned(q: Request, previous: Option<Ledger>, view: View, branchReady: bool)
    | Publishing(p: Publication, previous: Option<Ledger>)
    | Decided(p: Publication, previous: Option<Ledger>, published: set<Text>)

  /** What calls achieved: `Granted` plans, whether new or found again, and publications begun, with the tags
      the call found published. */
  datatype Event =
    | Granted(run: nat, plan: Plan)
    | Consumed(run: nat, plan: Plan, published: set<Text>)
    | Promoted(plan: Plan, published: set<Text>)

  datatype System = System(branch: bool, blob: Option<Ledger>, calls: map<nat, Call>, log: seq<Event>)

  const START := System(false, None, map[], [])

  datatype Action =
    | StartReserve(id: nat, q: Request)
    | DecideReserve(id: nat, view: View)
    | EnsureBranch(id: nat)
    | StartPublish(id: nat, p: Publication)
    | DecidePublish(id: nat, published: set<Text>)
    | Write(id: nat)
    | Crash(id: nat)

  function Copy(previous: Option<Ledger>): Ledger {
    if previous.Some? then previous.value else EMPTY
  }

  function Dropped(s: System, id: nat): System {
    s.(calls := s.calls - {id})
  }

  /** The write of a call: with its event when GitHub accepts it, an error otherwise. */
  function Written(s: System, id: nat, previous: Option<Ledger>, next: Ledger, event: Event): System {
    if s.branch && s.blob == previous
    then System(s.branch, Some(next), s.calls - {id}, s.log + [event])
    else Dropped(s, id)
  }

  function Start(s: System, id: nat, call: Call, size: Ledger -> nat): System {
    if id in s.calls || ReadState(s.branch, s.blob, size).Failed? then s else s.(calls := s.calls[id := call])
  }

  function Reserve(s: System, id: nat, q: Request, previous: Option<Ledger>, view: View): System {
    match DecideReservation(Copy(previous), q, view)
    case Failed => Dropped(s, id)
    case Ok(Existing(plan)) => Dropped(s, id).(log := s.log + [Granted(q.run, plan)])
    case Ok(New(_, _)) => s.(calls := s.calls[id := Planned(q, previous, view, false)])
  }

  function WriteReservation(s: System, id: nat, q: Request, previous: Option<Ledger>, view: View): System {
    match DecideReservation(Copy(previous), q, view)
    case Ok(New(plan, next)) => Written(s, id, previous, next, Granted(q.run, plan))
    case _ => Dropped(s, id)
  }

  function PublicationEvent(p: Publication, published: set<Text>): Event
    requires p.run > 0
  {
    if p.promotion then Promoted(p.plan, published) else Consumed(p.run, p.plan, published)
  }

  function WritePublication(s: System, id: nat, p: Publication, previous: Option<Ledger>,
                            published: set<Text>): System {
    match DecidePublication(Copy(previous), p, published)
    case Ok(next) =>
      if p.run > 0 then Written(s, id, previous, next, PublicationEvent(p, published)) else Dropped(s, id)
    case Failed => Dropped(s, id)
  }

  /** One step. An action that does not fit the state of its call changes nothing. */
  function Step(s: System, a: Action, size: Ledger -> nat): System {
    match a
    case StartReserve(id, q) => Start(s, id, Planning(q, s.blob), size)
    case StartPublish(id, p) => Start(s, id, Publishing(p, s.blob), size)
    case DecideReserve(id, view) =>
      if id in s.calls && s.calls[id].Planning? then Reserve(s, id, s.calls[id].q, s.calls[id].previous, view) else s
    case EnsureBranch(id) =>
      if id in s.calls && s.calls[id].Planned?
      then s.(branch := true, calls := s.calls[id := s.calls[id].(branchReady := true)]) else s
    case DecidePublish(id, published) =>
      if id in s.calls && s.calls[id].Publishing? then
        if DecidePublication(Copy(s.calls[id].previous), s.calls[id].p, published).Ok?
        then s.(calls := s.calls[id := Decided(s.calls[id].p, s.calls[id].previous, published)])
        else Dropped(s, id)
      else s
    case Write(id) =>
      if id !in s.calls then s
      else (match s.calls[id]
            case Planned(q, previous, view, true) => WriteReservation(s, id, q, previous, view)
            case Decided(p, previous, published) => WritePublication(s, id, p, previous, published)
            case _ => s)
    case Crash(id) => Dropped(s, id)
  }

  /** Any interleaving: the actions in the order in which they happen. */
  function Run(s: System, actions: seq<Action>, size: Ledger -> nat): System
    decreases |actions|
  {
    if actions == [] then s else Run(Step(s, actions[0], size), actions[1..], size)
  }

  // ---- What every ledger keeps ------------------------------------------------------------

  /** Stable plans of one base. */
  predicate SameRelease(p: Plan, q: Plan) {
    p.channel.Stable? && q.channel.Stable? && p.base == q.base
  }

  /** Runs hold different builds, and different tags unless both plan one stable release. */
  predicate Distinct(l: Ledger) {
    forall a, b | a in l.plans && b in l.plans && a != b ::
      l.plans[a].plan.build != l.plans[b].plan.build
      && (l.plans[a].plan.tag == l.plans[b].plan.tag <==> SameRelease(l.plans[a].plan, l.plans[b].plan))
  }

  /** The stamp of a nightly names its run. */
  predicate OwnStamp(plan: Plan, run: nat) {
    plan.channel.Nightly? && plan.sequence.Stamp? ==>
      (var parts := Split(plan.sequence.text, DOT);
       |parts| == 3 && parts[1] == NatText(run))
  }

  predicate OwnStamps(l: Ledger) {
    forall run | run in l.plans :: OwnStamp(l.plans[run].plan, run)
  }

  predicate Sound(l: Ledger) {
    WellFormed(l) && Distinct(l) && OwnStamps(l)
  }

  /** Nothing is taken back: the counter and the floor only rise and every reservation stays as it is. */
  predicate Extends(l: Ledger, next: Ledger) {
    l.counter <= next.counter && l.floor <= next.floor
    && forall run | run in l.plans :: run in next.plans && next.plans[run] == l.plans[run]
  }

  predicate FileExtends(a: Option<Ledger>, b: Option<Ledger>) {
    a.Some? ==> b.Some? && Extends(a.value, b.value)
  }

  lemma CreatedPlan(base: Text, channel: Channel, sequence: Sequence, sha: Text, policy: Policy, build: int)
    ensures var r := CreatePlan(base, channel, sequence, sha, policy, Some(build));
      r.Ok? ==> ValidPlan(r.value) && r.value.build == Some(build) && r.value.base == base
                && r.value.channel == channel && r.value.sequence == sequence
  {
    hide IsHex, Projected;
  }

  /** A plan just decided shares its tag with a reserved plan exactly if both are stable plans of one base. */
  lemma FreshTag(l: Ledger, q: Request, view: View, plan: Plan, next: Ledger, run: nat)
    requires DecideReservation(l, q, view) == Ok(New(plan, next)) && Sound(l) && run in l.plans
    ensures l.plans[run].plan.tag == plan.tag <==> SameRelease(l.plans[run].plan, plan)
  {
    hide IsHex, Projected, IsBase, IsStamp, StampText, CreatePlan, Split, NextSequence, Identity, IdentityAllowed;
    CreatedPlan(q.base, q.channel, SequenceFor(l, q, view), q.sourceSha, q.policy, next.counter);
    var other := l.plans[run].plan;
    TagDeterminesIdentity(plan, other);
    if plan.channel.Stable? && other.channel.Stable? {
      StableHasNoSequence(plan);
      StableHasNoSequence(other);
    } else if plan.tag == other.tag && plan.channel.Nightly? {
      NightlyOwner(q, plan);
      NatTextInjective(q.run, run);
    } else if plan.tag == other.tag {
      ReservedBelow(l, run);
    }
  }

  lemma NightlyOwner(q: Request, plan: Plan)
    requires q.run > 0 && plan.channel.Nightly? && ValidPlan(plan)
    requires plan.sequence == Stamp(StampText(q.now, q.run, q.attempt))
    ensures OwnStamp(plan, q.run)
  {
    StampParts(q.now, q.run, q.attempt);
  }

  lemma ReservedBelow(l: Ledger, run: nat)
    requires run in l.plans && l.plans[run].plan.sequence.Number?
    ensures l.plans[run].plan.sequence.n
            <= Maximum(Reserved(l.plans, l.plans[run].plan.base, l.plans[run].plan.channel))
  {
    var plan := l.plans[run].plan;
    assert Numbered(plan, plan.base, plan.channel);
    assert plan.sequence.n in Reserved(l.plans, plan.base, plan.channel);
  }

  /** A decision to reserve keeps the ledger sound and only adds the new reservation, whose build is the
      new counter. */
  lemma ReservationKeeps(l: Ledger, q: Request, view: View, plan: Plan, next: Ledger)
    requires DecideReservation(l, q, view) == Ok(New(plan, next)) && Sound(l)
    ensures Sound(next) && Extends(l, next) && q.run > 0 && q.run !in l.plans
    ensures next.plans == l.plans[q.run := Reservation(plan, q.parent)]
    ensures plan.build == Some(next.counter) && l.counter < next.counter && FloorOf(q.policy) < next.counter
  {
    hide IsHex, Projected, IsBase, IsStamp, StampText, CreatePlan, Split, NextSequence, ValidPlan, TagPrefix;
    CreatedPlan(q.base, q.channel, SequenceFor(l, q, view), q.sourceSha, q.policy, next.counter);
    forall run | run in l.plans
      ensures plan.build != l.plans[run].plan.build
      ensures l.plans[run].plan.tag == plan.tag <==> SameRelease(l.plans[run].plan, plan) {
      FreshTag(l, q, view, plan, next, run);
    }
    if q.channel.Nightly? {
      NightlyOwner(q, plan);
    }
  }

  /** A decision to publish moves exactly the floor, strictly unless bytes are promoted. */
  lemma PublicationKeeps(l: Ledger, p: Publication, published: set<Text>)
    requires Sound(l) && DecidePublication(l, p, published).Ok?
    ensures var next := DecidePublication(l, p, published).value;
      && Sound(next) && Extends(l, next) && next.plans == l.plans && p.run > 0
      && p.plan.build == Some(next.floor) && l.floor <= next.floor
      && (!p.promotion ==> l.floor < next.floor && p.run in l.plans && l.plans[p.run].plan == p.plan)
      && (p.promotion ==> exists run :: run in l.plans && l.plans[run].plan == p.plan)
  {
    hide ValidPlan, OwnStamp;
    PublicationDecided(l, p, published);
    if p.promotion {
      var run :| HasPlan(l, run, p.plan) && forall other | HasPlan(l, other, p.plan) :: other == run;
      assert run in l.plans;
    }
  }

  /** An existing reservation is returned unchanged. */
  lemma ExistingIsReserved(l: Ledger, q: Request, view: View, plan: Plan)
    requires DecideReservation(l, q, view) == Ok(Existing(plan))
    ensures q.run > 0 && q.run in l.plans && l.plans[q.run] == Reservation(plan, q.parent)
    ensures ValidPlanFor(plan, q.policy, q.sourceSha) && plan.base == q.base && plan.channel == q.channel
  {
    hide ValidPlanFor, CreatePlan;
  }

  // ---- What every state keeps -------------------------------------------------------------

  predicate FileSound(s: System) {
    s.blob.Some? ==> s.branch && Sound(s.blob.value)
  }

  /** A call holds a ledger that once was the file, so the file has only grown since. */
  predicate CallSound(s: System, c: Call) {
    && FileExtends(c.previous, s.blob) && Sound(Copy(c.previous))
    && (c.Planned? ==>
          && DecideReservation(Copy(c.previous), c.q, c.view).Ok?
          && DecideReservation(Copy(c.previous), c.q, c.view).value.New?)
    && (c.Decided? ==> DecidePublication(Copy(c.previous), c.p, c.published).Ok?)
  }

  predicate CallsSound(s: System) {
    forall id | id in s.calls :: CallSound(s, s.calls[id])
  }

  /** A granted plan is the reservation of its run; a begun publication has reached the floor. */
  predicate EventSound(s: System, e: Event) {
    && s.blob.Some?
    && match e
       case Granted(run, plan) => run in s.blob.value.plans && s.blob.value.plans[run].plan == plan
       case Consumed(run, plan, _) =>
         run in s.blob.value.plans && s.blob.value.plans[run].plan == plan
         && plan.build.Some? && plan.build.value <= s.blob.value.floor
       case Promoted(plan, _) => plan.build.Some? && plan.build.value <= s.blob.value.floor
  }

  predicate LogSound(s: System) {
    forall e | e in s.log :: EventSound(s, e)
  }

  /** The build number a publication takes; 0 for grants. */
  function Published(e: Event): int {
    if !e.Granted? && e.plan.build.Some? then e.plan.build.value else 0
  }

  /** Publications begin in the order of their build numbers, and a package number is taken only above
      every number taken before. */
  predicate Ordered(log: seq<Event>) {
    forall i, j | 0 <= i < j < |log| && !log[j].Granted? ::
      Published(log[i]) <= Published(log[j]) && (log[j].Consumed? ==> Published(log[i]) < Published(log[j]))
  }

  /** What a publication rests on when `log` is all that happened before: its plan was granted; a package is
      newer than every granted one whose tag its call found published, and an RC whose bytes are promoted is
      itself published and older than none of them. */
  ghost predicate Founded(log: seq<Event>, e: Event) {
    match e
    case Granted(_, _) => true
    case Consumed(run, plan, published) =>
      && Granted(run, plan) in log && plan.tag !in published && plan.build.Some?
      && forall g | g in log && g.Granted? && g.plan.tag in published ::
           g.plan.build.Some? && g.plan.build.value < plan.build.value
    case Promoted(plan, published) =>
      && (exists run :: Granted(run, plan) in log) && plan.channel.Rc? && plan.promotion.PromoteBytes?
      && plan.tag in published && plan.build.Some?
      && forall g | g in log && g.Granted? && g.plan.tag in published ::
           g.plan.build.Some? && g.plan.build.value <= plan.build.value
  }

  ghost predicate AllFounded(log: seq<Event>) {
    forall i | 0 <= i < |log| :: Founded(log[..i], log[i])
  }

  /** Every reservation in the file was handed out. */
  predicate AllGranted(s: System) {
    s.blob.Some? ==> forall run | run in s.blob.value.plans :: Granted(run, s.blob.value.plans[run].plan) in s.log
  }

  ghost predicate Inv(s: System) {
    FileSound(s) && CallsSound(s) && LogSound(s) && Ordered(s.log) && AllFounded(s.log) && AllGranted(s)
  }

  lemma FoundedMore(log: seq<Event>, e: Event)
    requires AllFounded(log) && Founded(log, e)
    ensures AllFounded(log + [e])
  {
    hide Founded;
    var more := log + [e];
    assert more[..|log|] == log;
    forall i | 0 <= i < |log| ensures more[..i] == log[..i] {
    }
  }

  lemma StartSound()
    ensures Inv(START)
  {
  }

  lemma EmptySound()
    ensures Sound(EMPTY)
  {
  }

  lemma FileGrows(a: Option<Ledger>, b: Option<Ledger>, c: Option<Ledger>)
    requires FileExtends(a, b) && FileExtends(b, c)
    ensures FileExtends(a, c)
  {
  }

  lemma CallStays(s: System, next: System, c: Call)
    requires CallSound(s, c) && FileExtends(s.blob, next.blob)
    ensures CallSound(next, c)
  {
    hide Sound, DecideReservation, DecidePublication, Extends;
    FileGrows(c.previous, s.blob, next.blob);
  }

  lemma EventStays(s: System, next: System, e: Event)
    requires EventSound(s, e) && FileExtends(s.blob, next.blob)
    ensures EventSound(next, e)
  {
  }

  /** A step that leaves the file as it is and adds at most a sound call or a sound grant. */
  lemma QuietStep(s: System, next: System, id: nat, c: Option<Call>, e: Option<Event>)
    requires Inv(s) && next.blob == s.blob && (s.branch ==> next.branch)
    requires next.calls == if c.Some? then s.calls[id := c.value] else s.calls - {id}
    requires next.log == if e.Some? then s.log + [e.value] else s.log
    requires c.Some? ==> CallSound(s, c.value)
    requires e.Some? ==> e.value.Granted? && EventSound(s, e.value)
    ensures Inv(next)
  {
    hide Sound, DecideReservation, DecidePublication, CallSound, EventSound, Extends, AllFounded;
    ExtendsItself(s.blob);
    if e.Some? {
      FoundedMore(s.log, e.value);
    }
    forall i | i in next.calls ensures CallSound(next, next.calls[i]) {
      CallStays(s, next, if c.Some? && i == id then c.value else s.calls[i]);
    }
    forall x | x in next.log ensures EventSound(next, x) {
      if x in s.log {
        EventStays(s, next, x);
      } else {
        EventStays(s, next, e.value);
      }
    }
  }

  lemma ExtendsItself(a: Option<Ledger>)
    ensures FileExtends(a, a)
  {
  }

  /** An accepted write of a ledger that extends the one it replaces. */
  lemma WriteStep(s: System, id: nat, previous: Option<Ledger>, next: Ledger, e: Event)
    requires Inv(s) && Sound(next) && Extends(Copy(s.blob), next)
    requires id in s.calls && previous == s.calls[id].previous
    requires s.blob == previous ==> EventSound(s.(blob := Some(next)), e)
    requires s.blob == previous && !e.Granted? ==>
               (Copy(s.blob).floor <= Published(e) && (e.Consumed? ==> Copy(s.blob).floor < Published(e)))
    requires s.blob == previous ==> Founded(s.log, e)
    requires forall run | run in next.plans ::
               (run in Copy(s.blob).plans && next.plans[run] == Copy(s.blob).plans[run])
               || e == Granted(run, next.plans[run].plan)
    ensures Inv(Written(s, id, previous, next, e))
  {
    hide Sound, DecideReservation, DecidePublication, CallSound, EventSound, Extends, Founded, AllFounded;
    var after := Written(s, id, previous, next, e);
    if s.branch && s.blob == previous {
      FoundedMore(s.log, e);
      forall i | i in after.calls ensures CallSound(after, after.calls[i]) {
        CallStays(s, after, s.calls[i]);
      }
      forall x | x in after.log ensures EventSound(after, x) {
        if x in s.log {
          EventStays(s, after, x);
        } else {
          EventStays(s.(blob := Some(next)), after, e);
        }
      }
      forall i | 0 <= i < |s.log| ensures Published(s.log[i]) <= Copy(s.blob).floor {
        assert s.log[i] in s.log;
        PublishedBelowFloor(s, s.log[i]);
      }
    } else {
      QuietStep(s, after, id, None, None);
    }
  }

  lemma PublishedBelowFloor(s: System, e: Event)
    requires FileSound(s) && EventSound(s, e)
    ensures Published(e) <= Copy(s.blob).floor
  {
  }

  lemma WriteReservationKeeps(s: System, id: nat)
    requires Inv(s) && id in s.calls && s.calls[id].Planned?
    ensures Inv(WriteReservation(s, id, s.calls[id].q, s.calls[id].previous, s.calls[id].view))
  {
    hide Sound, DecideReservation, DecidePublication, Extends;
    var c := s.calls[id];
    assert CallSound(s, c);
    if s.branch && s.blob == c.previous {
      var New(plan, next) := DecideReservation(Copy(c.previous), c.q, c.view).value;
      ReservationKeeps(Copy(c.previous), c.q, c.view, plan, next);
      WriteStep(s, id, c.previous, next, Granted(c.q.run, plan));
    } else {
      QuietStep(s, Dropped(s, id), id, None, None);
    }
  }

  /** What a call decides on the very file it replaces holds of all reservations handed out so far. */
  lemma PublicationIsFounded(s: System, p: Publication, published: set<Text>)
    requires Inv(s) && DecidePublication(Copy(s.blob), p, published).Ok? && p.run > 0
    ensures Founded(s.log, PublicationEvent(p, published))
  {
    hide DecidePublication, ValidPlan, WellFormed, OwnStamps, CallsSound, Ordered, AllFounded;
    PublicationDecided(Copy(s.blob), p, published);
    var l := Copy(s.blob);
    forall g | g in s.log && g.Granted? && g.plan.tag in published
      ensures g.plan.build.Some? && g.plan.build.value <= p.plan.build.value
      ensures !p.promotion ==> g.plan.build.value < p.plan.build.value {
      assert EventSound(s, g);
      assert g.run in l.plans;
      ReservedHasBuild(l, g.run);
      if p.promotion && g.plan.tag == p.plan.tag {
        var run :| HasPlan(l, run, p.plan) && forall other | HasPlan(l, other, p.plan) :: other == run;
        assert run in l.plans && l.plans[run].plan.tag == l.plans[g.run].plan.tag;
      }
    }
    if p.promotion {
      var run :| HasPlan(l, run, p.plan) && forall other | HasPlan(l, other, p.plan) :: other == run;
      assert run in l.plans && Granted(run, p.plan) in s.log;
    } else {
      assert Granted(p.run, p.plan) in s.log;
    }
  }

  lemma ReservedHasBuild(l: Ledger, run: nat)
    requires WellFormed(l) && run in l.plans
    ensures l.plans[run].plan.build.Some?
  {
    hide ValidPlan;
  }

  lemma WritePublicationKeeps(s: System, id: nat)
    requires Inv(s) && id in s.calls && s.calls[id].Decided?
    ensures Inv(WritePublication(s, id, s.calls[id].p, s.calls[id].previous, s.calls[id].published))
  {
    hide Sound, DecideReservation, DecidePublication, Extends;
    var c := s.calls[id];
    assert CallSound(s, c);
    if s.branch && s.blob == c.previous {
      PublicationKeeps(Copy(c.previous), c.p, c.published);
      var next := DecidePublication(Copy(c.previous), c.p, c.published).value;
      PublicationIsFounded(s, c.p, c.published);
      WriteStep(s, id, c.previous, next, PublicationEvent(c.p, c.published));
    } else {
      QuietStep(s, Dropped(s, id), id, None, None);
    }
  }

  lemma StartKeeps(s: System, id: nat, call: Call, size: Ledger -> nat)
    requires Inv(s) && call.previous == s.blob && (call.Planning? || call.Publishing?)
    ensures Inv(Start(s, id, call, size))
  {
    hide Sound, DecideReservation, DecidePublication, Extends, ReadState;
    ExtendsItself(s.blob);
    EmptySound();
    if Start(s, id, call, size) != s {
      QuietStep(s, Start(s, id, call, size), id, Some(call), None);
    }
  }

  lemma ReserveKeeps(s: System, id: nat, view: View)
    requires Inv(s) && id in s.calls && s.calls[id].Planning?
    ensures Inv(Reserve(s, id, s.calls[id].q, s.calls[id].previous, view))
  {
    hide Sound, DecideReservation, DecidePublication, Extends;
    var c := s.calls[id];
    assert CallSound(s, c);
    var after := Reserve(s, id, c.q, c.previous, view);
    match DecideReservation(Copy(c.previous), c.q, view)
    case Failed => QuietStep(s, after, id, None, None);
    case Ok(Existing(plan)) =>
      ExistingIsReserved(Copy(c.previous), c.q, view, plan);
      GrantStays(s, c.previous, c.q.run, plan);
      QuietStep(s, after, id, None, Some(Granted(c.q.run, plan)));
    case Ok(New(plan, next)) => QuietStep(s, after, id, Some(Planned(c.q, c.previous, view, false)), None);
  }

  lemma GrantStays(s: System, previous: Option<Ledger>, run: nat, plan: Plan)
    requires FileExtends(previous, s.blob) && run in Copy(previous).plans && Copy(previous).plans[run].plan == plan
    ensures EventSound(s, Granted(run, plan))
  {
  }

  lemma StepKeeps(s: System, a: Action, size: Ledger -> nat)
    requires Inv(s)
    ensures Inv(Step(s, a, size))
  {
    hide Sound, DecideReservation, DecidePublication, Extends, Inv, ReadState, CallSound;
    match a
    case StartReserve(id, q) => StartKeeps(s, id, Planning(q, s.blob), size);
    case StartPublish(id, p) => StartKeeps(s, id, Publishing(p, s.blob), size);
    case DecideReserve(id, view) =>
      if id in s.calls && s.calls[id].Planning? {
        ReserveKeeps(s, id, view);
      }
    case EnsureBranch(id) =>
      if id in s.calls && s.calls[id].Planned? {
        CallAdvances(s, id, s.calls[id].(branchReady := true));
        QuietStep(s, Step(s, a, size), id, Some(s.calls[id].(branchReady := true)), None);
      }
    case DecidePublish(id, published) =>
      if id in s.calls && s.calls[id].Publishing? {
        var c := s.calls[id];
        if DecidePublication(Copy(c.previous), c.p, published).Ok? {
          CallAdvances(s, id, Decided(c.p, c.previous, published));
          QuietStep(s, Step(s, a, size), id, Some(Decided(c.p, c.previous, published)), None);
        } else {
          QuietStep(s, Dropped(s, id), id, None, None);
        }
      }
    case Write(id) =>
      if id in s.calls && s.calls[id].Planned? {
        WriteReservationKeeps(s, id);
      } else if id in s.calls && s.calls[id].Decided? {
        WritePublicationKeeps(s, id);
      }
    case Crash(id) => QuietStep(s, Dropped(s, id), id, None, None);
  }

  lemma CallAdvances(s: System, id: nat, c: Call)
    requires Inv(s) && id in s.calls && c.previous == s.calls[id].previous
    requires c.Planned? ==> s.calls[id].Planned? && c == s.calls[id].(branchReady := c.branchReady)
    requires c.Decided? ==> DecidePublication(Copy(c.previous), c.p, c.published).Ok?
    ensures CallSound(s, c)
  {
    hide Sound, DecideReservation, DecidePublication, FileExtends;
    assert CallSound(s, s.calls[id]);
  }

  lemma {:induction false} RunKeeps(s: System, actions: seq<Action>, size: Ledger -> nat)
    requires Inv(s)
    ensures Inv(Run(s, actions, size))
    decreases |actions|
  {
    hide Inv, Step;
    if actions != [] {
      StepKeeps(s, actions[0], size);
      RunKeeps(Step(s, actions[0], size), actions[1..], size);
    }
  }

  // ---- Whole runs -------------------------------------------------------------------------

  lemma {:induction false} RunSplit(s: System, a: seq<Action>, b: seq<Action>, size: Ledger -> nat)
    ensures Run(s, a + b, size) == Run(Run(s, a, size), b, size)
    decreases |a|
  {
    hide Step;
    if a == [] {
      assert a + b == b;
    } else {
      assert (a + b)[1..] == a[1..] + b;
      RunSplit(Step(s, a[0], size), a[1..], b, size);
    }
  }

  lemma WrittenGrows(s: System, id: nat, previous: Option<Ledger>, next: Ledger, e: Event)
    requires s.blob == previous ==> Extends(Copy(previous), next)
    ensures FileExtends(s.blob, Written(s, id, previous, next, e).blob)
    ensures s.log <= Written(s, id, previous, next, e).log
  {
    hide Extends;
    ExtendsItself(s.blob);
  }

  lemma StepGrows(s: System, a: Action, size: Ledger -> nat)
    requires Inv(s)
    ensures FileExtends(s.blob, Step(s, a, size).blob) && s.log <= Step(s, a, size).log
  {
    hide Sound, DecideReservation, DecidePublication, Extends, ReadState;
    ExtendsItself(s.blob);
    if a.Write? && a.id in s.calls {
      var c := s.calls[a.id];
      assert CallSound(s, c);
      match c
      case Planned(q, previous, view, ready) =>
        var New(plan, next) := DecideReservation(Copy(previous), q, view).value;
        ReservationKeeps(Copy(previous), q, view, plan, next);
        WrittenGrows(s, a.id, previous, next, Granted(q.run, plan));
      case Decided(p, previous, published) =>
        PublicationKeeps(Copy(previous), p, published);
        WrittenGrows(s, a.id, previous, DecidePublication(Copy(previous), p, published).value,
                     PublicationEvent(p, published));
      case _ =>
    }
  }

  /** From any reachable state on, whatever happens: the counter and the floor never decrease, and no
      reservation is changed or removed. */
  lemma {:induction false} NothingIsTakenBack(s: System, actions: seq<Action>, size: Ledger -> nat)
    requires Inv(s)
    ensures FileExtends(s.blob, Run(s, actions, size).blob) && s.log <= Run(s, actions, size).log
    decreases |actions|
  {
    hide Inv, Step, FileExtends;
    ExtendsItself(s.blob);
    if actions != [] {
      var next := Step(s, actions[0], size);
      StepKeeps(s, actions[0], size);
      StepGrows(s, actions[0], size);
      NothingIsTakenBack(next, actions[1..], size);
      FileGrows(s.blob, next.blob, Run(s, actions, size).blob);
    }
  }

  /** Grants of one run are the same plan; runs differ in their builds, and in their tags unless both
      plan one stable release. */
  predicate GrantsAgree(log: seq<Event>) {
    forall d, e | d in log && e in log && d.Granted? && e.Granted? ::
      if d.run == e.run then d.plan == e.plan
      else d.plan.build != e.plan.build && (d.plan.tag == e.plan.tag <==> SameRelease(d.plan, e.plan))
  }

  /** Whatever the interleaving and wherever calls crash: the stored ledger is sound, and the plans
      handed out agree. */
  lemma Allocation(actions: seq<Action>, size: Ledger -> nat)
    ensures var s := Run(START, actions, size);
      && (s.blob.Some? ==> WellFormed(s.blob.value) && Distinct(s.blob.value))
      && GrantsAgree(s.log)
      && forall e | e in s.log && e.Granted? ::
           && s.blob.Some? && e.run in s.blob.value.plans && s.blob.value.plans[e.run].plan == e.plan
           && ValidPlan(e.plan) && e.plan.build.Some? && e.plan.build.value <= s.blob.value.counter
  {
    hide Step, ValidPlan, Run, OwnStamps;
    StartSound();
    RunKeeps(START, actions, size);
    var s := Run(START, actions, size);
    forall e | e in s.log && e.Granted?
      ensures s.blob.Some? && e.run in s.blob.value.plans && s.blob.value.plans[e.run].plan == e.plan {
      assert EventSound(s, e);
    }
  }

  /** Packages are consumed in strictly increasing order, so each reservation at most once; byte
      promotions never fall behind; and the floor has reached every number published. */
  lemma Consumption(actions: seq<Action>, size: Ledger -> nat)
    ensures var s := Run(START, actions, size);
      && Ordered(s.log)
      && (forall i, j | 0 <= i < j < |s.log| && s.log[i].Consumed? && s.log[j].Consumed? ::
            Published(s.log[i]) < Published(s.log[j]) && s.log[i].run != s.log[j].run)
      && (forall e | e in s.log && !e.Granted? ::
            && s.blob.Some? && e.plan.build == Some(Published(e))
            && Published(e) <= s.blob.value.floor <= s.blob.value.counter)
  {
    hide Step, ValidPlan, Run, OwnStamps, Distinct;
    StartSound();
    RunKeeps(START, actions, size);
    var s := Run(START, actions, size);
    forall e | e in s.log && !e.Granted?
      ensures s.blob.Some? && e.plan.build == Some(Published(e)) && Published(e) <= s.blob.value.floor {
      assert EventSound(s, e);
    }
    forall i, j | 0 <= i < j < |s.log| && s.log[i].Consumed? && s.log[j].Consumed?
      ensures Published(s.log[i]) < Published(s.log[j]) && s.log[i].run != s.log[j].run {
      assert s.log[i] in s.log && s.log[j] in s.log;
      assert EventSound(s, s.log[i]) && EventSound(s, s.log[j]);
    }
  }

  /** In every interleaving: a package is begun only above all packages granted before whose tags its call found
      published, and bytes are promoted only of a published RC that none of these is newer than. All
      reservations are among the granted packages. */
  lemma Foundation(actions: seq<Action>, size: Ledger -> nat)
    ensures var s := Run(START, actions, size);
      && AllFounded(s.log)
      && (s.blob.Some? ==> forall run | run in s.blob.value.plans ::
            Granted(run, s.blob.value.plans[run].plan) in s.log)
  {
    hide Step, Run, Founded, AllFounded;
    StartSound();
    RunKeeps(START, actions, size);
  }

  /** In every reachable state the next read succeeds, with the ledger that is stored, exactly when that does
      not exceed the size limit, or when there is neither a ledger nor a branch. */
  lemma StoredIsReadable(actions: seq<Action>, size: Ledger -> nat)
    ensures var s := Run(START, actions, size);
      var read := ReadState(s.branch, s.blob, size);
      && (read.Ok? <==> if s.blob.Some? then size(s.blob.value) <= MAX_LEDGER_BYTES else !s.branch)
      && (read.Ok? ==> read.value == Copy(s.blob))
  {
    hide Step, Run, WellFormed;
    Allocation(actions, size);
  }

  // ---- What the protocol does not give ----------------------------------------------------

  /** Without calls in progress, a branch without its ledger file stays so, and so does a ledger above
      the size limit: every further call fails. */
  lemma {:induction false} RefusedForever(s: System, actions: seq<Action>, size: Ledger -> nat)
    requires s.calls == map[] && ReadState(s.branch, s.blob, size).Failed?
    ensures Run(s, actions, size) == s
    decreases |actions|
  {
    hide ReadState;
    if actions != [] {
      assert s.calls - {actions[0].id} == map[];
      RefusedForever(s, actions[1..], size);
    }
  }

  /** A crash between creating the branch and writing the first ledger gets there. */
  lemma CrashAfterBranch(q: Request, view: View, size: Ledger -> nat)
    requires DecideReservation(EMPTY, q, view).Ok?
    ensures var s := Run(START, [StartReserve(0, q), DecideReserve(0, view), EnsureBranch(0), Crash(0)], size);
      s == System(true, None, map[], []) && ReadState(s.branch, s.blob, size).Failed?
  {
    hide DecideReservation;
    ExistingNeedsReservation(EMPTY, q, view);
    var s1 := Step(START, StartReserve(0, q), size);
    assert s1 == System(false, None, map[0 := Planning(q, None)], []);
    var s2 := Step(s1, DecideReserve(0, view), size);
    assert s2 == System(false, None, map[0 := Planned(q, None, view, false)], []);
    var s3 := Step(s2, EnsureBranch(0), size);
    assert s3 == System(true, None, map[0 := Planned(q, None, view, true)], []);
    var s4 := Step(s3, Crash(0), size);
    assert s4 == System(true, None, map[], []);
    RunOfFour(START, StartReserve(0, q), DecideReserve(0, view), EnsureBranch(0), Crash(0), size);
  }

  lemma ExistingNeedsReservation(l: Ledger, q: Request, view: View)
    requires DecideReservation(l, q, view).Ok? && q.run !in l.plans
    ensures DecideReservation(l, q, view).value.New?
  {
    hide CreatePlan;
  }

  lemma RunOfFour(s: System, a: Action, b: Action, c: Action, d: Action, size: Ledger -> nat)
    ensures Run(s, [a, b, c, d], size) == Step(Step(Step(Step(s, a, size), b, size), c, size), d, size)
  {
    hide Step;
    assert [a, b, c, d][1..] == [b, c, d] && [b, c, d][1..] == [c, d] && [c, d][1..] == [d];
    var s1 := Step(s, a, size);
    var s2 := Step(s1, b, size);
    var s3 := Step(s2, c, size);
    assert Run(s, [a, b, c, d], size) == Run(s1, [b, c, d], size) == Run(s2, [c, d], size) == Run(s3, [d], size);
    assert [d][1..] == [];
    assert Run(s3, [d], size) == Run(Step(s3, d, size), [], size);
  }

  function Alone(id: nat, q: Request, view: View): seq<Action> {
    [StartReserve(id, q), DecideReserve(id, view), EnsureBranch(id), Write(id)]
  }

  /** A reservation nobody interferes with is written. */
  lemma AloneSucceeds(s: System, id: nat, q: Request, view: View, size: Ledger -> nat)
    requires Inv(s) && id !in s.calls && ReadState(s.branch, s.blob, size).Ok?
    requires q.run !in Copy(s.blob).plans && DecideReservation(Copy(s.blob), q, view).Ok?
    ensures var decision := DecideReservation(Copy(s.blob), q, view).value;
      decision.New? && Run(s, Alone(id, q, view), size)
                       == System(true, Some(decision.next), s.calls, s.log + [Granted(q.run, decision.plan)])
  {
    hide DecideReservation, ReadState, Inv;
    ExistingNeedsReservation(Copy(s.blob), q, view);
    var c := Planned(q, s.blob, view, false);
    var s1 := Step(s, StartReserve(id, q), size);
    var s2 := Step(s1, DecideReserve(id, view), size);
    assert s2 == s.(calls := s.calls[id := c]);
    var s3 := Step(s2, EnsureBranch(id), size);
    assert s3 == s.(branch := true, calls := s.calls[id := c.(branchReady := true)]);
    var s4 := Step(s3, Write(id), size);
    assert s4.calls == s.calls;
    RunOfFour(s, StartReserve(id, q), DecideReserve(id, view), EnsureBranch(id), Write(id), size);
  }

  /** The reservation that makes the ledger too large is still written and handed out, and it is the last
      one: whatever is called afterwards, the stored ledger stays refused. */
  lemma OversizedIsReached(s: System, id: nat, q: Request, view: View, size: Ledger -> nat, later: seq<Action>)
    requires Inv(s) && s.calls == map[] && ReadState(s.branch, s.blob, size).Ok?
    requires q.run !in Copy(s.blob).plans && DecideReservation(Copy(s.blob), q, view).Ok?
    requires DecideReservation(Copy(s.blob), q, view).value.New?
    requires size(DecideReservation(Copy(s.blob), q, view).value.next) > MAX_LEDGER_BYTES
    ensures var decision := DecideReservation(Copy(s.blob), q, view).value;
      Run(s, Alone(id, q, view) + later, size)
      == System(true, Some(decision.next), map[], s.log + [Granted(q.run, decision.plan)])
    ensures ReadState(true, Some(DecideReservation(Copy(s.blob), q, view).value.next), size).Failed?
  {
    hide DecideReservation, Inv, Run, Alone, WellFormed;
    AloneSucceeds(s, id, q, view, size);
    RunSplit(s, Alone(id, q, view), later, size);
    RefusedForever(Run(s, Alone(id, q, view), size), later, size);
  }

  const PLAIN := Policy(seq(64, _ => 0x61), PromoteBytes, None, [Projection(BaseVersion, Semver, [])], true)
  const ONE_ZERO_ZERO: Text := [0x31] + ([DOT] + ([0x30] + ([DOT] + [0x30])))

  function StableRequest(run: nat): Request {
    Request(PLAIN, ONE_ZERO_ZERO, Stable, seq(40, _ => 0x61), run, 1, [], None)
  }

  lemma OneZeroZero()
    ensures IsBase(ONE_ZERO_ZERO)
  {
    SplitHead([0x31], [0x30] + ([DOT] + [0x30]), DOT);
    SplitHead([0x30], [0x30], DOT);
    SplitLacking([0x30], DOT);
  }

  lemma StableIsGranted(l: Ledger, run: nat)
    requires run > 0 && run !in l.plans && 0 <= l.counter < MAX_BUILD
    ensures var plan := MakePlan(ONE_ZERO_ZERO, Stable, NoSequence, seq(40, _ => 0x61), PLAIN, Some(l.counter + 1));
      DecideReservation(l, StableRequest(run), View([], {}))
      == Ok(New(plan, Ledger(l.counter + 1, l.floor, l.plans[run := Reservation(plan, None)])))
  {
    hide IsBase;
    OneZeroZero();
  }

  /** Two runs may hold the same stable tag. */
  lemma StableTagsRepeat()
    ensures var both := Alone(0, StableRequest(1), View([], {})) + Alone(0, StableRequest(2), View([], {}));
      var s := Run(START, both, _ => 0);
      && |s.log| == 2 && s.log[0].Granted? && s.log[0].run == 1 && s.log[1].Granted? && s.log[1].run == 2
      && s.log[0].plan.tag == s.log[1].plan.tag && s.log[0].plan.build != s.log[1].plan.build
  {
    hide DecideReservation, Inv, Run, Alone, WellFormed, Sound;
    var size: Ledger -> nat := _ => 0;
    var first, second := Alone(0, StableRequest(1), View([], {})), Alone(0, StableRequest(2), View([], {}));
    StartSound();
    StableIsGranted(EMPTY, 1);
    AloneSucceeds(START, 0, StableRequest(1), View([], {}), size);
    RunKeeps(START, first, size);
    var s := Run(START, first, size);
    ReachedIsReadable(s);
    StableIsGranted(s.blob.value, 2);
    AloneSucceeds(s, 0, StableRequest(2), View([], {}), size);
    RunSplit(START, first, second, size);
  }

  lemma ReachedIsReadable(s: System)
    requires Inv(s) && s.blob.Some?
    ensures ReadState(s.branch, s.blob, _ => 0).Ok?
  {
  }
}
