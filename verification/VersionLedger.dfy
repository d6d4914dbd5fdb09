/** The version ledger (scripts/release_state.py): what one call reads, decides and writes back. */
module VersionLedger {
  import opened Results
  import opened Texts
  import opened VersionPlan

  /** A plan and the RC it was built from, as the text of its canonical JSON. */
  datatype Reservation = Reservation(plan: Plan, parent: Option<Text>)

  /** The ledger file. Its keys are run IDs, which `positive` keeps canonical. */
  datatype Ledger = Ledger(counter: int, floor: int, plans: map<nat, Reservation>)

  const EMPTY := Ledger(0, 0, map[])
  const MAX_LEDGER_BYTES := 4_000_000

  /** What `read_state` demands of the content of the file. */
  predicate WellFormed(l: Ledger) {
    && 0 <= l.floor <= l.counter
    && forall run | run in l.plans ::
         && run > 0 && ValidPlan(l.plans[run].plan)
         && l.plans[run].plan.build.Some? && l.plans[run].plan.build.value <= l.counter
  }

  /** `read_state`: `size` is the length of a ledger's canonical JSON, `blob` the file's content if
      there is one. A branch without the file is refused. */
  function ReadState(branch: bool, blob: Option<Ledger>, size: Ledger -> nat): Result<Ledger> {
    match blob
    case None => if branch then Failed else Ok(EMPTY)
    case Some(l) => if size(l) <= MAX_LEDGER_BYTES && WellFormed(l) then Ok(l) else Failed
  }

  // ---- Sequences --------------------------------------------------------------------------

  function Max(a: int, b: int): int {
    if a < b then b else a
  }

  function TagPrefix(base: Text, channel: Channel): Text {
    Chars("v") + (base + ([DASH] + (ChannelName(channel) + [DOT])))
  }

  /** The number of a tag with the prefix, 0 for other tags. */
  function TagNumber(tag: Text, prefix: Text): nat {
    if prefix <= tag && IsPositiveNumeral(tag[|prefix|..]) then NatValue(tag[|prefix|..]) else 0
  }

  function MaxTagNumber(tags: seq<Text>, prefix: Text): nat {
    if tags == [] then 0 else Max(TagNumber(tags[0], prefix), MaxTagNumber(tags[1..], prefix))
  }

  /** `next_sequence` over the names of all tags and releases. */
  function NextSequence(tags: seq<Text>, base: Text, channel: Channel): int {
    MaxTagNumber(tags, TagPrefix(base, channel)) + 1
  }

  /** The loop of `next_sequence`. */
  method FindSequence(tags: seq<Text>, base: Text, channel: Channel) returns (n: int)
    ensures n == NextSequence(tags, base, channel)
  {
    var prefix := TagPrefix(base, channel);
    var largest: nat := 0;
    var i := 0;
    assert tags[0..] == tags;
    while i < |tags|
      invariant i <= |tags|
      invariant Max(largest, MaxTagNumber(tags[i..], prefix)) == MaxTagNumber(tags, prefix)
    {
      var number := TagNumber(tags[i], prefix);
      if number > largest {
        largest := number;
      }
      assert tags[i..][0] == tags[i] && tags[i..][1..] == tags[i + 1..];
      i := i + 1;
    }
    assert tags[i..] == [];
    n := largest + 1;
  }

  /** The next sequence is unused by every tag and release, and it is 1 or follows a used one. */
  lemma {:induction false} NextSequenceUnused(tags: seq<Text>, base: Text, channel: Channel, n: int)
    requires n >= NextSequence(tags, base, channel)
    ensures TagPrefix(base, channel) + IntText(n) !in tags
    ensures MaxTagNumber(tags, TagPrefix(base, channel)) > 0 ==>
              TagPrefix(base, channel) + NatText(MaxTagNumber(tags, TagPrefix(base, channel))) in tags
    decreases tags
  {
    if tags != [] {
      var prefix := TagPrefix(base, channel);
      NextSequenceUnused(tags[1..], base, channel, n);
      if tags[0] == prefix + IntText(n) {
        assert tags[0][|prefix|..] == NatText(n);
        NatTextValue(n);
        assert false;
      }
      if TagNumber(tags[0], prefix) > 0 {
        NumeralIsCanonical(tags[0][|prefix|..]);
        assert tags[0] == prefix + tags[0][|prefix|..];
      }
    }
  }

  predicate Numbered(plan: Plan, base: Text, channel: Channel) {
    plan.base == base && plan.channel == channel && plan.sequence.Number?
  }

  lemma NumberedHasNumber(plan: Plan, base: Text, channel: Channel)
    ensures Numbered(plan, base, channel) ==> plan.sequence.Number?
  {
  }

  /** The sequences some runs reserved for one base and channel. */
  function Sequences(plans: map<nat, Reservation>, runs: set<nat>, base: Text, channel: Channel): set<int> {
    set run | run in runs && run in plans && Numbered(plans[run].plan, base, channel) :: plans[run].plan.sequence.n
  }

  function Reserved(plans: map<nat, Reservation>, base: Text, channel: Channel): set<int> {
    Sequences(plans, plans.Keys, base, channel)
  }

  lemma SequencesGrow(plans: map<nat, Reservation>, runs: set<nat>, run: nat, base: Text, channel: Channel)
    requires run in plans
    ensures Sequences(plans, runs + {run}, base, channel) ==
            if Numbered(plans[run].plan, base, channel) && plans[run].plan.sequence.Number?
            then Sequences(plans, runs, base, channel) + {plans[run].plan.sequence.n}
            else Sequences(plans, runs, base, channel)
  {
  }

  predicate IsMaximum(s: set<int>, m: int) {
    (s == {} ==> m == 0) && (s != {} ==> m in s && forall x | x in s :: x <= m)
  }

  /** `max(values, default=0)`. */
  function Maximum(s: set<int>): (m: int)
    ensures IsMaximum(s, m)
  {
    MaximumExists(s);
    if s == {} then 0
    else
      MaximumUnique(s);
      var m :| m in s && forall x | x in s :: x <= m;
      m
  }

  lemma MaximumUnique(s: set<int>)
    ensures forall a, b | IsMaximum(s, a) && IsMaximum(s, b) :: a == b
  {
  }

  lemma {:induction false} MaximumExists(s: set<int>)
    ensures exists m :: IsMaximum(s, m)
    decreases |s|
  {
    if forall x :: x !in s {
      assert s == {};
      assert IsMaximum(s, 0);
    } else {
      var x :| x in s;
      MaximumExists(s - {x});
      var m :| IsMaximum(s - {x}, m);
      var top := if s - {x} == {} || m < x then x else m;
      forall y | y in s ensures y <= top {
        assert y == x || y in s - {x};
      }
      assert IsMaximum(s, top);
    }
  }

  lemma NothingReserved(plans: map<nat, Reservation>, base: Text, channel: Channel)
    ensures Sequences(plans, {}, base, channel) == {} && IsMaximum({}, 0)
  {
  }

  lemma MaximumGrows(s: set<int>, m: int, x: int)
    requires IsMaximum(s, m)
    ensures IsMaximum(s + {x}, if s == {} || x > m then x else m)
  {
  }

  /** The comprehension over the reservations and its maximum. */
  method LargestReserved(plans: map<nat, Reservation>, base: Text, channel: Channel) returns (m: int)
    ensures m == Maximum(Reserved(plans, base, channel))
  {
    hide Sequences, IsMaximum, Numbered;
    var pending := plans.Keys;
    ghost var done: set<nat> := {};
    var values: set<int> := {};
    m := 0;
    NothingReserved(plans, base, channel);
    while pending != {}
      invariant pending + done == plans.Keys
      invariant values == Sequences(plans, done, base, channel)
      invariant IsMaximum(values, m)
      decreases |pending|
    {
      var run :| run in pending;
      pending := pending - {run};
      SequencesGrow(plans, done, run, base, channel);
      var plan := plans[run].plan;
      if Numbered(plan, base, channel) {
        NumberedHasNumber(plan, base, channel);
        MaximumGrows(values, m, plan.sequence.n);
        if values == {} || plan.sequence.n > m {
          m := plan.sequence.n;
        }
        values := values + {plan.sequence.n};
      }
      done := done + {run};
    }
    assert done == plans.Keys;
    MaximumUnique(values);
  }

  // ---- Reserving --------------------------------------------------------------------------

  datatype Request = Request(policy: Policy, base: Text, channel: Channel, sourceSha: Text, run: int, attempt: nat,
                             now: Text, parent: Option<Text>)

  /** What a call sees of GitHub while it decides: all tag and release names for `next_sequence`, and
      the names `ensure_absent` finds taken. */
  datatype View = View(names: seq<Text>, taken: set<Text>)

  datatype Decision = Existing(plan: Plan) | New(plan: Plan, next: Ledger)

  function SequenceFor(l: Ledger, q: Request, view: View): Sequence
    requires q.run > 0
  {
    match q.channel
    case Stable => NoSequence
    case Nightly => Stamp(StampText(q.now, q.run, q.attempt))
    case _ => Number(Max(NextSequence(view.names, q.base, q.channel),
                         Maximum(Reserved(l.plans, q.base, q.channel)) + 1))
  }

  /** `next_sequence` refuses a base that is no version. */
  predicate Sequenced(q: Request) {
    q.channel in {Beta, Rc} ==> IsBase(q.base)
  }

  /** What `reserve_plan` decides on the copy it read. */
  function DecideReservation(l: Ledger, q: Request, view: View): Result<Decision> {
    if q.run <= 0 then Failed
    else if q.run in l.plans then
      var record := l.plans[q.run];
      if ValidPlanFor(record.plan, q.policy, q.sourceSha) && record.plan.base == q.base
         && record.plan.channel == q.channel && record.parent == q.parent
      then Ok(Existing(record.plan)) else Failed
    else if !Sequenced(q) || FloorOf(q.policy) < 0 then Failed
    else
      var number := Max(l.counter, FloorOf(q.policy)) + 1;
      var plan :- CreatePlan(q.base, q.channel, SequenceFor(l, q, view), q.sourceSha, q.policy, Some(number));
      if plan.tag in view.taken then Failed
      else Ok(New(plan, Ledger(number, l.floor, l.plans[q.run := Reservation(plan, q.parent)])))
  }

  /** Number `k` is spoken for: by a tag or release that carries it, or by a reservation. */
  ghost predicate Spoken(l: Ledger, q: Request, view: View, k: int) {
    || TagPrefix(q.base, q.channel) + IntText(k) in view.names
    || exists run :: run in l.plans && l.plans[run].plan.base == q.base && l.plans[run].plan.channel == q.channel
                     && l.plans[run].plan.sequence == Number(k)
  }

  /** The least number above all that are spoken for. */
  ghost predicate IsFirstFree(l: Ledger, q: Request, view: View, n: int) {
    && n >= 1 && (n == 1 || Spoken(l, q, view, n - 1))
    && forall k | Spoken(l, q, view, k) :: k < n
  }

  /** A run that holds no reservation may take this plan: it is a valid plan for the request, its build is one more
      than the larger of counter and floor, and its sequence and tag are free. */
  ghost predicate MayReserve(l: Ledger, q: Request, view: View, plan: Plan) {
    && q.run > 0 && q.run !in l.plans
    && plan.base == q.base && plan.channel == q.channel && ValidPlanFor(plan, q.policy, q.sourceSha)
    && plan.build.Some?
    && IsMaximum({l.counter, if q.policy.floor.Some? then q.policy.floor.value else 0}, plan.build.value - 1)
    && plan.tag !in view.taken
    && match q.channel
       case Stable => plan.sequence == NoSequence
       case Nightly => plan.sequence == Stamp(StampText(q.now, q.run, q.attempt))
       case _ => plan.sequence.Number? && IsFirstFree(l, q, view, plan.sequence.n)
  }

  /** A run that holds a reservation gets it again, for the request it was made for. */
  predicate MayRepeat(l: Ledger, q: Request, plan: Plan) {
    && q.run > 0 && q.run in l.plans && l.plans[q.run] == Reservation(plan, q.parent)
    && plan.base == q.base && plan.channel == q.channel && ValidPlanFor(plan, q.policy, q.sourceSha)
  }

  function Reserving(l: Ledger, q: Request, plan: Plan): Ledger
    requires plan.build.Some? && q.run > 0
  {
    Ledger(plan.build.value, l.floor, l.plans[q.run := Reservation(plan, q.parent)])
  }

  lemma {:induction false} TagNumbersAre(tags: seq<Text>, prefix: Text, k: nat)
    requires k >= 1 && prefix + NatText(k) in tags
    ensures MaxTagNumber(tags, prefix) >= k
  {
    if tags[0] == prefix + NatText(k) {
      assert tags[0][|prefix|..] == NatText(k);
      NatTextValue(k);
    } else {
      TagNumbersAre(tags[1..], prefix, k);
    }
  }

  lemma FirstFree(l: Ledger, q: Request, view: View, n: int)
    ensures IsFirstFree(l, q, view, n) <==>
            n == Max(NextSequence(view.names, q.base, q.channel), Maximum(Reserved(l.plans, q.base, q.channel)) + 1)
  {
    hide MaxTagNumber, Maximum, IsPositiveNumeral;
    var prefix := TagPrefix(q.base, q.channel);
    var tagged, largest := MaxTagNumber(view.names, prefix), Maximum(Reserved(l.plans, q.base, q.channel));
    assert IsMaximum(Reserved(l.plans, q.base, q.channel), largest);
    var m := Max(tagged + 1, largest + 1);
    NextSequenceUnused(view.names, q.base, q.channel, tagged + 1);
    forall k | Spoken(l, q, view, k) ensures k < m {
      if k >= 1 && prefix + IntText(k) in view.names {
        TagNumbersAre(view.names, prefix, k);
      } else if prefix + IntText(k) !in view.names {
        assert k in Reserved(l.plans, q.base, q.channel);
      }
    }
    assert IsFirstFree(l, q, view, m);
  }

  /** Which plan a call reserves, exactly: the one plan that may be reserved, or the one the run has. Whatever it
      reserves is written down with its build as the new counter, and nothing else changes. */
  lemma ReservationDecided(l: Ledger, q: Request, view: View, plan: Plan)
    ensures MayReserve(l, q, view, plan)
            <==> exists next :: DecideReservation(l, q, view) == Ok(New(plan, next))
    ensures forall next | DecideReservation(l, q, view) == Ok(New(plan, next)) ::
              MayReserve(l, q, view, plan) && next == Reserving(l, q, plan)
    ensures MayRepeat(l, q, plan) <==> DecideReservation(l, q, view) == Ok(Existing(plan))
  {
    hide IsBase, IsHex, IsStamp, StampText, NextSequence, Maximum, Reserved, Projected, IsFirstFree, VersionText;
    ValidPlanIsCreated(plan, q.policy, q.sourceSha);
    if plan.sequence.Number? {
      FirstFree(l, q, view, plan.sequence.n);
    }
    if MayReserve(l, q, view, plan) {
      assert DecideReservation(l, q, view) == Ok(New(plan, Reserving(l, q, plan)));
    }
  }

  /** A reserved tag is free: it is none of the names GitHub was found to have, and a beta or RC is none
      of the tags and releases its sequence was chosen from. */
  lemma ReservedTagIsFree(l: Ledger, q: Request, view: View, plan: Plan, next: Ledger)
    requires DecideReservation(l, q, view) == Ok(New(plan, next))
    ensures plan.tag !in view.taken
    ensures q.channel.Beta? || q.channel.Rc?
            ==> plan.tag !in view.names && plan.sequence.Number? && plan.sequence.n >= 1
  {
    hide IsHex, Projected, IsBase, IsStamp, StampText, MaxTagNumber, Reserved;
    if q.channel.Beta? || q.channel.Rc? {
      var n := plan.sequence.n;
      assert n >= NextSequence(view.names, q.base, q.channel);
      NextSequenceUnused(view.names, q.base, q.channel, n);
      var name := ChannelName(q.channel);
      assert Chars("v") + (q.base + ([DASH] + (name + ([DOT] + IntText(n)))))
             == TagPrefix(q.base, q.channel) + IntText(n);
    }
  }

  // ---- Publishing -------------------------------------------------------------------------

  datatype Publication = Publication(plan: Plan, run: int, parent: Option<Text>, promotion: bool)

  /** `_verify_reservation`; `published` holds the tags of the releases that are no drafts. */
  predicate ReservationHolds(l: Ledger, p: Publication, published: set<Text>) {
    && ValidPlan(p.plan) && p.run > 0
    && p.run in l.plans && l.plans[p.run] == Reservation(p.plan, p.parent)
    && p.plan.build.Some? && p.plan.build.value > l.floor
    && forall run | run in l.plans ::
         l.plans[run].plan.tag in published && l.plans[run].plan.build.Some? ==>
           l.plans[run].plan.build.value < p.plan.build.value
  }

  /** The runs that reserved this very plan. */
  function Holders(l: Ledger, plan: Plan): set<nat> {
    set run | run in l.plans && l.plans[run].plan == plan
  }

  /** `_verify_promotion_order`. */
  predicate PromotionHolds(l: Ledger, p: Publication, published: set<Text>) {
    && ValidPlan(p.plan) && p.plan.channel.Rc? && p.plan.promotion.PromoteBytes? && p.run > 0
    && |Holders(l, p.plan)| == 1
    && p.plan.build.Some? && p.plan.build.value >= l.floor
    && p.plan.tag in published
    && forall run | run in l.plans ::
         l.plans[run].plan.tag != p.plan.tag && l.plans[run].plan.tag in published && l.plans[run].plan.build.Some? ==>
           l.plans[run].plan.build.value <= p.plan.build.value
  }

  /** What `begin_publication` decides on the copy it read. */
  function DecidePublication(l: Ledger, p: Publication, published: set<Text>): Result<Ledger> {
    if if p.promotion then PromotionHolds(l, p, published) else ReservationHolds(l, p, published)
    then Ok(l.(floor := p.plan.build.value))
    else Failed
  }

  predicate HasPlan(l: Ledger, run: int, plan: Plan) {
    run in l.plans && l.plans[run].plan == plan
  }

  /** A publication may begin: what is published is older than the package it consumes, or, where bytes are
      promoted, not newer than the published RC they come from. */
  ghost predicate MayPublish(l: Ledger, p: Publication, published: set<Text>) {
    && ValidPlan(p.plan) && p.run > 0 && p.plan.build.Some?
    && if p.promotion then
         && p.plan.channel.Rc? && p.plan.promotion.PromoteBytes? && p.plan.tag in published
         && (exists run :: HasPlan(l, run, p.plan) && forall other | HasPlan(l, other, p.plan) :: other == run)
         && l.floor <= p.plan.build.value
         && forall run | run in l.plans && l.plans[run].plan.tag in published ::
              l.plans[run].plan.tag == p.plan.tag || l.plans[run].plan.build.None?
              || l.plans[run].plan.build.value <= p.plan.build.value
       else
         && p.run in l.plans && l.plans[p.run].plan == p.plan && l.plans[p.run].parent == p.parent
         && l.floor < p.plan.build.value && p.plan.tag !in published
         && forall run | run in l.plans && l.plans[run].plan.tag in published ::
              l.plans[run].plan.build.None? || l.plans[run].plan.build.value < p.plan.build.value
  }

  lemma OnlyOne(s: set<nat>, a: nat, b: nat)
    requires |s| == 1 && a in s && b in s
    ensures a == b
  {
    var rest := s - {a};
    assert |rest| == 0;
    assert a != b ==> b in rest;
  }

  lemma Singleton(s: set<nat>)
    ensures |s| == 1 <==> exists a :: a in s && forall b | b in s :: b == a
  {
    if |s| == 1 {
      var a :| a in s;
      forall b | b in s ensures b == a {
        OnlyOne(s, a, b);
      }
    }
    if a :| a in s && forall b | b in s :: b == a {
      assert s == {a};
    }
  }

  lemma PublicationDecided(l: Ledger, p: Publication, published: set<Text>)
    ensures DecidePublication(l, p, published) ==
            if MayPublish(l, p, published) then Ok(l.(floor := p.plan.build.value)) else Failed
  {
    hide ValidPlan;
    Singleton(Holders(l, p.plan));
    assert forall run: nat :: run in Holders(l, p.plan) <==> HasPlan(l, run, p.plan);
  }

  lemma NothingToPublish(p: Publication, published: set<Text>)
    ensures !MayPublish(EMPTY, p, published)
  {
  }

  // ---- One call against the file ----------------------------------------------------------

  /** The branch and the ledger file on GitHub. A write names the content it replaces; content and
      blob SHA determine each other. */
  class StateFile {
    var branch: bool
    var blob: Option<Ledger>

    /** `read_state`. What it returns has passed its checks, is empty only without a branch, and comes with
        the identity that a write has to name. */
    method Read(size: Ledger -> nat) returns (r: Result<Ledger>, previous: Option<Ledger>)
      ensures r == ReadState(branch, blob, size) && previous == blob
      ensures r.Ok? ==> WellFormed(r.value) && if previous.Some? then r.value == previous.value else !branch
      ensures r.Ok? ==> forall run | run in r.value.plans :: run >= 1
    {
      previous := blob;
      if blob.None? {
        return if branch then Failed else Ok(EMPTY), blob;
      }
      if size(blob.value) > MAX_LEDGER_BYTES || !WellFormed(blob.value) {
        return Failed, blob;
      }
      r := Ok(blob.value);
    }

    method CreateBranch()
      modifies this`branch
      ensures branch
    {
      branch := true;
    }

    /** `write_state`: GitHub rejects a stale identity. */
    method Write(next: Ledger, previous: Option<Ledger>) returns (ok: bool)
      modifies this`blob
      ensures ok <==> branch && old(blob) == previous
      ensures blob == if ok then Some(next) else old(blob)
    {
      ok := branch && blob == previous;
      if ok {
        blob := Some(next);
      }
    }
  }

  /** The ledger dictionary a call holds and changes in place. */
  class LedgerCopy {
    var counter: int
    var floor: int
    var plans: map<nat, Reservation>

    constructor (l: Ledger)
      ensures Contents() == l
    {
      counter, floor, plans := l.counter, l.floor, l.plans;
    }

    function Contents(): Ledger
      reads this
    {
      Ledger(counter, floor, plans)
    }

    /** The body of `reserve_plan` between its read and its write. */
    method Reserve(q: Request, view: View) returns (r: Result<Plan>, write: bool)
      modifies this
      ensures match DecideReservation(old(Contents()), q, view)
              case Failed => r.Failed? && !write
              case Ok(Existing(plan)) => r == Ok(plan) && !write && Contents() == old(Contents())
              case Ok(New(plan, next)) => r == Ok(plan) && write && Contents() == next
    {
      hide CreatePlan, ValidPlanFor, IsBase, StampText, NextSequence, Reserved, FloorOf;
      r, write := Failed, false;
      if q.run <= 0 {
        return;
      }
      if q.run in plans {
        var record := plans[q.run];
        if ValidPlanFor(record.plan, q.policy, q.sourceSha) && record.plan.base == q.base
           && record.plan.channel == q.channel && record.parent == q.parent {
          r := Ok(record.plan);
        }
        return;
      }
      var sequence := NoSequence;
      if q.channel == Beta || q.channel == Rc {
        if !IsBase(q.base) {
          return;
        }
        var next := FindSequence(view.names, q.base, q.channel);
        var largest := LargestReserved(plans, q.base, q.channel);
        sequence := Number(Max(next, largest + 1));
      } else if q.channel == Nightly {
        sequence := Stamp(StampText(q.now, q.run, q.attempt));
      }
      if FloorOf(q.policy) < 0 {
        return;
      }
      var number := Max(counter, FloorOf(q.policy)) + 1;
      var plan := CreatePlan(q.base, q.channel, sequence, q.sourceSha, q.policy, Some(number));
      if plan.Failed? || plan.value.tag in view.taken {
        return;
      }
      counter := number;
      plans := plans[q.run := Reservation(plan.value, q.parent)];
      return plan, true;
    }

    /** The body of `begin_publication` between its read and its write. */
    method Begin(p: Publication, published: set<Text>) returns (ok: bool)
      modifies this`floor
      ensures match DecidePublication(old(Contents()), p, published)
              case Failed => !ok
              case Ok(next) => ok && Contents() == next
    {
      ok := DecidePublication(Contents(), p, published).Ok?;
      if ok {
        floor := p.plan.build.value;
      }
    }
  }

  /** What a call starts from: a missing branch counts as an empty ledger. */
  predicate Readable(branch: bool, blob: Option<Ledger>, size: Ledger -> nat) {
    if blob.Some? then size(blob.value) <= 4_000_000 && WellFormed(blob.value) else !branch
  }

  function Content(blob: Option<Ledger>): Ledger {
    if blob.Some? then blob.value else Ledger(0, 0, map[])
  }

  ghost predicate Grants(blob: Option<Ledger>, q: Request, view: View, plan: Plan) {
    MayRepeat(Content(blob), q, plan) || MayReserve(Content(blob), q, view, plan)
  }

  /** `reserve_plan` without interference: it returns exactly the plan that may be reserved or repeated, a new
      reservation is all that the file gains, and a failing call leaves the file alone. */
  method ReservePlan(file: StateFile, size: Ledger -> nat, q: Request, view: View) returns (r: Result<Plan>)
    modifies file
    ensures r.Ok? ==> Readable(old(file.branch), old(file.blob), size) && Grants(old(file.blob), q, view, r.value)
    ensures forall plan | Readable(old(file.branch), old(file.blob), size) && Grants(old(file.blob), q, view, plan) ::
              r == Ok(plan)
    ensures r.Ok? && q.run !in Content(old(file.blob)).plans ==>
              file.branch && file.blob == Some(Reserving(Content(old(file.blob)), q, r.value))
    ensures r.Failed? || q.run in Content(old(file.blob)).plans ==>
              file.branch == old(file.branch) && file.blob == old(file.blob)
  {
    hide WellFormed, ValidPlanFor, IsFirstFree, FloorOf, StampText, DecideReservation;
    var state, previous := file.Read(size);
    if state.Failed? {
      return Failed;
    }
    forall plan {
      ReservationDecided(state.value, q, view, plan);
    }
    var ledger := new LedgerCopy(state.value);
    var write;
    r, write := ledger.Reserve(q, view);
    if r.Failed? || !write {
      return;
    }
    if !file.branch {
      file.CreateBranch();
    }
    var ok := file.Write(ledger.Contents(), previous);
    if !ok {
      return Failed;
    }
  }

  /** `begin_publication` without interference: it succeeds exactly on a branch with a ledger that can be read
      and on which the publication may begin, and then exactly the floor has moved, to the published build. */
  method BeginPublication(file: StateFile, size: Ledger -> nat, p: Publication, published: set<Text>) returns (ok: bool)
    modifies file`blob
    ensures ok <==>
            && file.branch && old(file.blob).Some?
            && size(old(file.blob).value) <= MAX_LEDGER_BYTES && WellFormed(old(file.blob).value)
            && MayPublish(old(file.blob).value, p, published)
    ensures ok ==> file.blob == Some(old(file.blob).value.(floor := p.plan.build.value))
    ensures !ok ==> file.blob == old(file.blob)
  {
    hide WellFormed, MayPublish, DecidePublication;
    PublicationDecided(if file.blob.Some? then file.blob.value else EMPTY, p, published);
    NothingToPublish(p, published);
    var state, previous := file.Read(size);
    if state.Failed? {
      return false;
    }
    var ledger := new LedgerCopy(state.value);
    ok := ledger.Begin(p, published);
    if ok {
      ok := file.Write(ledger.Contents(), previous);
    }
  }
}
