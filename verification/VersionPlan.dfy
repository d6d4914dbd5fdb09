/** Release identities (scripts/version_plan.py): what a plan holds, when it is valid, and what its
    projections are. */
module VersionPlan {
  import opened Results
  import opened Texts
  import opened JsonScalars

  datatype Channel = Nightly | Beta | Rc | Stable

  /** None, a positive number, or `UTCtimestamp.run.attempt`. */
  datatype Sequence = NoSequence | Number(n: int) | Stamp(text: Text)

  datatype Promotion = PromoteBytes | FinalBuild

  datatype Plan = Plan(base: Text, version: Text, channel: Channel, sequence: Sequence, tag: Text, sourceSha: Text,
                       build: Option<int>, policyDigest: Text, promotion: Promotion)

  datatype Ecosystem = Semver | Pep440

  datatype Kind = BaseVersion | FullVersion | PackageVersion | BuildNumber | AppleBuild

  /** One declared projection: `prefix` is empty when the declaration has none. */
  datatype Projection = Projection(kind: Kind, ecosystem: Ecosystem, prefix: Text)

  /** A release policy as far as plans depend on it; `wellFormed` stands for the checks of
      `validate_policy` that concern no field modelled here. */
  datatype Policy = Policy(digest: Text, promotion: Promotion, floor: Option<int>, files: seq<Projection>,
                           wellFormed: bool)

  const DASH: Code := 0x2D
  const MAX_BUILD := 2_100_000_000

  // ---- Patterns ---------------------------------------------------------------------------

  function Split(t: Text, c: Code): (parts: seq<Text>)
    ensures |parts| >= 1
  {
    if t == [] then [[]]
    else
      var rest := Split(t[1..], c);
      if t[0] == c then [[]] + rest else [[t[0]] + rest[0]] + rest[1..]
  }

  /** `\d{4}...` in full: a calendar time `strptime` accepts. */
  predicate IsTime(t: Text) {
    && |t| == 14 && AllDigits(t)
    && var year, month, day := NatValue(t[..4]), NatValue(t[4..6]), NatValue(t[6..8]);
       && year >= 1 && 1 <= month <= 12 && 1 <= day <= DaysIn(year, month)
       && NatValue(t[8..10]) < 24 && NatValue(t[10..12]) < 60 && NatValue(t[12..]) < 60
  }

  function DaysIn(year: int, month: int): int {
    if month in {4, 6, 9, 11} then 30
    else if month != 2 then 31
    else if year % 4 == 0 && (year % 100 != 0 || year % 400 == 0) then 29
    else 28
  }

  predicate IsPositiveNumeral(t: Text) {
    IsNumeral(t) && t[0] != ZERO
  }

  /** `X.Y.Z` without leading zeros. */
  predicate IsBase(t: Text) {
    var parts := Split(t, DOT);
    |parts| == 3 && IsNumeral(parts[0]) && IsNumeral(parts[1]) && IsNumeral(parts[2])
  }

  predicate IsStamp(t: Text) {
    var parts := Split(t, DOT);
    |parts| == 3 && IsTime(parts[0]) && IsPositiveNumeral(parts[1]) && IsPositiveNumeral(parts[2])
  }

  predicate IsHex(t: Text, n: nat) {
    |t| == n && forall i | 0 <= i < n :: IsDigit(t[i]) || 0x61 <= t[i] <= 0x66
  }

  // ---- Identities -------------------------------------------------------------------------

  function ChannelName(c: Channel): Text {
    match c
    case Nightly => Chars("nightly")
    case Beta => Chars("beta")
    case Rc => Chars("rc")
    case Stable => Chars("stable")
  }

  function SequenceText(s: Sequence): Text {
    match s
    case NoSequence => []
    case Number(n) => IntText(n)
    case Stamp(text) => text
  }

  predicate IdentityAllowed(base: Text, channel: Channel, sequence: Sequence) {
    && IsBase(base)
    && match channel
       case Stable => sequence.NoSequence?
       case Nightly => sequence.Stamp? && IsStamp(sequence.text)
       case _ => sequence.Number? && sequence.n > 0
  }

  function VersionText(base: Text, channel: Channel, sequence: Sequence): Text {
    if channel.Stable? then base else base + ([DASH] + (ChannelName(channel) + ([DOT] + SequenceText(sequence))))
  }

  /** `_identity`. */
  function Identity(base: Text, channel: Channel, sequence: Sequence): Result<Text> {
    if IdentityAllowed(base, channel, sequence) then Ok(VersionText(base, channel, sequence)) else Failed
  }

  // ---- Projections ------------------------------------------------------------------------

  const MAX_ATTEMPT := 1_000_000
  const MAX_PEP_NUMBER := 0xFFFF_FFFF_FFFF_FFFE

  function PepNumber(run: nat, attempt: nat): nat {
    run * MAX_ATTEMPT + attempt
  }

  /** The PEP 440 nightly number of a stamp, or nothing where the projection is refused. */
  function NightlyNumber(text: Text): Option<nat>
    requires IsStamp(text)
  {
    var parts := Split(text, DOT);
    var run, attempt := NatValue(parts[1]), NatValue(parts[2]);
    if attempt < MAX_ATTEMPT && PepNumber(run, attempt) <= MAX_PEP_NUMBER then Some(PepNumber(run, attempt)) else None
  }

  function PackageText(p: Plan, ecosystem: Ecosystem): Result<Text>
    requires IdentityAllowed(p.base, p.channel, p.sequence)
  {
    if p.channel.Rc? && p.promotion.PromoteBytes? then Ok(p.base)
    else if ecosystem.Semver? then Ok(p.version)
    else
      match p.channel
      case Stable => Ok(p.version)
      case Beta => Ok(p.base + Chars("b") + IntText(p.sequence.n))
      case Rc => Ok(p.base + Chars("rc") + IntText(p.sequence.n))
      case Nightly =>
        match NightlyNumber(p.sequence.text)
        case None => Failed
        case Some(n) => Ok(p.base + Chars(".dev") + NatText(n))
  }

  const MAX_APPLE_BUILD := 99_990_000

  datatype AppleTriple = AppleTriple(major: int, minor: int, patch: int)

  function AppleOf(build: int): AppleTriple
    requires build > 0
  {
    var n := build - 1;
    AppleTriple(n / 10000 + 1, n / 100 % 100, n % 100)
  }

  function AppleText(a: AppleTriple): Text {
    IntText(a.major) + [DOT] + IntText(a.minor) + [DOT] + IntText(a.patch)
  }

  /** `projected_value`. `projections` computes the package text of every ecosystem request first,
      so a nightly too large for PEP 440 fails whatever the projection's kind. */
  function Projected(p: Plan, d: Projection): Result<Field>
    requires IdentityAllowed(p.base, p.channel, p.sequence)
  {
    var package :- PackageText(p, d.ecosystem);
    var value :-
      match d.kind
      case BaseVersion => Ok(Word(p.base))
      case FullVersion => Ok(Word(p.version))
      case PackageVersion => Ok(Word(package))
      case BuildNumber => if p.build.Some? then Ok(Count(p.build.value)) else Failed
      case AppleBuild =>
        if p.build.Some? && 0 < p.build.value <= MAX_APPLE_BUILD
        then Ok(Word(AppleText(AppleOf(p.build.value)))) else Failed;
    if d.prefix == [] then Ok(value)
    else Ok(Word(d.prefix + match value case Count(n) => IntText(n) case Word(s) => s))
  }

  predicate AllProject(p: Plan, files: seq<Projection>)
    requires IdentityAllowed(p.base, p.channel, p.sequence)
  {
    forall d | d in files :: Projected(p, d).Ok?
  }

  // ---- Plans ------------------------------------------------------------------------------

  predicate ValidPolicy(p: Policy) {
    p.wellFormed && p.files != [] && IsHex(p.digest, 64) && (p.floor.Some? ==> 0 <= p.floor.value < MAX_BUILD)
  }

  function FloorOf(p: Policy): int {
    if p.floor.Some? then p.floor.value else 0
  }

  predicate ValidBuild(build: Option<int>) {
    build.Some? ==> 0 < build.value <= MAX_BUILD
  }

  function MakePlan(base: Text, channel: Channel, sequence: Sequence, sha: Text, policy: Policy,
                    build: Option<int>): Plan {
    var version := VersionText(base, channel, sequence);
    Plan(base, version, channel, sequence, Chars("v") + version, sha, build, policy.digest, policy.promotion)
  }

  /** `create_plan`. */
  function CreatePlan(base: Text, channel: Channel, sequence: Sequence, sha: Text, policy: Policy,
                      build: Option<int>): Result<Plan> {
    if !ValidPolicy(policy) || !IdentityAllowed(base, channel, sequence) || !IsHex(sha, 40) || !ValidBuild(build)
    then Failed
    else if build.Some? && build.value <= FloorOf(policy) then Failed
    else
      var plan := MakePlan(base, channel, sequence, sha, policy, build);
      if AllProject(plan, policy.files) then Ok(plan) else Failed
  }

  /** `validate_plan(plan)`. */
  predicate ValidPlan(p: Plan) {
    && Identity(p.base, p.channel, p.sequence) == Ok(p.version) && p.tag == Chars("v") + p.version
    && IsHex(p.sourceSha, 40) && IsHex(p.policyDigest, 64) && ValidBuild(p.build)
  }

  /** `validate_plan(plan, policy, source_sha)`. */
  predicate ValidPlanFor(p: Plan, policy: Policy, sha: Text) {
    && ValidPlan(p) && ValidPolicy(policy)
    && p.policyDigest == policy.digest && p.promotion == policy.promotion
    && (p.build.Some? ==> p.build.value > FloorOf(policy))
    && AllProject(p, policy.files)
    && p.sourceSha == sha
  }

  /** A plan is valid for its policy and source exactly when creating it again from its own
      decisions yields it. */
  lemma ValidPlanIsCreated(p: Plan, policy: Policy, sha: Text)
    ensures ValidPlanFor(p, policy, sha) <==>
            CreatePlan(p.base, p.channel, p.sequence, sha, policy, p.build) == Ok(p)
  {
    hide IdentityAllowed, IsHex, VersionText, Projected;
  }

  // ---- Texts that determine their parts ---------------------------------------------------

  predicate Lacks(t: Text, c: Code) {
    forall i | 0 <= i < |t| :: t[i] != c
  }

  function FirstIndex(t: Text, c: Code): nat {
    if t == [] || t[0] == c then 0 else 1 + FirstIndex(t[1..], c)
  }

  lemma {:induction false} FirstIndexIs(a: Text, b: Text, c: Code)
    requires Lacks(a, c)
    ensures FirstIndex(a + ([c] + b), c) == |a|
  {
    if a != [] {
      FirstIndexIs(a[1..], b, c);
      assert (a + ([c] + b))[1..] == a[1..] + ([c] + b);
    }
  }

  /** The part before the first separator, and the part behind it. */
  lemma HeadUnique(a: Text, b: Text, x: Text, y: Text, c: Code)
    requires Lacks(a, c) && Lacks(x, c) && a + ([c] + b) == x + ([c] + y)
    ensures a == x && b == y
  {
    var t := a + ([c] + b);
    FirstIndexIs(a, b, c);
    FirstIndexIs(x, y, c);
    assert t[..|a|] == a && t[..|x|] == x;
    assert t[|a| + 1..] == b && t[|x| + 1..] == y;
  }

  lemma {:induction false} SplitLacking(t: Text, c: Code)
    requires Lacks(t, c)
    ensures Split(t, c) == [t]
  {
    if t != [] {
      SplitLacking(t[1..], c);
      assert [t[0]] + t[1..] == t;
    }
  }

  lemma {:induction false} SplitHead(a: Text, b: Text, c: Code)
    requires Lacks(a, c)
    ensures Split(a + ([c] + b), c) == [a] + Split(b, c)
  {
    var t := a + ([c] + b);
    if a == [] {
      assert t[1..] == b;
    } else {
      assert t[1..] == a[1..] + ([c] + b);
      SplitHead(a[1..], b, c);
      assert [a[0]] + a[1..] == a;
    }
  }

  lemma {:induction false} DottedDigits(t: Text, c: Code)
    requires forall p | p in Split(t, c) :: AllDigits(p)
    ensures forall i | 0 <= i < |t| :: IsDigit(t[i]) || t[i] == c
  {
    if t != [] {
      var parts, rest := Split(t, c), Split(t[1..], c);
      forall p | p in rest ensures AllDigits(p) {
        if t[0] == c {
          assert p in parts;
        } else if p == rest[0] {
          assert parts[0][1..] == rest[0];
          assert parts[0] in parts;
        } else {
          assert p in rest[1..] && p in parts;
        }
      }
      DottedDigits(t[1..], c);
      if t[0] != c {
        assert parts[0] in parts && parts[0][0] == t[0];
      }
    }
  }

  lemma BaseLacksDash(t: Text)
    requires IsBase(t)
    ensures Lacks(t, DASH)
  {
    var parts := Split(t, DOT);
    assert forall p | p in parts :: p == parts[0] || p == parts[1] || p == parts[2];
    DottedDigits(t, DOT);
  }

  lemma ChannelNames(a: Channel, b: Channel)
    ensures Lacks(ChannelName(a), DOT)
    ensures ChannelName(a) == ChannelName(b) ==> a == b
  {
    assert ChannelName(a)[0] in {0x6E, 0x62, 0x72, 0x73} && ChannelName(b)[0] in {0x6E, 0x62, 0x72, 0x73};
    forall i | 0 <= i < |ChannelName(a)| ensures ChannelName(a)[i] != DOT {
      match a
      case Nightly => assert "nightly"[i] != '.';
      case Beta => assert "beta"[i] != '.';
      case Rc => assert "rc"[i] != '.';
      case Stable => assert "stable"[i] != '.';
    }
  }

  lemma UnstableHasDash(b: Text, c: Channel, s: Sequence)
    ensures !c.Stable? ==> !Lacks(VersionText(b, c, s), DASH)
  {
    if !c.Stable? {
      assert VersionText(b, c, s)[|b|] == DASH;
    }
  }

  /** Equal versions have equal base, channel and sequence. */
  lemma VersionDeterminesIdentity(b1: Text, c1: Channel, s1: Sequence, b2: Text, c2: Channel, s2: Sequence)
    requires IdentityAllowed(b1, c1, s1) && IdentityAllowed(b2, c2, s2)
    requires VersionText(b1, c1, s1) == VersionText(b2, c2, s2)
    ensures b1 == b2 && c1 == c2 && s1 == s2
  {
    BaseLacksDash(b1);
    BaseLacksDash(b2);
    if c1.Stable? || c2.Stable? {
      UnstableHasDash(b1, c1, s1);
      UnstableHasDash(b2, c2, s2);
    } else {
      var r1 := ChannelName(c1) + ([DOT] + SequenceText(s1));
      var r2 := ChannelName(c2) + ([DOT] + SequenceText(s2));
      HeadUnique(b1, r1, b2, r2, DASH);
      ChannelNames(c1, c2);
      ChannelNames(c2, c1);
      HeadUnique(ChannelName(c1), SequenceText(s1), ChannelName(c2), SequenceText(s2), DOT);
      if !c1.Nightly? {
        NatTextInjective(s1.n, s2.n);
      }
    }
  }

  /** Valid plans have equal tags exactly when they agree on base, channel and sequence. */
  lemma TagDeterminesIdentity(p: Plan, q: Plan)
    requires ValidPlan(p) && ValidPlan(q)
    ensures p.tag == q.tag <==> p.base == q.base && p.channel == q.channel && p.sequence == q.sequence
  {
    hide IdentityAllowed, VersionText;
    if p.tag == q.tag {
      assert p.tag[1..] == p.version && q.tag[1..] == q.version;
      VersionDeterminesIdentity(p.base, p.channel, p.sequence, q.base, q.channel, q.sequence);
    }
  }

  lemma StableHasNoSequence(p: Plan)
    requires ValidPlan(p) && p.channel.Stable?
    ensures p.sequence == NoSequence
  {
    hide IsHex;
  }

  /** `now.strftime(...) + f".{run_id}.{attempt}"`. */
  function StampText(now: Text, run: nat, attempt: nat): Text {
    now + ([DOT] + (NatText(run) + ([DOT] + NatText(attempt))))
  }

  lemma {:induction false} SplitCounts(t: Text, c: Code)
    ensures |Split(t, c)| == 1 ==> Lacks(t, c)
  {
    if t != [] {
      SplitCounts(t[1..], c);
    }
  }

  lemma {:induction false} SplitAppends(a: Text, b: Text, c: Code)
    ensures |Split(a + ([c] + b), c)| == |Split(a, c)| + |Split(b, c)|
  {
    var t := a + ([c] + b);
    if a == [] {
      assert t[1..] == b;
    } else {
      assert t[1..] == a[1..] + ([c] + b);
      SplitAppends(a[1..], b, c);
    }
  }

  /** An accepted stamp gives back its time, run and attempt. */
  lemma StampParts(now: Text, run: nat, attempt: nat)
    requires IsStamp(StampText(now, run, attempt))
    ensures Split(StampText(now, run, attempt), DOT) == [now, NatText(run), NatText(attempt)]
    ensures IsTime(now) && run > 0 && attempt > 0
  {
    var tail := NatText(run) + ([DOT] + NatText(attempt));
    SplitHead(NatText(run), NatText(attempt), DOT);
    SplitLacking(NatText(attempt), DOT);
    SplitAppends(now, tail, DOT);
    SplitCounts(now, DOT);
    SplitHead(now, tail, DOT);
  }

  /** Stamps of different runs or attempts differ. */
  lemma StampsDiffer(now: Text, run: nat, attempt: nat, now2: Text, run2: nat, attempt2: nat)
    requires IsStamp(StampText(now, run, attempt)) && StampText(now, run, attempt) == StampText(now2, run2, attempt2)
    ensures now == now2 && run == run2 && attempt == attempt2
  {
    StampParts(now, run, attempt);
    StampParts(now2, run2, attempt2);
    NatTextInjective(run, run2);
    NatTextInjective(attempt, attempt2);
  }

  // ---- Numeric projections ----------------------------------------------------------------

  predicate AppleBefore(a: AppleTriple, b: AppleTriple) {
    a.major < b.major || (a.major == b.major && (a.minor < b.minor || (a.minor == b.minor && a.patch < b.patch)))
  }

  /** The apple-build triple stays within its component limits and grows with the build number. */
  lemma AppleOrder(x: int, y: int)
    requires 0 < x <= MAX_APPLE_BUILD && 0 < y <= MAX_APPLE_BUILD
    ensures 1 <= AppleOf(x).major <= 9999 && 0 <= AppleOf(x).minor <= 99 && 0 <= AppleOf(x).patch <= 99
    ensures x < y <==> AppleBefore(AppleOf(x), AppleOf(y))
  {
    AppleValue(x);
    AppleValue(y);
  }

  lemma AppleValue(x: int)
    requires 0 < x
    ensures var a := AppleOf(x);
      x - 1 == (a.major - 1) * 10000 + a.minor * 100 + a.patch && 0 <= a.minor < 100 && 0 <= a.patch < 100
  {
    var n := x - 1;
    assert n / 100 / 100 == n / 10000;
  }

  /** The PEP 440 nightly number is bounded, tells (run, attempt) pairs apart and keeps their order. */
  lemma PepOrder(r1: nat, a1: nat, r2: nat, a2: nat)
    requires a1 < MAX_ATTEMPT && a2 < MAX_ATTEMPT
    ensures PepNumber(r1, a1) < PepNumber(r2, a2) <==> r1 < r2 || (r1 == r2 && a1 < a2)
    ensures PepNumber(r1, a1) == PepNumber(r2, a2) <==> r1 == r2 && a1 == a2
  {
  }

  /** So two projected nightlies compare as their runs and attempts do. */
  lemma NightlyNumberOrder(now1: Text, r1: nat, a1: nat, now2: Text, r2: nat, a2: nat)
    requires IsStamp(StampText(now1, r1, a1)) && NightlyNumber(StampText(now1, r1, a1)).Some?
    requires IsStamp(StampText(now2, r2, a2)) && NightlyNumber(StampText(now2, r2, a2)).Some?
    ensures var x, y := NightlyNumber(StampText(now1, r1, a1)).value, NightlyNumber(StampText(now2, r2, a2)).value;
      x <= MAX_PEP_NUMBER && (x < y <==> r1 < r2 || (r1 == r2 && a1 < a2)) && (x == y <==> r1 == r2 && a1 == a2)
  {
    StampParts(now1, r1, a1);
    StampParts(now2, r2, a2);
    NatTextValue(r1);
    NatTextValue(a1);
    NatTextValue(r2);
    NatTextValue(a2);
    PepOrder(r1, a1, r2, a2);
  }
}
