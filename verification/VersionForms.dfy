/** The written forms of release identities (scripts/version_plan.py): which texts are versions, stamps and package
    versions, by the numbers that are written in them. */
module VersionForms {
  import opened Results
  import opened Texts
  import opened JsonScalars
  import opened VersionPlan

  // ---- Times ------------------------------------------------------------------------------

  /** A number with leading zeros. */
  function Padded(n: nat, width: nat): Text {
    if width == 0 then [] else Padded(n / 10, width - 1) + [0x30 + n % 10]
  }

  const MONTHS := [31, 28, 31, 30, 31, 30, 31, 31, 30, 31, 30, 31]

  datatype Moment = Moment(year: nat, month: nat, day: nat, hour: nat, minute: nat, second: nat)

  predicate IsLeap(year: nat) {
    year % 400 == 0 || (year % 4 == 0 && year % 100 != 0)
  }

  /** A moment of the proleptic Gregorian calendar. */
  predicate IsMoment(m: Moment) {
    && 1 <= m.year <= 9999 && 1 <= m.month <= 12
    && 1 <= m.day <= MONTHS[m.month - 1] + (if m.month == 2 && IsLeap(m.year) then 1 else 0)
    && m.hour <= 23 && m.minute <= 59 && m.second <= 59
  }

  function Clock(m: Moment): Text {
    Padded(m.year, 4) + (Padded(m.month, 2) + (Padded(m.day, 2)
    + (Padded(m.hour, 2) + (Padded(m.minute, 2) + Padded(m.second, 2)))))
  }

  lemma {:induction false} PaddedLength(n: nat, width: nat)
    ensures |Padded(n, width)| == width && AllDigits(Padded(n, width))
  {
    if width > 0 {
      PaddedLength(n / 10, width - 1);
    }
  }

  lemma {:induction false} ReadIsPadded(t: Text)
    requires AllDigits(t)
    ensures Padded(NatValue(t), |t|) == t
  {
    if t != [] {
      ReadIsPadded(t[..|t| - 1]);
      assert NatValue(t) / 10 == NatValue(t[..|t| - 1]);
      assert t == t[..|t| - 1] + [t[|t| - 1]];
    }
  }

  function Tens(width: nat): nat {
    if width == 0 then 1 else 10 * Tens(width - 1)
  }

  lemma {:induction false} PaddedReads(n: nat, width: nat)
    requires n < Tens(width)
    ensures AllDigits(Padded(n, width)) && NatValue(Padded(n, width)) == n
  {
    PaddedLength(n, width);
    if width > 0 {
      PaddedReads(n / 10, width - 1);
      assert Padded(n, width)[..width - 1] == Padded(n / 10, width - 1);
    }
  }

  lemma SmallPadded(n: nat)
    ensures n < 100 ==> AllDigits(Padded(n, 2)) && NatValue(Padded(n, 2)) == n
    ensures n < 10000 ==> AllDigits(Padded(n, 4)) && NatValue(Padded(n, 4)) == n
  {
    assert Tens(2) == 10 * Tens(1) && Tens(1) == 10 * Tens(0);
    assert Tens(4) == 10 * Tens(3) && Tens(3) == 10 * Tens(2);
    if n < 100 { PaddedReads(n, 2); }
    if n < 10000 { PaddedReads(n, 4); }
  }

  /** The moment that a run of fourteen digits writes. */
  function Read(t: Text): Moment
    requires |t| == 14 && AllDigits(t)
  {
    Moment(NatValue(t[..4]), NatValue(t[4..6]), NatValue(t[6..8]), NatValue(t[8..10]), NatValue(t[10..12]),
           NatValue(t[12..]))
  }

  lemma ClockParts(m: Moment)
    ensures var t := Clock(m);
      && |t| == 14 && AllDigits(t) && t[..4] == Padded(m.year, 4) && t[4..6] == Padded(m.month, 2)
      && t[6..8] == Padded(m.day, 2) && t[8..10] == Padded(m.hour, 2) && t[10..12] == Padded(m.minute, 2)
      && t[12..] == Padded(m.second, 2)
  {
    hide Padded;
    PaddedLength(m.year, 4);
    PaddedLength(m.month, 2);
    PaddedLength(m.day, 2);
    PaddedLength(m.hour, 2);
    PaddedLength(m.minute, 2);
    PaddedLength(m.second, 2);
  }

  lemma ReadWrites(t: Text)
    requires |t| == 14 && AllDigits(t)
    ensures Clock(Read(t)) == t
  {
    hide Padded, NatValue;
    ReadIsPadded(t[..4]);
    ReadIsPadded(t[4..6]);
    ReadIsPadded(t[6..8]);
    ReadIsPadded(t[8..10]);
    ReadIsPadded(t[10..12]);
    ReadIsPadded(t[12..]);
    assert t == t[..4] + (t[4..6] + (t[6..8] + (t[8..10] + (t[10..12] + t[12..]))));
  }

  lemma MonthIs(m: Moment)
    requires 1 <= m.month <= 12
    ensures DaysIn(m.year, m.month) == MONTHS[m.month - 1] + (if m.month == 2 && IsLeap(m.year) then 1 else 0)
  {
  }

  lemma ClockReads(m: Moment)
    requires IsMoment(m)
    ensures |Clock(m)| == 14 && AllDigits(Clock(m)) && Read(Clock(m)) == m
  {
    hide Padded, NatValue, Clock;
    ClockParts(m);
    SmallPadded(m.year);
    SmallPadded(m.month);
    SmallPadded(m.day);
    SmallPadded(m.hour);
    SmallPadded(m.minute);
    SmallPadded(m.second);
  }

  /** The accepted times are the moments of the calendar, written with leading zeros. */
  lemma TimeIs(t: Text)
    ensures IsTime(t) <==> exists m :: IsMoment(m) && t == Clock(m)
  {
    hide Clock, NatValue, DaysIn;
    if IsTime(t) {
      ReadWrites(t);
      MonthIs(Read(t));
      YearIsShort(t);
    }
    if m :| IsMoment(m) && t == Clock(m) {
      ClockReads(m);
      MonthIs(m);
    }
  }

  lemma {:induction false} ReadIsSmall(t: Text)
    requires AllDigits(t)
    ensures NatValue(t) < Tens(|t|)
  {
    if t != [] {
      ReadIsSmall(t[..|t| - 1]);
    }
  }

  lemma YearIsShort(t: Text)
    requires |t| == 14 && AllDigits(t)
    ensures NatValue(t[..4]) <= 9999
  {
    ReadIsSmall(t[..4]);
    assert Tens(4) == 10 * Tens(3) && Tens(3) == 10 * Tens(2) && Tens(2) == 10 * Tens(1) && Tens(1) == 10 * Tens(0);
  }

  // ---- Versions ---------------------------------------------------------------------------

  /** Three numbers, dotted. */
  predicate IsDotted(t: Text, x: nat, y: nat, z: nat) {
    t == NatText(x) + ([0x2E] + (NatText(y) + ([0x2E] + NatText(z))))
  }

  ghost predicate IsRelease(t: Text) {
    exists x, y, z :: IsDotted(t, x, y, z)
  }

  lemma DigitsLackDots(n: nat)
    ensures Lacks(NatText(n), DOT)
  {
  }

  lemma ThreeParts(a: Text, b: Text, c: Text)
    requires Lacks(a, DOT) && Lacks(b, DOT) && Lacks(c, DOT)
    ensures Split(a + ([DOT] + (b + ([DOT] + c))), DOT) == [a, b, c]
  {
    SplitHead(a, b + ([DOT] + c), DOT);
    SplitHead(b, c, DOT);
    SplitLacking(c, DOT);
  }

  lemma {:induction false} SplitJoins(t: Text) returns (first: Text, more: Text)
    requires |Split(t, DOT)| >= 2
    ensures t == first + ([DOT] + more) && Split(t, DOT) == [first] + Split(more, DOT)
    decreases |t|
  {
    if t[0] == DOT {
      first, more := [], t[1..];
    } else {
      var rest := Split(t[1..], DOT);
      first, more := SplitJoins(t[1..]);
      first := [t[0]] + first;
      assert t == [t[0]] + t[1..];
      assert rest[1..] == Split(more, DOT);
    }
  }

  lemma PartsJoin(t: Text, a: Text, b: Text, c: Text)
    requires Split(t, DOT) == [a, b, c]
    ensures t == a + ([DOT] + (b + ([DOT] + c)))
  {
    var first, more := SplitJoins(t);
    assert Split(more, DOT) == Split(t, DOT)[1..] == [b, c];
    var second, last := SplitJoins(more);
    assert Split(last, DOT) == Split(more, DOT)[1..] == [c];
    SplitCounts(last, DOT);
    SplitLacking(last, DOT);
    assert first == Split(t, DOT)[0] && second == Split(more, DOT)[0] && last == Split(last, DOT)[0];
  }

  /** A base version is three numbers without leading zeros. */
  lemma BaseIs(t: Text)
    ensures IsBase(t) <==> IsRelease(t)
  {
    hide NatText, NatValue, Split;
    if IsBase(t) {
      var parts := Split(t, DOT);
      NumeralIsCanonical(parts[0]);
      NumeralIsCanonical(parts[1]);
      NumeralIsCanonical(parts[2]);
      assert parts == [parts[0], parts[1], parts[2]];
      PartsJoin(t, parts[0], parts[1], parts[2]);
      assert IsDotted(t, NatValue(parts[0]), NatValue(parts[1]), NatValue(parts[2]));
    }
    if x, y, z :| IsDotted(t, x, y, z) {
      DigitsLackDots(x);
      DigitsLackDots(y);
      DigitsLackDots(z);
      ThreeParts(NatText(x), NatText(y), NatText(z));
      assert IsNumeral(NatText(x)) && IsNumeral(NatText(y)) && IsNumeral(NatText(z));
    }
  }

  /** A time, a run and an attempt, dotted. */
  predicate IsStampOf(t: Text, m: Moment, run: nat, attempt: nat) {
    IsMoment(m) && run >= 1 && attempt >= 1 && t == Clock(m) + ([0x2E] + (NatText(run) + ([0x2E] + NatText(attempt))))
  }

  lemma PositiveIs(n: nat)
    ensures IsPositiveNumeral(NatText(n)) <==> n >= 1
  {
  }

  /** The stamps are those of the moments of the calendar, with positive runs and attempts. */
  lemma StampIs(t: Text)
    ensures IsStamp(t) <==> exists m, run, attempt :: IsStampOf(t, m, run, attempt)
  {
    hide NatText, NatValue, Split, IsTime, IsMoment, Clock;
    if IsStamp(t) {
      var parts := Split(t, DOT);
      TimeIs(parts[0]);
      var m :| IsMoment(m) && parts[0] == Clock(m);
      NumeralIsCanonical(parts[1]);
      NumeralIsCanonical(parts[2]);
      assert parts == [parts[0], parts[1], parts[2]];
      PartsJoin(t, parts[0], parts[1], parts[2]);
      assert IsStampOf(t, m, NatValue(parts[1]), NatValue(parts[2]));
    }
    if m, run, attempt :| IsStampOf(t, m, run, attempt) {
      ClockReads(m);
      TimeIs(Clock(m));
      assert Lacks(Clock(m), DOT);
      DigitsLackDots(run);
      DigitsLackDots(attempt);
      ThreeParts(Clock(m), NatText(run), NatText(attempt));
      PositiveIs(run);
      PositiveIs(attempt);
    }
  }

  /** What a version says: a base alone is stable, and behind a dash stand the channel and its sequence. */
  ghost predicate IsVersion(version: Text, base: Text, channel: Channel, sequence: Sequence) {
    && IsRelease(base)
    && match channel
       case Stable => sequence == NoSequence && version == base
       case Beta => exists n: nat :: n >= 1 && sequence == Number(n) && version == base + Chars("-beta.") + NatText(n)
       case Rc => exists n: nat :: n >= 1 && sequence == Number(n) && version == base + Chars("-rc.") + NatText(n)
       case Nightly =>
         && sequence.Stamp? && version == base + Chars("-nightly.") + sequence.text
         && exists m, run, attempt :: IsStampOf(sequence.text, m, run, attempt)
  }

  lemma VersionIs(version: Text, base: Text, channel: Channel, sequence: Sequence)
    ensures Identity(base, channel, sequence) == Ok(version) <==> IsVersion(version, base, channel, sequence)
  {
    hide NatText, IsBase, IsRelease, IsStamp;
    BaseIs(base);
    if sequence.Stamp? {
      StampIs(sequence.text);
    }
    if !channel.Stable? {
      DashName(base, channel, SequenceText(sequence));
    }
    if sequence.Number? && sequence.n >= 1 {
      var n: nat := sequence.n;
      assert SequenceText(sequence) == NatText(n);
    }
  }

  function Infix(channel: Channel): Text {
    match channel
    case Nightly => Chars("-nightly.")
    case Beta => Chars("-beta.")
    case Rc => Chars("-rc.")
    case Stable => Chars("-stable.")
  }

  lemma InfixIs(channel: Channel)
    ensures Infix(channel) == [DASH] + ChannelName(channel) + [DOT]
  {
    match channel
    case Nightly => assert Chars("-nightly.") == [DASH] + Chars("nightly") + [DOT];
    case Beta => assert Chars("-beta.") == [DASH] + Chars("beta") + [DOT];
    case Rc => assert Chars("-rc.") == [DASH] + Chars("rc") + [DOT];
    case Stable => assert Chars("-stable.") == [DASH] + Chars("stable") + [DOT];
  }

  lemma Regrouped(a: Text, b: Text, c: Text, d: Text, e: Text)
    ensures a + (b + (c + (d + e))) == a + (b + c + d) + e
  {
  }

  lemma DashName(base: Text, channel: Channel, rest: Text)
    ensures base + ([DASH] + (ChannelName(channel) + ([DOT] + rest))) == base + Infix(channel) + rest
  {
    hide Infix, ChannelName;
    InfixIs(channel);
    Regrouped(base, [DASH], ChannelName(channel), [DOT], rest);
  }

  // ---- Package versions -------------------------------------------------------------------

  predicate KeepsBase(p: Plan) {
    p.channel.Rc? && p.promotion.PromoteBytes?
  }

  /** The package version: an RC whose bytes become the release has the release's own, and otherwise it is the version
      for semver, and for PEP 440 a final, beta, candidate or development release of the base. */
  ghost predicate IsPackage(p: Plan, ecosystem: Ecosystem, text: Text) {
    if KeepsBase(p) then text == p.base
    else if ecosystem == Semver then text == p.version
    else
      match p.channel
      case Stable => text == p.base
      case Beta => p.sequence.Number? && p.sequence.n >= 1 && text == p.base + Chars("b") + NatText(p.sequence.n)
      case Rc => p.sequence.Number? && p.sequence.n >= 1 && text == p.base + Chars("rc") + NatText(p.sequence.n)
      case Nightly => p.sequence.Stamp? && exists m, run, attempt :: IsNightly(p, m, run, attempt, text)
  }

  /** The development release of a nightly has its run and attempt in one number, if that has room for them. */
  predicate IsNightly(p: Plan, m: Moment, run: nat, attempt: nat, text: Text)
    requires p.sequence.Stamp?
  {
    && IsStampOf(p.sequence.text, m, run, attempt)
    && attempt <= 999_999 && run * 1_000_000 + attempt <= 0xFFFF_FFFF_FFFF_FFFE
    && text == p.base + Chars(".dev") + NatText(run * 1_000_000 + attempt)
  }

  lemma StampNumber(text: Text, m: Moment, run: nat, attempt: nat)
    requires IsStampOf(text, m, run, attempt) && IsStamp(text)
    ensures NightlyNumber(text) ==
            if attempt <= 999_999 && run * 1_000_000 + attempt <= 0xFFFF_FFFF_FFFF_FFFE
            then Some(run * 1_000_000 + attempt) else None
  {
    hide NatText, Clock, IsStamp, IsMoment, NatValue;
    assert text == StampText(Clock(m), run, attempt);
    StampParts(Clock(m), run, attempt);
    NatTextValue(run);
    NatTextValue(attempt);
  }

  lemma StampIsUnique(text: Text, m: Moment, run: nat, attempt: nat, m2: Moment, run2: nat, attempt2: nat)
    requires IsStampOf(text, m, run, attempt) && IsStampOf(text, m2, run2, attempt2)
    ensures m == m2 && run == run2 && attempt == attempt2
  {
    hide NatText, IsStamp, IsMoment, Clock;
    StampIs(text);
    StampsDiffer(Clock(m), run, attempt, Clock(m2), run2, attempt2);
    ClockReads(m);
    ClockReads(m2);
  }

  lemma NightlyPackage(p: Plan, text: Text)
    requires p.sequence.Stamp? && IsStamp(p.sequence.text)
    ensures (exists m, run, attempt :: IsNightly(p, m, run, attempt, text)) <==>
            NightlyNumber(p.sequence.text).Some?
            && text == p.base + Chars(".dev") + NatText(NightlyNumber(p.sequence.text).value)
  {
    hide NatText, IsStamp, NightlyNumber, IsStampOf;
    StampIs(p.sequence.text);
    var m, run: nat, attempt: nat :| IsStampOf(p.sequence.text, m, run, attempt);
    StampNumber(p.sequence.text, m, run, attempt);
    if NightlyNumber(p.sequence.text).Some? && text == p.base + Chars(".dev") + NatText(run * 1_000_000 + attempt) {
      assert IsNightly(p, m, run, attempt, text);
    }
    if m2, run2, attempt2 :| IsNightly(p, m2, run2, attempt2, text) {
      StampNumber(p.sequence.text, m2, run2, attempt2);
    }
  }

  lemma PackageIs(p: Plan, ecosystem: Ecosystem, text: Text)
    requires IsVersion(p.version, p.base, p.channel, p.sequence)
    ensures IdentityAllowed(p.base, p.channel, p.sequence)
    ensures PackageText(p, ecosystem) == Ok(text) <==> IsPackage(p, ecosystem, text)
  {
    hide NatText, IsBase, IsRelease, IsStamp, NightlyNumber, IsStampOf, IsNightly;
    VersionIs(p.version, p.base, p.channel, p.sequence);
    if p.channel.Nightly? {
      StampIs(p.sequence.text);
      NightlyPackage(p, text);
    }
  }

  // ---- Projections ------------------------------------------------------------------------

  /** The Apple build has the digits of the build before it in steps of a hundred, and begins at 1. */
  ghost predicate IsApple(build: int, text: Text) {
    && 1 <= build <= 99_990_000
    && exists a, b, c ::
         0 <= b <= 99 && 0 <= c <= 99 && build - 1 == a * 10_000 + b * 100 + c && IsTriple(text, a, b, c)
  }

  predicate IsTriple(text: Text, a: int, b: int, c: int) {
    text == IntText(a + 1) + [0x2E] + IntText(b) + [0x2E] + IntText(c)
  }

  lemma AppleIs(build: int, text: Text)
    requires build > 0
    ensures IsApple(build, text) <==> build <= 99_990_000 && text == AppleText(AppleOf(build))
  {
    hide IntText;
    AppleValue(build);
    var t := AppleOf(build);
    if build <= 99_990_000 && text == AppleText(t) {
      assert IsTriple(text, t.major - 1, t.minor, t.patch);
    }
  }

  /** What stands behind a declared prefix; the package version has to exist for every declaration. */
  ghost predicate IsProjection(p: Plan, d: Projection, value: Field) {
    && (exists text :: IsPackage(p, d.ecosystem, text))
    && match d.kind
       case BaseVersion => value == Word(p.base)
       case FullVersion => value == Word(p.version)
       case PackageVersion => value.Word? && IsPackage(p, d.ecosystem, value.s)
       case BuildNumber => p.build.Some? && value == Count(p.build.value)
       case AppleBuild => p.build.Some? && value.Word? && IsApple(p.build.value, value.s)
  }

  function TextOf(value: Field): Text {
    match value
    case Count(n) => IntText(n)
    case Word(s) => s
  }

  /** A declared field gets the projection itself, or as text behind its prefix. */
  ghost predicate IsDeclared(p: Plan, d: Projection, value: Field) {
    if d.prefix == [] then IsProjection(p, d, value)
    else exists bare :: IsProjection(p, d, bare) && value == Word(d.prefix + TextOf(bare))
  }

  function Bare(p: Plan, d: Projection): Result<Field>
    requires IdentityAllowed(p.base, p.channel, p.sequence)
  {
    Projected(p, d.(prefix := []))
  }

  lemma BareIs(p: Plan, d: Projection, value: Field)
    requires IsVersion(p.version, p.base, p.channel, p.sequence) && (p.build.Some? ==> p.build.value > 0)
    ensures IdentityAllowed(p.base, p.channel, p.sequence)
    ensures Bare(p, d) == Ok(value) <==> IsProjection(p, d, value)
  {
    hide IsVersion, IsPackage, PackageText, IsApple, AppleText, AppleOf, IdentityAllowed;
    PackageIs(p, d.ecosystem, []);
    if PackageText(p, d.ecosystem).Ok? {
      PackageIs(p, d.ecosystem, PackageText(p, d.ecosystem).value);
    }
    forall text | IsPackage(p, d.ecosystem, text) ensures PackageText(p, d.ecosystem) == Ok(text) {
      PackageIs(p, d.ecosystem, text);
    }
    if p.build.Some? && value.Word? {
      AppleIs(p.build.value, value.s);
    }
  }

  /** What every declaration of a plan's policy is set to, exactly. */
  lemma ProjectedIs(p: Plan, d: Projection, value: Field)
    requires IsVersion(p.version, p.base, p.channel, p.sequence) && (p.build.Some? ==> p.build.value > 0)
    ensures IdentityAllowed(p.base, p.channel, p.sequence)
    ensures Projected(p, d) == Ok(value) <==> IsDeclared(p, d, value)
  {
    hide IsVersion, IsProjection, PackageText, IdentityAllowed, AppleText, AppleOf, IntText;
    BareIs(p, d, value);
    if Bare(p, d).Ok? {
      BareIs(p, d, Bare(p, d).value);
    }
    forall bare | IsProjection(p, d, bare) ensures Bare(p, d) == Ok(bare) {
      BareIs(p, d, bare);
    }
  }

  // ---- Plans ------------------------------------------------------------------------------

  const HEX_DIGITS: set<Code> :=
    {0x30, 0x31, 0x32, 0x33, 0x34, 0x35, 0x36, 0x37, 0x38, 0x39, 0x61, 0x62, 0x63, 0x64, 0x65, 0x66}

  predicate IsHexText(t: Text, n: nat) {
    |t| == n && forall c | c in t :: c in HEX_DIGITS
  }

  /** A plan by itself: version and tag say what it releases, and source, policy and build have their forms. */
  ghost predicate IsPlan(p: Plan) {
    && IsVersion(p.version, p.base, p.channel, p.sequence) && p.tag == Chars("v") + p.version
    && IsHexText(p.sourceSha, 40) && IsHexText(p.policyDigest, 64)
    && (p.build.Some? ==> 1 <= p.build.value <= 2_100_000_000)
  }

  /** A plan of this policy and source: its build is above the policy's floor, and every declaration has a value. */
  ghost predicate IsPlanOf(p: Plan, policy: Policy, sha: Text) {
    && IsPlan(p) && p.sourceSha == sha && p.policyDigest == policy.digest && p.promotion == policy.promotion
    && policy.wellFormed && policy.files != []
    && (policy.floor.Some? ==> 0 <= policy.floor.value <= 2_099_999_999)
    && (policy.floor.Some? && p.build.Some? ==> policy.floor.value < p.build.value)
    && forall d | d in policy.files :: exists value :: IsDeclared(p, d, value)
  }

  lemma HexIs(t: Text, n: nat)
    ensures IsHex(t, n) <==> IsHexText(t, n)
  {
    if IsHexText(t, n) {
      forall i | 0 <= i < n ensures IsDigit(t[i]) || 0x61 <= t[i] <= 0x66 {
        assert t[i] in t;
      }
    }
  }

  /** Which plans are valid by themselves, and for a policy and a source. */
  lemma PlanIs(p: Plan, policy: Policy, sha: Text)
    ensures ValidPlan(p) <==> IsPlan(p)
    ensures ValidPlanFor(p, policy, sha) <==> IsPlanOf(p, policy, sha)
  {
    hide Projected, IsDeclared, IsHex, IsHexText, IsVersion, IdentityAllowed;
    HexIs(p.sourceSha, 40);
    HexIs(p.policyDigest, 64);
    VersionIs(p.version, p.base, p.channel, p.sequence);
    if IsPlan(p) {
      AllDeclared(p, policy.files);
    }
  }

  lemma AllDeclared(p: Plan, files: seq<Projection>)
    requires IsPlan(p)
    ensures IdentityAllowed(p.base, p.channel, p.sequence)
    ensures AllProject(p, files) <==> forall d | d in files :: exists value :: IsDeclared(p, d, value)
  {
    hide Projected, IsDeclared, IsHexText, IsVersion, IdentityAllowed;
    PackageIs(p, Semver, []);
    forall d, value ensures Projected(p, d) == Ok(value) <==> IsDeclared(p, d, value) {
      ProjectedIs(p, d, value);
    }
    forall d | d in files ensures Projected(p, d).Ok? <==> exists value :: IsDeclared(p, d, value) {
      if Projected(p, d).Ok? {
        assert IsDeclared(p, d, Projected(p, d).value);
      }
    }
  }

  // ---- Package versions that coincide -----------------------------------------------------

  /** What a PEP 440 version has behind its base. */
  function Suffix(kind: Channel, n: nat): Text {
    match kind
    case Stable => []
    case Beta => Chars("b") + NatText(n)
    case Rc => Chars("rc") + NatText(n)
    case Nightly => Chars(".dev") + NatText(n)
  }

  predicate IsBaseCode(c: Code) {
    IsDigit(c) || c == DOT
  }

  lemma ReleaseCodes(t: Text)
    requires IsRelease(t)
    ensures t != [] && IsDigit(t[|t| - 1]) && forall i | 0 <= i < |t| :: IsBaseCode(t[i])
  {
    hide NatText;
    var x, y, z :| IsDotted(t, x, y, z);
    assert t[|t| - 1] == NatText(z)[|NatText(z)| - 1];
  }

  lemma SuffixStarts(kind: Channel, n: nat)
    ensures kind.Stable? <==> Suffix(kind, n) == []
    ensures !kind.Stable? ==>
              Suffix(kind, n)[0] == match kind case Beta => 0x62 case Rc => 0x72 case Nightly => DOT case Stable => 0
    ensures kind.Nightly? ==> |Suffix(kind, n)| >= 2 && Suffix(kind, n)[1] == 0x64
  {
    assert Chars("b")[0] == 0x62 && Chars("rc")[0] == 0x72 && Chars(".dev")[0] == DOT && Chars(".dev")[1] == 0x64;
  }

  lemma SuffixesDiffer(k1: Channel, n1: nat, k2: Channel, n2: nat)
    requires Suffix(k1, n1) == Suffix(k2, n2)
    ensures k1 == k2 && (k1.Stable? || n1 == n2)
  {
    hide NatText;
    SuffixStarts(k1, n1);
    SuffixStarts(k2, n2);
    if !k1.Stable? {
      var name := Chars(match k1 case Beta => "b" case Rc => "rc" case _ => ".dev");
      assert (name + NatText(n1))[|name|..] == NatText(n1) && (name + NatText(n2))[|name|..] == NatText(n2);
      NatTextInjective(n1, n2);
    }
  }

  /** No base goes on into a suffix. */
  lemma BaseEnds(b1: Text, k1: Channel, n1: nat, b2: Text, k2: Channel, n2: nat)
    requires IsRelease(b1) && IsRelease(b2) && b1 + Suffix(k1, n1) == b2 + Suffix(k2, n2)
    ensures |b2| <= |b1|
  {
    hide NatText, Suffix, IsRelease;
    ReleaseCodes(b1);
    ReleaseCodes(b2);
    SuffixStarts(k1, n1);
    var t := b1 + Suffix(k1, n1);
    assert forall i | 0 <= i < |b2| :: t[i] == b2[i];
    assert |b1| < |t| ==> t[|b1|] == Suffix(k1, n1)[0];
    assert |b1| + 1 < |t| ==> t[|b1| + 1] == Suffix(k1, n1)[1];
  }

  lemma SameParts(b1: Text, k1: Channel, n1: nat, b2: Text, k2: Channel, n2: nat)
    requires IsRelease(b1) && IsRelease(b2) && b1 + Suffix(k1, n1) == b2 + Suffix(k2, n2)
    ensures b1 == b2 && k1 == k2 && (k1.Stable? || n1 == n2)
  {
    hide Suffix, IsRelease;
    BaseEnds(b1, k1, n1, b2, k2, n2);
    BaseEnds(b2, k2, n2, b1, k1, n1);
    var t := b1 + Suffix(k1, n1);
    assert t[..|b1|] == b1 && t[..|b1|] == b2 && t[|b1|..] == Suffix(k1, n1) && t[|b1|..] == Suffix(k2, n2);
    SuffixesDiffer(k1, n1, k2, n2);
  }

  predicate IsRunNumber(text: Text, m: Moment, run: nat, attempt: nat, n: nat) {
    IsStampOf(text, m, run, attempt) && attempt <= 999_999 && n == run * 1_000_000 + attempt
  }

  /** The stamp's run and attempt in one number. */
  ghost predicate HasRunNumber(s: Sequence, n: nat) {
    s.Stamp? && exists m, run, attempt :: IsRunNumber(s.text, m, run, attempt, n)
  }

  lemma NightlySays(p: Plan, text: Text) returns (n: nat)
    requires p.channel.Nightly? && p.sequence.Stamp? && exists m, run, attempt :: IsNightly(p, m, run, attempt, text)
    ensures text == p.base + Suffix(Nightly, n) && HasRunNumber(p.sequence, n)
  {
    hide NatText, IsStampOf;
    var m, run: nat, attempt: nat :| IsNightly(p, m, run, attempt, text);
    n := run * 1_000_000 + attempt;
    assert IsRunNumber(p.sequence.text, m, run, attempt, n);
    assert text == p.base + (Chars(".dev") + NatText(n));
  }

  /** What a PEP 440 package version says of its plan. */
  lemma PackageSays(p: Plan, text: Text) returns (kind: Channel, n: nat)
    requires IsVersion(p.version, p.base, p.channel, p.sequence) && IsPackage(p, Pep440, text)
    ensures text == p.base + Suffix(kind, n) && kind == if KeepsBase(p) then Stable else p.channel
    ensures kind.Beta? || kind.Rc? ==> p.sequence == Number(n)
    ensures kind.Nightly? ==> HasRunNumber(p.sequence, n)
  {
    hide NatText, IsVersion, HasRunNumber, IsNightly;
    kind := if KeepsBase(p) then Stable else p.channel;
    n := 0;
    match kind
    case Stable => assert p.base + [] == p.base;
    case Nightly => n := NightlySays(p, text);
    case Beta =>
      n := p.sequence.n;
      assert text == p.base + (Chars("b") + NatText(n));
    case Rc =>
      n := p.sequence.n;
      assert text == p.base + (Chars("rc") + NatText(n));
  }

  /** Both stamps are of one run and attempt. */
  ghost predicate SameRun(s: Sequence, t: Sequence) {
    s.Stamp? && t.Stamp? && exists m1, m2, run, attempt ::
      IsStampOf(s.text, m1, run, attempt) && IsStampOf(t.text, m2, run, attempt)
  }

  /** The plan's package has the base version as it is. */
  predicate HasBase(p: Plan) {
    p.channel.Stable? || KeepsBase(p)
  }

  /** When two plans have one package version: both keep one base, or they are one release, where PEP 440 does not tell
      two nightlies of one base, run and attempt apart by their times. */
  ghost predicate Coincide(p: Plan, q: Plan, ecosystem: Ecosystem) {
    && p.base == q.base && (HasBase(p) <==> HasBase(q))
    && (!HasBase(p) ==>
          && p.channel == q.channel
          && (p.sequence == q.sequence || (ecosystem.Pep440? && p.channel.Nightly? && SameRun(p.sequence, q.sequence))))
  }

  lemma PepCoincide(p: Plan, q: Plan, a: Text, b: Text)
    requires IsVersion(p.version, p.base, p.channel, p.sequence) && IsPackage(p, Pep440, a)
    requires IsVersion(q.version, q.base, q.channel, q.sequence) && IsPackage(q, Pep440, b)
    ensures a == b <==> Coincide(p, q, Pep440)
  {
    hide IsPackage, IsRelease, Suffix, HasRunNumber, SameRun;
    var k1, n1 := PackageSays(p, a);
    var k2, n2 := PackageSays(q, b);
    StableSuffix(n1, n2);
    if k1.Nightly? && k2.Nightly? {
      RunsAre(p.sequence, n1, q.sequence, n2);
    }
    if a == b {
      SameParts(p.base, k1, n1, q.base, k2, n2);
    }
  }

  lemma StableSuffix(n1: nat, n2: nat)
    ensures Suffix(Stable, n1) == Suffix(Stable, n2)
  {
  }

  lemma RunsAre(s: Sequence, n1: nat, t: Sequence, n2: nat)
    requires HasRunNumber(s, n1) && HasRunNumber(t, n2)
    ensures n1 == n2 <==> SameRun(s, t)
    ensures s == t ==> n1 == n2
  {
    hide IsStampOf;
    var m1, r1: nat, a1: nat :| IsRunNumber(s.text, m1, r1, a1, n1);
    var m2, r2: nat, a2: nat :| IsRunNumber(t.text, m2, r2, a2, n2);
    if x1, x2, run: nat, attempt: nat :| IsStampOf(s.text, x1, run, attempt) && IsStampOf(t.text, x2, run, attempt) {
      StampIsUnique(s.text, m1, r1, a1, x1, run, attempt);
      StampIsUnique(t.text, m2, r2, a2, x2, run, attempt);
    }
    if s == t {
      StampIsUnique(s.text, m1, r1, a1, m2, r2, a2);
    }
  }

  lemma SemverCoincide(p: Plan, q: Plan, a: Text, b: Text)
    requires IsVersion(p.version, p.base, p.channel, p.sequence) && IsPackage(p, Semver, a)
    requires IsVersion(q.version, q.base, q.channel, q.sequence) && IsPackage(q, Semver, b)
    ensures a == b <==> Coincide(p, q, Semver)
  {
    hide IsVersion, IdentityAllowed, VersionText;
    VersionIs(p.version, p.base, p.channel, p.sequence);
    VersionIs(q.version, q.base, q.channel, q.sequence);
    var c1, s1 := Shown(p, a);
    var c2, s2 := Shown(q, b);
    if a == b {
      VersionDeterminesIdentity(p.base, c1, s1, q.base, c2, s2);
    }
  }

  /** What a semver package version says: the plan's identity, or that of the stable release of its base. */
  lemma Shown(p: Plan, text: Text) returns (channel: Channel, sequence: Sequence)
    requires IdentityAllowed(p.base, p.channel, p.sequence) && IsPackage(p, Semver, text)
    requires p.version == VersionText(p.base, p.channel, p.sequence)
    ensures channel == if HasBase(p) then Stable else p.channel
    ensures sequence == if HasBase(p) then NoSequence else p.sequence
    ensures IdentityAllowed(p.base, channel, sequence) && text == VersionText(p.base, channel, sequence)
  {
    hide IsBase;
    channel := if HasBase(p) then Stable else p.channel;
    sequence := if HasBase(p) then NoSequence else p.sequence;
  }

  /** Package versions of valid plans coincide exactly for the releases that share one. */
  lemma PackagesCoincide(p: Plan, q: Plan, ecosystem: Ecosystem)
    requires ValidPlan(p) && ValidPlan(q)
    requires PackageText(p, ecosystem).Ok? && PackageText(q, ecosystem).Ok?
    ensures PackageText(p, ecosystem) == PackageText(q, ecosystem) <==> Coincide(p, q, ecosystem)
  {
    hide IsVersion, IsPackage, PackageText, Coincide, IsHex;
    VersionIs(p.version, p.base, p.channel, p.sequence);
    VersionIs(q.version, q.base, q.channel, q.sequence);
    var a, b := PackageText(p, ecosystem).value, PackageText(q, ecosystem).value;
    PackageIs(p, ecosystem, a);
    PackageIs(q, ecosystem, b);
    if ecosystem == Semver {
      SemverCoincide(p, q, a, b);
    } else {
      PepCoincide(p, q, a, b);
    }
  }
}
