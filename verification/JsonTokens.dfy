/** What scalar tokens are and mean (RFC 8259 sections 3, 6 and 7), without a scanner: strings by how they are spelled,
    numbers by their parts. */
module JsonTokens {
  import opened Results
  import opened Texts
  import opened JsonScalars
  import opened JsonGrammar

  // ---- Strings ----------------------------------------------------------------------------

  /** One character as it stands, after a backslash, or by four hexadecimal digits. */
  datatype Unit = Plain(c: Code) | Short(letter: Code) | Long(digits: Text)

  const SHORT_FORMS: map<Code, Code> :=
    map[0x22 := 0x22, 0x5C := 0x5C, 0x2F := 0x2F, 0x62 := 0x08, 0x66 := 0x0C, 0x6E := 0x0A, 0x72 := 0x0D, 0x74 := 0x09]

  predicate IsHexDigit(c: Code) {
    0x30 <= c <= 0x39 || 0x41 <= c <= 0x46 || 0x61 <= c <= 0x66
  }

  function HexValue(digits: Text): int {
    if digits == [] then 0
    else
      var c := digits[|digits| - 1];
      HexValue(digits[..|digits| - 1]) * 16 + (if c <= 0x39 then c - 0x30 else if c <= 0x46 then c - 0x37 else c - 0x57)
  }

  predicate IsUnit(u: Unit) {
    match u
    case Plain(c) => c >= 0x20 && c != 0x22 && c != 0x5C
    case Short(letter) => letter in SHORT_FORMS
    case Long(digits) => |digits| == 4 && forall k | 0 <= k < 4 :: IsHexDigit(digits[k])
  }

  function Spell(u: Unit): Text {
    match u
    case Plain(c) => [c]
    case Short(letter) => [0x5C, letter]
    case Long(digits) => [0x5C, 0x75] + digits
  }

  function Spelled(units: seq<Unit>): Text {
    if units == [] then [] else Spell(units[0]) + Spelled(units[1..])
  }

  function CodeOf(u: Unit): Code {
    match u
    case Plain(c) => c
    case Short(letter) => if letter in SHORT_FORMS then SHORT_FORMS[letter] else letter
    case Long(digits) => HexValue(digits)
  }

  /** Two units that are a surrogate pair. */
  predicate Pairs(units: seq<Unit>) {
    |units| >= 2 && units[0].Long? && units[1].Long?
    && 0xD800 <= CodeOf(units[0]) < 0xDC00 <= CodeOf(units[1]) < 0xE000
  }

  function Meaning(units: seq<Unit>): Text {
    if units == [] then []
    else if Pairs(units) then
      [0x10000 + (CodeOf(units[0]) - 0xD800) * 0x400 + CodeOf(units[1]) - 0xDC00] + Meaning(units[2..])
    else [CodeOf(units[0])] + Meaning(units[1..])
  }

  predicate AllUnits(units: seq<Unit>) {
    forall u | u in units :: IsUnit(u)
  }

  /** The units spell what stands from `i` up to a quote, behind which `e` is. */
  predicate SpellsTo(t: Text, i: nat, units: seq<Unit>, e: nat) {
    AllUnits(units) && Shows(t, i, Spelled(units) + [QUOTE], e)
  }

  lemma HexAppends(d: Text, k: nat)
    requires k < |d|
    ensures HexValue(d[..k + 1]) == HexValue(d[..k]) * 16 + HexValue([d[k]])
  {
    assert d[..k + 1][..k] == d[..k];
    assert [d[k]][..0] == [];
  }

  lemma HexDigitIs(t: Text, i: nat)
    ensures HexDigit(At(t, i)).Some? <==> i < |t| && IsHexDigit(t[i])
    ensures HexDigit(At(t, i)).Some? ==> HexDigit(At(t, i)).value == HexValue([t[i]])
  {
    if i < |t| {
      assert [t[i]][..0] == [];
    }
  }

  lemma HexReads(t: Text, i: nat)
    ensures Hex4(t, i).Some? <==> i + 4 <= |t| && IsUnit(Long(t[i..i + 4]))
    ensures Hex4(t, i).Some? ==> Hex4(t, i).value == HexValue(t[i..i + 4])
  {
    hide HexDigit, HexValue, IsHexDigit;
    HexDigitIs(t, i);
    HexDigitIs(t, i + 1);
    HexDigitIs(t, i + 2);
    HexDigitIs(t, i + 3);
    if i + 4 <= |t| {
      var d := t[i..i + 4];
      assert d[0] == t[i] && d[1] == t[i + 1] && d[2] == t[i + 2] && d[3] == t[i + 3];
      HexAppends(d, 0);
      HexAppends(d, 1);
      HexAppends(d, 2);
      HexAppends(d, 3);
      NoHex();
      assert d[..0] == [] && d[..4] == d;
    }
  }

  lemma NoHex()
    ensures HexValue([]) == 0
  {
  }

  // ---- Strings are read as they are spelled -----------------------------------------------

  lemma SpelledFirst(t: Text, i: nat, units: seq<Unit>, e: nat)
    requires units != []
    ensures SpellsTo(t, i, units, e) <==>
            IsUnit(units[0]) && HoldsAt(t, i, Spell(units[0])) && SpellsTo(t, i + |Spell(units[0])|, units[1..], e)
  {
    hide Spell, IsUnit, HoldsAt;
    assert units == [units[0]] + units[1..];
    var rest := Spelled(units[1..]) + [QUOTE];
    assert Spelled(units) + [QUOTE] == Spell(units[0]) + rest;
    HoldsSplit(t, i, Spell(units[0]), rest);
  }

  lemma SpelledEnd(t: Text, i: nat, e: nat)
    ensures SpellsTo(t, i, [], e) <==> At(t, i) == QUOTE && e == i + 1
  {
    assert Spelled([]) + [QUOTE] == [QUOTE];
    if HoldsAt(t, i, [QUOTE]) {
      HoldsChar(t, i, [QUOTE], 0);
    }
    if At(t, i) == QUOTE {
      CharHolds(t, i, QUOTE);
    }
  }

  /** Where a unit stands. */
  lemma UnitStands(t: Text, i: nat, u: Unit)
    requires IsUnit(u)
    ensures u.Plain? ==> (HoldsAt(t, i, Spell(u)) <==> At(t, i) == u.c)
    ensures u.Short? ==> (HoldsAt(t, i, Spell(u)) <==> At(t, i) == BACKSLASH && At(t, i + 1) == u.letter)
    ensures u.Long? ==> (HoldsAt(t, i, Spell(u)) <==>
                         At(t, i) == BACKSLASH && At(t, i + 1) == LETTER_U
                         && i + 6 <= |t| && t[i + 2..i + 6] == u.digits)
  {
    match u
    case Plain(c) =>
      if i < |t| { assert t[i..i + 1] == [t[i]]; }
    case Short(letter) =>
      if i + 2 <= |t| { assert t[i..i + 2] == [t[i], t[i + 1]]; }
    case Long(digits) =>
      HoldsSplit(t, i, [0x5C, 0x75], digits);
      if i + 2 <= |t| { assert t[i..i + 2] == [t[i], t[i + 1]]; }
  }

  predicate High(u: Unit) {
    u.Long? && 0xD800 <= CodeOf(u) < 0xDC00
  }

  /** An escape of four digits stands at `i`, or something that begins like one. */
  predicate LongAt(t: Text, i: nat) {
    At(t, i) == BACKSLASH && At(t, i + 1) == LETTER_U
  }

  predicate LowAt(t: Text, i: nat) {
    LongAt(t, i) && Hex4(t, i + 2).Some? && 0xDC00 <= Hex4(t, i + 2).value < 0xE000
  }

  /** A unit is read in one step if it makes no pair with what follows. */
  lemma OneStep(t: Text, i: nat, u: Unit)
    requires IsUnit(u) && HoldsAt(t, i, Spell(u))
    requires High(u) && LongAt(t, i + 6) ==> Hex4(t, i + 8).Some? && !LowAt(t, i + 6)
    ensures At(t, i) != QUOTE && StringStep(t, i) == Scan(CodeOf(u), i + |Spell(u)|)
  {
    hide Hex4, HoldsAt;
    UnitStands(t, i, u);
    if u.Long? {
      HexReads(t, i + 2);
    }
  }

  lemma PairStep(t: Text, i: nat, u: Unit, v: Unit)
    requires IsUnit(u) && IsUnit(v) && Pairs([u, v]) && HoldsAt(t, i, Spell(u)) && HoldsAt(t, i + 6, Spell(v))
    ensures At(t, i) != QUOTE
    ensures StringStep(t, i) == Scan(0x10000 + (CodeOf(u) - 0xD800) * 0x400 + CodeOf(v) - 0xDC00, i + 12)
  {
    hide Hex4, HoldsAt;
    UnitStands(t, i, u);
    UnitStands(t, i + 6, v);
    HexReads(t, i + 2);
    HexReads(t, i + 8);
  }

  /** What begins like an escape of four digits in a spelled string is one. */
  lemma LongIsFirst(t: Text, i: nat, units: seq<Unit>, e: nat)
    requires SpellsTo(t, i, units, e) && LongAt(t, i)
    ensures units != [] && units[0].Long? && Hex4(t, i + 2) == Some(CodeOf(units[0]))
  {
    hide Hex4, HoldsAt;
    if units == [] {
      SpelledEnd(t, i, e);
    } else {
      SpelledFirst(t, i, units, e);
      UnitStands(t, i, units[0]);
      HexReads(t, i + 2);
    }
  }

  lemma {:induction false} SpelledReads(t: Text, i: nat, units: seq<Unit>, e: nat)
    requires SpellsTo(t, i, units, e)
    ensures StringBody(t, i) == Scan(Meaning(units), e)
    decreases |units|
  {
    hide SpellsTo, StringStep, HoldsAt, Hex4, CodeOf, IsUnit, Spell;
    if units == [] {
      SpelledEnd(t, i, e);
    } else {
      SpelledFirst(t, i, units, e);
      var m := i + |Spell(units[0])|;
      if Pairs(units) {
        LongLength(units[0]);
        SpelledFirst(t, m, units[1..], e);
        LongLength(units[1]);
        assert units[1..][1..] == units[2..];
        PairStep(t, i, units[0], units[1]);
        SpelledReads(t, m + 6, units[2..], e);
        assert Meaning(units)[1..] == Meaning(units[2..]);
        StringBodyExtends(t, i, Meaning(units), m + 6, e);
      } else {
        if units[0].Long? {
          LongLength(units[0]);
        }
        if LongAt(t, m) {
          LongIsFirst(t, m, units[1..], e);
        }
        OneStep(t, i, units[0]);
        SpelledReads(t, m, units[1..], e);
        assert Meaning(units)[1..] == Meaning(units[1..]);
        StringBodyExtends(t, i, Meaning(units), m, e);
      }
    }
  }

  lemma LongLength(u: Unit)
    requires IsUnit(u) && u.Long?
    ensures |Spell(u)| == 6
  {
  }

  /** What one step read: a unit, or a pair of them. */
  lemma StepSpells(t: Text, i: nat) returns (units: seq<Unit>)
    requires StringStep(t, i).Scan? && At(t, i) != QUOTE
    ensures |units| == 1 || (|units| == 2 && Pairs(units) && HoldsAt(t, i + 6, Spell(units[1])))
    ensures AllUnits(units) && HoldsAt(t, i, Spell(units[0])) && StringStep(t, i).end == i + |Spelled(units)|
    ensures |Spelled(units)| == |Spell(units[0])| + if |units| == 2 then |Spell(units[1])| else 0
    ensures StringStep(t, i).value == Meaning(units)[0] && |Meaning(units)| == 1
    ensures |units| == 1 && High(units[0]) ==> !LowAt(t, i + 6)
  {
    hide Hex4, HoldsAt;
    if t[i] != BACKSLASH {
      units := [Plain(t[i])];
    } else if At(t, i + 1) == LETTER_U {
      HexReads(t, i + 2);
      HexReads(t, i + 8);
      units := [Long(t[i + 2..i + 6])];
      if High(units[0]) && LowAt(t, i + 6) {
        units := units + [Long(t[i + 8..i + 12])];
        UnitStands(t, i + 6, units[1]);
        assert units[1..] == [units[1]] && units[2..] == [];
      }
    } else {
      units := [Short(t[i + 1])];
    }
    UnitStands(t, i, units[0]);
    OneUnit(units[0]);
  }

  lemma OneUnit(u: Unit)
    ensures [u][1..] == [] && Spelled([u]) == Spell(u) && Meaning([u]) == [CodeOf(u)]
  {
    assert Spelled([u]) == Spell(u) + Spelled([]);
  }

  lemma {:induction false} ReadIsSpelled(t: Text, i: nat, body: Text, e: nat) returns (units: seq<Unit>)
    requires StringBody(t, i) == Scan(body, e)
    ensures SpellsTo(t, i, units, e) && Meaning(units) == body
    decreases |t| - i
  {
    hide SpellsTo, StringStep, HoldsAt, Hex4, CodeOf, IsUnit, Spell, LongAt;
    if At(t, i) == QUOTE {
      units := [];
      SpelledEnd(t, i, e);
    } else {
      StringBodyInverts(t, i, body, e);
      var m := StringStep(t, i).end;
      var first := StepSpells(t, i);
      var rest := ReadIsSpelled(t, m, body[1..], e);
      units := first + rest;
      assert units[0] == first[0];
      if |first| == 2 {
        assert units[1] == first[1] && units[2..] == rest && units[1..][1..] == rest;
        assert first[0] in first && first[1] in first;
        LongLength(first[0]);
        SpelledFirst(t, i + 6, units[1..], e);
      } else {
        assert units[1..] == rest && first[0] in first;
        if Pairs(units) {
          LongLength(first[0]);
          LowIsFirst(t, m, rest, e);
        }
      }
      SpelledFirst(t, i, units, e);
      assert body == [body[0]] + body[1..];
    }
  }

  lemma LowIsFirst(t: Text, i: nat, units: seq<Unit>, e: nat)
    requires SpellsTo(t, i, units, e) && units != [] && units[0].Long? && 0xDC00 <= CodeOf(units[0]) < 0xE000
    ensures LowAt(t, i)
  {
    hide Hex4, HoldsAt;
    SpelledFirst(t, i, units, e);
    UnitStands(t, i, units[0]);
    HexReads(t, i + 2);
  }

  /** The token is a string in quotes, spelled by these units. */
  predicate IsStringToken(token: Text, units: seq<Unit>) {
    AllUnits(units) && token == [QUOTE] + (Spelled(units) + [QUOTE])
  }

  lemma TokenSpells(token: Text, units: seq<Unit>)
    ensures IsStringToken(token, units) <==> |token| > 0 && token[0] == QUOTE && SpellsTo(token, 1, units, |token|)
  {
    var inner := Spelled(units) + [QUOTE];
    if token == [QUOTE] + inner {
      assert token[1..1 + |inner|] == inner;
    }
    if |token| > 0 && token[0] == QUOTE && Shows(token, 1, inner, |token|) {
      assert token == [token[0]] + token[1..1 + |inner|];
    }
  }

  /** A key is a string in quotes, and reads as what its characters mean. */
  lemma KeyIs(token: Text, key: Text)
    ensures KeyToken(token, key) <==> exists units :: IsStringToken(token, units) && key == Meaning(units)
  {
    hide StringBody, Meaning, SpellsTo, IsStringToken;
    if KeyToken(token, key) {
      var units := ReadIsSpelled(token, 1, key, |token|);
      TokenSpells(token, units);
    }
    if units :| IsStringToken(token, units) && key == Meaning(units) {
      TokenSpells(token, units);
      SpelledReads(token, 1, units, |token|);
    }
  }

  lemma UnitIsLonger(u: Unit)
    requires IsUnit(u)
    ensures |DumpCode(CodeOf(u))| <= |Spell(u)|
  {
  }

  lemma PairIsLonger(units: seq<Unit>)
    requires AllUnits(units) && Pairs(units)
    ensures |DumpCode(Meaning(units)[0])| == 1 && |Spell(units[0])| == |Spell(units[1])| == 6
  {
    assert units[0] in units && units[1] in units;
  }

  /** No spelling is shorter than the one that is written. */
  lemma {:induction false} DumpIsShortest(units: seq<Unit>)
    requires AllUnits(units)
    ensures |DumpCodes(Meaning(units))| <= |Spelled(units)|
    decreases |units|
  {
    hide IsUnit, DumpCode, CodeOf, Spell, Pairs;
    if units != [] {
      assert units[0] in units;
      if Pairs(units) {
        PairHasTwo(units);
        PairIsLonger(units);
        assert Spelled(units) == Spell(units[0]) + (Spell(units[1]) + Spelled(units[2..])) by {
          assert units[1..][1..] == units[2..] && units[1..][0] == units[1];
        }
        DumpIsShortest(units[2..]);
        assert Meaning(units)[1..] == Meaning(units[2..]);
      } else {
        UnitIsLonger(units[0]);
        DumpIsShortest(units[1..]);
        assert Meaning(units)[1..] == Meaning(units[1..]);
      }
    }
  }

  lemma PairHasTwo(units: seq<Unit>)
    requires Pairs(units)
    ensures |units| >= 2
  {
  }

  /** What is written for a string is a token of it, as short as any, with small letters in its digits. */
  lemma DumpIsToken(text: Text, other: seq<Unit>) returns (units: seq<Unit>)
    requires IsText(text) && AllUnits(other) && Meaning(other) == text
    ensures IsStringToken(DumpString(text), units) && Meaning(units) == text
    ensures |DumpString(text)| <= |Spelled(other)| + 2
    ensures forall u, k | u in units && u.Long? && 0 <= k < 4 :: !(0x41 <= u.digits[k] <= 0x46)
  {
    hide IsUnit, DumpCode, CodeOf, Spell, Pairs;
    units := DumpUnits(text);
    DumpIsShortest(other);
  }

  lemma {:induction false} DumpUnits(text: Text) returns (units: seq<Unit>)
    requires IsText(text)
    ensures AllUnits(units) && DumpCodes(text) == Spelled(units) && Meaning(units) == text
    ensures forall u, k | u in units && u.Long? && 0 <= k < 4 :: !(0x41 <= u.digits[k] <= 0x46)
    ensures forall u | u in units && u.Long? :: CodeOf(u) < 0x20
    decreases |text|
  {
    hide IsUnit, DumpCode, CodeOf, Spell, DumpCodes;
    if text == [] {
      units := [];
      NoCodes();
    } else {
      var rest := DumpUnits(text[1..]);
      var u := DumpUnit(text[0]);
      units := [u] + rest;
      assert units[0] == u && units[1..] == rest;
      MoreCodes(text);
      assert text == [text[0]] + text[1..];
      assert units[0] in units && (|units| >= 2 ==> units[1] in units);
    }
  }

  lemma NoCodes()
    ensures DumpCodes([]) == []
  {
  }

  lemma MoreCodes(text: Text)
    requires text != []
    ensures DumpCodes(text) == DumpCode(text[0]) + DumpCodes(text[1..])
  {
  }

  lemma HexTextMeans(n: nat)
    requires n < 16
    ensures HexValue([HexText(n)]) == n && IsHexDigit(HexText(n)) && !(0x41 <= HexText(n) <= 0x46)
  {
    assert [HexText(n)][..0] == [];
  }

  lemma ControlUnit(c: Code) returns (u: Unit)
    requires 0 <= c < 0x20
    ensures u == Long([0x30, 0x30, HexText(c / 16), HexText(c % 16)]) && IsUnit(u) && CodeOf(u) == c
    ensures forall k | 0 <= k < 4 :: !(0x41 <= u.digits[k] <= 0x46)
  {
    hide HexText, HexValue;
    var d := [0x30, 0x30, HexText(c / 16), HexText(c % 16)];
    u := Long(d);
    HexTextMeans(0);
    HexTextMeans(c / 16);
    HexTextMeans(c % 16);
    ZeroIs();
    HexAppends(d, 0);
    HexAppends(d, 1);
    HexAppends(d, 2);
    HexAppends(d, 3);
    NoHex();
    assert d[..0] == [] && d[..4] == d;
  }

  lemma ZeroIs()
    ensures HexText(0) == 0x30
  {
  }

  lemma DumpUnit(c: Code) returns (u: Unit)
    requires 0 <= c < 0x110000
    ensures IsUnit(u) && Spell(u) == DumpCode(c) && CodeOf(u) == c
    ensures u.Long? ==> |u.digits| == 4 && c < 0x20 && forall k | 0 <= k < 4 :: !(0x41 <= u.digits[k] <= 0x46)
  {
    hide HexText, HexValue, IsHexDigit;
    if |DumpCode(c)| == 2 {
      u := Short(DumpCode(c)[1]);
    } else if |DumpCode(c)| == 6 {
      u := ControlUnit(c);
    } else {
      u := Plain(c);
    }
  }

  // ---- Numbers ----------------------------------------------------------------------------

  predicate IsFraction(t: Text) {
    t == [] || (|t| >= 2 && t[0] == 0x2E && AllDigits(t[1..]))
  }

  predicate IsExponent(t: Text) {
    || t == []
    || (|t| >= 2 && t[0] in {0x45, 0x65} && AllDigits(t[1..]))
    || (|t| >= 3 && t[0] in {0x45, 0x65} && t[1] in {0x2B, 0x2D} && AllDigits(t[2..]))
  }

  /** A number in its parts; the whole part has no leading zeros. */
  datatype Parts = Parts(minus: bool, whole: nat, fraction: Text, exponent: Text)

  function Written(p: Parts): Text {
    (if p.minus then [0x2D] else []) + (NatText(p.whole) + (p.fraction + p.exponent))
  }

  predicate IsNumberToken(token: Text, p: Parts) {
    IsFraction(p.fraction) && IsExponent(p.exponent) && token == Written(p)
  }

  /** Whole numbers are integers, all others are kept as they are written. */
  function NumberMeaning(token: Text, p: Parts): Value {
    if p.fraction != [] || p.exponent != [] then Float(token) else Int(if p.minus then 0 - p.whole else p.whole)
  }

  /** The ends of the parts of a number at the start of a text. */
  function Ends(p: Parts): (nat, nat, nat, nat) {
    var a := if p.minus then 1 else 0;
    var b := a + |NatText(p.whole)|;
    (a, b, b + |p.fraction|, b + |p.fraction| + |p.exponent|)
  }

  lemma PartsStand(token: Text, p: Parts)
    ensures token == Written(p) <==>
      var (a, b, c, d) := Ends(p);
      && (p.minus ==> At(token, 0) == MINUS)
      && |token| == d && token[a..b] == NatText(p.whole) && token[b..c] == p.fraction && token[c..] == p.exponent
  {
    hide NatText;
    var (a, b, c, d) := Ends(p);
    if token == Written(p) {
      assert token[a..b] == NatText(p.whole);
      assert token[b..c] == p.fraction;
      assert token[c..] == p.exponent;
    }
  }

  lemma FractionIs(t: Text, i: nat)
    requires i <= |t|
    ensures IsFraction(t[i..FractionEnd(t, i)])
    ensures forall e | i <= e <= |t| && IsFraction(t[i..e]) && !IsDigit(At(t, e)) && (e == i ==> At(t, i) != DOT) ::
              FractionEnd(t, i) == e
  {
    hide IsDigit;
    forall e | i <= e <= |t| && IsFraction(t[i..e]) && !IsDigit(At(t, e)) && (e == i ==> At(t, i) != DOT)
      ensures FractionEnd(t, i) == e {
      if e > i {
        var f := t[i..e];
        assert f[0] == t[i] && f[1] == t[i + 1] && f[1..][0] == f[1];
        assert t[i + 1..e] == f[1..];
        assert HoldsAt(t, i + 1, f[1..]);
        DigitRunEnd(t, i + 1, f[1..]);
      }
    }
    var e := FractionEnd(t, i);
    if e > i {
      assert t[i..e][1..] == t[i + 1..e];
    }
  }

  lemma ExponentIs(t: Text, i: nat)
    requires i <= |t|
    ensures IsExponent(t[i..ExponentEnd(t, i)])
    ensures forall e | i <= e <= |t| && IsExponent(t[i..e]) && !IsDigit(At(t, e))
                       && (e == i ==> At(t, i) !in {0x45, 0x65}) :: ExponentEnd(t, i) == e
  {
    forall e | i <= e <= |t| && IsExponent(t[i..e]) && !IsDigit(At(t, e)) && (e == i ==> At(t, i) !in {0x45, 0x65})
      ensures ExponentEnd(t, i) == e {
      if e > i {
        ExponentEnds(t, i, e);
      }
    }
    var e := ExponentEnd(t, i);
    if e > i {
      assert t[i..e][1..] == t[i + 1..e];
      if At(t, i + 1) == MINUS || At(t, i + 1) == 0x2B {
        assert t[i..e][2..] == t[i + 2..e];
      }
    }
  }

  lemma ExponentEnds(t: Text, i: nat, e: nat)
    requires i < e <= |t| && IsExponent(t[i..e]) && !IsDigit(At(t, e))
    ensures ExponentEnd(t, i) == e
  {
    var x := t[i..e];
    assert x[0] == t[i] && x[1] == t[i + 1];
    assert t[i + 1..e] == x[1..];
    if IsDigit(x[1]) {
      assert AllDigits(x[1..]) by {
        if |x| >= 3 && x[1] in {0x2B, 0x2D} { assert false; }
      }
      DigitRunEnd(t, i + 1, x[1..]);
    } else {
      assert x[1..][0] == x[1];
      assert t[i + 2..e] == x[2..] && x[2..][0] == x[2] == t[i + 2];
      DigitRunEnd(t, i + 2, x[2..]);
    }
  }

  lemma IntegerIs(t: Text, i: nat, minus: bool, n: nat)
    requires At(t, i) == MINUS <==> minus
    requires var j := if minus then i + 1 else i; HoldsAt(t, j, NatText(n)) && !IsDigit(At(t, j + |NatText(n)|))
    ensures IntegerEnd(t, i) == (if minus then i + 1 else i) + |NatText(n)|
  {
    var j := if minus then i + 1 else i;
    HoldsChar(t, j, NatText(n), 0);
    DigitRunEnd(t, j, NatText(n));
  }

  lemma IntegerHas(t: Text, i: nat) returns (minus: bool, n: nat)
    requires i <= |t| && IntegerEnd(t, i) > i
    ensures minus <==> At(t, i) == MINUS
    ensures t[if minus then i + 1 else i..IntegerEnd(t, i)] == NatText(n)
  {
    minus := At(t, i) == MINUS;
    var whole := t[if minus then i + 1 else i..IntegerEnd(t, i)];
    assert IsNumeral(whole);
    NumeralIsCanonical(whole);
    n := NatValue(whole);
  }

  lemma IntegerMeans(token: Text, p: Parts)
    requires IsNumberToken(token, p) && p.fraction == [] && p.exponent == []
    ensures NumberValue(token, true) == NumberMeaning(token, p)
  {
    hide NatText, NatValue;
    NatTextValue(p.whole);
    if p.minus {
      assert token[1..] == NatText(p.whole);
    } else {
      assert token == NatText(p.whole);
    }
  }

  /** No part begins with a digit where the one before it may end. */
  lemma PartsAreApart(token: Text, p: Parts, b: nat, c: nat)
    requires IsFraction(p.fraction) && IsExponent(p.exponent) && b <= c <= |token|
    requires token[b..c] == p.fraction && token[c..] == p.exponent
    ensures !IsDigit(At(token, b)) && !IsDigit(At(token, c)) && !IsDigit(At(token, |token|))
    ensures b == c ==> At(token, b) != DOT
    ensures p.exponent == [] ==> At(token, c) !in {0x45, 0x65}
  {
    if p.fraction != [] { assert token[b..c][0] == token[b]; }
    if p.exponent != [] { assert token[c..][0] == token[c]; }
  }

  lemma WholeStands(token: Text, p: Parts, a: nat, b: nat)
    requires a == (if p.minus then 1 else 0) && a <= b <= |token| && token[a..b] == NatText(p.whole)
    requires (p.minus ==> At(token, 0) == MINUS) && !IsDigit(At(token, b))
    ensures 0 < IntegerEnd(token, 0) == b
  {
    hide IntegerEnd;
    FirstIsDigit(p.whole);
    assert token[a..b][0] == token[a];
    IntegerIs(token, 0, p.minus, p.whole);
  }

  lemma PartsRead(token: Text, p: Parts)
    requires IsNumberToken(token, p)
    ensures Number(token, 0) == Scan(NumberMeaning(token, p), |token|)
  {
    hide NatText, IntegerEnd, FractionEnd, ExponentEnd, NumberValue, IsDigit, IsFraction, IsExponent, Written, Number;
    PartsStand(token, p);
    var (a, b, c, d) := Ends(p);
    PartsAreApart(token, p, b, c);
    WholeStands(token, p, a, b);
    FractionIs(token, b);
    assert token[c..d] == token[c..];
    ExponentIs(token, c);
    NumberParts(token, 0, b, c, d);
    assert token[0..d] == token;
    if p.fraction == [] && p.exponent == [] {
      IntegerMeans(token, p);
    } else {
      FloatMeans(token);
    }
  }

  lemma FirstIsDigit(n: nat)
    ensures IsDigit(NatText(n)[0])
  {
  }

  lemma FloatMeans(token: Text)
    ensures NumberValue(token, false) == Float(token)
  {
  }

  lemma ReadHasParts(token: Text, value: Value) returns (p: Parts)
    requires Number(token, 0) == Scan(value, |token|)
    ensures IsNumberToken(token, p)
  {
    hide NatText, IntegerEnd, FractionEnd, ExponentEnd, NumberValue, Number, IsDigit, IsFraction, IsExponent, Written;
    NumberHasParts(token, 0);
    var b := IntegerEnd(token, 0);
    var c := FractionEnd(token, b);
    var minus, n := IntegerHas(token, 0);
    FractionIs(token, b);
    ExponentIs(token, c);
    assert token[c..|token|] == token[c..];
    p := Parts(minus, n, token[b..c], token[c..]);
    PartsStand(token, p);
  }

  /** A number is what has the parts of one; without fraction and exponent it is read as an integer. */
  lemma NumberIs(token: Text, value: Value)
    ensures Number(token, 0) == Scan(value, |token|)
            <==> exists p :: IsNumberToken(token, p) && value == NumberMeaning(token, p)
  {
    hide Number, IsNumberToken, NumberMeaning;
    if Number(token, 0) == Scan(value, |token|) {
      var p := ReadHasParts(token, value);
      PartsRead(token, p);
    }
    if p :| IsNumberToken(token, p) && value == NumberMeaning(token, p) {
      PartsRead(token, p);
    }
  }

  // ---- Scalars ----------------------------------------------------------------------------

  predicate IsName(token: Text, value: Value) {
    || (token == Chars("null") && value == Null)
    || (token == Chars("true") && value == Bool(true))
    || (token == Chars("false") && value == Bool(false))
    || (token in {Chars("NaN"), Chars("Infinity"), Chars("-Infinity")} && value == Float(token))
  }

  /** The scalar a token denotes. */
  ghost predicate Denotes(token: Text, value: Value) {
    || IsName(token, value)
    || (exists units :: IsStringToken(token, units) && value == Str(Meaning(units)))
    || (exists p :: IsNumberToken(token, p) && value == NumberMeaning(token, p))
  }

  lemma NameReads(token: Text, value: Value)
    requires IsName(token, value)
    ensures ScalarToken(token, value)
  {
    hide Number, StringBody;
    assert token[0..|token|] == token;
    var a := if token == NULL then 0 else if token == TRUE then 1 else if token == FALSE then 2
             else if token == NAN then 3 else if token == INFINITY then 4 else 5;
    LiteralScalar(token, 0, a);
  }

  lemma NameIsRead(token: Text, value: Value, a: nat)
    requires ScalarToken(token, value) && a < 6 && HoldsAt(token, 0, LITERALS[a].0)
    ensures IsName(token, value)
  {
    hide Number, StringBody;
    LiteralScalar(token, 0, a);
    assert token[0..|token|] == token;
  }

  /** The scalar tokens a document may hold are exactly those of the grammar, and each is read as what it denotes. */
  lemma TokenIs(token: Text, value: Value)
    ensures ScalarToken(token, value) <==> Denotes(token, value)
  {
    hide StringBody, Number, IsNumberToken, NumberMeaning, IsStringToken, Meaning, HoldsAt, IsName, IntegerEnd;
    forall key | value == Str(key) {
      KeyIs(token, key);
    }
    NumberIs(token, value);
    if ScalarToken(token, value) {
      if token != [] && token[0] == QUOTE {
      } else if a: nat :| a < 6 && HoldsAt(token, 0, LITERALS[a].0) {
        NameIsRead(token, value, a);
      } else {
        NumberScalar(token, 0);
      }
    }
    if IsName(token, value) {
      NameReads(token, value);
    } else if p :| IsNumberToken(token, p) && value == NumberMeaning(token, p) {
      NumberEnds(token, value);
      NumberIsScalar(token, 0);
    }
  }

  lemma NumberEnds(token: Text, value: Value)
    requires Number(token, 0) == Scan(value, |token|)
    ensures 0 < |token| && IntegerEnd(token, 0) > 0
  {
    NumberHasParts(token, 0);
  }
}
