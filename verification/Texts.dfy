/** Python strings as sequences of code points, and canonical decimal numerals. */
module Texts {

  type Code = int

  type Text = seq<Code>

  /** The code points a Python string can hold, lone surrogates included. */
  predicate IsText(t: Text) {
    forall i | 0 <= i < |t| :: 0 <= t[i] < 0x110000
  }

  const ZERO: Code := 0x30
  const MINUS: Code := 0x2D
  const DOT: Code := 0x2E

  predicate IsDigit(c: int) {
    0x30 <= c <= 0x39
  }

  predicate AllDigits(t: Text) {
    forall i | 0 <= i < |t| :: IsDigit(t[i])
  }

  /** The code points of a literal. */
  function Chars(s: string): (t: Text)
    ensures |t| == |s|
    ensures forall i | 0 <= i < |s| :: t[i] == s[i] as int
  {
    seq(|s|, i requires 0 <= i < |s| => s[i] as int)
  }

  /** `s` stands in `t` at position `i`. */
  predicate HoldsAt(t: Text, i: nat, s: Text) {
    i + |s| <= |t| && t[i..i + |s|] == s
  }

  lemma HoldsSplit(t: Text, i: nat, a: Text, b: Text)
    ensures HoldsAt(t, i, a + b) <==> HoldsAt(t, i, a) && HoldsAt(t, i + |a|, b)
  {
    if i + |a| + |b| <= |t| {
      var s := t[i..i + |a| + |b|];
      assert s[..|a|] == t[i..i + |a|];
      assert s[|a|..] == t[i + |a|..i + |a| + |b|];
      assert s == s[..|a|] + s[|a|..];
      if s == a + b {
        assert s[..|a|] == a && s[|a|..] == b;
      }
    }
  }

  // ---- Decimal numerals -------------------------------------------------------------------

  /** The number a run of digits denotes, as `int(text)` reads it. */
  function NatValue(t: Text): (n: nat)
    requires AllDigits(t)
  {
    if t == [] then 0 else NatValue(t[..|t| - 1]) * 10 + (t[|t| - 1] - 0x30)
  }

  /** `str(n)` for a natural number. */
  function NatText(n: nat): (t: Text)
    ensures AllDigits(t) && |t| >= 1
    ensures t[0] == ZERO ==> n == 0 && |t| == 1
  {
    if n < 10 then [0x30 + n] else NatText(n / 10) + [0x30 + n % 10]
  }

  lemma {:induction false} NatTextValue(n: nat)
    ensures NatValue(NatText(n)) == n
  {
    if n >= 10 {
      var t := NatText(n);
      assert t[..|t| - 1] == NatText(n / 10);
      NatTextValue(n / 10);
    } else {
      assert NatText(n)[..0] == [];
    }
  }

  lemma NatTextInjective(m: nat, n: nat)
    requires NatText(m) == NatText(n)
    ensures m == n
  {
    NatTextValue(m);
    NatTextValue(n);
  }

  /** The numerals that `[1-9]\d*` and `0` accept, without leading zeros. */
  predicate IsNumeral(t: Text) {
    |t| >= 1 && AllDigits(t) && (t[0] == ZERO ==> |t| == 1)
  }

  lemma {:induction false} NumeralIsCanonical(t: Text)
    requires IsNumeral(t)
    ensures NatText(NatValue(t)) == t
    ensures t[0] != ZERO ==> NatValue(t) > 0
  {
    var init, last := t[..|t| - 1], t[|t| - 1];
    if init == [] {
      assert NatValue(init) == 0;
      assert t == [last];
    } else {
      assert IsNumeral(init);
      NumeralIsCanonical(init);
      assert NatValue(t) / 10 == NatValue(init);
      assert t == init + [last];
    }
  }

  /** `str(n)` for any integer. */
  function IntText(n: int): (t: Text) {
    if n < 0 then [MINUS] + NatText(-n) else NatText(n)
  }
}
