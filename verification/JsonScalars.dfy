/** The scalar tokens `json.JSONDecoder.raw_decode` reads (RFC 8259 sections 6 and 7, plus NaN and
    the infinities), and the tokens `json.dumps(..., ensure_ascii=False)` writes. */
module JsonScalars {
  import opened Results
  import opened Texts

  datatype Value =
    | Null
    | Bool(b: bool)
    | Int(n: int)
    | Float(token: Text)
    | Str(s: Text)
    | Arr(items: seq<Value>)
    | Obj(members: seq<Entry>)

  datatype Entry = Entry(key: Text, value: Value)

  /** What a scanner read at a position and where it stopped. */
  datatype Scan<+T> = Scan(value: T, end: nat) | Malformed

  const QUOTE: Code := 0x22
  const BACKSLASH: Code := 0x5C
  const COMMA: Code := 0x2C
  const COLON: Code := 0x3A
  const LBRACKET: Code := 0x5B
  const RBRACKET: Code := 0x5D
  const LBRACE: Code := 0x7B
  const RBRACE: Code := 0x7D
  const LETTER_U: Code := 0x75

  predicate IsSpace(c: int) {
    c == 0x20 || c == 0x0A || c == 0x0D || c == 0x09
  }

  /** The character at `i`, or -1 at the end of the text. */
  function At(t: Text, i: nat): int {
    if i < |t| then t[i] else -1
  }

  /** What may follow a value in a well-formed document. */
  predicate Delimits(c: int) {
    c == -1 || IsSpace(c) || c == COMMA || c == RBRACKET || c == RBRACE
  }

  // ---- Strings ----------------------------------------------------------------------------

  function HexDigit(c: int): Option<nat> {
    if 0x30 <= c <= 0x39 then Some(c - 0x30)
    else if 0x41 <= c <= 0x46 then Some(c - 0x41 + 10)
    else if 0x61 <= c <= 0x66 then Some(c - 0x61 + 10)
    else None
  }

  /** Four hexadecimal digits at `i`. */
  function Hex2(t: Text, i: nat): (r: Option<nat>)
    ensures r.Some? ==> i + 2 <= |t| && r.value < 0x100
  {
    var a, b := HexDigit(At(t, i)), HexDigit(At(t, i + 1));
    if a.Some? && b.Some? then Some(a.value * 16 + b.value) else None
  }

  function Hex4(t: Text, i: nat): (r: Option<nat>)
    ensures r.Some? ==> i + 4 <= |t| && r.value < 0x10000
  {
    var high, low := Hex2(t, i), Hex2(t, i + 2);
    if high.Some? && low.Some? then Some(high.value * 0x100 + low.value) else None
  }

  function SimpleEscape(c: int): Option<Code> {
    if c == 0x22 || c == 0x5C || c == 0x2F then Some(c)
    else if c == 0x62 then Some(8)
    else if c == 0x66 then Some(12)
    else if c == 0x6E then Some(10)
    else if c == 0x72 then Some(13)
    else if c == 0x74 then Some(9)
    else None
  }

  /** The escape after a backslash. A high surrogate joins a low one that follows as an escape;
      a lone surrogate stays as it is. */
  function Escape(t: Text, i: nat): (r: Scan<Code>)
    ensures r.Scan? ==> i < r.end <= |t|
  {
    if At(t, i) == LETTER_U then
      var high := Hex4(t, i + 1);
      if high.None? then Malformed
      else if 0xD800 <= high.value <= 0xDBFF && At(t, i + 5) == BACKSLASH && At(t, i + 6) == LETTER_U then
        var low := Hex4(t, i + 7);
        if low.None? then Malformed
        else if 0xDC00 <= low.value <= 0xDFFF
        then Scan(0x10000 + (high.value - 0xD800) * 0x400 + (low.value - 0xDC00), i + 11)
        else Scan(high.value, i + 5)
      else Scan(high.value, i + 5)
    else
      match SimpleEscape(At(t, i))
      case Some(c) => Scan(c, i + 1)
      case None => Malformed
  }

  /** One code point of a string. */
  function StringStep(t: Text, i: nat): (r: Scan<Code>)
    ensures r.Scan? ==> i < r.end <= |t|
  {
    if i >= |t| || t[i] < 0x20 || t[i] == QUOTE then Malformed
    else if t[i] == BACKSLASH then Escape(t, i + 1)
    else Scan(t[i], i + 1)
  }

  /** The rest of a string behind its opening quote, up to and with its closing quote. */
  function StringBody(t: Text, i: nat): (r: Scan<Text>)
    ensures r.Scan? ==> i < r.end <= |t|
    decreases |t| - i
  {
    if At(t, i) == QUOTE then Scan([], i + 1)
    else
      var step := StringStep(t, i);
      if step.Malformed? then Malformed
      else
        var rest := StringBody(t, step.end);
        if rest.Malformed? then Malformed else Scan([step.value] + rest.value, rest.end)
  }

  // ---- A string token reads the same wherever it stands ----------------------------------

  /** The character `k` behind position `i`. */
  function Behind(t: Text, i: nat, k: nat): int {
    At(t, i + k)
  }

  /** Two texts agree from `i` and `j` on for `n` characters. */
  ghost predicate Agree(t: Text, i: nat, u: Text, j: nat, n: nat) {
    && i + n <= |t|
    && j + n <= |u|
    && forall k: nat {:trigger Behind(t, i, k)} | k < n :: Behind(t, i, k) == Behind(u, j, k)
  }

  lemma Same(t: Text, i: nat, u: Text, j: nat, n: nat, k: nat)
    requires Agree(t, i, u, j, n) && k < n
    ensures At(t, i + k) == At(u, j + k) && i + k < |t| && j + k < |u|
  {
    assert Behind(t, i, k) == Behind(u, j, k);
  }

  lemma SameSlice(t: Text, i: nat, u: Text, j: nat, n: nat, k: nat, m: nat)
    requires Agree(t, i, u, j, n) && k <= m <= n
    ensures t[i + k..i + m] == u[j + k..j + m]
  {
    forall x {:trigger t[i + k..i + m][x]} | 0 <= x < m - k ensures t[i + k..i + m][x] == u[j + k..j + m][x] {
      Same(t, i, u, j, n, k + x);
    }
  }

  lemma SlicesAgree(t: Text, i: nat, u: Text, j: nat, n: nat)
    requires i + n <= |t| && j + n <= |u| && t[i..i + n] == u[j..j + n]
    ensures Agree(t, i, u, j, n)
  {
    forall k: nat | k < n ensures Behind(t, i, k) == Behind(u, j, k) {
      assert t[i..i + n][k] == u[j..j + n][k];
    }
  }

  lemma Hex4IsLocal(t: Text, i: nat, u: Text, j: nat, n: nat, k: nat)
    requires Agree(t, i, u, j, n) && k + 4 <= n
    ensures Hex4(u, j + k) == Hex4(t, i + k)
  {
    Same(t, i, u, j, n, k);
    Same(t, i, u, j, n, k + 1);
    Same(t, i, u, j, n, k + 2);
    Same(t, i, u, j, n, k + 3);
  }

  /** Where a string goes on with a backslash, a valid escape follows inside the string. */
  lemma EscapeInside(t: Text, i: nat, e: nat)
    requires StringBody(t, i).Scan? && StringBody(t, i).end == e && At(t, i) == BACKSLASH
    ensures i + 1 < e && Escape(t, i + 1).Scan? && Escape(t, i + 1).end < e
  {
    assert StringStep(t, i).Scan?;
    assert StringBody(t, StringStep(t, i).end).Scan?;
  }

  lemma UnicodeEscapeIsLocal(t: Text, i: nat, u: Text, j: nat)
    requires At(t, i) == At(u, j) == LETTER_U && Hex4(t, i + 1) == Hex4(u, j + 1)
    requires At(t, i + 5) == At(u, j + 5)
    requires At(t, i + 5) == BACKSLASH ==> At(t, i + 6) == At(u, j + 6)
    requires At(t, i + 5) == BACKSLASH && At(t, i + 6) == LETTER_U ==> Hex4(t, i + 7) == Hex4(u, j + 7)
    requires Escape(t, i).Scan?
    ensures Escape(u, j) == Scan(Escape(t, i).value, Escape(t, i).end - i + j)
  {
  }

  /** What the decoder peeks at behind `\uXXXX` still belongs to the string. */
  lemma PeekIsInside(t: Text, i: nat, e: nat, end: nat)
    requires At(t, i) == LETTER_U && Escape(t, i).Scan? && Escape(t, i).end == e < end
    requires StringBody(t, e).Scan? && StringBody(t, e).end == end
    ensures i + 5 < end
    ensures At(t, i + 5) == BACKSLASH ==> i + 6 < end
    ensures At(t, i + 5) == BACKSLASH && At(t, i + 6) == LETTER_U ==> i + 11 <= end
  {
    if At(t, i + 5) == BACKSLASH && e == i + 5 {
      EscapeInside(t, e, end);
    }
  }

  lemma LongEscapeIsLocal(t: Text, i: nat, u: Text, j: nat, n: nat, k: nat, e: nat)
    requires Agree(t, i, u, j, n) && k < n && At(t, i + k) == LETTER_U
    requires Escape(t, i + k).Scan? && Escape(t, i + k).end == i + e && e < n
    requires StringBody(t, i + e).Scan? && StringBody(t, i + e).end == i + n
    ensures Escape(u, j + k) == Scan(Escape(t, i + k).value, j + e)
  {
    hide StringBody, Hex4, Escape;
    PeekIsInside(t, i + k, i + e, i + n);
    Same(t, i, u, j, n, k);
    Same(t, i, u, j, n, k + 5);
    Hex4IsLocal(t, i, u, j, n, k + 1);
    if At(t, i + k + 5) == BACKSLASH {
      Same(t, i, u, j, n, k + 6);
      if At(t, i + k + 6) == LETTER_U {
        Hex4IsLocal(t, i, u, j, n, k + 7);
      }
    }
    UnicodeEscapeIsLocal(t, i + k, u, j + k);
  }

  lemma StepIsLocal(t: Text, i: nat, u: Text, j: nat, n: nat, k: nat, c: Code, e: nat)
    requires Agree(t, i, u, j, n) && k < n && At(t, i + k) != QUOTE
    requires StringStep(t, i + k) == Scan(c, i + e) && e < n
    requires StringBody(t, i + e).Scan? && StringBody(t, i + e).end == i + n
    ensures At(u, j + k) != QUOTE && StringStep(u, j + k) == Scan(c, j + e)
  {
    Same(t, i, u, j, n, k);
    if At(t, i + k) == BACKSLASH {
      Same(t, i, u, j, n, k + 1);
      if At(t, i + k + 1) == LETTER_U {
        LongEscapeIsLocal(t, i, u, j, n, k + 1, e);
      }
    }
  }

  lemma StringBodyInverts(t: Text, i: nat, body: Text, e: nat)
    requires At(t, i) != QUOTE && StringBody(t, i) == Scan(body, e)
    ensures |body| > 0 && StringStep(t, i).Scan? && StringStep(t, i).value == body[0]
    ensures i < StringStep(t, i).end < e && StringBody(t, StringStep(t, i).end) == Scan(body[1..], e)
  {
    var rest := StringBody(t, StringStep(t, i).end);
    assert body == [StringStep(t, i).value] + rest.value;
    assert body[1..] == rest.value;
  }

  lemma StringBodyExtends(t: Text, i: nat, body: Text, m: nat, e: nat)
    requires |body| > 0 && At(t, i) != QUOTE && StringStep(t, i) == Scan(body[0], m)
    requires StringBody(t, m) == Scan(body[1..], e)
    ensures StringBody(t, i) == Scan(body, e)
  {
    assert [body[0]] + body[1..] == body;
  }

  /** A string token reads the same wherever it stands. */
  lemma {:induction false} StringIsLocal(t: Text, i: nat, u: Text, j: nat, n: nat, k: nat, body: Text)
    requires Agree(t, i, u, j, n) && k < n
    requires StringBody(t, i + k) == Scan(body, i + n)
    ensures StringBody(u, j + k) == Scan(body, j + n)
    decreases n - k
  {
    if At(t, i + k) == QUOTE {
      Same(t, i, u, j, n, k);
    } else {
      StringBodyInverts(t, i + k, body, i + n);
      var m := StringStep(t, i + k).end - i;
      StepIsLocal(t, i, u, j, n, k, body[0], m);
      StringIsLocal(t, i, u, j, n, m, body[1..]);
      StringBodyExtends(u, j + k, body, j + m, j + n);
    }
  }

  // ---- Numbers ----------------------------------------------------------------------------

  function DigitsEnd(t: Text, i: nat): (e: nat)
    requires i <= |t|
    ensures i <= e <= |t| && !IsDigit(At(t, e))
    ensures forall k | i <= k < e :: IsDigit(t[k])
    decreases |t| - i
  {
    if IsDigit(At(t, i)) then DigitsEnd(t, i + 1) else i
  }

  /** `-?(?:0|[1-9]\d*)` at `i`; no integer when it ends where it starts. */
  function IntegerEnd(t: Text, i: nat): (e: nat)
    requires i <= |t|
    ensures i <= e <= |t|
  {
    var j := if At(t, i) == MINUS then i + 1 else i;
    if At(t, j) == ZERO then j + 1
    else if IsDigit(At(t, j)) then DigitsEnd(t, j)
    else i
  }

  /** `(\.\d+)?` at `i`. */
  function FractionEnd(t: Text, i: nat): (e: nat)
    requires i <= |t|
    ensures i <= e <= |t|
  {
    if At(t, i) == DOT && IsDigit(At(t, i + 1)) then DigitsEnd(t, i + 1) else i
  }

  /** `([eE][-+]?\d+)?` at `i`. */
  function ExponentEnd(t: Text, i: nat): (e: nat)
    requires i <= |t|
    ensures i <= e <= |t|
  {
    if At(t, i) == 0x65 || At(t, i) == 0x45 then
      var j := if At(t, i + 1) == MINUS || At(t, i + 1) == 0x2B then i + 2 else i + 1;
      if IsDigit(At(t, j)) then DigitsEnd(t, j) else i
    else i
  }

  /** `int(token)` of an integer token. */
  function IntegerValue(token: Text): int {
    if |token| > 0 && token[0] == MINUS then -SignlessValue(token[1..]) else SignlessValue(token)
  }

  function SignlessValue(token: Text): int {
    if AllDigits(token) then NatValue(token) else 0
  }

  function Number(t: Text, i: nat): (r: Scan<Value>)
    requires i <= |t|
    ensures r.Scan? ==> i < r.end <= |t|
  {
    var j := IntegerEnd(t, i);
    var e := ExponentEnd(t, FractionEnd(t, j));
    if j == i then Malformed else Scan(NumberValue(t[i..e], e == j), e)
  }

  function NumberValue(token: Text, integer: bool): Value {
    if integer then Int(IntegerValue(token)) else Float(token)
  }

  // ---- Scalars ----------------------------------------------------------------------------

  const NULL := Chars("null")
  const TRUE := Chars("true")
  const FALSE := Chars("false")
  const NAN := Chars("NaN")
  const INFINITY := Chars("Infinity")
  const NEGATIVE_INFINITY := Chars("-Infinity")

  /** `raw_decode` on a value that is no object and no array. */
  function Scalar(t: Text, i: nat): (r: Scan<Value>)
    requires i <= |t|
    ensures r.Scan? ==> i < r.end <= |t|
  {
    if At(t, i) == QUOTE then
      var body := StringBody(t, i + 1);
      if body.Malformed? then Malformed else Scan(Str(body.value), body.end)
    else if HoldsAt(t, i, NULL) then Scan(Null, i + 4)
    else if HoldsAt(t, i, TRUE) then Scan(Bool(true), i + 4)
    else if HoldsAt(t, i, FALSE) then Scan(Bool(false), i + 5)
    else if HoldsAt(t, i, NAN) then Scan(Float(NAN), i + 3)
    else if HoldsAt(t, i, INFINITY) then Scan(Float(INFINITY), i + 8)
    else if HoldsAt(t, i, NEGATIVE_INFINITY) then Scan(Float(NEGATIVE_INFINITY), i + 9)
    else Number(t, i)
  }

  // ---- A token reads the same wherever a delimiter follows it ----------------------------

  /** The same token stands in both texts, and neither text goes on with more of it. */
  ghost predicate SameToken(t: Text, i: nat, u: Text, j: nat, n: nat) {
    Agree(t, i, u, j, n) && Delimits(At(t, i + n)) && Delimits(At(u, j + n))
  }

  lemma {:induction false} DigitsEndIs(t: Text, i: nat, e: nat)
    requires i <= e <= |t| && !IsDigit(At(t, e))
    requires forall k | i <= k < e :: IsDigit(t[k])
    ensures DigitsEnd(t, i) == e
    decreases e - i
  {
    if i < e {
      DigitsEndIs(t, i + 1, e);
    }
  }

  /** Inside the token both texts show the same character; behind it neither shows a digit,
      a sign, a dot or a letter. */
  lemma SameTokenAt(t: Text, i: nat, u: Text, j: nat, n: nat, k: nat)
    requires SameToken(t, i, u, j, n) && k <= n
    ensures At(t, i + k) == At(u, j + k) || (k == n && Delimits(At(t, i + k)) && Delimits(At(u, j + k)))
  {
    if k < n { Same(t, i, u, j, n, k); }
  }

  lemma DigitsAreLocal(t: Text, i: nat, u: Text, j: nat, n: nat, k: nat, e: nat)
    requires SameToken(t, i, u, j, n)
    requires k <= e <= n && DigitsEnd(t, i + k) == i + e
    ensures DigitsEnd(u, j + k) == j + e
  {
    SameTokenAt(t, i, u, j, n, e);
    forall x | j + k <= x < j + e ensures IsDigit(u[x]) {
      Same(t, i, u, j, n, x - j);
      assert IsDigit(t[i + (x - j)]);
    }
    DigitsEndIs(u, j + k, j + e);
  }

  lemma IntegerIsLocal(t: Text, i: nat, u: Text, j: nat, n: nat, e: nat)
    requires SameToken(t, i, u, j, n)
    requires 0 < e <= n && IntegerEnd(t, i) == i + e
    ensures IntegerEnd(u, j) == j + e
  {
    SameTokenAt(t, i, u, j, n, 0);
    if At(t, i) == MINUS {
      SameTokenAt(t, i, u, j, n, 1);
      if At(t, i + 1) != ZERO {
        DigitsAreLocal(t, i, u, j, n, 1, e);
      }
    } else if At(t, i) != ZERO {
      DigitsAreLocal(t, i, u, j, n, 0, e);
    }
  }

  lemma FractionIsLocal(t: Text, i: nat, u: Text, j: nat, n: nat, k: nat, e: nat)
    requires SameToken(t, i, u, j, n)
    requires k <= e <= n && FractionEnd(t, i + k) == i + e
    ensures FractionEnd(u, j + k) == j + e
  {
    SameTokenAt(t, i, u, j, n, k);
    if k < n {
      SameTokenAt(t, i, u, j, n, k + 1);
      if e > k {
        DigitsAreLocal(t, i, u, j, n, k + 1, e);
      }
    }
  }

  lemma ExponentIsLocal(t: Text, i: nat, u: Text, j: nat, n: nat, k: nat)
    requires SameToken(t, i, u, j, n)
    requires k <= n && ExponentEnd(t, i + k) == i + n
    ensures ExponentEnd(u, j + k) == j + n
  {
    SameTokenAt(t, i, u, j, n, k);
    if k < n {
      SameTokenAt(t, i, u, j, n, k + 1);
      var m := if At(t, i + k + 1) == MINUS || At(t, i + k + 1) == 0x2B then k + 2 else k + 1;
      SameTokenAt(t, i, u, j, n, m);
      DigitsAreLocal(t, i, u, j, n, m, n);
    }
  }

  lemma NumberParts(t: Text, i: nat, j: nat, f: nat, e: nat)
    requires i <= |t| && j == IntegerEnd(t, i) && i < j && f == FractionEnd(t, j) && e == ExponentEnd(t, f)
    ensures Number(t, i) == Scan(NumberValue(t[i..e], e == j), e)
  {
  }

  lemma NumberPartsAreLocal(t: Text, i: nat, u: Text, j: nat, n: nat, p: nat, q: nat)
    requires SameToken(t, i, u, j, n) && 0 < p <= q <= n
    requires IntegerEnd(t, i) == i + p && FractionEnd(t, i + p) == i + q && ExponentEnd(t, i + q) == i + n
    ensures IntegerEnd(u, j) == j + p && FractionEnd(u, j + p) == j + q && ExponentEnd(u, j + q) == j + n
  {
    IntegerIsLocal(t, i, u, j, n, p);
    FractionIsLocal(t, i, u, j, n, p, q);
    ExponentIsLocal(t, i, u, j, n, q);
  }

  lemma TokenFits(t: Text, i: nat, u: Text, j: nat, n: nat)
    requires SameToken(t, i, u, j, n)
    ensures i + n <= |t| && j + n <= |u| && Agree(t, i, u, j, n)
  {
  }

  lemma NumberHasParts(t: Text, i: nat)
    requires i <= |t| && Number(t, i).Scan?
    ensures i < IntegerEnd(t, i) && Number(t, i).end == ExponentEnd(t, FractionEnd(t, IntegerEnd(t, i)))
  {
    hide NumberValue, IntegerEnd, FractionEnd, ExponentEnd;
  }

  lemma NumberIsLocal(t: Text, i: nat, u: Text, j: nat, n: nat, v: Value)
    requires SameToken(t, i, u, j, n)
    requires Number(t, i) == Scan(v, i + n)
    ensures Number(u, j) == Scan(v, j + n)
  {
    hide Number, NumberValue, IntegerEnd, FractionEnd, ExponentEnd, SameToken;
    TokenFits(t, i, u, j, n);
    NumberHasParts(t, i);
    var p := IntegerEnd(t, i) - i;
    var q := FractionEnd(t, i + p) - i;
    NumberParts(t, i, i + p, i + q, i + n);
    NumberPartsAreLocal(t, i, u, j, n, p, q);
    NumberParts(u, j, j + p, j + q, j + n);
    SameSlice(t, i, u, j, n, 0, n);
  }

  lemma HoldsMoves(t: Text, i: nat, u: Text, j: nat, n: nat, s: Text)
    requires Agree(t, i, u, j, n) && |s| <= n
    ensures HoldsAt(t, i, s) <==> HoldsAt(u, j, s)
  {
    SameSlice(t, i, u, j, n, 0, |s|);
  }

  lemma HoldsChar(t: Text, i: nat, s: Text, k: nat)
    requires HoldsAt(t, i, s) && k < |s|
    ensures At(t, i + k) == s[k]
  {
    assert t[i..i + |s|][k] == t[i + k];
  }

  lemma HoldsPair(t: Text, i: nat, s: Text)
    requires HoldsAt(t, i, s) && |s| >= 2
    ensures At(t, i) == s[0] && At(t, i + 1) == s[1]
  {
    HoldsChar(t, i, s, 0);
    HoldsChar(t, i, s, 1);
  }

  /** No literal stands where a number does. */
  lemma NumberIsNoLiteral(t: Text, i: nat)
    requires i < |t| && IntegerEnd(t, i) > i
    ensures t[i] != QUOTE
    ensures !HoldsAt(t, i, NULL) && !HoldsAt(t, i, TRUE) && !HoldsAt(t, i, FALSE)
    ensures !HoldsAt(t, i, NAN) && !HoldsAt(t, i, INFINITY) && !HoldsAt(t, i, NEGATIVE_INFINITY)
  {
    if HoldsAt(t, i, NULL) { HoldsChar(t, i, NULL, 0); }
    if HoldsAt(t, i, TRUE) { HoldsChar(t, i, TRUE, 0); }
    if HoldsAt(t, i, FALSE) { HoldsChar(t, i, FALSE, 0); }
    if HoldsAt(t, i, NAN) { HoldsChar(t, i, NAN, 0); }
    if HoldsAt(t, i, INFINITY) { HoldsChar(t, i, INFINITY, 0); }
    if HoldsAt(t, i, NEGATIVE_INFINITY) { HoldsPair(t, i, NEGATIVE_INFINITY); }
  }

  /** The literals in the order `raw_decode` tries them. */
  const LITERALS: seq<(Text, Value)> :=
    [(NULL, Null), (TRUE, Bool(true)), (FALSE, Bool(false)), (NAN, Float(NAN)), (INFINITY, Float(INFINITY)),
     (NEGATIVE_INFINITY, Float(NEGATIVE_INFINITY))]

  /** Two literals that stand at one position are the same literal. */
  lemma LiteralsDiffer(t: Text, i: nat, a: nat, b: nat)
    requires a < 6 && b < 6 && HoldsAt(t, i, LITERALS[a].0) && HoldsAt(t, i, LITERALS[b].0)
    ensures a == b
  {
    HoldsChar(t, i, LITERALS[a].0, 0);
    HoldsChar(t, i, LITERALS[b].0, 0);
  }

  lemma LiteralScalar(t: Text, i: nat, a: nat)
    requires i <= |t| && a < 6 && HoldsAt(t, i, LITERALS[a].0)
    ensures Scalar(t, i) == Scan(LITERALS[a].1, i + |LITERALS[a].0|)
  {
    HoldsChar(t, i, LITERALS[a].0, 0);
    forall b: nat | b < 6 && b != a ensures !HoldsAt(t, i, LITERALS[b].0) {
      if HoldsAt(t, i, LITERALS[b].0) { LiteralsDiffer(t, i, a, b); }
    }
    assert !HoldsAt(t, i, LITERALS[0].0) || a == 0;
    assert !HoldsAt(t, i, LITERALS[1].0) || a == 1;
    assert !HoldsAt(t, i, LITERALS[2].0) || a == 2;
    assert !HoldsAt(t, i, LITERALS[3].0) || a == 3;
    assert !HoldsAt(t, i, LITERALS[4].0) || a == 4;
    assert !HoldsAt(t, i, LITERALS[5].0) || a == 5;
  }

  predicate NoLiteral(t: Text, i: nat) {
    forall a: nat | a < 6 :: !HoldsAt(t, i, LITERALS[a].0)
  }

  lemma NumberScalar(t: Text, i: nat)
    requires i < |t| && t[i] != QUOTE && NoLiteral(t, i)
    ensures Scalar(t, i) == Number(t, i)
  {
    hide Number, HoldsAt;
    assert !HoldsAt(t, i, LITERALS[0].0) && !HoldsAt(t, i, LITERALS[1].0) && !HoldsAt(t, i, LITERALS[2].0);
    assert !HoldsAt(t, i, LITERALS[3].0) && !HoldsAt(t, i, LITERALS[4].0) && !HoldsAt(t, i, LITERALS[5].0);
  }

  lemma LiteralsAreLocal(t: Text, i: nat, u: Text, j: nat, n: nat)
    requires SameToken(t, i, u, j, n) && NoLiteral(t, i) && IntegerEnd(t, i) > i && IntegerEnd(u, j) > j
    requires i < |t| && j < |u|
    ensures NoLiteral(u, j)
  {
    hide HoldsAt, IntegerEnd;
    NumberIsNoLiteral(u, j);
    forall a: nat | a < 6 ensures !HoldsAt(u, j, LITERALS[a].0) {
      assert LITERALS[a].0 in [NULL, TRUE, FALSE, NAN, INFINITY, NEGATIVE_INFINITY];
    }
  }

  /** A scalar token reads the same wherever it stands before a delimiter: a replaced token ends
      where its own text ends. */
  lemma ScalarIsLocal(t: Text, i: nat, u: Text, j: nat, n: nat, v: Value)
    requires SameToken(t, i, u, j, n) && i <= |t| && j <= |u| && Scalar(t, i) == Scan(v, i + n)
    ensures Scalar(u, j) == Scan(v, j + n)
  {
    hide StringBody, IntegerEnd, NumberValue, FractionEnd, ExponentEnd, HoldsAt;
    Same(t, i, u, j, n, 0);
    if t[i] == QUOTE {
      StringIsLocal(t, i, u, j, n, 1, v.s);
    } else if a: nat :| a < 6 && HoldsAt(t, i, LITERALS[a].0) {
      LiteralScalar(t, i, a);
      HoldsMoves(t, i, u, j, n, LITERALS[a].0);
      LiteralScalar(u, j, a);
    } else {
      NumberScalar(t, i);
      NumberIsLocal(t, i, u, j, n, v);
      LiteralsAreLocal(t, i, u, j, n);
      NumberScalar(u, j);
    }
  }

  // ---- Tokens json.dumps writes -----------------------------------------------------------

  function HexText(n: nat): Code
    requires n < 16
  {
    if n < 10 then 0x30 + n else 0x61 + n - 10
  }

  /** One code point inside a written string. */
  function DumpCode(c: Code): (t: Text)
    ensures |t| > 0
  {
    if c == QUOTE || c == BACKSLASH then [BACKSLASH, c]
    else if c == 10 then [BACKSLASH, 0x6E]
    else if c == 13 then [BACKSLASH, 0x72]
    else if c == 9 then [BACKSLASH, 0x74]
    else if c == 12 then [BACKSLASH, 0x66]
    else if c == 8 then [BACKSLASH, 0x62]
    else if 0 <= c < 0x20 then [BACKSLASH, LETTER_U, 0x30, 0x30, HexText(c / 16), HexText(c % 16)]
    else [c]
  }

  function DumpCodes(s: Text): Text {
    if s == [] then [] else DumpCode(s[0]) + DumpCodes(s[1..])
  }

  function DumpString(s: Text): Text {
    [QUOTE] + (DumpCodes(s) + [QUOTE])
  }

  /** What an owned version field can hold, and what a projection yields. */
  datatype Field = Count(n: int) | Word(s: Text)

  function Dump(f: Field): Text {
    match f
    case Count(n) => IntText(n)
    case Word(s) => DumpString(s)
  }

  predicate IsField(f: Field) {
    f.Word? ==> IsText(f.s)
  }

  function FieldValue(f: Field): Value {
    match f
    case Count(n) => Int(n)
    case Word(s) => Str(s)
  }

  lemma HexTextReads(n: nat)
    requires n < 16
    ensures HexDigit(HexText(n)) == Some(n)
  {
  }

  lemma ControlCodeReads(t: Text, i: nat, c: Code)
    requires 0 <= c < 0x20 && HoldsAt(t, i, [LETTER_U, 0x30, 0x30, HexText(c / 16), HexText(c % 16)])
    ensures Escape(t, i) == Scan(c, i + 5)
  {
    var w: Text := [LETTER_U, 0x30, 0x30, HexText(c / 16), HexText(c % 16)];
    HoldsChar(t, i, w, 0);
    HoldsChar(t, i, w, 1);
    HoldsChar(t, i, w, 2);
    HoldsChar(t, i, w, 3);
    HoldsChar(t, i, w, 4);
    HexTextReads(c / 16);
    HexTextReads(c % 16);
    assert Hex4(t, i + 1) == Some(c);
  }

  /** Every written code point is read back in one step. */
  lemma DumpCodeReads(t: Text, i: nat, c: Code)
    requires c >= 0 && HoldsAt(t, i, DumpCode(c))
    ensures At(t, i) != QUOTE && StringStep(t, i) == Scan(c, i + |DumpCode(c)|)
  {
    HoldsChar(t, i, DumpCode(c), 0);
    if |DumpCode(c)| > 1 {
      HoldsChar(t, i, DumpCode(c), 1);
      if |DumpCode(c)| > 2 {
        HoldsSplit(t, i, [BACKSLASH], DumpCode(c)[1..]);
        assert DumpCode(c) == [BACKSLASH] + DumpCode(c)[1..];
        ControlCodeReads(t, i + 1, c);
      }
    }
  }

  lemma DumpCodesSplit(t: Text, i: nat, s: Text)
    requires |s| > 0 && HoldsAt(t, i, DumpCodes(s) + [QUOTE])
    ensures HoldsAt(t, i, DumpCode(s[0]))
    ensures HoldsAt(t, i + |DumpCode(s[0])|, DumpCodes(s[1..]) + [QUOTE])
    ensures |DumpCodes(s)| == |DumpCode(s[0])| + |DumpCodes(s[1..])|
  {
    hide DumpCode, HoldsAt;
    var rest := DumpCodes(s[1..]) + [QUOTE];
    assert DumpCodes(s) + [QUOTE] == DumpCode(s[0]) + rest;
    HoldsSplit(t, i, DumpCode(s[0]), rest);
  }

  lemma {:induction false} DumpCodesRead(t: Text, i: nat, s: Text, e: nat)
    requires IsText(s) && HoldsAt(t, i, DumpCodes(s) + [QUOTE]) && e == i + |DumpCodes(s)| + 1
    ensures StringBody(t, i) == Scan(s, e)
    decreases s
  {
    hide DumpCode, StringStep, HoldsAt;
    if s == [] {
      HoldsChar(t, i, [] + [QUOTE], 0);
    } else {
      DumpCodesSplit(t, i, s);
      DumpCodesRead(t, i + |DumpCode(s[0])|, s[1..], e);
      DumpCodeReads(t, i, s[0]);
      StringBodyExtends(t, i, s, i + |DumpCode(s[0])|, e);
    }
  }

  lemma DigitRunEnd(t: Text, i: nat, w: Text)
    requires AllDigits(w) && HoldsAt(t, i, w) && !IsDigit(At(t, i + |w|))
    ensures DigitsEnd(t, i) == i + |w|
  {
    forall k | i <= k < i + |w| ensures IsDigit(t[k]) {
      HoldsChar(t, i, w, k - i);
    }
    DigitsEndIs(t, i, i + |w|);
  }

  lemma NumeralReads(t: Text, i: nat, n: nat)
    requires HoldsAt(t, i, NatText(n)) && Delimits(At(t, i + |NatText(n)|))
    ensures IntegerEnd(t, i) == i + |NatText(n)| && IsDigit(At(t, i))
    ensures FractionEnd(t, i + |NatText(n)|) == i + |NatText(n)| == ExponentEnd(t, i + |NatText(n)|)
  {
    HoldsChar(t, i, NatText(n), 0);
    DigitRunEnd(t, i, NatText(n));
  }

  lemma IntegerTextValue(n: int)
    ensures NumberValue(IntText(n), true) == Int(n)
  {
    hide NatText, NatValue;
    if n < 0 {
      assert IntText(n)[1..] == NatText(-n);
      NatTextValue(-n);
    } else {
      NatTextValue(n);
    }
  }

  lemma HoldsSlice(t: Text, i: nat, s: Text)
    requires HoldsAt(t, i, s)
    ensures i + |s| <= |t| && t[i..i + |s|] == s
  {
  }

  lemma SignedEnd(t: Text, i: nat)
    requires i < |t| && At(t, i) == MINUS && IsDigit(At(t, i + 1))
    ensures IntegerEnd(t, i) == IntegerEnd(t, i + 1)
  {
    hide DigitsEnd;
  }

  lemma IntegerEnds(t: Text, i: nat, n: int)
    requires HoldsAt(t, i, IntText(n)) && Delimits(At(t, i + |IntText(n)|))
    ensures var e := i + |IntText(n)|;
      i < e <= |t| && t[i..e] == IntText(n) && IntegerEnd(t, i) == FractionEnd(t, e) == ExponentEnd(t, e) == e
  {
    hide HoldsAt, IntegerEnd, FractionEnd, ExponentEnd, Delimits, NatText, AllDigits, IsDigit;
    HoldsSlice(t, i, IntText(n));
    if n < 0 {
      HoldsSplit(t, i, [MINUS], NatText(-n));
      HoldsChar(t, i, [MINUS], 0);
      NumeralReads(t, i + 1, -n);
      SignedEnd(t, i);
    } else {
      NumeralReads(t, i, n);
    }
  }

  lemma IntegerReads(t: Text, i: nat, n: int)
    requires HoldsAt(t, i, IntText(n)) && Delimits(At(t, i + |IntText(n)|))
    ensures Number(t, i) == Scan(Int(n), i + |IntText(n)|)
    ensures IntegerEnd(t, i) > i
  {
    hide Number, NumberValue, IntegerEnd, FractionEnd, ExponentEnd, Delimits, IntText;
    var e := i + |IntText(n)|;
    IntegerEnds(t, i, n);
    NumberParts(t, i, e, e, e);
    IntegerTextValue(n);
  }

  lemma NumberIsScalar(t: Text, i: nat)
    requires i < |t| && IntegerEnd(t, i) > i
    ensures Scalar(t, i) == Number(t, i)
  {
    hide Number, HoldsAt, IntegerEnd;
    NumberIsNoLiteral(t, i);
  }

  lemma WordReads(t: Text, i: nat, s: Text)
    requires IsText(s) && HoldsAt(t, i, DumpString(s))
    ensures Scalar(t, i) == Scan(Str(s), i + |DumpString(s)|)
  {
    hide DumpCodes;
    HoldsSplit(t, i, [QUOTE], DumpCodes(s) + [QUOTE]);
    HoldsChar(t, i, [QUOTE], 0);
    DumpCodesRead(t, i + 1, s, i + |DumpString(s)|);
  }

  /** `json.loads(json.dumps(x)) == x` for the values the edits write, wherever the token is put. */
  lemma DumpReads(t: Text, i: nat, f: Field)
    requires IsField(f) && HoldsAt(t, i, Dump(f)) && Delimits(At(t, i + |Dump(f)|))
    ensures Scalar(t, i) == Scan(FieldValue(f), i + |Dump(f)|)
  {
    hide Number, DumpCodes, IntText, Scalar, HoldsAt, Delimits;
    match f
    case Count(n) =>
      IntegerReads(t, i, n);
      NumberIsNoLiteral(t, i);
      NumberIsScalar(t, i);
    case Word(s) => WordReads(t, i, s);
  }
}
