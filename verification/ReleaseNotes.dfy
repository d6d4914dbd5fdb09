/** The release-note scanner (scripts/release_control.py): comment masking, fences, headings and sections.
    Every transformation keeps offsets, so slices of the masked and the original text stay aligned. */
module ReleaseNotes {
  import opened Results
  import opened Texts
  import opened CodeSpans

  const SPACE: Code := 0x20
  const TAB: Code := 0x09
  const RETURN: Code := 0x0D
  const NEWLINE: Code := 0x0A
  const BACKSLASH: Code := 0x5C
  const TILDE: Code := 0x7E
  const HASH: Code := 0x23
  const OPEN: Text := [0x3C, 0x21, 0x2D, 0x2D]
  const CLOSE: Text := [0x2D, 0x2D, 0x3E]

  // ---- Comments in one line ---------------------------------------------------------------

  /** `line.find("-->", p)`. */
  function FindClose(line: Text, p: nat): (r: Option<nat>)
    ensures r.Some? ==> p <= r.value && HoldsAt(line, r.value, CLOSE)
                        && forall q | p <= q < r.value :: !HoldsAt(line, q, CLOSE)
    ensures r.None? ==> forall q | p <= q :: !HoldsAt(line, q, CLOSE)
    decreases |line| - p
  {
    if p >= |line| then None
    else if HoldsAt(line, p, CLOSE) then Some(p)
    else FindClose(line, p + 1)
  }

  function Blank(c: Code): Code {
    if c == RETURN || c == NEWLINE then c else SPACE
  }

  function Blanked(t: Text): (r: Text)
    ensures |r| == |t| && forall i | 0 <= i < |t| :: r[i] == Blank(t[i])
  {
    seq(|t|, i requires 0 <= i < |t| => Blank(t[i]))
  }

  lemma SpanBound(line: Text, p: nat)
    requires p < |line| && SpanEnd(line, p).Some?
    ensures p < SpanEnd(line, p).value <= |line|
  {
    var start := SpanFound(line, p);
  }

  function After(line: Text, p: nat): nat {
    if p <= |line| then p else |line|
  }

  /** One round of the scan: where it goes on, whether in a comment, and whether it masks what it passes. */
  datatype Move = Move(next: nat, comment: bool, masks: bool)

  /** Entering a comment does not advance; the round after it does. */
  function Next(line: Text, p: nat, comment: bool): (m: Move)
    requires p < |line|
    ensures p <= m.next <= |line| && (p == m.next ==> !comment && m.comment)
  {
    if comment then
      match FindClose(line, p)
      case None => Move(|line|, true, true)
      case Some(e) => Move(e + 3, false, true)
    else if line[p] == BACKSLASH then Move(After(line, p + 2), false, false)
    else if SpanEnd(line, p).Some? then
      SpanBound(line, p);
      Move(SpanEnd(line, p).value, false, false)
    else if HoldsAt(line, p, OPEN) then Move(p, true, false)
    else Move(p + 1, false, false)
  }

  datatype Masking = Masking(text: Text, comment: bool)

  function Passed(line: Text, p: nat, m: Move): (t: Text)
    requires p <= m.next <= |line|
    ensures |t| == m.next - p
  {
    if m.masks then Blanked(line[p..m.next]) else line[p..m.next]
  }

  /** The masked rest of a line from `p` on. */
  function Mask(line: Text, p: nat, comment: bool): Masking
    requires p <= |line|
    decreases |line| - p, if comment then 0 else 1
  {
    if p == |line| then Masking([], comment)
    else
      var m := Next(line, p, comment);
      var rest := Mask(line, m.next, m.comment);
      Masking(Passed(line, p, m) + rest.text, rest.comment)
  }

  lemma MaskUnrolls(line: Text, p: nat, comment: bool)
    requires p < |line|
    ensures var m := Next(line, p, comment);
      && Mask(line, p, comment).text == Passed(line, p, m) + Mask(line, m.next, m.comment).text
      && Mask(line, p, comment).comment == Mask(line, m.next, m.comment).comment
  {
  }

  lemma MaskEnds(line: Text, comment: bool)
    ensures Mask(line, |line|, comment) == Masking([], comment)
  {
  }

  /** The line is masked up to `p`, and the rest is still to do. */
  predicate SoFar(line: Text, start: bool, visible: Text, p: nat, comment: bool) {
    && p <= |line| == |visible| && visible[p..] == line[p..]
    && visible[..p] + Mask(line, p, comment).text == Mask(line, 0, start).text
    && Mask(line, p, comment).comment == Mask(line, 0, start).comment
  }

  function Rewritten(line: Text, visible: Text, p: nat, m: Move): Text
    requires p <= m.next <= |line| == |visible|
  {
    if m.masks then visible[..p] + Blanked(line[p..m.next]) + visible[m.next..] else visible
  }

  lemma SoFarStarts(line: Text, start: bool)
    ensures SoFar(line, start, line, 0, start)
  {
    assert line[..0] + Mask(line, 0, start).text == Mask(line, 0, start).text;
  }

  lemma SoFarMoves(line: Text, start: bool, visible: Text, p: nat, comment: bool)
    requires SoFar(line, start, visible, p, comment) && p < |line|
    ensures var m := Next(line, p, comment);
      |visible| == |line| && SoFar(line, start, Rewritten(line, visible, p, m), m.next, m.comment)
  {
    hide Mask, Next;
    var m := Next(line, p, comment);
    var next := Rewritten(line, visible, p, m);
    MaskUnrolls(line, p, comment);
    assert visible[p..][..m.next - p] == line[p..][..m.next - p];
    assert visible[p..][m.next - p..] == line[p..][m.next - p..];
    assert next[..m.next] == visible[..p] + Passed(line, p, m);
    assert next[m.next..] == line[m.next..];
  }

  lemma SoFarEnds(line: Text, start: bool, visible: Text, comment: bool)
    requires SoFar(line, start, visible, |line|, comment)
    ensures Masking(visible, comment) == Mask(line, 0, start)
  {
    assert visible[..|line|] == visible;
  }

  /** `_release_comment_line`. */
  method MaskLine(line: Text, comment: bool) returns (r: Masking)
    ensures r == Mask(line, 0, comment)
  {
    hide SpanEnd, FindClose, Mask, SoFar, HoldsAt;
    var visible := line;
    var ends := CodeSpanEnds(line);
    var open := comment;
    var position := 0;
    SoFarStarts(line, comment);
    while position < |line|
      invariant SoFar(line, comment, visible, After(line, position), open)
      decreases |line| - position, if open then 0 else 1
    {
      SoFarMoves(line, comment, visible, position, open);
      if open {
        var end := FindClose(line, position);
        var stop := if end.None? then |line| else end.value + 3;
        visible := visible[..position] + Blanked(line[position..stop]) + visible[stop..];
        position := stop;
        open := end.None?;
      } else if line[position] == BACKSLASH {
        position := position + 2;
      } else if position in ends {
        position := ends[position];
      } else if HoldsAt(line, position, OPEN) {
        open := true;
      } else {
        position := position + 1;
      }
    }
    SoFarEnds(line, comment, visible, open);
    r := Masking(visible, open);
  }

  /** `masked` has the length and line breaks of `t`, and differs from it only in spaces. */
  predicate Masks(t: Text, masked: Text) {
    |masked| == |t|
    && forall i | 0 <= i < |t| :: masked[i] == t[i] || (masked[i] == 0x20 && t[i] != 0x0D && t[i] != 0x0A)
  }

  lemma {:induction false} MaskMasks(line: Text, p: nat, comment: bool)
    requires p <= |line|
    ensures Masks(line[p..], Mask(line, p, comment).text)
    decreases |line| - p, if comment then 0 else 1
  {
    hide Next;
    if p < |line| {
      var m := Next(line, p, comment);
      MaskMasks(line, m.next, m.comment);
      assert line[p..] == line[p..m.next] + line[m.next..];
    }
  }

  // ---- What is masked ---------------------------------------------------------------------

  /** A comment that begins at `b` reaches beyond `i`: no `-->` from `b` on ends at or before `i`. */
  predicate Reaches(line: Text, b: nat, i: nat) {
    b <= i && forall q | b <= q && q + 3 <= i :: !HoldsAt(line, q, CLOSE)
  }

  /** A comment begins at `b`: the open one of the lines before, or one that stands free. */
  ghost predicate Begins(line: Text, open: bool, b: nat)
    decreases b, 1
  {
    if open && b == 0 then true else HoldsAt(line, b, OPEN) && Free(line, open, b)
  }

  /** No comment, code span or backslash that begins before `p` takes `p` in. */
  ghost predicate Free(line: Text, open: bool, p: nat)
    decreases p, 0
  {
    forall b: nat | b < p && b < |line| :: !Takes(line, open, b, p)
  }

  /** What begins at `b` takes `p` in: a comment up to its end, a backslash the next character, a code span
      all up to its closing run. A backslash or a span only begins where nothing before takes it in. */
  ghost predicate Takes(line: Text, open: bool, b: nat, p: nat)
    requires b < p && b < |line|
    decreases b, 2
  {
    if Begins(line, open, b) then Reaches(line, b, p)
    else
      Free(line, open, b)
      && if line[b] == BACKSLASH then p == b + 1
         else exists start, e :: Closes(line, b, start, e) && p < e
  }

  ghost predicate InComment(line: Text, open: bool, i: nat) {
    exists b: nat :: Begins(line, open, b) && Reaches(line, b, i)
  }

  /** What takes a position in takes in all before it, and nothing begins there. */
  lemma TakenBefore(line: Text, open: bool, b: nat, p: nat, next: nat)
    requires b < p < next && b < |line|
    ensures Takes(line, open, b, next) ==> Takes(line, open, b, p)
  {
  }

  lemma TakenTakesNothing(line: Text, open: bool, b: nat, p: nat, next: nat)
    requires b < p < next && p < |line| && Takes(line, open, b, p)
    ensures !Begins(line, open, p) && !Takes(line, open, p, next)
  {
  }

  /** The scan stands at `p` at the beginning of a comment, or free and outside; at the end of the line it
      knows whether a comment is still open. */
  ghost predicate Stands(line: Text, open: bool, p: nat, comment: bool) {
    if p >= |line| then comment <==> InComment(line, open, |line|)
    else if comment then Begins(line, open, p)
    else Free(line, open, p) && !(open && p == 0)
  }

  /** What begins at `p` takes in all up to `next`: it is a comment or there is none, and `next` is free. */
  lemma Passes(line: Text, open: bool, p: nat, next: nat)
    requires p < next <= |line| && (Begins(line, open, p) || Free(line, open, p))
    requires forall i | p < i < next :: Takes(line, open, p, i)
    ensures forall i | p <= i < next :: InComment(line, open, i) <==> Begins(line, open, p)
    ensures next == |line| ==> (InComment(line, open, next) <==> Begins(line, open, p) && Reaches(line, p, next))
    ensures !Takes(line, open, p, next) ==> Free(line, open, next)
  {
    hide Begins, Takes, Reaches, HoldsAt;
    assert forall b: nat | b < p :: !Takes(line, open, b, p) by {
      NothingTakes(line, open, p);
    }
    forall b: nat, i | b != p && b < i && b < next && p <= i <= next
      ensures b < p ==> !Takes(line, open, b, i)
      ensures b > p ==> !Begins(line, open, b) && !Takes(line, open, b, i) {
      if b < p < i {
        TakenBefore(line, open, b, p, i);
      } else if b > p {
        TakenTakesNothing(line, open, p, b, i);
      }
    }
    forall i | p <= i <= next && (i < next || next == |line|)
      ensures InComment(line, open, i) <==> Begins(line, open, p) && Reaches(line, p, i) {
      forall b: nat | Begins(line, open, b) && Reaches(line, b, i) ensures b == p {
        ReachedIsTaken(line, open, b, i);
        if p < b < next {
          assert !Begins(line, open, b) by { TakenTakesNothing(line, open, p, b, b + 1); }
        }
      }
    }
    forall i | p <= i < next && Begins(line, open, p) ensures Reaches(line, p, i) {
      BegunReaches(line, open, p, i);
    }
  }

  lemma NothingTakes(line: Text, open: bool, p: nat)
    requires p < |line| && (Begins(line, open, p) || Free(line, open, p))
    ensures forall b: nat | b < p :: !Takes(line, open, b, p)
  {
  }

  lemma ReachedIsTaken(line: Text, open: bool, b: nat, i: nat)
    requires Begins(line, open, b) && Reaches(line, b, i) && i <= |line|
    ensures b <= i && (b < i ==> Takes(line, open, b, i)) && (b < |line| || line == [])
  {
  }

  lemma BegunReaches(line: Text, open: bool, p: nat, i: nat)
    requires Begins(line, open, p) && p <= i && p < |line| && (p < i ==> Takes(line, open, p, i))
    ensures Reaches(line, p, i)
  {
  }

  /** One round passes what begins at `p`. */
  lemma RoundPasses(line: Text, open: bool, p: nat, comment: bool)
    requires p < |line| && Stands(line, open, p, comment)
    ensures var m := Next(line, p, comment);
      && Stands(line, open, m.next, m.comment)
      && forall i | p <= i < m.next :: InComment(line, open, i) <==> m.masks
  {
    hide InComment;
    var m := Next(line, p, comment);
    if comment {
      forall i | p < i < m.next ensures Takes(line, open, p, i) {
      }
      Passes(line, open, p, m.next);
    } else if m.next > p {
      NotOpening(line, open, p);
      TakesUpToNext(line, open, p);
      Passes(line, open, p, m.next);
    }
  }

  lemma NotOpening(line: Text, open: bool, p: nat)
    requires p < |line| && !(open && p == 0) && p < Next(line, p, false).next
    ensures !Begins(line, open, p)
  {
    OpenStarts(line, p);
  }

  lemma OpenStarts(line: Text, p: nat)
    requires p < |line|
    ensures HoldsAt(line, p, OPEN) ==> line[p] == OPEN[0]
  {
    assert p + 4 <= |line| ==> line[p] == line[p..p + 4][0];
  }

  /** A backslash, a code span and a plain character take in what the round passes. */
  lemma TakesUpToNext(line: Text, open: bool, p: nat)
    requires p < |line| && Free(line, open, p) && !Begins(line, open, p) && p < Next(line, p, false).next
    ensures forall i | p < i < Next(line, p, false).next :: Takes(line, open, p, i)
    ensures Next(line, p, false).next < |line| ==> !Takes(line, open, p, Next(line, p, false).next)
  {
    hide Free, Begins, Closes, SpanEnd;
    if line[p] != BACKSLASH {
      SpanEndIs(line, p);
      forall start, e | Closes(line, p, start, e) ensures SpanEnd(line, p) == Some(e) {
        ClosesBounds(line, p, start, e);
        ClosesIs(line, p, start, e);
      }
    }
  }

  lemma ClosesBounds(line: Text, p: nat, start: int, e: int)
    requires Closes(line, p, start, e)
    ensures 0 <= e <= |line|
  {
  }

  lemma {:induction false} MaskedIs(line: Text, open: bool, p: nat, comment: bool)
    requires p <= |line| && Stands(line, open, p, comment)
    ensures |Mask(line, p, comment).text| == |line| - p
    ensures forall i | p <= i < |line| ::
              Mask(line, p, comment).text[i - p] == if InComment(line, open, i) then Blank(line[i]) else line[i]
    ensures Mask(line, p, comment).comment <==> InComment(line, open, |line|)
    decreases |line| - p, if comment then 0 else 1
  {
    hide Mask, Next, InComment, Stands;
    if p == |line| {
      MaskEnds(line, comment);
      assert comment <==> InComment(line, open, |line|) by { StandsAtEnd(line, open, comment); }
    } else {
      var m := Next(line, p, comment);
      RoundPasses(line, open, p, comment);
      MaskUnrolls(line, p, comment);
      MaskedIs(line, open, m.next, m.comment);
    }
  }

  lemma StandsAtEnd(line: Text, open: bool, comment: bool)
    requires Stands(line, open, |line|, comment)
    ensures comment <==> InComment(line, open, |line|)
  {
  }

  /** A character of a line is masked exactly if it lies in a comment, all others stay, and the line ends
      inside a comment exactly if one has no end. */
  lemma CommentsAreMasked(line: Text, open: bool)
    ensures var masked := Mask(line, 0, open);
      && |masked.text| == |line|
      && (forall i | 0 <= i < |line| ::
            masked.text[i] == if InComment(line, open, i) && line[i] != 0x0D && line[i] != 0x0A then 0x20 else line[i])
      && (masked.comment <==> exists b: nat :: Begins(line, open, b) && Endless(line, b))
  {
    hide Mask, Begins, Free;
    StandsFirst(line, open);
    MaskedIs(line, open, 0, open);
    forall b: nat | Begins(line, open, b) ensures Reaches(line, b, |line|) <==> Endless(line, b) {
      EndlessReaches(line, open, b);
    }
  }

  /** A comment that begins at `b` has no end in this line. */
  ghost predicate Endless(line: Text, b: nat) {
    forall q: nat | b <= q :: !HoldsAt(line, q, CLOSE)
  }

  lemma EndlessReaches(line: Text, open: bool, b: nat)
    requires Begins(line, open, b)
    ensures Reaches(line, b, |line|) <==> Endless(line, b)
  {
  }

  lemma StandsFirst(line: Text, open: bool)
    ensures Stands(line, open, 0, open)
  {
    if line == [] {
      assert open ==> Begins(line, open, 0) && Reaches(line, 0, 0);
    }
  }

  // ---- Masking a line again ---------------------------------------------------------------

  /** Neighbouring backticks are masked together. */
  predicate Even(line: Text, v: Text) {
    && |v| == |line|
    && forall k | 0 < k < |line| && line[k - 1] == TICK && line[k] == TICK :: v[k - 1] == TICK <==> v[k] == TICK
  }

  lemma TickKept(line: Text, p: nat)
    requires p < |line| && line[p] == TICK
    ensures Mask(line, p, false).text[0] == TICK
  {
  }

  lemma EvenJoin(a: Text, x: Text, b: Text, y: Text)
    requires Even(a, x) && Even(b, y)
    requires a != [] && b != [] && a[|a| - 1] == TICK && b[0] == TICK ==> (x[|x| - 1] == TICK <==> y[0] == TICK)
    ensures Even(a + b, x + y)
  {
    forall k | 0 < k < |a + b| && (a + b)[k - 1] == TICK && (a + b)[k] == TICK
      ensures (x + y)[k - 1] == TICK <==> (x + y)[k] == TICK {
      if k > |a| {
        assert (a + b)[k] == b[k - |a|] && (a + b)[k - 1] == b[k - |a| - 1];
      }
    }
  }

  lemma {:induction false} MaskIsEven(line: Text, p: nat, comment: bool)
    requires p <= |line|
    ensures Even(line[p..], Mask(line, p, comment).text)
    decreases |line| - p, if comment then 0 else 1
  {
    hide Next, Mask, Even;
    if p == |line| {
      MaskEnds(line, comment);
      NothingIsEven();
      assert line[p..] == [];
    } else {
      var m := Next(line, p, comment);
      MaskUnrolls(line, p, comment);
      MaskIsEven(line, m.next, m.comment);
      MoveEnd(line, p, comment);
      if p < m.next < |line| && line[m.next] == TICK {
        if !m.comment {
          TickKept(line, m.next);
        }
        assert line[p..m.next][m.next - p - 1] == line[m.next - 1];
      }
      EvenJoin(line[p..m.next], Passed(line, p, m), line[m.next..], Mask(line, m.next, m.comment).text);
      assert line[p..] == line[p..m.next] + line[m.next..];
    }
  }

  lemma NothingIsEven()
    ensures Even([], [])
  {
  }

  /** A masked piece ends with the line or with the end of a comment. */
  lemma MoveEnd(line: Text, p: nat, comment: bool)
    requires p < |line|
    ensures var m := Next(line, p, comment);
      m.masks && (m.next < |line| || !m.comment) ==> line[m.next - 1] == 0x3E && !m.comment
    ensures Next(line, p, comment).masks <==> comment
    ensures !comment && p < Next(line, p, comment).next ==> !Next(line, p, comment).comment
  {
    if comment && FindClose(line, p).Some? {
      var e := FindClose(line, p).value;
      assert line[e..e + 3][2] == line[e + 2];
    }
  }

  lemma RunsOfMasked(line: Text, v: Text, s: int, e: int)
    requires Masks(line, v) && Even(line, v) && IsRun(v, s, e)
    ensures IsRun(line, s, e)
  {
    assert s > 0 && line[s - 1] == TICK && line[s] == TICK ==> (v[s - 1] == TICK <==> v[s] == TICK);
    assert e < |line| && line[e - 1] == TICK && line[e] == TICK ==> (v[e - 1] == TICK <==> v[e] == TICK);
  }

  /** The masked line agrees with the line about what a code span at a visible position is. */
  lemma SpanOfMasked(line: Text, v: Text, p: nat)
    requires Masks(line, v) && Even(line, v) && p < |line| && v[p] == line[p]
    requires p > 0 ==> (v[p - 1] == TICK <==> line[p - 1] == TICK)
    requires SpanEnd(line, p).Some? ==>
      var end := SpanEnd(line, p).value;
      p < end <= |line| && v[p..end] == line[p..end]
    ensures SpanEnd(v, p) == SpanEnd(line, p)
  {
    hide RunsFrom, NearestEnd;
    if SpanEnd(line, p).Some? {
      var start := SpanFound(line, p);
      SpanStays(line, v, p, start, SpanEnd(line, p).value);
      ClosesIs(v, p, start, SpanEnd(line, p).value);
    } else if SpanEnd(v, p).Some? {
      var start := SpanFound(v, p);
      RunsOfMasked(line, v, p, TicksEnd(v, p));
      RunsOfMasked(line, v, start, SpanEnd(v, p).value);
      OpensRun(line, p);
      NoneIsNone(line, p, start, SpanEnd(v, p).value);
    }
  }

  lemma SpanStays(line: Text, v: Text, p: nat, start: int, e: int)
    requires Masks(line, v) && Even(line, v) && p < |line| && Closes(line, p, start, e)
    requires p > 0 ==> (v[p - 1] == TICK <==> line[p - 1] == TICK)
    requires v[p..e] == line[p..e]
    ensures Closes(v, p, start, e)
  {
    forall k | p <= k < e ensures v[k] == line[k] {
      assert v[p..e][k - p] == line[p..e][k - p];
    }
    assert IsRun(v, p, TicksEnd(line, p));
    assert TicksEnd(v, p) == TicksEnd(line, p);
    forall s, t | TicksEnd(v, p) <= s < start && IsRun(v, s, t) ensures t - s != e - start {
      RunsOfMasked(line, v, s, t);
    }
  }

  lemma BlankMove(v: Text, p: nat)
    requires p < |v| && v[p] == Blank(v[p])
    ensures Next(v, p, false) == Move(p + 1, false, false)
  {
    hide FindClose, RunsFrom, NearestEnd;
    if HoldsAt(v, p, OPEN) {
    }
  }

  /** White space is passed as it is. */
  lemma {:induction false} BlanksPass(v: Text, p: nat, q: nat)
    requires p <= q <= |v| && forall k | p <= k < q :: v[k] == Blank(v[k])
    ensures Mask(v, p, false).text == v[p..q] + Mask(v, q, false).text
    ensures Mask(v, p, false).comment == Mask(v, q, false).comment
    decreases q - p
  {
    hide Mask, Next;
    if p < q {
      BlankMove(v, p);
      MaskUnrolls(v, p, false);
      BlanksPass(v, p + 1, q);
      assert v[p..q] == [v[p]] + v[p + 1..q];
    }
  }

  lemma OpenOfMasked(line: Text, v: Text, p: nat)
    requires Masks(line, v) && HoldsAt(v, p, OPEN)
    ensures HoldsAt(line, p, OPEN)
  {
    forall k | 0 <= k < 4 ensures line[p..p + 4][k] == OPEN[k] {
      assert v[p..p + 4][k] == OPEN[k];
      var c := line[p + k];
      assert v[p + k] in {c, Blank(c)};
    }
    assert line[p..p + 4] == OPEN;
  }

  lemma {:induction false} MaskAgain(line: Text, v: Text, p: nat, comment: bool)
    requires Masks(line, v) && Even(line, v) && |v| == |line| && p <= |line| && v[p..] == Mask(line, p, comment).text
    requires 0 < p && !comment ==> (v[p - 1] == TICK <==> line[p - 1] == TICK)
    ensures Mask(v, p, false) == Masking(v[p..], false)
    decreases |line| - p, if comment then 0 else 1
  {
    hide Masks, Even, Mask, Next;
    if p == |line| {
      MaskEnds(v, false);
      assert v[p..] == [];
    } else {
      var m := Next(line, p, comment);
      var piece := Passed(line, p, m);
      MaskUnrolls(line, p, comment);
      assert v[p..m.next] == v[p..][..m.next - p] == piece;
      assert v[m.next..] == v[p..][m.next - p..] == Mask(line, m.next, m.comment).text;
      MoveEnd(line, p, comment);
      if comment {
        BlanksPass(v, p, m.next);
        if m.comment {
          MaskEnds(v, false);
        } else {
          MaskAgain(line, v, m.next, false);
        }
        assert v[p..] == v[p..m.next] + v[m.next..];
      } else if m.next == p {
        assert v[p..] == v[m.next..];
        MaskAgain(line, v, p, true);
      } else {
        assert v[p] == v[p..m.next][0] == line[p];
        assert v[m.next - 1] == v[p..m.next][m.next - p - 1] == line[m.next - 1];
        SameMove(line, v, p);
        MaskUnrolls(v, p, false);
        MaskAgain(line, v, m.next, false);
        assert v[p..] == v[p..m.next] + v[m.next..];
      }
    }
  }

  /** Outside comments the masked line is scanned in the same rounds. */
  lemma SameMove(line: Text, v: Text, p: nat)
    requires Masks(line, v) && Even(line, v) && p < |line| && p < Next(line, p, false).next
    requires v[p..Next(line, p, false).next] == line[p..Next(line, p, false).next] && v[p] == line[p]
    requires p > 0 ==> (v[p - 1] == TICK <==> line[p - 1] == TICK)
    ensures Next(v, p, false) == Next(line, p, false)
  {
    hide SpanEnd, Even;
    if line[p] != BACKSLASH {
      SpanOfMasked(line, v, p);
      if HoldsAt(v, p, OPEN) {
        OpenOfMasked(line, v, p);
      }
    }
  }

  lemma SameLength(line: Text, v: Text)
    requires Masks(line, v)
    ensures |v| == |line|
  {
  }

  /** Masking is idempotent on a line: the masked line has nothing left to mask. */
  lemma MaskIdempotent(line: Text, comment: bool)
    ensures var v := Mask(line, 0, comment).text;
      Mask(v, 0, false) == Masking(v, false)
  {
    hide Masks, Even, Mask;
    var v := Mask(line, 0, comment).text;
    MaskMasks(line, 0, comment);
    MaskIsEven(line, 0, comment);
    assert line[0..] == line && v[0..] == v;
    SameLength(line, v);
    MaskAgain(line, v, 0, comment);
  }
}
