/** What release notes consist of (scripts/release_control.py), line by line: fences, comments, prose and
    headings by definitions of their own, which the scanner meets exactly. */
module ReleaseStructure {
  import opened Results
  import opened Texts
  import opened CodeSpans
  import opened ReleaseNotes
  import opened ReleaseSections

  // ---- Lines ------------------------------------------------------------------------------

  /** A line holds no line feed but its last character. */
  predicate IsLine(line: Text) {
    line != [] && forall i | 0 <= i < |line| - 1 :: line[i] != NEWLINE
  }

  /** And every line but the last ends with one. */
  predicate AreLines(lines: seq<Text>) {
    forall k | 0 <= k < |lines| ::
      IsLine(lines[k]) && (k + 1 < |lines| ==> lines[k][|lines[k]| - 1] == NEWLINE)
  }

  lemma OneMoreLine(line: Text, rest: seq<Text>)
    requires IsLine(line) && AreLines(rest) && (rest != [] ==> line[|line| - 1] == NEWLINE)
    ensures AreLines([line] + rest)
  {
    hide IsLine;
  }

  /** The lines of a text are its pieces behind every line feed. */
  lemma {:induction false} LinesAre(text: Text)
    ensures Joined(Lines(text)) == text && AreLines(Lines(text))
    decreases |text|
  {
    hide IsLine, AreLines;
    LinesJoin(text);
    if text == [] {
      NoLines();
    } else {
      var end := LineEnd(text);
      LinesAre(text[end..]);
      FirstLine(text);
      if text[end - 1] != NEWLINE {
        assert text[end..] == [];
      }
      OneMoreLine(text[..end], Lines(text[end..]));
    }
  }

  lemma NoLines()
    ensures AreLines(Lines([]))
  {
  }

  lemma FirstLine(text: Text)
    requires text != []
    ensures IsLine(text[..LineEnd(text)])
  {
  }

  // ---- Fences -----------------------------------------------------------------------------

  predicate Filled(t: Text, from: int, to: int, c: Code) {
    0 <= from <= to <= |t| && forall k | from <= k < to :: t[k] == c
  }

  /** Up to three spaces and a run of at least three of the marker. */
  predicate IsFence(t: Text, indent: int, length: int, marker: Code) {
    && 0 <= indent <= 3 && length >= 3 && marker in {0x60, 0x7E}
    && Filled(t, 0, indent, 0x20) && Filled(t, indent, indent + length, marker)
    && (indent + length < |t| ==> t[indent + length] != marker)
  }

  lemma {:induction false} LeadingIs(t: Text, c: Code, n: nat)
    requires Filled(t, 0, n, c) && (n < |t| ==> t[n] != c)
    ensures Leading(t, c) == n
    decreases n
  {
    if n > 0 {
      LeadingIs(t[1..], c, n - 1);
    }
  }

  /** The run of a character that the rest of a text begins with. */
  lemma LeadingStands(t: Text, i: nat, c: Code)
    requires i <= |t|
    ensures var n := Leading(t[i..], c);
      Filled(t, i, i + n, c) && (i + n < |t| ==> t[i + n] != c && t[i..][n..] == t[i + n..])
  {
    hide Leading;
    var rest := t[i..];
    var n := Leading(rest, c);
    assert forall k | i <= k < |t| :: t[k] == rest[k - i];
  }

  lemma FenceIs(t: Text, indent: int, length: int, marker: Code)
    requires IsFence(t, indent, length, marker)
    ensures FenceOf(t) == Some(Fence(marker, length, t[indent + length..]))
  {
    LeadingIs(t, SPACE, indent);
    var content := t[indent..];
    LeadingIs(content, marker, length);
    assert content[length..] == t[indent + length..];
  }

  lemma RecognizedStands(t: Text) returns (indent: nat, length: nat)
    requires FenceOf(t).Some?
    ensures IsFence(t, indent, length, FenceOf(t).value.marker)
    ensures FenceOf(t).value == Fence(FenceOf(t).value.marker, length, t[indent + length..])
  {
    hide Filled, Leading;
    indent := Leading(t, SPACE);
    assert t[0..] == t;
    LeadingStands(t, 0, SPACE);
    var content := t[indent..];
    length := Leading(content, content[0]);
    LeadingStands(t, indent, content[0]);
    assert content[length..] == t[indent + length..];
  }

  /** A fence is recognized exactly where one stands. */
  lemma FenceStands(t: Text) returns (indent: nat, length: nat)
    ensures FenceOf(t).Some? ==> IsFence(t, indent, length, FenceOf(t).value.marker)
                                 && FenceOf(t).value == Fence(FenceOf(t).value.marker, length, t[indent + length..])
    ensures FenceOf(t).None? ==> forall i, n, m :: !IsFence(t, i, n, m)
  {
    hide FenceOf, IsFence;
    indent, length := 0, 0;
    if FenceOf(t).Some? {
      indent, length := RecognizedStands(t);
    } else {
      forall i, n, m ensures !IsFence(t, i, n, m) {
        if IsFence(t, i, n, m) {
          FenceIs(t, i, n, m);
        }
      }
    }
  }

  /** The line opens a fence: with tildes, or with backticks and none behind them. */
  ghost predicate OpensFence(t: Text) {
    exists indent, length, marker ::
      IsFence(t, indent, length, marker) && (marker == 0x60 ==> 0x60 !in t[indent + length..])
  }

  /** The line closes the fence that another opened: the same marker, at least as long, and nothing behind it. */
  ghost predicate ClosesFence(t: Text, opening: Text) {
    exists indent, length, marker, i, n ::
      && IsFence(t, indent, length, marker) && IsFence(opening, i, n, marker) && length >= n
      && forall k | indent + length <= k < |t| :: t[k] in {0x20, 0x09, 0x0D, 0x0A}
  }

  lemma OpensIs(t: Text)
    ensures FenceOpens(FenceOf(t)) <==> OpensFence(t)
  {
    hide FenceOf;
    var indent, length := FenceStands(t);
    if OpensFence(t) {
      var i, n, m :| IsFence(t, i, n, m) && (m == 0x60 ==> 0x60 !in t[i + n..]);
      FenceIs(t, i, n, m);
    }
  }

  lemma ClosesIs(t: Text, opening: Text)
    requires FenceOf(opening).Some?
    ensures FenceCloses(FenceOf(t), FenceOf(opening).value) <==> ClosesFence(t, opening)
  {
    hide FenceOf;
    var indent, length := FenceStands(t);
    var i, n := FenceStands(opening);
    if ClosesFence(t, opening) {
      var a, b, m, c, d :| IsFence(t, a, b, m) && IsFence(opening, c, d, m) && b >= d
                           && forall k | a + b <= k < |t| :: t[k] in {0x20, 0x09, 0x0D, 0x0A};
      FenceIs(t, a, b, m);
      FenceIs(opening, c, d, m);
    }
    if FenceCloses(FenceOf(t), FenceOf(opening).value) {
      var m := FenceOf(t).value.marker;
      forall k | indent + length <= k < |t| ensures t[k] in {0x20, 0x09, 0x0D, 0x0A} {
        assert t[indent + length..][k - (indent + length)] == t[k];
      }
      assert IsFence(t, indent, length, m) && IsFence(opening, i, n, m);
    }
  }

  // ---- The lines of a text ----------------------------------------------------------------

  /** A comment is open at the end of a line that began with one open or not. */
  ghost predicate LeavesComment(line: Text, open: bool) {
    exists b: nat :: Begins(line, open, b) && Endless(line, b)
  }

  predicate IsIndented(t: Text) {
    Filled(t, 0, 4, 0x20) || (t != [] && t[0] == 0x09)
  }

  /** What a line is: inside a fence, opening one, or beginning inside a comment. */
  datatype Mark = Mark(fenced: bool, opens: bool, comment: bool)

  /** Neither fence nor indented code. */
  predicate IsProse(line: Text, m: Mark) {
    !m.fenced && !m.opens && (m.comment || !IsIndented(line))
  }

  /** Line `i` opened a fence that no line between it and line `k` closed. */
  ghost predicate Holds(lines: seq<Text>, marks: seq<Mark>, k: nat, i: int)
    requires k <= |lines| == |marks|
  {
    0 <= i < k && marks[i].opens && forall j | i < j < k :: !ClosesFence(lines[j], lines[i])
  }

  /** A line is fenced if an earlier one opened a fence that is not closed, it opens one outside fences and
      comments, and it begins inside a comment that the line before, being prose, leaves open. */
  ghost predicate IsMark(lines: seq<Text>, marks: seq<Mark>, k: nat)
    requires k < |lines| == |marks|
  {
    && (marks[k].fenced <==> exists i :: Holds(lines, marks, k, i))
    && (marks[k].opens <==> !marks[k].fenced && !marks[k].comment && OpensFence(lines[k]))
    && (marks[k].comment <==>
          k > 0 && IsProse(lines[k - 1], marks[k - 1]) && LeavesComment(lines[k - 1], marks[k - 1].comment))
  }

  ghost predicate IsReading(lines: seq<Text>, marks: seq<Mark>) {
    |marks| == |lines| && forall k | 0 <= k < |lines| :: IsMark(lines, marks, k)
  }

  /** There is only one such reading of a text. */
  lemma {:induction false} ReadingIsUnique(lines: seq<Text>, a: seq<Mark>, b: seq<Mark>, k: nat)
    requires IsReading(lines, a) && IsReading(lines, b) && k <= |lines|
    ensures a[..k] == b[..k]
    decreases k
  {
    hide OpensFence, ClosesFence, LeavesComment, IsProse;
    if k > 0 {
      var n := k - 1;
      ReadingIsUnique(lines, a, b, n);
      assert IsMark(lines, a, n) && IsMark(lines, b, n);
      forall i | 0 <= i < n ensures a[i] == b[i] {
        assert a[..n][i] == b[..n][i];
      }
      assert forall i :: Holds(lines, a, n, i) <==> Holds(lines, b, n, i);
      assert a[n] == b[n];
    }
  }

  // ---- The scanner meets them -------------------------------------------------------------

  lemma LeavesIs(line: Text, open: bool)
    ensures Mask(line, 0, open).comment <==> LeavesComment(line, open)
  {
    hide Mask, Begins, Endless;
    CommentsAreMasked(line, open);
  }

  lemma IndentedIs(t: Text)
    ensures Indented(t) <==> IsIndented(t)
  {
    assert |t| >= 4 ==> t[..4] == [t[0], t[1], t[2], t[3]];
    assert |t| >= 1 ==> t[..1] == [t[0]];
    assert [SPACE, SPACE, SPACE, SPACE] == [0x20, 0x20, 0x20, 0x20];
  }

  lemma {:induction false} OpenAfterMore(lines: seq<Text>, line: Text, open: Open)
    ensures OpenAfter(lines + [line], open) == ScanLine(line, OpenAfter(lines, open)).open
    ensures Scan(lines + [line], open) == Scan(lines, open) + [ScanLine(line, OpenAfter(lines, open)).line]
    decreases |lines|
  {
    hide ScanLine;
    if lines == [] {
      assert ([] + [line])[1..] == [];
      assert Scan([], ScanLine(line, open).open) == [];
    } else {
      assert (lines + [line])[1..] == lines[1..] + [line];
      OpenAfterMore(lines[1..], line, ScanLine(lines[0], open).open);
    }
  }

  /** What is open before line `k`: the fence that is, as its line opened it, or the comment that is. */
  ghost predicate OpenIs(lines: seq<Text>, marks: seq<Mark>, k: nat, open: Open)
    requires k <= |lines| == |marks|
  {
    && (open.fence.Some? ==>
          exists i | 0 <= i < k :: Holds(lines, marks, k, i) && open.fence == FenceOf(lines[i]))
    && (open.fence.None? ==> forall i :: !Holds(lines, marks, k, i))
    && (open.comment <==>
          k > 0 && IsProse(lines[k - 1], marks[k - 1]) && LeavesComment(lines[k - 1], marks[k - 1].comment))
    && (open.fence.Some? ==> !open.comment)
  }

  /** Only one fence is open at a time. */
  ghost predicate OneFence(lines: seq<Text>, marks: seq<Mark>, k: nat)
    requires k <= |lines| == |marks|
  {
    forall i, j | Holds(lines, marks, k, i) && Holds(lines, marks, k, j) :: i == j
  }

  /** The mark of a line before which this is open. */
  ghost function MarkOf(line: Text, open: Open): Mark {
    Mark(open.fence.Some?, open.fence.None? && !open.comment && OpensFence(line), open.comment)
  }

  /** One line on. */
  lemma HoldsNext(lines: seq<Text>, marks: seq<Mark>, k: nat, i: int)
    requires k < |lines| == |marks|
    ensures Holds(lines, marks, k + 1, i) <==>
            if i == k then marks[k].opens
            else 0 <= i < k && Holds(lines, marks, k, i) && !ClosesFence(lines[k], lines[i])
  {
    hide ClosesFence;
  }

  lemma OpenMoves(lines: seq<Text>, marks: seq<Mark>, k: nat, open: Open)
    requires k < |lines| == |marks| && OpenIs(lines, marks, k, open) && OneFence(lines, marks, k)
    requires marks[k] == MarkOf(lines[k], open)
    ensures IsMark(lines, marks, k)
    ensures OpenIs(lines, marks, k + 1, ScanLine(lines[k], open).open) && OneFence(lines, marks, k + 1)
    ensures Shows(lines, marks, k, ScanLine(lines[k], open).line)
  {
    hide FenceOf, FenceCloses, Indented, Mask, ClosesFence, OpensFence, LeavesComment, IsIndented, Holds,
         Begins, Endless, InComment;
    var line := lines[k];
    OpensIs(line);
    IndentedIs(line);
    LeavesIs(line, open.comment);
    CommentsAreMasked(line, open.comment);
    var n := k + 1;
    forall i ensures Holds(lines, marks, n, i) <==>
                     if i == k then marks[k].opens
                     else 0 <= i < k && Holds(lines, marks, k, i) && !ClosesFence(line, lines[i]) {
      HoldsNext(lines, marks, k, i);
    }
    if open.fence.Some? {
      var i :| 0 <= i < k && Holds(lines, marks, k, i) && open.fence == FenceOf(lines[i]);
      ClosesIs(line, lines[i]);
      assert Holds(lines, marks, n, i) <==> !ClosesFence(line, lines[i]);
    } else {
      assert Holds(lines, marks, n, k) <==> marks[k].opens;
    }
  }

  /** What the scanner says of a line: prose, with its comments masked, may be a heading, fences and indented code
      stay as they are, and only lines that open or close a fence are no guidance. */
  ghost predicate Shows(lines: seq<Text>, marks: seq<Mark>, k: nat, shown: Scanned)
    requires k < |lines| == |marks|
  {
    && (shown.heading <==> IsProse(lines[k], marks[k])) && |shown.text| == |lines[k]|
    && (forall i | 0 <= i < |lines[k]| ::
          shown.text[i] == if IsProse(lines[k], marks[k]) && InComment(lines[k], marks[k].comment, i)
                              && lines[k][i] != 0x0D && lines[k][i] != 0x0A
                           then 0x20 else lines[k][i])
    && (shown.guidance <==>
          !marks[k].opens
          && forall i | 0 <= i < k && Holds(lines, marks, k, i) :: !ClosesFence(lines[k], lines[i]))
  }

  ghost function Marks(lines: seq<Text>): seq<Mark> {
    seq(|lines|, k requires 0 <= k < |lines| => MarkOf(lines[k], OpenAfter(lines[..k], ReleaseSections.NOTHING)))
  }

  lemma {:induction false} PrefixIs(lines: seq<Text>, k: nat)
    requires k <= |lines|
    ensures var open := OpenAfter(lines[..k], ReleaseSections.NOTHING);
      OpenIs(lines, Marks(lines), k, open) && OneFence(lines, Marks(lines), k)
    decreases k
  {
    hide OpenAfter, ScanLine, MarkOf, OpenIs, OneFence;
    if k == 0 {
      assert lines[..0] == [];
      NothingIsOpen(lines, Marks(lines));
    } else {
      PrefixIs(lines, k - 1);
      assert lines[..k] == lines[..k - 1] + [lines[k - 1]];
      OpenAfterMore(lines[..k - 1], lines[k - 1], ReleaseSections.NOTHING);
      OpenMoves(lines, Marks(lines), k - 1, OpenAfter(lines[..k - 1], ReleaseSections.NOTHING));
    }
  }

  lemma NothingIsOpen(lines: seq<Text>, marks: seq<Mark>)
    requires |lines| == |marks|
    ensures OpenIs(lines, marks, 0, OpenAfter([], ReleaseSections.NOTHING)) && OneFence(lines, marks, 0)
  {
  }

  lemma {:induction false} ScanAt(lines: seq<Text>, k: nat)
    requires k < |lines|
    ensures |Scan(lines, ReleaseSections.NOTHING)| == |lines|
    ensures Scan(lines, ReleaseSections.NOTHING)[k]
         == ScanLine(lines[k], OpenAfter(lines[..k], ReleaseSections.NOTHING)).line
    decreases |lines|
  {
    hide ScanLine, OpenAfter, Scan;
    var n := |lines| - 1;
    ScanMasks(lines, ReleaseSections.NOTHING);
    ScanMasks(lines[..n], ReleaseSections.NOTHING);
    assert lines == lines[..n] + [lines[n]];
    OpenAfterMore(lines[..n], lines[n], ReleaseSections.NOTHING);
    if k < n {
      ScanAt(lines[..n], k);
      assert lines[..n][..k] == lines[..k];
    }
  }

  /** The scanner reads every text as these definitions do. */
  lemma TextIsRead(text: Text) returns (marks: seq<Mark>)
    ensures IsReading(Lines(text), marks)
    ensures var lines, scanned := Lines(text), Scan(Lines(text), ReleaseSections.NOTHING);
      |scanned| == |lines| && forall k | 0 <= k < |lines| :: Shows(lines, marks, k, scanned[k])
  {
    hide OpenAfter, ScanLine, MarkOf, OpenIs, OneFence, IsMark, Shows, Scan, Lines;
    var lines := Lines(text);
    marks := Marks(lines);
    forall k | 0 <= k < |lines|
      ensures IsMark(lines, marks, k)
      ensures |Scan(lines, ReleaseSections.NOTHING)| == |lines|
              && Shows(lines, marks, k, Scan(lines, ReleaseSections.NOTHING)[k]) {
      PrefixIs(lines, k);
      OpenMoves(lines, marks, k, OpenAfter(lines[..k], ReleaseSections.NOTHING));
      ScanAt(lines, k);
    }
    ScanMasks(lines, ReleaseSections.NOTHING);
  }

  // ---- Headings ---------------------------------------------------------------------------

  /** Up to three spaces and one to six hashes, at the end of the line or before white space. */
  predicate IsHeading(t: Text, indent: int, level: int) {
    && 0 <= indent <= 3 && 1 <= level <= 6
    && Filled(t, 0, indent, 0x20) && Filled(t, indent, indent + level, 0x23)
    && (indent + level < |t| ==> t[indent + level] in {0x20, 0x09, 0x0D, 0x0A})
  }

  lemma HeadingStands(t: Text, indent: int, level: int)
    requires IsHeading(t, indent, level)
    ensures HeadingOf(Scanned(t, true, true)) == Some(Title(level, HeadingTitle(t[indent + level..])))
  {
    hide HeadingTitle;
    LeadingIs(t, SPACE, indent);
    var heading := t[indent..];
    LeadingIs(heading, HASH, level);
    assert heading[level..] == t[indent + level..];
  }

  lemma DeepIsNone(line: Scanned)
    requires Leading(line.text, SPACE) > 3
    ensures HeadingOf(line).None?
  {
    hide HeadingTitle;
    assert Leading(line.text, HASH) == 0;
  }

  lemma FoundStands(line: Scanned)
    requires HeadingOf(line).Some? && Leading(line.text, SPACE) <= 3
    ensures line.heading && IsHeading(line.text, Leading(line.text, SPACE), HeadingOf(line).value.level)
  {
    hide HeadingTitle, Filled, Leading;
    var indent := Leading(line.text, SPACE);
    assert line.text[0..] == line.text;
    LeadingStands(line.text, 0, SPACE);
    LeadingStands(line.text, indent, HASH);
  }

  /** A scanned line is a heading exactly if it may be one and has the form of one. */
  lemma HeadingIs(line: Scanned)
    ensures HeadingOf(line).Some? <==> line.heading && exists indent, level :: IsHeading(line.text, indent, level)
    ensures forall indent, level | line.heading && IsHeading(line.text, indent, level) ::
              HeadingOf(line) == Some(Title(level, HeadingTitle(line.text[indent + level..])))
  {
    hide HeadingTitle, HeadingOf;
    forall indent, level | line.heading && IsHeading(line.text, indent, level)
      ensures HeadingOf(line) == Some(Title(level, HeadingTitle(line.text[indent + level..]))) {
      HeadingStands(line.text, indent, level);
      HeadingIsNotEmpty(line);
    }
    if HeadingOf(line).Some? {
      if Leading(line.text, SPACE) > 3 {
        DeepIsNone(line);
      } else {
        FoundStands(line);
      }
    }
  }

  predicate Rising(at: seq<nat>) {
    forall i, j | 0 <= i < j < |at| :: at[i] < at[j]
  }

  lemma Prepended(i: nat, rest: seq<nat>, keep: bool)
    requires Rising(rest) && forall n | n in rest :: i < n
    ensures var at := (if keep then [i] else []) + rest;
      Rising(at) && forall n :: n in at <==> (keep && n == i) || n in rest
  {
    assert forall k | 0 <= k < |rest| :: rest[k] in rest;
  }

  /** Where line `n` begins. */
  function OffsetOf(scanned: seq<Scanned>, n: nat): nat
    requires n <= |scanned|
  {
    |Joined(LineTexts(scanned[..n]))|
  }

  /** The heading of scanned line `n`, which stands behind all lines before it. */
  predicate IsHeadingOf(scanned: seq<Scanned>, n: nat, h: Heading) {
    && n < |scanned| && HeadingOf(scanned[n]) == Some(Title(h.level, h.title))
    && h.start == OffsetOf(scanned, n) && h.end == h.start + |scanned[n].text|
  }

  /** The headings are those of all scanned lines that are one, in their order and at their offsets. */
  lemma {:induction false} HeadingsAre(scanned: seq<Scanned>, i: nat) returns (at: seq<nat>)
    requires i <= |scanned|
    ensures var headings := Headings(scanned[i..], OffsetOf(scanned, i));
      && |at| == |headings| && Rising(at)
      && (forall n :: n in at <==> i <= n < |scanned| && HeadingOf(scanned[n]).Some?)
      && forall k | 0 <= k < |at| :: IsHeadingOf(scanned, at[k], headings[k])
    decreases |scanned| - i
  {
    hide HeadingOf, Rising, OffsetOf, Headings;
    if i == |scanned| {
      at := [];
      NoHeadings(OffsetOf(scanned, i));
      assert scanned[i..] == [];
      NothingRises();
    } else {
      var rest := HeadingsAre(scanned, i + 1);
      var keep := HeadingOf(scanned[i]).Some?;
      HeadingsUnroll(scanned, i, OffsetOf(scanned, i));
      OffsetMoves(scanned, i);
      Prepended(i, rest, keep);
      at := (if keep then [i] else []) + rest;
    }
  }

  lemma NothingRises()
    ensures Rising([])
  {
  }

  lemma {:induction false} JoinedMore(parts: seq<Text>, part: Text)
    ensures Joined(parts + [part]) == Joined(parts) + part
    decreases |parts|
  {
    if parts == [] {
      assert ([] + [part])[1..] == [];
    } else {
      assert (parts + [part])[1..] == parts[1..] + [part];
      JoinedMore(parts[1..], part);
    }
  }

  lemma OffsetMoves(scanned: seq<Scanned>, n: nat)
    requires n < |scanned|
    ensures OffsetOf(scanned, n + 1) == OffsetOf(scanned, n) + |scanned[n].text|
  {
    assert LineTexts(scanned[..n + 1]) == LineTexts(scanned[..n]) + [scanned[n].text];
    JoinedMore(LineTexts(scanned[..n]), scanned[n].text);
  }

  /** The stretch of the text without surrounding characters of a set. */
  predicate IsTrimmed(t: Text, from: int, to: int, drop: set<Code>) {
    && 0 <= from <= to <= |t| && AllIn(t[..from], drop) && AllIn(t[to..], drop)
    && (from < to ==> t[from] !in drop && t[to - 1] !in drop)
  }

  lemma {:induction false} StripLeftIs(t: Text, drop: set<Code>) returns (n: nat)
    ensures n <= |t| && StripLeft(t, drop) == t[n..] && AllIn(t[..n], drop) && (n < |t| ==> t[n] !in drop)
  {
    n := 0;
    if t != [] && t[0] in drop {
      n := StripLeftIs(t[1..], drop);
      assert t[..n + 1] == [t[0]] + t[1..][..n];
      n := n + 1;
    }
  }

  lemma TrimStands(t: Text, drop: set<Code>) returns (from: nat, to: nat)
    ensures IsTrimmed(t, from, to, drop) && StripLeft(StripRight(t, drop), drop) == t[from..to]
  {
    hide AllIn;
    var right := StripRight(t, drop);
    StripRightIs(t, drop);
    to := |right|;
    from := StripLeftIs(right, drop);
    assert right == t[..to] && right[..from] == t[..from];
    assert right[from..] == t[from..to];
  }

  /** A trimmed title ends before its closing run of hashes, which counts only behind a space or tab or alone, and
      before the blanks in front of that run. */
  predicate EndsAt(trimmed: Text, run: nat, end: nat) {
    && run <= |trimmed| && end <= |trimmed|
    && AllIn(trimmed[run..], {0x23}) && (run > 0 ==> trimmed[run - 1] != 0x23)
    && if run == 0 || trimmed[run - 1] in {0x20, 0x09}
       then end <= run && AllIn(trimmed[end..run], {0x20, 0x09}) && (end > 0 ==> trimmed[end - 1] !in {0x20, 0x09})
       else end == |trimmed|
  }

  lemma UnclosedStands(trimmed: Text) returns (run: nat, end: nat)
    ensures EndsAt(trimmed, run, end) && Unclosed(trimmed) == trimmed[..end]
  {
    hide AllIn;
    var before := StripRight(trimmed, {HASH});
    StripRightIs(trimmed, {HASH});
    run := |before|;
    assert before == trimmed[..run];
    if before == [] || before[run - 1] in {SPACE, TAB} {
      var kept := StripRight(before, {SPACE, TAB});
      StripRightIs(before, {SPACE, TAB});
      end := |kept|;
      assert before[end..] == trimmed[end..run] && kept == trimmed[..end];
    } else {
      end := |trimmed|;
    }
  }

  /** The title of a heading behind its hashes is trimmed, and without a closing run. */
  lemma TitleStands(content: Text) returns (from: nat, to: nat, run: nat, end: nat)
    ensures IsTrimmed(content, from, to, {0x20, 0x09, 0x0D, 0x0A})
    ensures EndsAt(content[from..to], run, end) && HeadingTitle(content) == content[from..to][..end]
  {
    hide StripRight, StripLeft, AllIn, EndsAt;
    from, to := TrimStands(content, LINE_SPACE);
    run, end := UnclosedStands(content[from..to]);
  }

  // ---- Sections ---------------------------------------------------------------------------

  lemma SectionsUnroll(text: Text, visible: Text, headings: seq<Heading>, level: nat, i: nat)
    requires i <= |headings| && Sliceable(text, headings) && |visible| == |text|
    ensures Sections(text, visible, headings, level, i) ==
            if i == |headings| then []
            else (if headings[i].level == level then [SectionAt(text, visible, headings, i)] else [])
                 + Sections(text, visible, headings, level, i + 1)
  {
    hide SectionAt, Sliceable;
  }

  /** The sections are those of the headings of exactly the level, in their order. */
  lemma {:induction false} SectionsAre(text: Text, visible: Text, headings: seq<Heading>, level: nat, i: nat)
    returns (at: seq<nat>)
    requires i <= |headings| && Sliceable(text, headings) && |visible| == |text|
    ensures var sections := Sections(text, visible, headings, level, i);
      && |at| == |sections| && Rising(at)
      && (forall n :: n in at <==> i <= n < |headings| && headings[n].level == level)
      && (forall k | 0 <= k < |at| ::
            i <= at[k] < |headings| && sections[k] == SectionAt(text, visible, headings, at[k]))
    decreases |headings| - i
  {
    hide SectionAt, Sliceable, Rising, Sections;
    SectionsUnroll(text, visible, headings, level, i);
    if i == |headings| {
      at := [];
      NothingRises();
    } else {
      var rest := SectionsAre(text, visible, headings, level, i + 1);
      Prepended(i, rest, headings[i].level == level);
      at := (if headings[i].level == level then [i] else []) + rest;
    }
  }

  /** A section's body is the trimmed stretch behind its heading. */
  lemma SectionBody(text: Text, visible: Text, headings: seq<Heading>, i: nat) returns (from: nat, to: nat)
    requires i < |headings| && Sliceable(text, headings) && |visible| == |text|
    ensures headings[i].end <= SectionEnd(text, headings, i) <= |text|
    ensures var stretch := text[headings[i].end..SectionEnd(text, headings, i)];
      IsTrimmed(stretch, from, to, WHITE) && SectionAt(text, visible, headings, i).body == stretch[from..to]
      && SectionAt(text, visible, headings, i).title == headings[i].title
  {
    hide AllIn;
    assert headings[i] in headings && (i + 1 < |headings| ==> headings[i + 1] in headings);
    from, to := TrimStands(text[headings[i].end..SectionEnd(text, headings, i)], WHITE);
  }
}
