/** Lines, headings and sections of release notes (scripts/release_control.py). */
module ReleaseSections {
  import opened Results
  import opened Texts
  import opened CodeSpans
  import opened ReleaseNotes

  // ---- Character runs ---------------------------------------------------------------------

  /** `len(t) - len(t.lstrip(c))`. */
  function Leading(t: Text, c: Code): (n: nat)
    ensures n <= |t| && (forall i | 0 <= i < n :: t[i] == c) && (n < |t| ==> t[n] != c)
  {
    if t != [] && t[0] == c then 1 + Leading(t[1..], c) else 0
  }

  function StripLeft(t: Text, drop: set<Code>): Text {
    if t != [] && t[0] in drop then StripLeft(t[1..], drop) else t
  }

  function StripRight(t: Text, drop: set<Code>): Text {
    if t != [] && t[|t| - 1] in drop then StripRight(t[..|t| - 1], drop) else t
  }

  const LINE_SPACE: set<Code> := {SPACE, TAB, RETURN, NEWLINE}

  // ---- Fences -----------------------------------------------------------------------------

  datatype Fence = Fence(marker: Code, length: nat, rest: Text)

  /** `_release_fence`. */
  function FenceOf(line: Text): Option<Fence> {
    var indent := Leading(line, SPACE);
    var content := line[indent..];
    if indent > 3 || content == [] || content[0] !in {TICK, TILDE} || Leading(content, content[0]) < 3 then None
    else Some(Fence(content[0], Leading(content, content[0]), content[Leading(content, content[0])..]))
  }

  /** `_release_fence_closes`; `open` is the marker and length of the open fence. */
  predicate FenceCloses(candidate: Option<Fence>, open: Fence) {
    && candidate.Some? && candidate.value.marker == open.marker && candidate.value.length >= open.length
    && forall i | 0 <= i < |candidate.value.rest| :: candidate.value.rest[i] in LINE_SPACE
  }

  predicate FenceOpens(candidate: Option<Fence>) {
    candidate.Some? && (candidate.value.marker == TILDE || TICK !in candidate.value.rest)
  }

  predicate Indented(line: Text) {
    HoldsAt(line, 0, [SPACE, SPACE, SPACE, SPACE]) || HoldsAt(line, 0, [TAB])
  }

  // ---- Lines ------------------------------------------------------------------------------

  /** The lines of `io.StringIO(text)`: they end behind every line feed. */
  function Lines(text: Text): seq<Text> {
    if text == [] then []
    else
      var end := LineEnd(text);
      [text[..end]] + Lines(text[end..])
  }

  function LineEnd(text: Text): (n: nat)
    requires text != []
    ensures 0 < n <= |text|
    ensures forall i | 0 <= i < n - 1 :: text[i] != NEWLINE
    ensures text[n - 1] == NEWLINE || n == |text|
  {
    if text[0] == NEWLINE || |text| == 1 then 1 else 1 + LineEnd(text[1..])
  }

  function Joined(parts: seq<Text>): Text {
    if parts == [] then [] else parts[0] + Joined(parts[1..])
  }

  /** A scanned line: its text, whether it may be a heading, and whether it counts as visible guidance. */
  datatype Scanned = Scanned(text: Text, heading: bool, guidance: bool)

  /** What stays open between lines. */
  datatype Open = Open(fence: Option<Fence>, comment: bool)

  datatype Step = Step(line: Scanned, open: Open)

  function ScanLine(line: Text, open: Open): Step {
    var candidate := FenceOf(line);
    if open.fence.Some? then
      var closes := FenceCloses(candidate, open.fence.value);
      Step(Scanned(line, false, !closes), if closes then open.(fence := None) else open)
    else if !open.comment && FenceOpens(candidate) then
      Step(Scanned(line, false, false), open.(fence := candidate))
    else if !open.comment && Indented(line) then Step(Scanned(line, false, true), open)
    else
      var m := Mask(line, 0, open.comment);
      Step(Scanned(m.text, true, true), open.(comment := m.comment))
  }

  function Scan(lines: seq<Text>, open: Open): seq<Scanned>
    decreases |lines|
  {
    if lines == [] then []
    else [ScanLine(lines[0], open).line] + Scan(lines[1..], ScanLine(lines[0], open).open)
  }

  /** What is open after some lines. */
  function OpenAfter(lines: seq<Text>, open: Open): Open
    decreases |lines|
  {
    if lines == [] then open else OpenAfter(lines[1..], ScanLine(lines[0], open).open)
  }

  const NOTHING := Open(None, false)

  /** `_release_lines`. */
  method ReleaseLines(text: Text) returns (scanned: seq<Scanned>)
    ensures scanned == Scan(Lines(text), NOTHING)
  {
    hide FenceOf, FenceCloses, FenceOpens, Indented, Mask, LineEnd, Lines, Scan;
    scanned := [];
    var fence: Option<Fence> := None;
    var comment := false;
    var rest := text;
    while rest != []
      invariant scanned + Scan(Lines(rest), Open(fence, comment)) == Scan(Lines(text), NOTHING)
      decreases |rest|
    {
      var line := rest[..LineEnd(rest)];
      ghost var open, before := Open(fence, comment), scanned;
      ScanUnrolls(rest, open);
      rest := rest[LineEnd(rest)..];
      var candidate := FenceOf(line);
      if fence.Some? {
        var closes := FenceCloses(candidate, fence.value);
        scanned := scanned + [Scanned(line, false, !closes)];
        if closes {
          fence := None;
        }
      } else if !comment && FenceOpens(candidate) {
        fence := candidate;
        scanned := scanned + [Scanned(line, false, false)];
      } else if !comment && Indented(line) {
        scanned := scanned + [Scanned(line, false, true)];
      } else {
        var m := MaskLine(line, comment);
        comment := m.comment;
        scanned := scanned + [Scanned(m.text, true, true)];
      }
      assert scanned == before + [ScanLine(line, open).line] && Open(fence, comment) == ScanLine(line, open).open;
    }
    ScanEnds(Open(fence, comment));
  }

  lemma ScanUnrolls(text: Text, open: Open)
    requires text != []
    ensures var next := ScanLine(text[..LineEnd(text)], open);
      Scan(Lines(text), open) == [next.line] + Scan(Lines(text[LineEnd(text)..]), next.open)
  {
    hide ScanLine;
    assert Lines(text)[1..] == Lines(text[LineEnd(text)..]);
  }

  lemma ScanEnds(open: Open)
    ensures Scan(Lines([]), open) == []
  {
  }

  /** A fence and a comment are never open together. */
  lemma {:induction false} FenceOrComment(lines: seq<Text>, open: Open)
    requires open.fence.Some? ==> !open.comment
    ensures OpenAfter(lines, open).fence.Some? ==> !OpenAfter(lines, open).comment
    decreases |lines|
  {
    hide FenceOf, FenceCloses, FenceOpens, Indented, Mask;
    if lines != [] {
      FenceOrComment(lines[1..], ScanLine(lines[0], open).open);
    }
  }

  function LineTexts(scanned: seq<Scanned>): seq<Text> {
    seq(|scanned|, i requires 0 <= i < |scanned| => scanned[i].text)
  }

  /** The text with its comments masked. */
  function Visible(text: Text): Text {
    Joined(LineTexts(Scan(Lines(text), NOTHING)))
  }

  lemma {:induction false} LinesJoin(text: Text)
    ensures Joined(Lines(text)) == text
    decreases |text|
  {
    if text != [] {
      LinesJoin(text[LineEnd(text)..]);
      assert text == text[..LineEnd(text)] + text[LineEnd(text)..];
    }
  }

  lemma LineMasks(line: Text, open: Open)
    ensures Masks(line, ScanLine(line, open).line.text)
  {
    hide FenceOf, FenceCloses, FenceOpens, Indented, Mask;
    MaskMasks(line, 0, open.comment);
    assert line[0..] == line;
  }

  lemma {:induction false} ScanMasks(lines: seq<Text>, open: Open)
    ensures |Scan(lines, open)| == |lines| && forall i | 0 <= i < |lines| :: Masks(lines[i], Scan(lines, open)[i].text)
    ensures Masks(Joined(lines), Joined(LineTexts(Scan(lines, open))))
    decreases |lines|
  {
    hide ScanLine, Masks;
    if lines != [] {
      var next := ScanLine(lines[0], open);
      LineMasks(lines[0], open);
      ScanMasks(lines[1..], next.open);
      assert LineTexts(Scan(lines, open))[1..] == LineTexts(Scan(lines[1..], next.open));
      JoinMasks(lines[0], next.line.text, Joined(lines[1..]), Joined(LineTexts(Scan(lines[1..], next.open))));
    }
    MasksItself([]);
  }

  lemma MasksItself(t: Text)
    ensures Masks(t, t)
  {
  }

  lemma JoinMasks(a: Text, x: Text, b: Text, y: Text)
    requires Masks(a, x) && Masks(b, y)
    ensures Masks(a + b, x + y)
  {
  }

  /** Over whole texts the masked text has the same length and line breaks, and differs only in spaces. */
  lemma VisibleMasks(text: Text)
    ensures Masks(text, Visible(text))
  {
    hide Masks, Scan, Lines;
    LinesJoin(text);
    ScanMasks(Lines(text), NOTHING);
  }

  // ---- Headings ---------------------------------------------------------------------------

  /** `_release_heading_title`. */
  function HeadingTitle(content: Text): Text {
    Unclosed(StripLeft(StripRight(content, LINE_SPACE), LINE_SPACE))
  }

  /** A stripped title without its closing run of hashes. */
  function Unclosed(title: Text): Text {
    var before := StripRight(title, {HASH});
    if before == [] || before[|before| - 1] in {SPACE, TAB} then StripRight(before, {SPACE, TAB}) else title
  }

  predicate AllIn(t: Text, codes: set<Code>) {
    forall i | 0 <= i < |t| :: t[i] in codes
  }

  lemma {:induction false} StripRightIs(t: Text, drop: set<Code>)
    ensures StripRight(t, drop) <= t && AllIn(t[|StripRight(t, drop)|..], drop)
    ensures StripRight(t, drop) != [] ==> StripRight(t, drop)[|StripRight(t, drop)| - 1] !in drop
  {
    if t != [] && t[|t| - 1] in drop {
      StripRightIs(t[..|t| - 1], drop);
      var kept := StripRight(t, drop);
      assert t[|kept|..] == t[..|t| - 1][|kept|..] + [t[|t| - 1]];
    } else {
      assert t[|t|..] == [];
    }
  }

  datatype Title = Title(level: nat, text: Text)

  /** The heading a scanned line is, if it is one. */
  function HeadingOf(line: Scanned): Option<Title> {
    var indent := Leading(line.text, SPACE);
    var heading := if indent <= 3 then line.text[indent..] else line.text;
    var level := Leading(heading, HASH);
    if line.heading && 1 <= level <= 6 && (level == |heading| || heading[level] in LINE_SPACE)
    then Some(Title(level, HeadingTitle(heading[level..]))) else None
  }

  datatype Heading = Heading(level: nat, title: Text, start: nat, end: nat)

  /** The heading of one line at its offset, if it is one. */
  function HeadingHere(line: Scanned, offset: nat): seq<Heading> {
    match HeadingOf(line)
    case None => []
    case Some(t) => [Heading(t.level, t.text, offset, offset + |line.text|)]
  }

  function Headings(scanned: seq<Scanned>, offset: nat): seq<Heading>
    decreases |scanned|
  {
    if scanned == [] then []
    else HeadingHere(scanned[0], offset) + Headings(scanned[1..], offset + |scanned[0].text|)
  }

  lemma HeadingsUnroll(scanned: seq<Scanned>, i: nat, offset: nat)
    requires i < |scanned|
    ensures Headings(scanned[i..], offset)
            == HeadingHere(scanned[i], offset) + Headings(scanned[i + 1..], offset + |scanned[i].text|)
  {
    hide HeadingHere;
    assert scanned[i..][1..] == scanned[i + 1..];
  }

  /** `_release_headings`. */
  method ReleaseHeadings(text: Text) returns (headings: seq<Heading>)
    ensures headings == Headings(Scan(Lines(text), NOTHING), 0)
  {
    hide HeadingOf, Scan, Lines, Headings;
    var scanned := ReleaseLines(text);
    headings := [];
    var offset: nat := 0;
    var i := 0;
    assert scanned[0..] == scanned;
    while i < |scanned|
      invariant i <= |scanned|
      invariant headings + Headings(scanned[i..], offset) == Headings(scanned, 0)
    {
      HeadingsUnroll(scanned, i, offset);
      var heading := HeadingOf(scanned[i]);
      if heading.Some? {
        headings := headings + [Heading(heading.value.level, heading.value.text, offset, offset + |scanned[i].text|)];
      }
      offset := offset + |scanned[i].text|;
      i := i + 1;
    }
    assert scanned[i..] == [];
    NoHeadings(offset);
  }

  lemma NoHeadings(offset: nat)
    ensures Headings([], offset) == []
  {
  }

  /** `h` is the heading that the visible slice reads as. */
  predicate Reads(visible: Text, h: Heading) {
    && h.start < h.end <= |visible|
    && HeadingOf(Scanned(visible[h.start..h.end], true, true)) == Some(Title(h.level, h.title))
  }

  predicate InOrder(headings: seq<Heading>) {
    forall i, j | 0 <= i < j < |headings| :: headings[i].end <= headings[j].start
  }

  lemma HeadingIsNotEmpty(line: Scanned)
    ensures HeadingOf(line).Some? ==> |line.text| > 0 && line.heading
    ensures HeadingOf(line) == if line.heading then HeadingOf(Scanned(line.text, true, true)) else None
  {
  }

  lemma HereReads(before: Text, line: Scanned, rest: Text)
    ensures forall h | h in HeadingHere(line, |before|) ::
              h.start == |before| && h.end == |before| + |line.text| && Reads(before + (line.text + rest), h)
  {
    hide HeadingOf;
    HeadingIsNotEmpty(line);
    assert (before + (line.text + rest))[|before|..|before| + |line.text|] == line.text;
  }

  lemma HereInOrder(line: Scanned, offset: nat, headings: seq<Heading>)
    requires InOrder(headings) && forall h | h in headings :: offset + |line.text| <= h.start
    ensures InOrder(HeadingHere(line, offset) + headings)
  {
    hide HeadingOf;
    assert forall i | 0 <= i < |headings| :: headings[i] in headings;
  }

  lemma {:induction false} HeadingsRead(before: Text, scanned: seq<Scanned>)
    ensures var headings := Headings(scanned, |before|);
      var visible := before + Joined(LineTexts(scanned));
      InOrder(headings) && forall h | h in headings :: |before| <= h.start && Reads(visible, h)
    decreases |scanned|
  {
    hide HeadingHere, Reads, InOrder;
    if scanned == [] {
      EmptyInOrder();
    } else {
      var line := scanned[0];
      var rest := Joined(LineTexts(scanned[1..]));
      HeadingsRead(before + line.text, scanned[1..]);
      assert LineTexts(scanned)[1..] == LineTexts(scanned[1..]);
      assert before + (line.text + rest) == (before + line.text) + rest;
      HereReads(before, line, rest);
      HereInOrder(line, |before|, Headings(scanned[1..], |before| + |line.text|));
    }
  }

  /** Headings lie in the text in order, and each is what its visible slice reads as. */
  lemma HeadingsOfText(text: Text)
    ensures var headings := Headings(Scan(Lines(text), NOTHING), 0);
      InOrder(headings) && forall h | h in headings :: h.end <= |text| && Reads(Visible(text), h)
  {
    hide Scan, Lines, Headings, Reads, InOrder, Joined, LineTexts, Masks;
    var headings := Headings(Scan(Lines(text), NOTHING), 0);
    HeadingsRead([], Scan(Lines(text), NOTHING));
    assert [] + Visible(text) == Visible(text);
    VisibleMasks(text);
    SameLength(text, Visible(text));
    forall h | h in headings ensures h.end <= |text| && Reads(Visible(text), h) {
      ReadsBound(Visible(text), h);
    }
  }

  lemma ReadsBound(visible: Text, h: Heading)
    requires Reads(visible, h)
    ensures h.start < h.end <= |visible|
  {
    hide HeadingOf;
  }

  // ---- Sections ---------------------------------------------------------------------------

  /** The white space of `str.strip`. */
  const WHITE: set<Code> :=
    {0x09, 0x0A, 0x0B, 0x0C, 0x0D, 0x1C, 0x1D, 0x1E, 0x1F, 0x20, 0x85, 0xA0, 0x1680, 0x2000, 0x2001, 0x2002, 0x2003,
     0x2004, 0x2005, 0x2006, 0x2007, 0x2008, 0x2009, 0x200A, 0x2028, 0x2029, 0x202F, 0x205F, 0x3000}

  datatype Section = Section(title: Text, body: Text, visible: Text)

  /** The headings of a level or above it. */
  function UpTo(headings: seq<Heading>, level: nat): seq<Heading> {
    if headings == [] then []
    else (if headings[0].level <= level then [headings[0]] else []) + UpTo(headings[1..], level)
  }

  /** Where the section of a heading ends. */
  function SectionEnd(text: Text, headings: seq<Heading>, i: nat): nat
    requires i < |headings|
  {
    if i + 1 < |headings| then headings[i + 1].start else |text|
  }

  predicate Sliceable(text: Text, headings: seq<Heading>) {
    InOrder(headings) && forall h | h in headings :: h.start < h.end <= |text|
  }

  function SectionAt(text: Text, visible: Text, headings: seq<Heading>, i: nat): Section
    requires i < |headings| && Sliceable(text, headings) && |visible| == |text|
  {
    var start, end := headings[i].end, SectionEnd(text, headings, i);
    assert headings[i] in headings && (i + 1 < |headings| ==> headings[i + 1] in headings);
    Section(headings[i].title, StripLeft(StripRight(text[start..end], WHITE), WHITE), visible[start..end])
  }

  /** The sections of exactly the level among headings up to it. */
  function Sections(text: Text, visible: Text, headings: seq<Heading>, level: nat, i: nat): seq<Section>
    requires i <= |headings| && Sliceable(text, headings) && |visible| == |text|
    decreases |headings| - i
  {
    if i == |headings| then []
    else (if headings[i].level == level then [SectionAt(text, visible, headings, i)] else [])
         + Sections(text, visible, headings, level, i + 1)
  }

  lemma {:induction false} UpToMembers(headings: seq<Heading>, level: nat)
    ensures forall h :: h in UpTo(headings, level) <==> h in headings && h.level <= level
  {
    if headings != [] {
      UpToMembers(headings[1..], level);
      assert headings == [headings[0]] + headings[1..];
    }
  }

  lemma RestInOrder(headings: seq<Heading>)
    requires InOrder(headings) && headings != []
    ensures InOrder(headings[1..]) && forall h | h in headings[1..] :: headings[0].end <= h.start
  {
    forall h | h in headings[1..] ensures headings[0].end <= h.start {
      var j :| 0 <= j < |headings[1..]| && headings[1..][j] == h;
      assert headings[j + 1] == h;
    }
  }

  lemma FirstInOrder(first: Heading, rest: seq<Heading>)
    requires InOrder(rest) && forall h | h in rest :: first.end <= h.start
    ensures InOrder([first] + rest)
  {
    assert forall j | 0 <= j < |rest| :: rest[j] in rest;
  }

  lemma {:induction false} UpToInOrder(headings: seq<Heading>, level: nat)
    requires InOrder(headings)
    ensures InOrder(UpTo(headings, level))
  {
    hide InOrder;
    if headings == [] {
    } else {
      RestInOrder(headings);
      UpToInOrder(headings[1..], level);
      UpToMembers(headings[1..], level);
      FirstInOrder(headings[0], UpTo(headings[1..], level));
      assert [] + UpTo(headings[1..], level) == UpTo(headings[1..], level);
    }
    EmptyInOrder();
  }

  lemma EmptyInOrder()
    ensures InOrder([])
  {
  }

  lemma UpToKeeps(headings: seq<Heading>, level: nat)
    requires InOrder(headings)
    ensures InOrder(UpTo(headings, level))
    ensures forall h :: h in UpTo(headings, level) <==> h in headings && h.level <= level
  {
    UpToInOrder(headings, level);
    UpToMembers(headings, level);
  }

  lemma HeadingsSlice(text: Text, level: nat)
    ensures Sliceable(text, UpTo(Headings(Scan(Lines(text), NOTHING), 0), level)) && |Visible(text)| == |text|
  {
    hide Scan, Lines, HeadingOf, Headings;
    HeadingsOfText(text);
    VisibleMasks(text);
    UpToKeeps(Headings(Scan(Lines(text), NOTHING), 0), level);
  }

  /** `_release_sections`. */
  method ReleaseSections(text: Text, level: nat) returns (sections: seq<Section>)
    ensures Sliceable(text, UpTo(Headings(Scan(Lines(text), NOTHING), 0), level)) && |Visible(text)| == |text|
    ensures sections == Sections(text, Visible(text), UpTo(Headings(Scan(Lines(text), NOTHING), 0), level), level, 0)
  {
    hide Scan, Lines, HeadingOf, Headings, SectionAt, Sliceable;
    HeadingsSlice(text, level);
    var scanned := ReleaseLines(text);
    var visible := Joined(LineTexts(scanned));
    var all := ReleaseHeadings(text);
    var headings := UpTo(all, level);
    sections := [];
    for i := 0 to |headings|
      invariant sections + Sections(text, visible, headings, level, i) == Sections(text, visible, headings, level, 0)
    {
      if headings[i].level == level {
        sections := sections + [SectionAt(text, visible, headings, i)];
      }
    }
  }

  /** A section is a stretch of the text behind its heading in which no heading of its level or above
      begins and behind which one begins or the text ends; its masked body is that stretch, masked. */
  lemma SectionIsStretch(text: Text, level: nat, i: nat)
    requires Sliceable(text, UpTo(Headings(Scan(Lines(text), NOTHING), 0), level)) && |Visible(text)| == |text|
    requires i < |UpTo(Headings(Scan(Lines(text), NOTHING), 0), level)|
    ensures var all := Headings(Scan(Lines(text), NOTHING), 0);
      var headings := UpTo(all, level);
      var start, end := headings[i].end, SectionEnd(text, headings, i);
      && start <= end <= |text|
      && Masks(text[start..end], SectionAt(text, Visible(text), headings, i).visible)
      && (forall h | h in all && h.level <= level :: h.end <= start || end <= h.start)
      && (end == |text| || exists h | h in all && h.level <= level :: h.start == end)
  {
    hide Scan, Lines, HeadingOf, Headings, UpTo;
    var all := Headings(Scan(Lines(text), NOTHING), 0);
    var headings := UpTo(all, level);
    var start, end := headings[i].end, SectionEnd(text, headings, i);
    HeadingsOfText(text);
    UpToKeeps(all, level);
    VisibleMasks(text);
    assert headings[i] in headings && (i + 1 < |headings| ==> headings[i + 1] in headings);
    forall h | h in all && h.level <= level ensures h.end <= start || end <= h.start {
      var k :| 0 <= k < |headings| && headings[k] == h;
      assert k < i || k == i || k == i + 1 || i + 1 < k;
    }
  }
}
