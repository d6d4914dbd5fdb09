/** `_JsonDocument`: the parser that fills `spans` while it reads. */
module JsonDocument {
  import opened Results
  import opened Texts
  import opened JsonScalars
  import opened JsonGrammar
  import opened JsonSpans

  lemma SkipSpaceAgain(t: Text, i: nat)
    requires i <= |t|
    ensures SkipSpace(t, SkipSpace(t, i)) == SkipSpace(t, i)
  {
  }

  lemma UnionsChain(a: map<Path, Span>, b: map<Path, Span>, c: map<Path, Span>)
    ensures a + (b + c) == (a + b) + c
  {
  }

  // ---- Arrays -----------------------------------------------------------------------------

  /** The item at `i`, behind which the text goes on at `k`. */
  ghost predicate ItemAt(t: Text, from: nat, i: nat, node: Scan<Node>, k: nat) {
    from <= |t| && i == SkipSpace(t, from) && node == ParseNode(t, i) && node.Scan? && k == SkipSpace(t, node.end)
  }

  lemma ItemUnfolds(t: Text, from: nat, i: nat, node: Scan<Node>, k: nat)
    requires ItemAt(t, from, i, node, k)
    ensures At(t, k) != RBRACKET && At(t, k) != COMMA ==> ParseItems(t, from).Malformed?
    ensures At(t, k) == RBRACKET || At(t, k) == COMMA ==>
              i == from + |t[from..i]| && k < |t| && node.end == i + |Print(node.value)|
    ensures At(t, k) == RBRACKET ==>
              ParseItems(t, from) == Scan(Items(t[from..i], node.value, t[node.end..k], None), k + 1)
    ensures At(t, k) == COMMA ==>
              ParseItems(t, from) ==
              match ParseItems(t, k + 1)
              case Malformed => Malformed
              case Scan(rest, e) => Scan(Items(t[from..i], node.value, t[node.end..k], Some(rest)), e)
  {
    hide ParseNode, SkipSpace, Print;
    if At(t, k) == RBRACKET || At(t, k) == COMMA {
      SpaceDelimits(t, node.end, k);
      NodeSound(t, i, node.value, node.end);
    }
  }

  /** What the loop of `array` has read of the array at `open`: the items and spans up to `from`. */
  ghost predicate ItemsRead(t: Text, open: nat, here: Path, before: map<Path, Span>, after: map<Path, Span>,
                            result: seq<Value>, from: nat) {
    && open < from <= |t|
    && var all, more := ParseItems(t, open + 1), ParseItems(t, from);
       && (all.Scan? <==> more.Scan?)
       && (all.Scan? ==>
             && all.end == more.end
             && ItemValues(all.value) == result + ItemValues(more.value)
             && before + ItemSpans(all.value, here, 0, open + 1) == after + ItemSpans(more.value, here, |result|, from))
  }

  lemma ItemsBegin(t: Text, open: nat, here: Path, before: map<Path, Span>)
    requires open < |t|
    ensures ItemsRead(t, open, here, before, before, [], open + 1)
  {
  }

  lemma OneMoreItem(pre: Text, node: Node, post: Text, rest: Items, here: Path, k: nat, at: nat)
    ensures var x := Items(pre, node, post, Some(rest));
      var end := at + |pre| + |Print(node)| + |post| + 1;
      && ItemValues(x) == [ToValue(node)] + ItemValues(rest)
      && ItemSpans(x, here, k, at) == Spans(node, here + [Index(k)], at + |pre|) + ItemSpans(rest, here, k + 1, end)
  {
    hide Print, Spans, ToValue;
  }

  lemma ItemsAdvance(t: Text, open: nat, here: Path, before: map<Path, Span>, after: map<Path, Span>,
                     result: seq<Value>, from: nat, i: nat, node: Scan<Node>, k: nat)
    requires ItemsRead(t, open, here, before, after, result, from) && ItemAt(t, from, i, node, k) && At(t, k) == COMMA
    ensures ItemsRead(t, open, here, before, after + Spans(node.value, here + [Index(|result|)], i),
                      result + [ToValue(node.value)], k + 1)
  {
    hide ParseNode, SkipSpace, Print, Spans, ParseItems, ToValue, At, ItemValues, ItemSpans;
    ItemUnfolds(t, from, i, node, k);
    var more := ParseItems(t, k + 1);
    if more.Scan? {
      assert ParseItems(t, from).Scan?;
      OneMoreItem(t[from..i], node.value, t[node.end..k], more.value, here, |result|, from);
      UnionsChain(after, Spans(node.value, here + [Index(|result|)], i),
                  ItemSpans(more.value, here, |result| + 1, k + 1));
    }
  }

  ghost predicate IsList(t: Text, open: nat) {
    At(t, open) == LBRACKET && open < |t| && At(t, SkipSpace(t, open + 1)) != RBRACKET
  }

  lemma ItemsEnd(t: Text, open: nat, here: Path, before: map<Path, Span>, after: map<Path, Span>,
                 result: seq<Value>, from: nat, i: nat, node: Scan<Node>, k: nat)
    requires IsList(t, open) && ItemsRead(t, open, here, before, after, result, from)
    requires ItemAt(t, from, i, node, k) && At(t, k) == RBRACKET
    ensures var all := ParseNode(t, open);
      && all.Scan? && all.end == k + 1 && ToValue(all.value) == Arr(result + [ToValue(node.value)])
      && before + Spans(all.value, here, open) == after + Spans(node.value, here + [Index(|result|)], i)
  {
    hide ParseNode, SkipSpace, Print, Spans, ParseItems, ToValue;
    ItemUnfolds(t, from, i, node, k);
    ListIs(t, open, here);
  }

  lemma ListIs(t: Text, open: nat, here: Path)
    requires IsList(t, open)
    ensures ParseNode(t, open) ==
            match ParseItems(t, open + 1)
            case Malformed => Malformed
            case Scan(items, e) => Scan(List(items), e)
    ensures forall items, at: nat {:trigger Spans(List(items), here, at)} ::
              Spans(List(items), here, at) == ItemSpans(items, here, 0, at + 1)
    ensures forall items {:trigger ToValue(List(items))} :: ToValue(List(items)) == Arr(ItemValues(items))
  {
    hide ParseItems, ParseMembers, SkipSpace, ItemSpans, ItemValues;
  }

  /** Where the loop gives up, the grammar does too. */
  lemma ItemsStop(t: Text, open: nat, here: Path, before: map<Path, Span>, after: map<Path, Span>,
                  result: seq<Value>, from: nat)
    requires IsList(t, open) && ItemsRead(t, open, here, before, after, result, from)
    requires var node := ParseNode(t, SkipSpace(t, from));
      node.Malformed? || (At(t, SkipSpace(t, node.end)) != RBRACKET && At(t, SkipSpace(t, node.end)) != COMMA)
    ensures ParseNode(t, open).Malformed?
  {
    hide ParseNode, SkipSpace, ItemSpans, ItemValues;
    ListIs(t, open, here);
    assert ParseItems(t, from).Malformed?;
  }

  // ---- Objects ----------------------------------------------------------------------------

  /** The member at `i`: its key, the colon at `c`, the value at `v`, and where the text goes on. */
  ghost predicate MemberAt(t: Text, from: nat, i: nat, key: Scan<Text>, c: nat, v: nat, node: Scan<Node>, k: nat) {
    && from <= |t| && i == SkipSpace(t, from) && key == ParseKey(t, i) && key.Scan?
    && c == SkipSpace(t, key.end) && c < |t| && t[c] == COLON
    && v == SkipSpace(t, c + 1) && node == ParseNode(t, v) && node.Scan? && k == SkipSpace(t, node.end)
  }

  function MemberOf(t: Text, from: nat, i: nat, key: Scan<Text>, c: nat, v: nat, node: Scan<Node>, k: nat,
                    rest: Option<Members>): Members
    requires key.Scan? && node.Scan? && from <= i <= key.end <= c < v <= node.end <= k <= |t|
  {
    Members(t[from..i], t[i..key.end], key.value, t[key.end..c], t[c + 1..v], node.value, t[node.end..k], rest)
  }

  lemma MemberRead(t: Text, from: nat, i: nat, key: Scan<Text>, c: nat, v: nat, node: Scan<Node>, k: nat,
                   seen: set<Text>)
    requires MemberAt(t, from, i, key, c, v, node, k) && key.value !in seen
    ensures from <= i <= key.end <= c < v <= node.end <= k <= |t|
    ensures ParseMembers(t, from, seen)
         == MoreMembers(t, k, MemberOf(t, from, i, key, c, v, node, k, None), seen + {key.value})
  {
    hide ParseNode, SkipSpace, ParseKey, MoreMembers;
  }

  lemma MemberWidths(t: Text, from: nat, i: nat, key: Scan<Text>, c: nat, v: nat, node: Scan<Node>, k: nat,
                     rest: Option<Members>)
    requires MemberAt(t, from, i, key, c, v, node, k) && (At(t, k) == RBRACE || At(t, k) == COMMA)
    ensures from <= i <= key.end <= c < v <= node.end <= k < |t|
    ensures ValueAt(MemberOf(t, from, i, key, c, v, node, k, rest), from) == v
    ensures RestMemberAt(MemberOf(t, from, i, key, c, v, node, k, rest), from) == k + 1
  {
    hide ParseNode, SkipSpace, Print, ParseKey;
    SpaceDelimits(t, node.end, k);
    NodeSound(t, v, node.value, node.end);
  }

  ghost predicate MembersRead(t: Text, open: nat, here: Path, before: map<Path, Span>, after: map<Path, Span>,
                              result: seq<Entry>, seen: set<Text>, from: nat) {
    && open < from <= |t|
    && var all, more := ParseMembers(t, open + 1, {}), ParseMembers(t, from, seen);
       && (all.Scan? <==> more.Scan?)
       && (all.Scan? ==>
             && all.end == more.end
             && MemberValues(all.value) == result + MemberValues(more.value)
             && before + MemberSpans(all.value, here, open + 1) == after + MemberSpans(more.value, here, from))
  }

  lemma MembersBegin(t: Text, open: nat, here: Path, before: map<Path, Span>)
    requires open < |t|
    ensures MembersRead(t, open, here, before, before, [], {}, open + 1)
  {
  }

  lemma MembersAdvance(t: Text, open: nat, here: Path, before: map<Path, Span>, after: map<Path, Span>,
                       result: seq<Entry>, seen: set<Text>, from: nat,
                       i: nat, key: Scan<Text>, c: nat, v: nat, node: Scan<Node>, k: nat)
    requires MembersRead(t, open, here, before, after, result, seen, from)
    requires MemberAt(t, from, i, key, c, v, node, k) && key.value !in seen && At(t, k) == COMMA
    ensures MembersRead(t, open, here, before, after + Spans(node.value, here + [Key(key.value)], v),
                        result + [Entry(key.value, ToValue(node.value))], seen + {key.value}, k + 1)
  {
    hide ParseNode, SkipSpace, Print, Spans, ParseMembers, ToValue, ParseKey, ValueAt, RestMemberAt;
    MemberRead(t, from, i, key, c, v, node, k, seen);
    var more := ParseMembers(t, k + 1, seen + {key.value});
    if more.Scan? {
      MemberWidths(t, from, i, key, c, v, node, k, Some(more.value));
      UnionsChain(after, Spans(node.value, here + [Key(key.value)], v), MemberSpans(more.value, here, k + 1));
    }
  }

  ghost predicate IsDict(t: Text, open: nat) {
    At(t, open) == LBRACE && open < |t| && At(t, SkipSpace(t, open + 1)) != RBRACE
  }

  lemma DictStarts(t: Text, open: nat)
    requires At(t, open) == LBRACE && open < |t| && At(t, SkipSpace(t, open + 1)) != RBRACE
    ensures IsDict(t, open)
  {
  }

  lemma DictIs(t: Text, open: nat, here: Path)
    requires IsDict(t, open)
    ensures ParseNode(t, open) ==
            match ParseMembers(t, open + 1, {})
            case Malformed => Malformed
            case Scan(members, e) => Scan(Dict(members), e)
    ensures forall members, at: nat {:trigger Spans(Dict(members), here, at)} ::
              Spans(Dict(members), here, at) == MemberSpans(members, here, at + 1)
    ensures forall members {:trigger ToValue(Dict(members))} :: ToValue(Dict(members)) == Obj(MemberValues(members))
  {
    hide ParseItems, ParseMembers, SkipSpace, MemberSpans, MemberValues;
  }

  lemma MembersEnd(t: Text, open: nat, here: Path, before: map<Path, Span>, after: map<Path, Span>,
                   result: seq<Entry>, seen: set<Text>, from: nat,
                   i: nat, key: Scan<Text>, c: nat, v: nat, node: Scan<Node>, k: nat)
    requires IsDict(t, open) && MembersRead(t, open, here, before, after, result, seen, from)
    requires MemberAt(t, from, i, key, c, v, node, k) && key.value !in seen && At(t, k) == RBRACE
    ensures var all := ParseNode(t, open);
      && all.Scan? && all.end == k + 1 && ToValue(all.value) == Obj(result + [Entry(key.value, ToValue(node.value))])
      && before + Spans(all.value, here, open) == after + Spans(node.value, here + [Key(key.value)], v)
  {
    hide ParseNode, SkipSpace, Print, Spans, ParseMembers, ToValue, ParseKey, ValueAt, RestMemberAt;
    MemberRead(t, from, i, key, c, v, node, k, seen);
    MemberWidths(t, from, i, key, c, v, node, k, None);
    DictIs(t, open, here);
  }

  /** The loop of `object` cannot read a member at `from`. */
  ghost predicate NoMember(t: Text, from: nat, seen: set<Text>)
    requires from <= |t|
  {
    var key := ParseKey(t, SkipSpace(t, from));
    key.Malformed? || key.value in seen || At(t, SkipSpace(t, key.end)) != COLON ||
    var node := ParseNode(t, SkipSpace(t, SkipSpace(t, key.end) + 1));
    node.Malformed? || (At(t, SkipSpace(t, node.end)) != RBRACE && At(t, SkipSpace(t, node.end)) != COMMA)
  }

  lemma MembersStop(t: Text, open: nat, here: Path, before: map<Path, Span>, after: map<Path, Span>,
                    result: seq<Entry>, seen: set<Text>, from: nat)
    requires IsDict(t, open) && MembersRead(t, open, here, before, after, result, seen, from)
    requires NoMember(t, from, seen)
    ensures ParseNode(t, open).Malformed?
  {
    hide ParseNode, SkipSpace, ParseKey, MemberSpans, MemberValues;
    DictIs(t, open, here);
    assert ParseMembers(t, from, seen).Malformed?;
  }

  /** What reading the member at `i` gives: its entry, the delimiter behind it and its spans, if its key is
      a new string and its value can be read. */
  ghost predicate MemberResult(t: Text, i: nat, path: Path, seen: set<Text>, before: map<Path, Span>,
                               after: map<Path, Span>, r: Scan<Entry>, c: nat)
    requires i <= |t|
  {
    var key := ParseKey(t, i);
    if key.Malformed? || key.value in seen || At(t, SkipSpace(t, key.end)) != COLON then r.Malformed?
    else
      && c == SkipSpace(t, key.end) && c < |t|
      && var v := SkipSpace(t, c + 1);
         var node := ParseNode(t, v);
         if node.Malformed? then r.Malformed?
         else r == Scan(Entry(key.value, ToValue(node.value)), SkipSpace(t, node.end))
              && after == before + Spans(node.value, path + [Key(key.value)], v)
  }

  /** The loop stops where no member can be read, and has a member otherwise. */
  lemma MemberOutcome(t: Text, from: nat, i: nat, path: Path, seen: set<Text>, before: map<Path, Span>,
                      after: map<Path, Span>, r: Scan<Entry>, c: nat)
    requires from <= |t| && i == SkipSpace(t, from) && MemberResult(t, i, path, seen, before, after, r, c)
    ensures r.Malformed? || (At(t, r.end) != RBRACE && At(t, r.end) != COMMA) ==> NoMember(t, from, seen)
    ensures r.Scan? ==>
              && i < c < r.end <= |t|
              && var key, v := ParseKey(t, i), SkipSpace(t, c + 1);
                 var node := ParseNode(t, v);
                 && MemberAt(t, from, i, key, c, v, node, r.end) && key.value !in seen
                 && r.value == Entry(key.value, ToValue(node.value))
                 && after == before + Spans(node.value, path + [Key(key.value)], v)
  {
    hide SkipSpace, ParseNode, Spans, ToValue, ParseKey;
  }

  // ---- The parser -------------------------------------------------------------------------

  class JsonDocument {
    const text: Text
    var spans: map<Path, Span>

    constructor (text: Text)
      ensures this.text == text && spans == map[]
    {
      this.text := text;
      spans := map[];
    }

    method Whitespace(index: nat) returns (i: nat)
      requires index <= |text|
      ensures i == SkipSpace(text, index)
    {
      i := index;
      while i < |text| && IsSpace(text[i])
        invariant index <= i <= |text|
        invariant SkipSpace(text, i) == SkipSpace(text, index)
      {
        i := i + 1;
      }
    }

    /** The value at `i` and where it ends. */
    ghost function Parsed(i: nat): Scan<Value>
      requires i <= |text|
    {
      match ParseNode(text, i)
      case Malformed => Malformed
      case Scan(node, end) => Scan(ToValue(node), end)
    }

    /** `parse` returns the value of the tree and records exactly the spans of its scalars. */
    method Parse(index: nat, path: Path) returns (r: Scan<Value>)
      requires index <= |text|
      modifies this`spans
      ensures r == Parsed(SkipSpace(text, index))
      ensures r.Scan? ==>
        spans == old(spans) + Spans(ParseNode(text, SkipSpace(text, index)).value, path, SkipSpace(text, index))
      decreases |text| - index, 1
    {
      hide ParseItems, ParseMembers, SkipSpace, Scalar, ItemSpans, MemberSpans, ItemValues, MemberValues;
      var i := Whitespace(index);
      if i >= |text| {
        r := Malformed;
        NothingAtEnd(text);
      } else if text[i] == LBRACE {
        r := Object(i, path);
      } else if text[i] == LBRACKET {
        r := Array(i, path);
      } else {
        r := Scalar(text, i);
        if r.Scan? {
          spans := spans[path := Span(i, r.end)];
        }
      }
    }

    method Array(open: nat, path: Path) returns (r: Scan<Value>)
      requires open < |text| && text[open] == LBRACKET
      modifies this`spans
      ensures r == Parsed(open)
      ensures r.Scan? ==> spans == old(spans) + Spans(ParseNode(text, open).value, path, open)
      decreases |text| - open, 0
    {
      hide SkipSpace, ParseNode, ItemsRead, Spans, ToValue;
      var result: seq<Value> := [];
      var index := Whitespace(open + 1);
      if index < |text| && text[index] == RBRACKET {
        EmptyIs(text, open, path);
        return Scan(Arr([]), index + 1);
      }
      ghost var from := open + 1;
      ItemsBegin(text, open, path, spans);
      assert IsList(text, open);
      while true
        invariant open < from <= index <= |text| && index == SkipSpace(text, from)
        invariant ItemsRead(text, open, path, old(spans), spans, result, from)
        decreases |text| - from
      {
        ghost var before := spans;
        SkipSpaceAgain(text, from);
        var item := Parse(index, path + [Index(|result|)]);
        ghost var node := ParseNode(text, index);
        if item.Malformed? {
          ItemsStop(text, open, path, old(spans), before, result, from);
          return Malformed;
        }
        var k := Whitespace(item.end);
        if k >= |text| || (text[k] != RBRACKET && text[k] != COMMA) {
          ItemsStop(text, open, path, old(spans), before, result, from);
          return Malformed;
        }
        if text[k] == RBRACKET {
          ItemsEnd(text, open, path, old(spans), before, result, from, index, node, k);
          return Scan(Arr(result + [item.value]), k + 1);
        }
        ItemsAdvance(text, open, path, old(spans), before, result, from, index, node, k);
        result := result + [item.value];
        from := k + 1;
        index := Whitespace(k + 1);
      }
    }

    /** The key, colon and value of one member, up to the delimiter behind them. */
    method Member(index: nat, path: Path, seen: set<Text>) returns (r: Scan<Entry>, ghost c: nat)
      requires index <= |text|
      modifies this`spans
      ensures MemberResult(text, index, path, seen, old(spans), spans, r, c)
      decreases |text| - index, 2
    {
      hide SkipSpace, ParseNode, Spans, ToValue, ParseKey;
      c := 0;
      var key := ParseKey(text, index);
      if key.Malformed? || key.value in seen {
        return Malformed, c;
      }
      var colon := Whitespace(key.end);
      if colon >= |text| || text[colon] != COLON {
        return Malformed, c;
      }
      c := colon;
      var member := Parse(colon + 1, path + [Key(key.value)]);
      if member.Malformed? {
        return Malformed, c;
      }
      var k := Whitespace(member.end);
      r := Scan(Entry(key.value, member.value), k);
    }

    method Object(open: nat, path: Path) returns (r: Scan<Value>)
      requires open < |text| && text[open] == LBRACE
      modifies this`spans
      ensures r == Parsed(open)
      ensures r.Scan? ==> spans == old(spans) + Spans(ParseNode(text, open).value, path, open)
      decreases |text| - open, 0
    {
      hide SkipSpace, ParseNode, MembersRead, Spans, ToValue, ParseKey, IsDict, MemberAt, MemberResult, NoMember;
      var result: seq<Entry> := [];
      var seen: set<Text> := {};
      var index := Whitespace(open + 1);
      if index < |text| && text[index] == RBRACE {
        EmptyIs(text, open, path);
        return Scan(Obj([]), index + 1);
      }
      ghost var from := open + 1;
      DictStarts(text, open);
      MembersBegin(text, open, path, spans);
      while true
        invariant open < from <= index <= |text| && index == SkipSpace(text, from)
        invariant MembersRead(text, open, path, old(spans), spans, result, seen, from)
        decreases |text| - from
      {
        ghost var before := spans;
        ghost var key := ParseKey(text, index);
        var member, c := Member(index, path, seen);
        MemberOutcome(text, from, index, path, seen, before, spans, member, c);
        var k := if member.Scan? then member.end else index;
        assert member.Scan? ==> from < k;
        if member.Malformed? || k >= |text| || (text[k] != RBRACE && text[k] != COMMA) {
          MembersStop(text, open, path, old(spans), before, result, seen, from);
          return Malformed;
        }
        ghost var v := SkipSpace(text, c + 1);
        ghost var node := ParseNode(text, v);
        if text[k] == RBRACE {
          MembersEnd(text, open, path, old(spans), before, result, seen, from, index, key, c, v, node, k);
          return Scan(Obj(result + [member.value]), k + 1);
        }
        MembersAdvance(text, open, path, old(spans), before, result, seen, from, index, key, c, v, node, k);
        result := result + [member.value];
        seen := seen + {member.value.key};
        from := k + 1;
        index := Whitespace(k + 1);
      }
    }
  }

  lemma EmptyIs(t: Text, open: nat, here: Path)
    requires open < |t|
    ensures At(t, open) == LBRACKET && At(t, SkipSpace(t, open + 1)) == RBRACKET ==>
              ParseNode(t, open) == Scan(EmptyList(t[open + 1..SkipSpace(t, open + 1)]), SkipSpace(t, open + 1) + 1)
    ensures At(t, open) == LBRACE && At(t, SkipSpace(t, open + 1)) == RBRACE ==>
              ParseNode(t, open) == Scan(EmptyDict(t[open + 1..SkipSpace(t, open + 1)]), SkipSpace(t, open + 1) + 1)
    ensures forall space, at: nat {:trigger Spans(EmptyList(space), here, at)} ::
              Spans(EmptyList(space), here, at) == map[]
    ensures forall space, at: nat {:trigger Spans(EmptyDict(space), here, at)} ::
              Spans(EmptyDict(space), here, at) == map[]
    ensures forall space {:trigger ToValue(EmptyList(space))} :: ToValue(EmptyList(space)) == Arr([])
    ensures forall space {:trigger ToValue(EmptyDict(space))} :: ToValue(EmptyDict(space)) == Obj([])
  {
    hide SkipSpace, ParseItems, ParseMembers;
  }

  lemma NothingAtEnd(t: Text)
    ensures ParseNode(t, |t|).Malformed?
  {
    if HoldsAt(t, |t|, NULL) || HoldsAt(t, |t|, TRUE) || HoldsAt(t, |t|, FALSE) || HoldsAt(t, |t|, NAN)
       || HoldsAt(t, |t|, INFINITY) || HoldsAt(t, |t|, NEGATIVE_INFINITY) {
      assert false;
    }
  }

  /** `_json_document`: a value and the spans of its scalars, or a failure. */
  method ParseDocument(text: Text) returns (r: Option<(Value, map<Path, Span>)>)
    ensures r.Some? <==> Document(text).Ok?
    ensures r.Some? ==>
      r.value == (ToValue(Document(text).value.node), Spans(Document(text).value.node, [], |Document(text).value.pre|))
  {
    hide ParseNode, SkipSpace, Spans, ToValue;
    var document := new JsonDocument(text);
    var root := document.Parse(0, []);
    if root.Malformed? {
      return None;
    }
    var end := document.Whitespace(root.end);
    if end != |text| {
      return None;
    }
    ghost var spans := Spans(Document(text).value.node, [], SkipSpace(text, 0));
    assert map[] + spans == spans;
    assert |text[..SkipSpace(text, 0)]| == SkipSpace(text, 0);
    return Some((root.value, document.spans));
  }

  /** The recorded spans are exact: the map has an entry for exactly the scalars, the entry's place
      holds that scalar's token, and no two entries overlap. */
  lemma RecordedSpansExact(text: Text, p: Path, q: Path)
    requires Document(text).Ok?
    ensures var d := Document(text).value;
      var spans := Spans(d.node, [], |d.pre|);
      && (p in spans <==> Locate(d.node, [], p, |d.pre|).Some?)
      && (p in spans ==>
            && spans[p].start < spans[p].end <= |text|
            && ScalarToken(text[spans[p].start..spans[p].end], Locate(d.node, [], p, |d.pre|).value.value))
      && (p in spans && q in spans && p != q ==>
            spans[p].end <= spans[q].start || spans[q].end <= spans[p].start)
  {
    hide ParseNode, Print, Spans, Locate, SkipSpace;
    var d := Document(text).value;
    var at := |d.pre|;
    DocumentPrints(text, d);
    SpansLocate(d.node, [], p, at);
    SpansLocate(d.node, [], q, at);
    var a, b := Locate(d.node, [], p, at), Locate(d.node, [], q, at);
    if a.Some? {
      SiteHoldsToken(d, p);
      if b.Some? && p != q {
        SitesDiffer(d.node, [], p, q, at, a.value, b.value);
        if b.value.span.start < a.value.span.start {
          EarlierSiteStays(d.node, [], p, q, Count(0), at, a.value, b.value);
        } else {
          EarlierSiteStays(d.node, [], q, p, Count(0), at, b.value, a.value);
        }
      }
    }
  }

  lemma SiteHoldsToken(d: Doc, p: Path)
    requires DocWellFormed(d) && Locate(d.node, [], p, |d.pre|).Some?
    ensures var site := Locate(d.node, [], p, |d.pre|).value;
      && site.span.start < site.span.end <= |PrintDoc(d)|
      && ScalarToken(PrintDoc(d)[site.span.start..site.span.end], site.value)
  {
    hide ScalarToken, Print, WellFormed, Cut;
    var site := Locate(d.node, [], p, |d.pre|).value;
    RewriteCuts(d.node, [], p, Count(0), |d.pre|, site.span);
    NodeHoldsToken(d.node, [], p, |d.pre|, site);
    SliceBehind(d.pre, Print(d.node) + d.post, 0, site.span);
    SliceBefore(Print(d.node), d.post, |d.pre|, site.span);
  }

  lemma {:induction false} NodeHoldsToken(n: Node, here: Path, p: Path, at: nat, site: Site)
    requires WellFormed(n) && Locate(n, here, p, at) == Some(site)
    ensures at <= site.span.start < site.span.end <= at + |Print(n)|
    ensures ScalarToken(Print(n)[site.span.start - at..site.span.end - at], site.value)
    decreases n, 0
  {
    hide ScalarToken, PrintItems, PrintMembers;
    match n
    case Leaf(token, value) =>
      ScalarStarts(token, value);
      assert token[0..|token|] == token;
    case List(items) =>
      ItemHoldsToken(items, here, 0, p, at + 1, site);
      SliceBehind([LBRACKET], PrintItems(items), at, site.span);
    case Dict(members) =>
      MemberHoldsToken(members, {}, here, p, at + 1, site);
      SliceBehind([LBRACE], PrintMembers(members), at, site.span);
  }

  lemma SliceBehind(a: Text, b: Text, at: nat, span: Span)
    requires at + |a| <= span.start <= span.end <= at + |a| + |b|
    ensures (a + b)[span.start - at..span.end - at] == b[span.start - at - |a|..span.end - at - |a|]
  {
  }

  lemma SliceBefore(a: Text, b: Text, at: nat, span: Span)
    requires at <= span.start <= span.end <= at + |a|
    ensures (a + b)[span.start - at..span.end - at] == a[span.start - at..span.end - at]
  {
  }

  lemma {:induction false} ItemHoldsToken(x: Items, here: Path, k: nat, p: Path, at: nat, site: Site)
    requires ItemsWellFormed(x) && LocateItem(x, here, k, p, at) == Some(site)
    ensures at <= site.span.start < site.span.end <= at + |PrintItems(x)|
    ensures ScalarToken(PrintItems(x)[site.span.start - at..site.span.end - at], site.value)
    decreases x, 1
  {
    hide ScalarToken, PrintItems, Print;
    ItemsText(x, at);
    if Locate(x.node, here + [Index(k)], p, NodeAt(x, at)).Some? {
      NodeHoldsToken(x.node, here + [Index(k)], p, NodeAt(x, at), site);
      SliceBehind(x.pre, Print(x.node) + AfterNode(x), at, site.span);
      SliceBefore(Print(x.node), AfterNode(x), NodeAt(x, at), site.span);
    } else {
      ItemHoldsToken(x.rest.value, here, k + 1, p, RestAt(x, at), site);
      SliceBehind(BeforeRest(x), PrintItems(x.rest.value), at, site.span);
    }
  }

  lemma {:induction false} MemberHoldsToken(x: Members, seen: set<Text>, here: Path, p: Path, at: nat, site: Site)
    requires MembersWellFormed(x, seen) && LocateMember(x, here, p, at) == Some(site)
    ensures at <= site.span.start < site.span.end <= at + |PrintMembers(x)|
    ensures ScalarToken(PrintMembers(x)[site.span.start - at..site.span.end - at], site.value)
    decreases x, 1
  {
    hide ScalarToken, PrintMembers, Print;
    MembersText(x, at);
    if Locate(x.node, here + [Key(x.key)], p, ValueAt(x, at)).Some? {
      NodeHoldsToken(x.node, here + [Key(x.key)], p, ValueAt(x, at), site);
      SliceBehind(Head(x), Print(x.node) + AfterValue(x), at, site.span);
      SliceBefore(Print(x.node), AfterValue(x), ValueAt(x, at), site.span);
    } else {
      MemberHoldsToken(x.rest.value, seen + {x.key}, here, p, RestMemberAt(x, at), site);
      SliceBehind(BeforeRestMember(x), PrintMembers(x.rest.value), at, site.span);
    }
  }
}
