/** Where the scalars of a document stand, and what replacing their tokens does to its text and value. */
module JsonSpans {
  import opened Results
  import opened Texts
  import opened JsonScalars
  import opened JsonGrammar

  datatype Step = Key(key: Text) | Index(k: nat)

  type Path = seq<Step>

  datatype Span = Span(start: nat, end: nat)

  /** A scalar of a document: its token's place and its value. */
  datatype Site = Site(span: Span, value: Value)

  /** The scalar with path `q` in a value that stands at `at` and has path `here`. */
  function Locate(n: Node, here: Path, q: Path, at: nat): Option<Site> {
    match n
    case Leaf(token, value) => if here == q then Some(Site(Span(at, at + |token|), value)) else None
    case EmptyList(_) => None
    case List(items) => LocateItem(items, here, 0, q, at + 1)
    case EmptyDict(_) => None
    case Dict(members) => LocateMember(members, here, q, at + 1)
  }

  function NodeAt(x: Items, at: nat): nat {
    at + |x.pre|
  }

  function RestAt(x: Items, at: nat): nat {
    at + |x.pre| + |Print(x.node)| + |x.post| + 1
  }

  function LocateItem(x: Items, here: Path, k: nat, q: Path, at: nat): Option<Site> {
    var first := Locate(x.node, here + [Index(k)], q, NodeAt(x, at));
    if first.Some? || x.rest.None? then first
    else LocateItem(x.rest.value, here, k + 1, q, RestAt(x, at))
  }

  function ValueAt(x: Members, at: nat): nat {
    at + |x.pre| + |x.keyToken| + |x.mid| + 1 + |x.gap|
  }

  function RestMemberAt(x: Members, at: nat): nat {
    ValueAt(x, at) + |Print(x.node)| + |x.post| + 1
  }

  function LocateMember(x: Members, here: Path, q: Path, at: nat): Option<Site> {
    var first := Locate(x.node, here + [Key(x.key)], q, ValueAt(x, at));
    if first.Some? || x.rest.None? then first
    else LocateMember(x.rest.value, here, q, RestMemberAt(x, at))
  }

  // ---- Paths tell scalars apart -----------------------------------------------------------

  lemma {:induction false} LocatePrefix(n: Node, here: Path, q: Path, at: nat)
    ensures Locate(n, here, q, at).Some? ==> here <= q
    decreases n, 0
  {
    match n
    case Leaf(_, _) =>
    case EmptyList(_) =>
    case List(items) => LocateItemPrefix(items, here, 0, q, at + 1);
    case EmptyDict(_) =>
    case Dict(members) => LocateMemberPrefix(members, here, q, at + 1);
  }

  lemma {:induction false} LocateItemPrefix(x: Items, here: Path, k: nat, q: Path, at: nat)
    ensures LocateItem(x, here, k, q, at).Some? ==>
      here < q && q[|here|].Index? && q[|here|].k >= k
    decreases x, 1
  {
    LocatePrefix(x.node, here + [Index(k)], q, NodeAt(x, at));
    if here + [Index(k)] <= q {
      assert q[|here|] == (here + [Index(k)])[|here|];
    }
    if x.rest.Some? {
      LocateItemPrefix(x.rest.value, here, k + 1, q, RestAt(x, at));
    }
  }

  predicate HasKey(x: Members, key: Text) {
    x.key == key || (x.rest.Some? && HasKey(x.rest.value, key))
  }

  lemma {:induction false} LocateMemberPrefix(x: Members, here: Path, q: Path, at: nat)
    ensures LocateMember(x, here, q, at).Some? ==> here < q && q[|here|].Key? && HasKey(x, q[|here|].key)
    decreases x, 1
  {
    LocatePrefix(x.node, here + [Key(x.key)], q, ValueAt(x, at));
    if here + [Key(x.key)] <= q {
      assert q[|here|] == (here + [Key(x.key)])[|here|];
    }
    if x.rest.Some? {
      LocateMemberPrefix(x.rest.value, here, q, RestMemberAt(x, at));
    }
  }

  lemma {:induction false} SeenKeysAbsent(x: Members, seen: set<Text>, key: Text)
    requires MembersWellFormed(x, seen) && key in seen
    ensures !HasKey(x, key)
    decreases x
  {
    if x.rest.Some? {
      SeenKeysAbsent(x.rest.value, seen + {x.key}, key);
    }
  }

  /** A scalar is found in one item only. */
  lemma ItemsApart(x: Items, here: Path, k: nat, q: Path, a: nat, b: nat)
    requires x.rest.Some? && Locate(x.node, here + [Index(k)], q, a).Some?
    ensures LocateItem(x.rest.value, here, k + 1, q, b).None?
  {
    LocatePrefix(x.node, here + [Index(k)], q, a);
    LocateItemPrefix(x.rest.value, here, k + 1, q, b);
    assert q[|here|] == (here + [Index(k)])[|here|];
  }

  /** A scalar is found in one member only, because no key repeats. */
  lemma MembersApart(x: Members, seen: set<Text>, here: Path, q: Path, a: nat, b: nat)
    requires MembersWellFormed(x, seen)
    requires x.rest.Some? && Locate(x.node, here + [Key(x.key)], q, a).Some?
    ensures LocateMember(x.rest.value, here, q, b).None?
  {
    LocatePrefix(x.node, here + [Key(x.key)], q, a);
    LocateMemberPrefix(x.rest.value, here, q, b);
    SeenKeysAbsent(x.rest.value, seen + {x.key}, x.key);
    assert q[|here|] == (here + [Key(x.key)])[|here|];
  }

  // ---- The spans the parser records -------------------------------------------------------

  function Spans(n: Node, here: Path, at: nat): map<Path, Span> {
    match n
    case Leaf(token, _) => map[here := Span(at, at + |token|)]
    case EmptyList(_) => map[]
    case List(items) => ItemSpans(items, here, 0, at + 1)
    case EmptyDict(_) => map[]
    case Dict(members) => MemberSpans(members, here, at + 1)
  }

  function ItemSpans(x: Items, here: Path, k: nat, at: nat): map<Path, Span> {
    var first := Spans(x.node, here + [Index(k)], NodeAt(x, at));
    match x.rest
    case None => first
    case Some(items) => first + ItemSpans(items, here, k + 1, RestAt(x, at))
  }

  function MemberSpans(x: Members, here: Path, at: nat): map<Path, Span> {
    var first := Spans(x.node, here + [Key(x.key)], ValueAt(x, at));
    match x.rest
    case None => first
    case Some(members) => first + MemberSpans(members, here, RestMemberAt(x, at))
  }

  /** Exactly the scalars are recorded, each with the place of its token. */
  lemma {:induction false} SpansLocate(n: Node, here: Path, q: Path, at: nat)
    requires WellFormed(n)
    ensures q in Spans(n, here, at) <==> Locate(n, here, q, at).Some?
    ensures q in Spans(n, here, at) ==> Spans(n, here, at)[q] == Locate(n, here, q, at).value.span
    decreases n, 0
  {
    match n
    case Leaf(_, _) =>
    case EmptyList(_) =>
    case List(items) => ItemSpansLocate(items, here, 0, q, at + 1);
    case EmptyDict(_) =>
    case Dict(members) => MemberSpansLocate(members, {}, here, q, at + 1);
  }

  lemma {:induction false} ItemSpansLocate(x: Items, here: Path, k: nat, q: Path, at: nat)
    requires ItemsWellFormed(x)
    ensures q in ItemSpans(x, here, k, at) <==> LocateItem(x, here, k, q, at).Some?
    ensures q in ItemSpans(x, here, k, at) ==> ItemSpans(x, here, k, at)[q] == LocateItem(x, here, k, q, at).value.span
    decreases x, 1
  {
    SpansLocate(x.node, here + [Index(k)], q, NodeAt(x, at));
    if x.rest.Some? {
      ItemSpansLocate(x.rest.value, here, k + 1, q, RestAt(x, at));
      if Locate(x.node, here + [Index(k)], q, NodeAt(x, at)).Some? {
        ItemsApart(x, here, k, q, NodeAt(x, at), RestAt(x, at));
      }
    }
  }

  lemma {:induction false} MemberSpansLocate(x: Members, seen: set<Text>, here: Path, q: Path, at: nat)
    requires MembersWellFormed(x, seen)
    ensures q in MemberSpans(x, here, at) <==> LocateMember(x, here, q, at).Some?
    ensures q in MemberSpans(x, here, at) ==> MemberSpans(x, here, at)[q] == LocateMember(x, here, q, at).value.span
    decreases x, 1
  {
    SpansLocate(x.node, here + [Key(x.key)], q, ValueAt(x, at));
    if x.rest.Some? {
      MemberSpansLocate(x.rest.value, seen + {x.key}, here, q, RestMemberAt(x, at));
      if Locate(x.node, here + [Key(x.key)], q, ValueAt(x, at)).Some? {
        MembersApart(x, seen, here, q, ValueAt(x, at), RestMemberAt(x, at));
      }
    }
  }

  // ---- Replacing scalars ------------------------------------------------------------------

  /** The tree with other fields at the given paths; everything else stays character for character. */
  function Rewrite(n: Node, here: Path, m: map<Path, Field>): Node {
    match n
    case Leaf(_, _) => if here in m then Leaf(Dump(m[here]), FieldValue(m[here])) else n
    case EmptyList(_) => n
    case List(items) => List(RewriteItems(items, here, 0, m))
    case EmptyDict(_) => n
    case Dict(members) => Dict(RewriteMembers(members, here, m))
  }

  function RewriteItems(x: Items, here: Path, k: nat, m: map<Path, Field>): Items {
    Items(x.pre, Rewrite(x.node, here + [Index(k)], m), x.post,
          match x.rest case None => None case Some(items) => Some(RewriteItems(items, here, k + 1, m)))
  }

  function RewriteMembers(x: Members, here: Path, m: map<Path, Field>): Members {
    Members(x.pre, x.keyToken, x.key, x.mid, x.gap, Rewrite(x.node, here + [Key(x.key)], m), x.post,
            match x.rest case None => None case Some(members) => Some(RewriteMembers(members, here, m)))
  }

  /** The value with other scalars at the given paths, all replaced at once. */
  function Substitute(v: Value, here: Path, m: map<Path, Field>): Value {
    match v
    case Arr(items) => Arr(SubstituteItems(items, here, 0, m))
    case Obj(members) => Obj(SubstituteMembers(members, here, m))
    case _ => if here in m then FieldValue(m[here]) else v
  }

  function SubstituteItems(items: seq<Value>, here: Path, k: nat, m: map<Path, Field>): seq<Value> {
    if items == [] then []
    else [Substitute(items[0], here + [Index(k)], m)] + SubstituteItems(items[1..], here, k + 1, m)
  }

  function SubstituteMembers(members: seq<Entry>, here: Path, m: map<Path, Field>): seq<Entry> {
    if members == [] then []
    else
      var Entry(key, value) := members[0];
      [Entry(key, Substitute(value, here + [Key(key)], m))] + SubstituteMembers(members[1..], here, m)
  }

  predicate AllFields(m: map<Path, Field>) {
    forall p | p in m :: IsField(m[p])
  }

  lemma DumpIsToken(f: Field)
    requires IsField(f)
    ensures ScalarToken(Dump(f), FieldValue(f)) && |Dump(f)| > 0
  {
    var t := Dump(f);
    assert t[0..|t|] == t;
    DumpReads(t, 0, f);
  }

  lemma {:induction false} RewriteWellFormed(n: Node, here: Path, m: map<Path, Field>)
    requires WellFormed(n) && AllFields(m)
    ensures WellFormed(Rewrite(n, here, m))
    decreases n, 0
  {
    match n
    case Leaf(_, _) => if here in m { DumpIsToken(m[here]); }
    case EmptyList(_) =>
    case List(items) => RewriteItemsWellFormed(items, here, 0, m);
    case EmptyDict(_) =>
    case Dict(members) => RewriteMembersWellFormed(members, {}, here, m);
  }

  lemma {:induction false} RewriteItemsWellFormed(x: Items, here: Path, k: nat, m: map<Path, Field>)
    requires ItemsWellFormed(x) && AllFields(m)
    ensures ItemsWellFormed(RewriteItems(x, here, k, m))
    decreases x, 1
  {
    RewriteWellFormed(x.node, here + [Index(k)], m);
    if x.rest.Some? { RewriteItemsWellFormed(x.rest.value, here, k + 1, m); }
  }

  lemma {:induction false} RewriteMembersWellFormed(x: Members, seen: set<Text>, here: Path, m: map<Path, Field>)
    requires MembersWellFormed(x, seen) && AllFields(m)
    ensures MembersWellFormed(RewriteMembers(x, here, m), seen)
    decreases x, 1
  {
    RewriteWellFormed(x.node, here + [Key(x.key)], m);
    if x.rest.Some? { RewriteMembersWellFormed(x.rest.value, seen + {x.key}, here, m); }
  }

  lemma ScalarIsNoContainer(t: Text, i: nat)
    requires i <= |t| && Scalar(t, i).Scan?
    ensures !Scalar(t, i).value.Arr? && !Scalar(t, i).value.Obj?
  {
  }

  /** Rewriting tokens replaces exactly the named scalars of the value. */
  lemma {:induction false} RewriteValue(n: Node, here: Path, m: map<Path, Field>)
    requires WellFormed(n)
    ensures ToValue(Rewrite(n, here, m)) == Substitute(ToValue(n), here, m)
    decreases n, 0
  {
    match n
    case Leaf(token, _) => ScalarIsNoContainer(token, 0);
    case EmptyList(_) =>
    case List(items) => RewriteItemValues(items, here, 0, m);
    case EmptyDict(_) =>
    case Dict(members) => RewriteMemberValues(members, {}, here, m);
  }

  lemma {:induction false} RewriteItemValues(x: Items, here: Path, k: nat, m: map<Path, Field>)
    requires ItemsWellFormed(x)
    ensures ItemValues(RewriteItems(x, here, k, m)) == SubstituteItems(ItemValues(x), here, k, m)
    decreases x, 1
  {
    RewriteValue(x.node, here + [Index(k)], m);
    if x.rest.Some? {
      RewriteItemValues(x.rest.value, here, k + 1, m);
      assert ItemValues(x)[1..] == ItemValues(x.rest.value);
    } else {
      assert ItemValues(x)[1..] == [];
    }
  }

  lemma {:induction false} RewriteMemberValues(x: Members, seen: set<Text>, here: Path, m: map<Path, Field>)
    requires MembersWellFormed(x, seen)
    ensures MemberValues(RewriteMembers(x, here, m)) == SubstituteMembers(MemberValues(x), here, m)
    decreases x, 1
  {
    RewriteValue(x.node, here + [Key(x.key)], m);
    if x.rest.Some? {
      RewriteMemberValues(x.rest.value, seen + {x.key}, here, m);
      assert MemberValues(x)[1..] == MemberValues(x.rest.value);
    } else {
      assert MemberValues(x)[1..] == [];
    }
  }

  lemma {:induction false} RewriteNothing(n: Node, here: Path)
    ensures Rewrite(n, here, map[]) == n
    decreases n, 0
  {
    match n
    case Leaf(_, _) =>
    case EmptyList(_) =>
    case List(items) => RewriteNoItems(items, here, 0);
    case EmptyDict(_) =>
    case Dict(members) => RewriteNoMembers(members, here);
  }

  lemma {:induction false} RewriteNoItems(x: Items, here: Path, k: nat)
    ensures RewriteItems(x, here, k, map[]) == x
    decreases x, 1
  {
    RewriteNothing(x.node, here + [Index(k)]);
    if x.rest.Some? { RewriteNoItems(x.rest.value, here, k + 1); }
  }

  lemma {:induction false} RewriteNoMembers(x: Members, here: Path)
    ensures RewriteMembers(x, here, map[]) == x
    decreases x, 1
  {
    RewriteNothing(x.node, here + [Key(x.key)]);
    if x.rest.Some? { RewriteNoMembers(x.rest.value, here); }
  }

  /** Rewriting in two rounds is rewriting at once; the later round prevails. */
  lemma {:induction false} RewriteTwice(n: Node, here: Path, a: map<Path, Field>, b: map<Path, Field>)
    ensures Rewrite(Rewrite(n, here, a), here, b) == Rewrite(n, here, a + b)
    decreases n, 0
  {
    match n
    case Leaf(_, _) =>
    case EmptyList(_) =>
    case List(items) => RewriteItemsTwice(items, here, 0, a, b);
    case EmptyDict(_) =>
    case Dict(members) => RewriteMembersTwice(members, here, a, b);
  }

  lemma {:induction false} RewriteItemsTwice(x: Items, here: Path, k: nat, a: map<Path, Field>, b: map<Path, Field>)
    ensures RewriteItems(RewriteItems(x, here, k, a), here, k, b) == RewriteItems(x, here, k, a + b)
    decreases x, 1
  {
    RewriteTwice(x.node, here + [Index(k)], a, b);
    if x.rest.Some? { RewriteItemsTwice(x.rest.value, here, k + 1, a, b); }
  }

  lemma {:induction false} RewriteMembersTwice(x: Members, here: Path, a: map<Path, Field>, b: map<Path, Field>)
    ensures RewriteMembers(RewriteMembers(x, here, a), here, b) == RewriteMembers(x, here, a + b)
    decreases x, 1
  {
    RewriteTwice(x.node, here + [Key(x.key)], a, b);
    if x.rest.Some? { RewriteMembersTwice(x.rest.value, here, a, b); }
  }

  // ---- One replaced token -----------------------------------------------------------------

  /** `text[:start] + replacement + text[end:]`, for a text that begins at `at`. */
  function Cut(t: Text, at: nat, span: Span, replacement: Text): Text
    requires at <= span.start <= span.end <= at + |t|
  {
    t[..span.start - at] + replacement + t[span.end - at..]
  }

  /** The part of a text that keeps its place around a cut, before and behind it. */
  lemma CutInside(a: Text, b: Text, c: Text, at: nat, span: Span, replacement: Text)
    requires at + |a| <= span.start <= span.end <= at + |a| + |b|
    ensures Cut(a + (b + c), at, span, replacement) == a + (Cut(b, at + |a|, span, replacement) + c)
  {
    var s, e := span.start - at - |a|, span.end - at - |a|;
    assert (a + (b + c))[..s + |a|] == a + b[..s];
    assert (a + (b + c))[e + |a|..] == b[e..] + c;
  }

  lemma CutBehind(a: Text, b: Text, at: nat, span: Span, replacement: Text)
    requires at + |a| <= span.start <= span.end <= at + |a| + |b|
    ensures Cut(a + b, at, span, replacement) == a + Cut(b, at + |a|, span, replacement)
  {
    CutInside(a, b, [], at, span, replacement);
    assert b + [] == b;
    var cut := Cut(b, at + |a|, span, replacement);
    assert cut + [] == cut;
  }

  function AfterNode(x: Items): Text {
    x.post + PrintMoreItems(x.rest)
  }

  function BeforeRest(x: Items): Text {
    x.pre + (Print(x.node) + (x.post + [COMMA]))
  }

  lemma ItemsText(x: Items, at: nat)
    ensures PrintItems(x) == x.pre + (Print(x.node) + AfterNode(x))
    ensures x.rest.Some? ==> PrintItems(x) == BeforeRest(x) + PrintItems(x.rest.value)
    ensures at + |BeforeRest(x)| == RestAt(x, at)
  {
  }

  function Head(x: Members): Text {
    x.pre + (x.keyToken + (x.mid + ([COLON] + x.gap)))
  }

  function AfterValue(x: Members): Text {
    x.post + PrintMoreMembers(x.rest)
  }

  function BeforeRestMember(x: Members): Text {
    Head(x) + (Print(x.node) + (x.post + [COMMA]))
  }

  lemma MembersText(x: Members, at: nat)
    ensures PrintMembers(x) == Head(x) + (Print(x.node) + AfterValue(x))
    ensures x.rest.Some? ==> PrintMembers(x) == BeforeRestMember(x) + PrintMembers(x.rest.value)
    ensures at + |BeforeRestMember(x)| == RestMemberAt(x, at) && at + |Head(x)| == ValueAt(x, at)
  {
    var rest := Print(x.node) + AfterValue(x);
    assert PrintMembers(x) == x.pre + (x.keyToken + (x.mid + ([COLON] + (x.gap + rest))));
    assert x.pre + (x.keyToken + (x.mid + ([COLON] + (x.gap + rest)))) == Head(x) + rest;
  }

  function Only(q: Path, f: Field): map<Path, Field> {
    map[q := f]
  }

  lemma {:induction false} NotLocatedNotRewritten(n: Node, here: Path, q: Path, f: Field, at: nat)
    requires Locate(n, here, q, at).None?
    ensures Rewrite(n, here, Only(q, f)) == n
    decreases n, 0
  {
    match n
    case Leaf(_, _) =>
    case EmptyList(_) =>
    case List(items) => ItemNotRewritten(items, here, 0, q, f, at + 1);
    case EmptyDict(_) =>
    case Dict(members) => MemberNotRewritten(members, here, q, f, at + 1);
  }

  lemma {:induction false} ItemNotRewritten(x: Items, here: Path, k: nat, q: Path, f: Field, at: nat)
    requires LocateItem(x, here, k, q, at).None?
    ensures RewriteItems(x, here, k, Only(q, f)) == x
    decreases x, 1
  {
    NotLocatedNotRewritten(x.node, here + [Index(k)], q, f, NodeAt(x, at));
    if x.rest.Some? { ItemNotRewritten(x.rest.value, here, k + 1, q, f, RestAt(x, at)); }
  }

  lemma {:induction false} MemberNotRewritten(x: Members, here: Path, q: Path, f: Field, at: nat)
    requires LocateMember(x, here, q, at).None?
    ensures RewriteMembers(x, here, Only(q, f)) == x
    decreases x, 1
  {
    NotLocatedNotRewritten(x.node, here + [Key(x.key)], q, f, ValueAt(x, at));
    if x.rest.Some? { MemberNotRewritten(x.rest.value, here, q, f, RestMemberAt(x, at)); }
  }

  /** A recorded span lies inside the text of its value, and the new text is the old one with the
      token there cut out and the new token put in its place. */
  lemma {:induction false} RewriteCuts(n: Node, here: Path, q: Path, f: Field, at: nat, span: Span)
    requires WellFormed(n) && Locate(n, here, q, at).Some? && span == Locate(n, here, q, at).value.span
    ensures at <= span.start < span.end <= at + |Print(n)|
    ensures Print(Rewrite(n, here, Only(q, f))) == Cut(Print(n), at, span, Dump(f))
    decreases n, 0
  {
    hide Dump, PrintItems, PrintMembers;
    match n
    case Leaf(token, value) =>
      ScalarStarts(token, value);
    case List(items) =>
      ItemRewriteCuts(items, here, 0, q, f, at + 1, span);
      CutInside([LBRACKET], PrintItems(items), [], at, span, Dump(f));
      assert PrintItems(items) + [] == PrintItems(items);
    case Dict(members) =>
      MemberRewriteCuts(members, {}, here, q, f, at + 1, span);
      CutInside([LBRACE], PrintMembers(members), [], at, span, Dump(f));
      assert PrintMembers(members) + [] == PrintMembers(members);
  }

  lemma {:induction false} ItemRewriteCuts(x: Items, here: Path, k: nat, q: Path, f: Field, at: nat, span: Span)
    requires ItemsWellFormed(x)
    requires LocateItem(x, here, k, q, at).Some? && span == LocateItem(x, here, k, q, at).value.span
    ensures at <= span.start < span.end <= at + |PrintItems(x)|
    ensures PrintItems(RewriteItems(x, here, k, Only(q, f))) == Cut(PrintItems(x), at, span, Dump(f))
    decreases x, 1
  {
    hide Dump, Print, PrintItems, Cut;
    var y := RewriteItems(x, here, k, Only(q, f));
    ItemsText(x, at);
    ItemsText(y, at);
    if Locate(x.node, here + [Index(k)], q, NodeAt(x, at)).Some? {
      RewriteCuts(x.node, here + [Index(k)], q, f, NodeAt(x, at), span);
      CutInside(x.pre, Print(x.node), AfterNode(x), at, span, Dump(f));
      if x.rest.Some? {
        ItemsApart(x, here, k, q, NodeAt(x, at), RestAt(x, at));
        ItemNotRewritten(x.rest.value, here, k + 1, q, f, RestAt(x, at));
      }
      assert AfterNode(y) == AfterNode(x);
    } else {
      NotLocatedNotRewritten(x.node, here + [Index(k)], q, f, NodeAt(x, at));
      ItemRewriteCuts(x.rest.value, here, k + 1, q, f, RestAt(x, at), span);
      CutBehind(BeforeRest(x), PrintItems(x.rest.value), at, span, Dump(f));
      assert BeforeRest(y) == BeforeRest(x);
    }
  }

  lemma {:induction false} MemberRewriteCuts(x: Members, seen: set<Text>, here: Path, q: Path, f: Field, at: nat,
                                             span: Span)
    requires MembersWellFormed(x, seen)
    requires LocateMember(x, here, q, at).Some? && span == LocateMember(x, here, q, at).value.span
    ensures at <= span.start < span.end <= at + |PrintMembers(x)|
    ensures PrintMembers(RewriteMembers(x, here, Only(q, f))) == Cut(PrintMembers(x), at, span, Dump(f))
    decreases x, 1
  {
    hide Dump, Print, PrintMembers, Cut;
    var y := RewriteMembers(x, here, Only(q, f));
    MembersText(x, at);
    MembersText(y, at);
    assert Head(y) == Head(x);
    if Locate(x.node, here + [Key(x.key)], q, ValueAt(x, at)).Some? {
      RewriteCuts(x.node, here + [Key(x.key)], q, f, ValueAt(x, at), span);
      CutInside(Head(x), Print(x.node), AfterValue(x), at, span, Dump(f));
      if x.rest.Some? {
        MembersApart(x, seen, here, q, ValueAt(x, at), RestMemberAt(x, at));
        MemberNotRewritten(x.rest.value, here, q, f, RestMemberAt(x, at));
      }
      assert AfterValue(y) == AfterValue(x);
    } else {
      NotLocatedNotRewritten(x.node, here + [Key(x.key)], q, f, ValueAt(x, at));
      MemberRewriteCuts(x.rest.value, seen + {x.key}, here, q, f, RestMemberAt(x, at), span);
      CutBehind(BeforeRestMember(x), PrintMembers(x.rest.value), at, span, Dump(f));
      assert BeforeRestMember(y) == BeforeRestMember(x);
    }
  }

  /** A token in front of the replaced one keeps its place, and ends before the replaced one starts. */
  lemma {:induction false} EarlierSiteStays(n: Node, here: Path, p: Path, q: Path, f: Field, at: nat, a: Site, b: Site)
    requires WellFormed(n) && Locate(n, here, p, at) == Some(a) && Locate(n, here, q, at) == Some(b)
    requires b.span.start < a.span.start
    ensures Locate(Rewrite(n, here, Only(p, f)), here, q, at) == Some(b) && b.span.end <= a.span.start
    decreases n, 0
  {
    match n
    case List(items) => EarlierItemStays(items, here, 0, p, q, f, at + 1, a, b);
    case Dict(members) => EarlierMemberStays(members, {}, here, p, q, f, at + 1, a, b);
    case Leaf(_, _) =>
  }

  lemma {:induction false} EarlierItemStays(x: Items, here: Path, k: nat, p: Path, q: Path, f: Field, at: nat, a: Site,
                                            b: Site)
    requires ItemsWellFormed(x) && LocateItem(x, here, k, p, at) == Some(a) && LocateItem(x, here, k, q, at) == Some(b)
    requires b.span.start < a.span.start
    ensures LocateItem(RewriteItems(x, here, k, Only(p, f)), here, k, q, at) == Some(b) && b.span.end <= a.span.start
    decreases x, 1
  {
    hide Print, PrintItems, Cut;
    var inside := here + [Index(k)];
    var pa, qb := Locate(x.node, inside, p, NodeAt(x, at)), Locate(x.node, inside, q, NodeAt(x, at));
    if qb.Some? { RewriteCuts(x.node, inside, q, f, NodeAt(x, at), b.span); }
    if pa.Some? {
      RewriteCuts(x.node, inside, p, f, NodeAt(x, at), a.span);
      if qb.Some? {
        EarlierSiteStays(x.node, inside, p, q, f, NodeAt(x, at), a, b);
      } else {
        ItemRewriteCuts(x.rest.value, here, k + 1, q, f, RestAt(x, at), b.span);
      }
    } else {
      NotLocatedNotRewritten(x.node, inside, p, f, NodeAt(x, at));
      ItemRewriteCuts(x.rest.value, here, k + 1, p, f, RestAt(x, at), a.span);
      if qb.None? {
        EarlierItemStays(x.rest.value, here, k + 1, p, q, f, RestAt(x, at), a, b);
      }
    }
  }

  lemma {:induction false} EarlierMemberStays(x: Members, seen: set<Text>, here: Path, p: Path, q: Path, f: Field,
                                              at: nat, a: Site, b: Site)
    requires MembersWellFormed(x, seen) && LocateMember(x, here, p, at) == Some(a)
             && LocateMember(x, here, q, at) == Some(b)
    requires b.span.start < a.span.start
    ensures LocateMember(RewriteMembers(x, here, Only(p, f)), here, q, at) == Some(b) && b.span.end <= a.span.start
    decreases x, 1
  {
    hide Print, PrintMembers, Cut;
    var inside := here + [Key(x.key)];
    var pa, qb := Locate(x.node, inside, p, ValueAt(x, at)), Locate(x.node, inside, q, ValueAt(x, at));
    if qb.Some? { RewriteCuts(x.node, inside, q, f, ValueAt(x, at), b.span); }
    if pa.Some? {
      RewriteCuts(x.node, inside, p, f, ValueAt(x, at), a.span);
      if qb.Some? {
        EarlierSiteStays(x.node, inside, p, q, f, ValueAt(x, at), a, b);
      } else {
        MemberRewriteCuts(x.rest.value, seen + {x.key}, here, q, f, RestMemberAt(x, at), b.span);
      }
    } else {
      NotLocatedNotRewritten(x.node, inside, p, f, ValueAt(x, at));
      MemberRewriteCuts(x.rest.value, seen + {x.key}, here, p, f, RestMemberAt(x, at), a.span);
      if qb.None? {
        EarlierMemberStays(x.rest.value, seen + {x.key}, here, p, q, f, RestMemberAt(x, at), a, b);
      }
    }
  }

  /** Two scalars never share a place. */
  lemma {:induction false} SitesDiffer(n: Node, here: Path, p: Path, q: Path, at: nat, a: Site, b: Site)
    requires WellFormed(n) && Locate(n, here, p, at) == Some(a) && Locate(n, here, q, at) == Some(b)
    requires p != q
    ensures a.span.start != b.span.start
    decreases n, 0
  {
    match n
    case List(items) => ItemSitesDiffer(items, here, 0, p, q, at + 1, a, b);
    case Dict(members) => MemberSitesDiffer(members, {}, here, p, q, at + 1, a, b);
    case Leaf(_, _) =>
  }

  lemma {:induction false} ItemSitesDiffer(x: Items, here: Path, k: nat, p: Path, q: Path, at: nat, a: Site, b: Site)
    requires ItemsWellFormed(x) && LocateItem(x, here, k, p, at) == Some(a) && LocateItem(x, here, k, q, at) == Some(b)
    requires p != q
    ensures a.span.start != b.span.start
    decreases x, 1
  {
    hide Print, PrintItems, Cut;
    var inside := here + [Index(k)];
    var pa, qb := Locate(x.node, inside, p, NodeAt(x, at)), Locate(x.node, inside, q, NodeAt(x, at));
    if pa.Some? { RewriteCuts(x.node, inside, p, Count(0), NodeAt(x, at), a.span); }
    else { ItemRewriteCuts(x.rest.value, here, k + 1, p, Count(0), RestAt(x, at), a.span); }
    if qb.Some? { RewriteCuts(x.node, inside, q, Count(0), NodeAt(x, at), b.span); }
    else { ItemRewriteCuts(x.rest.value, here, k + 1, q, Count(0), RestAt(x, at), b.span); }
    if pa.Some? && qb.Some? {
      SitesDiffer(x.node, inside, p, q, NodeAt(x, at), a, b);
    } else if pa.None? && qb.None? {
      ItemSitesDiffer(x.rest.value, here, k + 1, p, q, RestAt(x, at), a, b);
    }
  }

  lemma {:induction false} MemberSitesDiffer(x: Members, seen: set<Text>, here: Path, p: Path, q: Path, at: nat,
                                             a: Site, b: Site)
    requires MembersWellFormed(x, seen) && LocateMember(x, here, p, at) == Some(a)
             && LocateMember(x, here, q, at) == Some(b)
    requires p != q
    ensures a.span.start != b.span.start
    decreases x, 1
  {
    hide Print, PrintMembers, Cut;
    var inside := here + [Key(x.key)];
    var pa, qb := Locate(x.node, inside, p, ValueAt(x, at)), Locate(x.node, inside, q, ValueAt(x, at));
    if pa.Some? { RewriteCuts(x.node, inside, p, Count(0), ValueAt(x, at), a.span); }
    else { MemberRewriteCuts(x.rest.value, seen + {x.key}, here, p, Count(0), RestMemberAt(x, at), a.span); }
    if qb.Some? { RewriteCuts(x.node, inside, q, Count(0), ValueAt(x, at), b.span); }
    else { MemberRewriteCuts(x.rest.value, seen + {x.key}, here, q, Count(0), RestMemberAt(x, at), b.span); }
    if pa.Some? && qb.Some? {
      SitesDiffer(x.node, inside, p, q, ValueAt(x, at), a, b);
    } else if pa.None? && qb.None? {
      MemberSitesDiffer(x.rest.value, seen + {x.key}, here, p, q, RestMemberAt(x, at), a, b);
    }
  }

  /** Rewriting keeps the scalars' paths and changes the named values only. */
  lemma {:induction false} RewriteSites(n: Node, here: Path, m: map<Path, Field>, q: Path, a: nat, b: nat)
    ensures Locate(Rewrite(n, here, m), here, q, a).Some? <==> Locate(n, here, q, b).Some?
    ensures Locate(n, here, q, b).Some? ==>
      Locate(Rewrite(n, here, m), here, q, a).value.value ==
      if q in m then FieldValue(m[q]) else Locate(n, here, q, b).value.value
    decreases n, 0
  {
    match n
    case Leaf(_, _) =>
    case EmptyList(_) =>
    case List(items) => RewriteItemSites(items, here, 0, m, q, a + 1, b + 1);
    case EmptyDict(_) =>
    case Dict(members) => RewriteMemberSites(members, here, m, q, a + 1, b + 1);
  }

  lemma {:induction false} RewriteItemSites(x: Items, here: Path, k: nat, m: map<Path, Field>, q: Path, a: nat, b: nat)
    ensures LocateItem(RewriteItems(x, here, k, m), here, k, q, a).Some? <==> LocateItem(x, here, k, q, b).Some?
    ensures LocateItem(x, here, k, q, b).Some? ==>
      LocateItem(RewriteItems(x, here, k, m), here, k, q, a).value.value ==
      if q in m then FieldValue(m[q]) else LocateItem(x, here, k, q, b).value.value
    decreases x, 1
  {
    hide Print;
    var y := RewriteItems(x, here, k, m);
    RewriteSites(x.node, here + [Index(k)], m, q, NodeAt(y, a), NodeAt(x, b));
    if x.rest.Some? { RewriteItemSites(x.rest.value, here, k + 1, m, q, RestAt(y, a), RestAt(x, b)); }
  }

  lemma {:induction false} RewriteMemberSites(x: Members, here: Path, m: map<Path, Field>, q: Path, a: nat, b: nat)
    ensures LocateMember(RewriteMembers(x, here, m), here, q, a).Some? <==> LocateMember(x, here, q, b).Some?
    ensures LocateMember(x, here, q, b).Some? ==>
      LocateMember(RewriteMembers(x, here, m), here, q, a).value.value ==
      if q in m then FieldValue(m[q]) else LocateMember(x, here, q, b).value.value
    decreases x, 1
  {
    hide Print;
    var y := RewriteMembers(x, here, m);
    RewriteSites(x.node, here + [Key(x.key)], m, q, ValueAt(y, a), ValueAt(x, b));
    if x.rest.Some? { RewriteMemberSites(x.rest.value, here, m, q, RestMemberAt(y, a), RestMemberAt(x, b)); }
  }
}
