/** Documents as `_JsonDocument` reads them: a lossless syntax tree, the parser into it, and the
    proof that parsing and printing are inverse (RFC 8259 sections 2 to 5). */
module JsonGrammar {
  import opened Results
  import opened Texts
  import opened JsonScalars

  /** One value with every character of its text. */
  datatype Node =
    | Leaf(token: Text, value: Value)
    | EmptyList(space: Text)
    | List(items: Items)
    | EmptyDict(space: Text)
    | Dict(members: Members)

  /** One item, the white space around it, and the items after its comma. */
  datatype Items = Items(pre: Text, node: Node, post: Text, rest: Option<Items>)

  /** One member with its key token, the white space around key and value, and the members after its comma. */
  datatype Members =
    Members(pre: Text, keyToken: Text, key: Text, mid: Text, gap: Text, node: Node, post: Text, rest: Option<Members>)

  /** A document: its value and the white space around it. */
  datatype Doc = Doc(pre: Text, node: Node, post: Text)

  // ---- Printing ---------------------------------------------------------------------------

  function Print(n: Node): Text {
    match n
    case Leaf(token, _) => token
    case EmptyList(space) => [LBRACKET] + (space + [RBRACKET])
    case List(items) => [LBRACKET] + PrintItems(items)
    case EmptyDict(space) => [LBRACE] + (space + [RBRACE])
    case Dict(members) => [LBRACE] + PrintMembers(members)
  }

  function PrintItems(x: Items): Text {
    x.pre + (Print(x.node) + (x.post + PrintMoreItems(x.rest)))
  }

  function PrintMoreItems(rest: Option<Items>): Text {
    match rest
    case None => [RBRACKET]
    case Some(items) => [COMMA] + PrintItems(items)
  }

  function PrintMembers(x: Members): Text {
    x.pre + (x.keyToken + (x.mid + ([COLON] + (x.gap + (Print(x.node) + (x.post + PrintMoreMembers(x.rest)))))))
  }

  function PrintMoreMembers(rest: Option<Members>): Text {
    match rest
    case None => [RBRACE]
    case Some(members) => [COMMA] + PrintMembers(members)
  }

  function PrintDoc(d: Doc): Text {
    d.pre + (Print(d.node) + d.post)
  }

  // ---- Meaning ----------------------------------------------------------------------------

  function ToValue(n: Node): Value {
    match n
    case Leaf(_, value) => value
    case EmptyList(_) => Arr([])
    case List(items) => Arr(ItemValues(items))
    case EmptyDict(_) => Obj([])
    case Dict(members) => Obj(MemberValues(members))
  }

  function ItemValues(x: Items): seq<Value> {
    [ToValue(x.node)] + (match x.rest case None => [] case Some(items) => ItemValues(items))
  }

  function MemberValues(x: Members): seq<Entry> {
    [Entry(x.key, ToValue(x.node))] + (match x.rest case None => [] case Some(members) => MemberValues(members))
  }

  // ---- Well-formed trees ------------------------------------------------------------------

  predicate AllSpace(t: Text) {
    forall i | 0 <= i < |t| :: IsSpace(t[i])
  }

  predicate ScalarToken(token: Text, value: Value) {
    Scalar(token, 0) == Scan(value, |token|)
  }

  predicate KeyToken(token: Text, key: Text) {
    |token| > 0 && token[0] == QUOTE && StringBody(token, 1) == Scan(key, |token|)
  }

  predicate WellFormed(n: Node) {
    match n
    case Leaf(token, value) => ScalarToken(token, value)
    case EmptyList(space) => AllSpace(space)
    case List(items) => ItemsWellFormed(items)
    case EmptyDict(space) => AllSpace(space)
    case Dict(members) => MembersWellFormed(members, {})
  }

  predicate ItemsWellFormed(x: Items) {
    AllSpace(x.pre) && WellFormed(x.node) && AllSpace(x.post) && (x.rest.Some? ==> ItemsWellFormed(x.rest.value))
  }

  /** `seen` holds the keys of the earlier members: no key may repeat. */
  predicate MembersWellFormed(x: Members, seen: set<Text>) {
    && AllSpace(x.pre) && KeyToken(x.keyToken, x.key) && x.key !in seen
    && AllSpace(x.mid) && AllSpace(x.gap) && WellFormed(x.node) && AllSpace(x.post)
    && (x.rest.Some? ==> MembersWellFormed(x.rest.value, seen + {x.key}))
  }

  predicate DocWellFormed(d: Doc) {
    AllSpace(d.pre) && WellFormed(d.node) && AllSpace(d.post)
  }

  // ---- Parsing ----------------------------------------------------------------------------

  /** `_JsonDocument.whitespace`. */
  function SkipSpace(t: Text, i: nat): (j: nat)
    requires i <= |t|
    ensures i <= j <= |t| && AllSpace(t[i..j]) && !IsSpace(At(t, j))
    decreases |t| - i
  {
    if IsSpace(At(t, i)) then
      var j := SkipSpace(t, i + 1);
      assert t[i..j] == [t[i]] + t[i + 1..j];
      j
    else i
  }

  /** `_JsonDocument.parse` behind the white space. */
  function ParseNode(t: Text, i: nat): (r: Scan<Node>)
    requires i <= |t|
    ensures r.Scan? ==> i < r.end <= |t|
    decreases |t| - i, 0
  {
    if At(t, i) == LBRACE then
      var j := SkipSpace(t, i + 1);
      if At(t, j) == RBRACE then Scan(EmptyDict(t[i + 1..j]), j + 1)
      else
        var members := ParseMembers(t, i + 1, {});
        if members.Malformed? then Malformed else Scan(Dict(members.value), members.end)
    else if At(t, i) == LBRACKET then
      var j := SkipSpace(t, i + 1);
      if At(t, j) == RBRACKET then Scan(EmptyList(t[i + 1..j]), j + 1)
      else
        var items := ParseItems(t, i + 1);
        if items.Malformed? then Malformed else Scan(List(items.value), items.end)
    else
      var scalar := Scalar(t, i);
      if scalar.Malformed? then Malformed else Scan(Leaf(t[i..scalar.end], scalar.value), scalar.end)
  }

  /** The loop of `_JsonDocument.array`, from behind the bracket or a comma. */
  function ParseItems(t: Text, i: nat): (r: Scan<Items>)
    requires i <= |t|
    ensures r.Scan? ==> i < r.end <= |t|
    decreases |t| - i, 1
  {
    var j := SkipSpace(t, i);
    var node := ParseNode(t, j);
    if node.Malformed? then Malformed
    else
      var k := SkipSpace(t, node.end);
      var pre, post := t[i..j], t[node.end..k];
      if At(t, k) == RBRACKET then Scan(Items(pre, node.value, post, None), k + 1)
      else if At(t, k) != COMMA then Malformed
      else
        var rest := ParseItems(t, k + 1);
        if rest.Malformed? then Malformed else Scan(Items(pre, node.value, post, Some(rest.value)), rest.end)
  }

  /** A string token standing as a key. */
  function ParseKey(t: Text, i: nat): (r: Scan<Text>)
    ensures r.Scan? ==> i < r.end <= |t|
  {
    if At(t, i) == QUOTE then StringBody(t, i + 1) else Malformed
  }

  /** The loop of `_JsonDocument.object`, from behind the brace or a comma. */
  function ParseMembers(t: Text, i: nat, seen: set<Text>): (r: Scan<Members>)
    requires i <= |t|
    ensures r.Scan? ==> i < r.end <= |t|
    decreases |t| - i, 1
  {
    var j := SkipSpace(t, i);
    var key := ParseKey(t, j);
    if key.Malformed? || key.value in seen then Malformed
    else
      var c := SkipSpace(t, key.end);
      if At(t, c) != COLON then Malformed
      else
        var v := SkipSpace(t, c + 1);
        var node := ParseNode(t, v);
        if node.Malformed? then Malformed
        else
          var k := SkipSpace(t, node.end);
          var member := Members(t[i..j], t[j..key.end], key.value, t[key.end..c], t[c + 1..v], node.value,
                                t[node.end..k], None);
          MoreMembers(t, k, member, seen + {key.value})
  }

  /** Behind a member: the closing brace, or a comma and the members after it. */
  function MoreMembers(t: Text, k: nat, member: Members, seen: set<Text>): (r: Scan<Members>)
    requires k <= |t|
    ensures r.Scan? ==> k < r.end <= |t|
    decreases |t| - k, 0
  {
    if At(t, k) == RBRACE then Scan(member, k + 1)
    else if At(t, k) != COMMA then Malformed
    else
      var rest := ParseMembers(t, k + 1, seen);
      if rest.Malformed? then Malformed else Scan(member.(rest := Some(rest.value)), rest.end)
  }

  /** `_json_document`. */
  function Document(t: Text): Result<Doc> {
    var i := SkipSpace(t, 0);
    var node := ParseNode(t, i);
    if node.Malformed? || SkipSpace(t, node.end) != |t| then Failed
    else Ok(Doc(t[..i], node.value, t[node.end..]))
  }

  // ---- Parsing is printing backwards ------------------------------------------------------

  /** The first character of a value. */
  lemma PrintStarts(t: Text, i: nat, n: Node)
    requires WellFormed(n) && HoldsAt(t, i, Print(n))
    ensures |Print(n)| > 0 && At(t, i) == Print(n)[0]
    ensures !IsSpace(At(t, i)) && At(t, i) != RBRACKET && At(t, i) != RBRACE
    ensures n.Leaf? ==> At(t, i) != LBRACKET && At(t, i) != LBRACE
  {
    HoldsChar(t, i, Print(n), 0);
    if n.Leaf? {
      ScalarStarts(n.token, n.value);
    }
  }

  lemma ScalarStarts(token: Text, value: Value)
    requires ScalarToken(token, value)
    ensures |token| > 0
    ensures token[0] == QUOTE || IsDigit(token[0]) || token[0] == MINUS || token[0] in [0x6E, 0x74, 0x66, 0x4E, 0x49]
  {
    if a: nat :| a < 6 && HoldsAt(token, 0, LITERALS[a].0) {
      HoldsChar(token, 0, LITERALS[a].0, 0);
    } else {
      assert !HoldsAt(token, 0, LITERALS[0].0) && !HoldsAt(token, 0, LITERALS[1].0)
             && !HoldsAt(token, 0, LITERALS[2].0);
      assert !HoldsAt(token, 0, LITERALS[3].0) && !HoldsAt(token, 0, LITERALS[4].0)
             && !HoldsAt(token, 0, LITERALS[5].0);
    }
  }

  /** A scalar that stands before a delimiter is a token on its own, and a token that is put before
      a delimiter reads as that scalar. */
  lemma TokenReads(t: Text, i: nat, token: Text, value: Value)
    requires HoldsAt(t, i, token) && Delimits(At(t, i + |token|))
    ensures ScalarToken(token, value) <==> Scalar(t, i) == Scan(value, i + |token|)
  {
    var n := |token|;
    assert token[0..n] == token;
    SlicesAgree(token, 0, t, i, n);
    SlicesAgree(t, i, token, 0, n);
    if ScalarToken(token, value) {
      ScalarIsLocal(token, 0, t, i, n, value);
    }
    if Scalar(t, i) == Scan(value, i + n) {
      ScalarIsLocal(t, i, token, 0, n, value);
    }
  }

  lemma KeyReads(t: Text, i: nat, token: Text, key: Text)
    requires HoldsAt(t, i, token)
    ensures KeyToken(token, key) <==> ParseKey(t, i) == Scan(key, i + |token|)
  {
    var n := |token|;
    assert token[0..n] == token;
    SlicesAgree(token, 0, t, i, n);
    SlicesAgree(t, i, token, 0, n);
    if n > 0 {
      HoldsChar(t, i, token, 0);
      if KeyToken(token, key) {
        StringIsLocal(token, 0, t, i, n, 1, key);
      }
      if ParseKey(t, i) == Scan(key, i + n) {
        StringIsLocal(t, i, token, 0, n, 1, key);
      }
    }
  }

  /** `t` shows `s` from `i` up to `e`. */
  predicate Shows(t: Text, i: nat, s: Text, e: nat) {
    HoldsAt(t, i, s) && e == i + |s|
  }

  lemma Glue(t: Text, i: nat, a: Text, j: nat, b: Text, e: nat)
    requires Shows(t, i, a, j) && Shows(t, j, b, e)
    ensures Shows(t, i, a + b, e)
  {
    HoldsSplit(t, i, a, b);
  }

  lemma SliceShows(t: Text, i: nat, j: nat)
    requires i <= j <= |t|
    ensures Shows(t, i, t[i..j], j)
  {
  }

  lemma CharHolds(t: Text, i: nat, c: Code)
    requires At(t, i) == c >= 0
    ensures Shows(t, i, [c], i + 1)
  {
    assert t[i..i + 1] == [t[i]];
  }

  lemma SpaceHolds(t: Text, i: nat)
    requires i <= |t|
    ensures Shows(t, i, t[i..SkipSpace(t, i)], SkipSpace(t, i)) && AllSpace(t[i..SkipSpace(t, i)])
  {
  }

  lemma SpaceDelimits(t: Text, e: nat, k: nat)
    requires e <= |t| && k == SkipSpace(t, e) && Delimits(At(t, k))
    ensures Delimits(At(t, e))
  {
  }

  lemma EmptySound(t: Text, i: nat, open: Code, close: Code)
    requires At(t, i) == open >= 0 && close >= 0 && i < |t| && At(t, SkipSpace(t, i + 1)) == close
    ensures Shows(t, i, [open] + (t[i + 1..SkipSpace(t, i + 1)] + [close]), SkipSpace(t, i + 1) + 1)
  {
    var j := SkipSpace(t, i + 1);
    SpaceHolds(t, i + 1);
    CharHolds(t, i, open);
    CharHolds(t, j, close);
    Glue(t, i + 1, t[i + 1..j], j, [close], j + 1);
    Glue(t, i, [open], i + 1, t[i + 1..j] + [close], j + 1);
  }

  /** A parsed tree is well formed and prints the text it was parsed from. */
  lemma {:induction false} NodeSound(t: Text, i: nat, n: Node, e: nat)
    requires i <= |t| && ParseNode(t, i) == Scan(n, e) && (n.Leaf? ==> Delimits(At(t, e)))
    ensures WellFormed(n) && Shows(t, i, Print(n), e)
    decreases |t| - i, 0
  {
    hide ParseItems, ParseMembers, PrintItems, PrintMembers, ItemsWellFormed, MembersWellFormed, SkipSpace;
    match n
    case Leaf(token, value) =>
      TokenReads(t, i, token, value);
    case EmptyList(space) =>
      EmptySound(t, i, LBRACKET, RBRACKET);
    case List(items) =>
      ItemsSound(t, i + 1, items, e);
      CharHolds(t, i, LBRACKET);
      Glue(t, i, [LBRACKET], i + 1, PrintItems(items), e);
    case EmptyDict(space) =>
      EmptySound(t, i, LBRACE, RBRACE);
    case Dict(members) =>
      MembersSound(t, i + 1, {}, members, e);
      CharHolds(t, i, LBRACE);
      Glue(t, i, [LBRACE], i + 1, PrintMembers(members), e);
  }

  lemma GlueItems(t: Text, i: nat, x: Items, j: nat, m: nat, k: nat, e: nat)
    requires Shows(t, i, x.pre, j) && Shows(t, j, Print(x.node), m) && Shows(t, m, x.post, k)
    requires Shows(t, k, PrintMoreItems(x.rest), e)
    ensures Shows(t, i, PrintItems(x), e)
  {
    hide Print, PrintMoreItems, Shows;
    Glue(t, m, x.post, k, PrintMoreItems(x.rest), e);
    Glue(t, j, Print(x.node), m, x.post + PrintMoreItems(x.rest), e);
    Glue(t, i, x.pre, j, Print(x.node) + (x.post + PrintMoreItems(x.rest)), e);
  }

  lemma ItemsInvert(t: Text, i: nat, x: Items, e: nat) returns (j: nat, m: nat, k: nat)
    requires i <= |t| && ParseItems(t, i) == Scan(x, e)
    ensures i <= j < m <= k < |t|
    ensures Shows(t, i, x.pre, j) && AllSpace(x.pre) && ParseNode(t, j) == Scan(x.node, m) && Delimits(At(t, m))
    ensures Shows(t, m, x.post, k) && AllSpace(x.post)
    ensures x.rest.None? ==> At(t, k) == RBRACKET && e == k + 1
    ensures x.rest.Some? ==> At(t, k) == COMMA && ParseItems(t, k + 1) == Scan(x.rest.value, e)
  {
    hide ParseNode, SkipSpace;
    j := SkipSpace(t, i);
    m := ParseNode(t, j).end;
    k := SkipSpace(t, m);
    SpaceHolds(t, i);
    SpaceHolds(t, m);
    SpaceDelimits(t, m, k);
  }

  lemma {:induction false} ItemsSound(t: Text, i: nat, x: Items, e: nat)
    requires i <= |t| && ParseItems(t, i) == Scan(x, e)
    ensures ItemsWellFormed(x) && Shows(t, i, PrintItems(x), e)
    decreases |t| - i, 1
  {
    hide ParseItems, ParseNode, Print, PrintItems, Shows;
    var j, m, k := ItemsInvert(t, i, x, e);
    NodeSound(t, j, x.node, m);
    if x.rest.Some? {
      ItemsSound(t, k + 1, x.rest.value, e);
      CharHolds(t, k, COMMA);
      Glue(t, k, [COMMA], k + 1, PrintItems(x.rest.value), e);
    } else {
      CharHolds(t, k, RBRACKET);
    }
    GlueItems(t, i, x, j, m, k, e);
  }

  lemma GlueMembers(t: Text, i: nat, x: Members, j: nat, y: nat, c: nat, v: nat, m: nat, k: nat, e: nat)
    requires Shows(t, i, x.pre, j) && Shows(t, j, x.keyToken, y) && Shows(t, y, x.mid, c) && At(t, c) == COLON
    requires Shows(t, c + 1, x.gap, v) && Shows(t, v, Print(x.node), m) && Shows(t, m, x.post, k)
    requires Shows(t, k, PrintMoreMembers(x.rest), e)
    ensures Shows(t, i, PrintMembers(x), e)
  {
    hide Print, PrintMoreMembers, Shows;
    var rest := x.post + PrintMoreMembers(x.rest);
    var value := x.gap + (Print(x.node) + rest);
    Glue(t, m, x.post, k, PrintMoreMembers(x.rest), e);
    Glue(t, v, Print(x.node), m, rest, e);
    Glue(t, c + 1, x.gap, v, Print(x.node) + rest, e);
    CharHolds(t, c, COLON);
    Glue(t, c, [COLON], c + 1, value, e);
    Glue(t, y, x.mid, c, [COLON] + value, e);
    Glue(t, j, x.keyToken, y, x.mid + ([COLON] + value), e);
    Glue(t, i, x.pre, j, x.keyToken + (x.mid + ([COLON] + value)), e);
  }

  lemma MembersInvert(t: Text, i: nat, seen: set<Text>, x: Members, e: nat)
    returns (j: nat, y: nat, c: nat, v: nat, m: nat, k: nat)
    requires i <= |t| && ParseMembers(t, i, seen) == Scan(x, e)
    ensures i <= j < y <= c < v < m <= k < |t|
    ensures Shows(t, i, x.pre, j) && AllSpace(x.pre)
    ensures Shows(t, j, x.keyToken, y) && ParseKey(t, j) == Scan(x.key, y) && x.key !in seen
    ensures Shows(t, y, x.mid, c) && AllSpace(x.mid) && At(t, c) == COLON
    ensures Shows(t, c + 1, x.gap, v) && AllSpace(x.gap) && ParseNode(t, v) == Scan(x.node, m) && Delimits(At(t, m))
    ensures Shows(t, m, x.post, k) && AllSpace(x.post)
    ensures x.rest.None? ==> At(t, k) == RBRACE && e == k + 1
    ensures x.rest.Some? ==> At(t, k) == COMMA && ParseMembers(t, k + 1, seen + {x.key}) == Scan(x.rest.value, e)
  {
    hide ParseNode, SkipSpace, ParseKey, AllSpace, Shows;
    j := SkipSpace(t, i);
    y := ParseKey(t, j).end;
    c := SkipSpace(t, y);
    v := SkipSpace(t, c + 1);
    m := ParseNode(t, v).end;
    k := SkipSpace(t, m);
    SpaceHolds(t, i);
    SliceShows(t, j, y);
    SpaceHolds(t, y);
    SpaceHolds(t, c + 1);
    SpaceHolds(t, m);
    SpaceDelimits(t, m, k);
  }

  lemma {:induction false} MembersSound(t: Text, i: nat, seen: set<Text>, x: Members, e: nat)
    requires i <= |t| && ParseMembers(t, i, seen) == Scan(x, e)
    ensures MembersWellFormed(x, seen) && Shows(t, i, PrintMembers(x), e)
    decreases |t| - i, 1
  {
    hide ParseMembers, ParseNode, Print, PrintMembers, ParseKey, KeyToken;
    var j, y, c, v, m, k := MembersInvert(t, i, seen, x, e);
    KeyReads(t, j, x.keyToken, x.key);
    NodeSound(t, v, x.node, m);
    if x.rest.Some? {
      MembersSound(t, k + 1, seen + {x.key}, x.rest.value, e);
      CharHolds(t, k, COMMA);
      Glue(t, k, [COMMA], k + 1, PrintMembers(x.rest.value), e);
    } else {
      CharHolds(t, k, RBRACE);
    }
    GlueMembers(t, i, x, j, y, c, v, m, k, e);
  }

  // ---- Printing is parsing backwards ------------------------------------------------------

  lemma Unglue(t: Text, i: nat, a: Text, b: Text, e: nat)
    requires Shows(t, i, a + b, e)
    ensures Shows(t, i, a, i + |a|) && Shows(t, i + |a|, b, e)
  {
    HoldsSplit(t, i, a, b);
  }

  lemma ShowsChar(t: Text, i: nat, c: Code, e: nat)
    requires Shows(t, i, [c], e)
    ensures At(t, i) == c && e == i + 1
  {
    HoldsChar(t, i, [c], 0);
  }

  lemma {:induction false} ShowsSpace(t: Text, i: nat, space: Text, j: nat)
    requires Shows(t, i, space, j) && AllSpace(space) && !IsSpace(At(t, j))
    ensures i <= j <= |t| && SkipSpace(t, i) == j && t[i..j] == space
    decreases |space|
  {
    assert t[i..j] == space;
    if space != [] {
      assert t[i] == space[0] && t[i + 1..j] == space[1..];
      ShowsSpace(t, i + 1, space[1..], j);
    }
  }

  lemma SpaceThenDelimiter(t: Text, i: nat, space: Text, j: nat)
    requires Shows(t, i, space, j) && AllSpace(space) && Delimits(At(t, j))
    ensures Delimits(At(t, i))
  {
    if |space| > 0 {
      HoldsChar(t, i, space, 0);
    }
  }

  lemma EmptyComplete(t: Text, i: nat, open: Code, space: Text, close: Code, e: nat)
    requires Shows(t, i, [open] + (space + [close]), e) && AllSpace(space) && !IsSpace(close)
    ensures i < |t| && At(t, i) == open
    ensures At(t, SkipSpace(t, i + 1)) == close && t[i + 1..SkipSpace(t, i + 1)] == space
            && e == SkipSpace(t, i + 1) + 1
  {
    Unglue(t, i, [open], space + [close], e);
    ShowsChar(t, i, open, i + 1);
    Unglue(t, i + 1, space, [close], e);
    ShowsChar(t, i + 1 + |space|, close, e);
    ShowsSpace(t, i + 1, space, i + 1 + |space|);
  }

  lemma LeafComplete(t: Text, i: nat, token: Text, value: Value, e: nat)
    requires ScalarToken(token, value) && Shows(t, i, token, e) && Delimits(At(t, e))
    ensures i < |t| && ParseNode(t, i) == Scan(Leaf(token, value), e)
  {
    hide ParseItems, ParseMembers, SkipSpace;
    PrintStarts(t, i, Leaf(token, value));
    TokenReads(t, i, token, value);
  }

  /** A well-formed tree, printed anywhere, parses back to itself. */
  lemma {:induction false} NodeComplete(t: Text, i: nat, n: Node, e: nat)
    requires WellFormed(n) && Shows(t, i, Print(n), e) && (n.Leaf? ==> Delimits(At(t, e)))
    ensures i <= |t| && ParseNode(t, i) == Scan(n, e)
    decreases n, 0
  {
    hide ParseItems, ParseMembers, PrintItems, PrintMembers, ItemsWellFormed, MembersWellFormed, SkipSpace;
    match n
    case Leaf(token, value) =>
      LeafComplete(t, i, token, value, e);
    case EmptyList(space) =>
      EmptyComplete(t, i, LBRACKET, space, RBRACKET, e);
    case List(items) =>
      Unglue(t, i, [LBRACKET], PrintItems(items), e);
      ShowsChar(t, i, LBRACKET, i + 1);
      ItemsComplete(t, i + 1, items, e);
    case EmptyDict(space) =>
      EmptyComplete(t, i, LBRACE, space, RBRACE, e);
    case Dict(members) =>
      Unglue(t, i, [LBRACE], PrintMembers(members), e);
      ShowsChar(t, i, LBRACE, i + 1);
      MembersComplete(t, i + 1, {}, members, e);
  }

  lemma ItemsUnglue(t: Text, i: nat, x: Items, e: nat) returns (j: nat, m: nat, k: nat)
    requires Shows(t, i, PrintItems(x), e)
    ensures Shows(t, i, x.pre, j) && Shows(t, j, Print(x.node), m) && Shows(t, m, x.post, k)
    ensures Shows(t, k, PrintMoreItems(x.rest), e)
  {
    hide Print, PrintMoreItems, HoldsAt;
    var rest := PrintMoreItems(x.rest);
    j := i + |x.pre|;
    m := j + |Print(x.node)|;
    k := m + |x.post|;
    Unglue(t, i, x.pre, Print(x.node) + (x.post + rest), e);
    Unglue(t, j, Print(x.node), x.post + rest, e);
    Unglue(t, m, x.post, rest, e);
  }

  lemma ItemsRevert(t: Text, i: nat, x: Items, e: nat, j: nat, m: nat, k: nat)
    requires i <= j <= |t| && SkipSpace(t, i) == j && t[i..j] == x.pre && ParseNode(t, j) == Scan(x.node, m)
    requires SkipSpace(t, m) == k && t[m..k] == x.post
    requires x.rest.None? ==> At(t, k) == RBRACKET && e == k + 1
    requires x.rest.Some? ==> At(t, k) == COMMA && k < |t| && ParseItems(t, k + 1) == Scan(x.rest.value, e)
    ensures ParseItems(t, i) == Scan(x, e)
  {
    hide ParseNode, SkipSpace;
  }

  lemma {:induction false} ItemsComplete(t: Text, i: nat, x: Items, e: nat)
    requires ItemsWellFormed(x) && Shows(t, i, PrintItems(x), e)
    ensures i <= |t| && ParseItems(t, i) == Scan(x, e)
    ensures !IsSpace(At(t, SkipSpace(t, i))) && At(t, SkipSpace(t, i)) != RBRACKET
    decreases x, 1
  {
    hide ParseItems, ParseNode, Print, PrintItems, SkipSpace, HoldsAt;
    var j, m, k := ItemsUnglue(t, i, x, e);
    match x.rest {
      case Some(items) =>
        Unglue(t, k, [COMMA], PrintItems(items), e);
        ShowsChar(t, k, COMMA, k + 1);
        ItemsComplete(t, k + 1, items, e);
      case None =>
        ShowsChar(t, k, RBRACKET, e);
    }
    SpaceThenDelimiter(t, m, x.post, k);
    PrintStarts(t, j, x.node);
    NodeComplete(t, j, x.node, m);
    ShowsSpace(t, i, x.pre, j);
    ShowsSpace(t, m, x.post, k);
    ItemsRevert(t, i, x, e, j, m, k);
  }

  lemma MembersUnglue(t: Text, i: nat, x: Members, e: nat) returns (j: nat, y: nat, c: nat, v: nat, m: nat, k: nat)
    requires Shows(t, i, PrintMembers(x), e)
    ensures Shows(t, i, x.pre, j) && Shows(t, j, x.keyToken, y) && Shows(t, y, x.mid, c) && At(t, c) == COLON
    ensures Shows(t, c + 1, x.gap, v) && Shows(t, v, Print(x.node), m) && Shows(t, m, x.post, k)
    ensures Shows(t, k, PrintMoreMembers(x.rest), e)
  {
    hide Print, PrintMoreMembers, HoldsAt;
    var rest := x.post + PrintMoreMembers(x.rest);
    var value := x.gap + (Print(x.node) + rest);
    j := i + |x.pre|;
    y := j + |x.keyToken|;
    c := y + |x.mid|;
    v := c + 1 + |x.gap|;
    m := v + |Print(x.node)|;
    k := m + |x.post|;
    Unglue(t, i, x.pre, x.keyToken + (x.mid + ([COLON] + value)), e);
    Unglue(t, j, x.keyToken, x.mid + ([COLON] + value), e);
    Unglue(t, y, x.mid, [COLON] + value, e);
    Unglue(t, c, [COLON], value, e);
    ShowsChar(t, c, COLON, c + 1);
    Unglue(t, c + 1, x.gap, Print(x.node) + rest, e);
    Unglue(t, v, Print(x.node), rest, e);
    Unglue(t, m, x.post, PrintMoreMembers(x.rest), e);
  }

  lemma MembersRevert(t: Text, i: nat, seen: set<Text>, x: Members, e: nat,
                      j: nat, y: nat, c: nat, v: nat, m: nat, k: nat)
    requires i <= j <= |t| && SkipSpace(t, i) == j && t[i..j] == x.pre
    requires ParseKey(t, j) == Scan(x.key, y) && x.key !in seen && t[j..y] == x.keyToken
    requires SkipSpace(t, y) == c && t[y..c] == x.mid && At(t, c) == COLON && c < |t|
    requires SkipSpace(t, c + 1) == v && t[c + 1..v] == x.gap && ParseNode(t, v) == Scan(x.node, m)
    requires SkipSpace(t, m) == k && t[m..k] == x.post
    requires x.rest.None? ==> At(t, k) == RBRACE && e == k + 1
    requires x.rest.Some? ==>
      At(t, k) == COMMA && k < |t| && ParseMembers(t, k + 1, seen + {x.key}) == Scan(x.rest.value, e)
    ensures ParseMembers(t, i, seen) == Scan(x, e)
  {
    hide ParseNode, SkipSpace, ParseKey;
  }

  lemma KeyStarts(t: Text, i: nat, token: Text, key: Text, e: nat)
    requires KeyToken(token, key) && Shows(t, i, token, e)
    ensures At(t, i) == QUOTE && i < e <= |t| && t[i..e] == token && ParseKey(t, i) == Scan(key, e)
  {
    HoldsChar(t, i, token, 0);
    KeyReads(t, i, token, key);
  }

  lemma {:induction false} MembersComplete(t: Text, i: nat, seen: set<Text>, x: Members, e: nat)
    requires MembersWellFormed(x, seen) && Shows(t, i, PrintMembers(x), e)
    ensures i <= |t| && ParseMembers(t, i, seen) == Scan(x, e)
    ensures At(t, SkipSpace(t, i)) == QUOTE
    decreases x, 1
  {
    hide ParseMembers, ParseNode, Print, PrintMembers, SkipSpace, HoldsAt, ParseKey, KeyToken;
    var j, y, c, v, m, k := MembersUnglue(t, i, x, e);
    match x.rest {
      case Some(members) =>
        Unglue(t, k, [COMMA], PrintMembers(members), e);
        ShowsChar(t, k, COMMA, k + 1);
        MembersComplete(t, k + 1, seen + {x.key}, members, e);
      case None =>
        ShowsChar(t, k, RBRACE, e);
    }
    SpaceThenDelimiter(t, m, x.post, k);
    KeyStarts(t, j, x.keyToken, x.key, y);
    PrintStarts(t, v, x.node);
    NodeComplete(t, v, x.node, m);
    ShowsSpace(t, i, x.pre, j);
    ShowsSpace(t, y, x.mid, c);
    ShowsSpace(t, c + 1, x.gap, v);
    ShowsSpace(t, m, x.post, k);
    MembersRevert(t, i, seen, x, e, j, y, c, v, m, k);
  }

  /** Parsing and printing documents are inverse: a text is a document if and only if it is the
      print of a well-formed tree, and that tree is what parsing yields. */
  lemma DocumentPrints(t: Text, d: Doc)
    ensures Document(t) == Ok(d) <==> DocWellFormed(d) && PrintDoc(d) == t
  {
    hide ParseNode, Print, WellFormed, SkipSpace;
    if Document(t) == Ok(d) {
      var i := SkipSpace(t, 0);
      var node := ParseNode(t, i);
      SpaceHolds(t, 0);
      SpaceHolds(t, node.end);
      assert t[node.end..] == t[node.end..|t|];
      SpaceThenDelimiter(t, node.end, d.post, |t|);
      NodeSound(t, i, d.node, node.end);
      Glue(t, i, Print(d.node), node.end, d.post, |t|);
      Glue(t, 0, d.pre, i, Print(d.node) + d.post, |t|);
    }
    if DocWellFormed(d) && PrintDoc(d) == t {
      DocumentComplete(t, d);
    }
  }

  lemma DocumentComplete(t: Text, d: Doc)
    requires DocWellFormed(d) && PrintDoc(d) == t
    ensures Document(t) == Ok(d)
  {
    hide ParseNode, Print, WellFormed, SkipSpace;
    var i := |d.pre|;
    var m := i + |Print(d.node)|;
    assert t[0..|t|] == t;
    Unglue(t, 0, d.pre, Print(d.node) + d.post, |t|);
    Unglue(t, i, Print(d.node), d.post, |t|);
    SpaceThenDelimiter(t, m, d.post, |t|);
    PrintStarts(t, i, d.node);
    NodeComplete(t, i, d.node, m);
    ShowsSpace(t, 0, d.pre, i);
    ShowsSpace(t, m, d.post, |t|);
  }
}
