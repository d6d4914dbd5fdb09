/** `_json_edit`: the owned scalars of a JSON version file are replaced, and nothing else. */
module JsonEdit {
  import opened Results
  import opened Texts
  import opened JsonScalars
  import opened JsonGrammar
  import opened JsonSpans
  import JsonDocument

  // ---- Reading values ---------------------------------------------------------------------

  function Lookup(members: seq<Entry>, key: Text): Option<Value> {
    if members == [] then None
    else if members[0].key == key then Some(members[0].value)
    else Lookup(members[1..], key)
  }

  /** `_get` along a field, whose steps are all strings. */
  function Get(v: Value, field: seq<Text>): Result<Value>
    decreases |field|
  {
    if field == [] then Ok(v)
    else if !v.Obj? then Failed
    else
      match Lookup(v.members, field[0])
      case None => Failed
      case Some(inner) => Get(inner, field[1..])
  }

  function KeyPath(field: seq<Text>): (p: Path)
    ensures |p| == |field|
    ensures forall i | 0 <= i < |field| :: p[i] == Key(field[i])
  {
    seq(|field|, i requires 0 <= i < |field| => Key(field[i]))
  }

  lemma KeyPathInjective(a: seq<Text>, b: seq<Text>)
    ensures KeyPath(a) == KeyPath(b) <==> a == b
  {
    if KeyPath(a) == KeyPath(b) {
      forall i | 0 <= i < |a| ensures a[i] == b[i] {
        assert KeyPath(a)[i] == KeyPath(b)[i];
      }
    }
  }

  /** A scalar's recorded place and the value `_get` reads belong together. */
  lemma {:induction false} GetLocated(n: Node, here: Path, field: seq<Text>, at: nat)
    requires WellFormed(n) && Locate(n, here, here + KeyPath(field), at).Some?
    ensures Get(ToValue(n), field) == Ok(Locate(n, here, here + KeyPath(field), at).value.value)
    decreases n, 0
  {
    var q := here + KeyPath(field);
    match n
    case Leaf(_, _) =>
      assert |q| == |here| + |field|;
    case List(items) =>
      LocateItemPrefix(items, here, 0, q, at + 1);
    case Dict(members) =>
      LocateMemberPrefix(members, here, q, at + 1);
      assert q[|here|] == KeyPath(field)[0];
      GetLocatedMember(members, {}, here, field, at + 1);
  }

  lemma {:induction false} GetLocatedMember(x: Members, seen: set<Text>, here: Path, field: seq<Text>, at: nat)
    requires MembersWellFormed(x, seen) && |field| > 0 && LocateMember(x, here, here + KeyPath(field), at).Some?
    ensures Lookup(MemberValues(x), field[0]).Some?
    ensures Get(Lookup(MemberValues(x), field[0]).value, field[1..])
         == Ok(LocateMember(x, here, here + KeyPath(field), at).value.value)
    decreases x, 1
  {
    var q := here + KeyPath(field);
    var inside := here + [Key(x.key)];
    if Locate(x.node, inside, q, ValueAt(x, at)).Some? {
      LocatePrefix(x.node, inside, q, ValueAt(x, at));
      assert Key(x.key) == inside[|here|] == q[|here|] == KeyPath(field)[0];
      assert q == inside + KeyPath(field[1..]);
      GetLocated(x.node, inside, field[1..], ValueAt(x, at));
    } else {
      var rest := x.rest.value;
      LocateMemberPrefix(rest, here, q, RestMemberAt(x, at));
      assert q[|here|] == KeyPath(field)[0];
      if x.key == field[0] {
        SeenKeysAbsent(rest, seen + {x.key}, x.key);
      }
      GetLocatedMember(rest, seen + {x.key}, here, field, RestMemberAt(x, at));
      assert MemberValues(x)[1..] == MemberValues(rest);
    }
  }

  lemma {:induction false} LookupSubstituted(members: seq<Entry>, here: Path, m: map<Path, Field>, key: Text)
    ensures Lookup(SubstituteMembers(members, here, m), key)
         == match Lookup(members, key)
            case None => None
            case Some(v) => Some(Substitute(v, here + [Key(key)], m))
  {
    if members != [] {
      LookupSubstituted(members[1..], here, m, key);
      assert SubstituteMembers(members, here, m)[1..] == SubstituteMembers(members[1..], here, m);
    }
  }

  /** Reading a field of a substituted value. */
  lemma {:induction false} GetSubstituted(v: Value, here: Path, m: map<Path, Field>, field: seq<Text>)
    ensures Get(Substitute(v, here, m), field)
         == match Get(v, field)
            case Failed => Failed
            case Ok(w) => Ok(Substitute(w, here + KeyPath(field), m))
    decreases |field|
  {
    if field == [] {
      assert here + KeyPath(field) == here;
    } else if v.Obj? {
      LookupSubstituted(v.members, here, m, field[0]);
      var inner := Lookup(v.members, field[0]);
      if inner.Some? {
        GetSubstituted(inner.value, here + [Key(field[0])], m, field[1..]);
        assert here + KeyPath(field) == here + [Key(field[0])] + KeyPath(field[1..]);
      }
    }
  }

  // ---- The edit ---------------------------------------------------------------------------

  /** The JSON formats of a version declaration, with the field already split into its steps. */
  datatype Declaration = Manifest(field: seq<Text>, package: Option<Text>) | NpmLock(lockPackage: Text)

  datatype Edit = Edit(path: Path, span: Span, field: Field)

  datatype Planned = Planned(edits: seq<Edit>, previous: seq<Value>)

  datatype Edited = Edited(text: Text, previous: seq<Value>)

  const NAME := Chars("name")
  const VERSION := Chars("version")
  const PACKAGES := Chars("packages")

  /** `str(value)`. */
  function WordOf(value: Field): Text {
    match value
    case Count(n) => IntText(n)
    case Word(s) => s
  }

  /** `_scalar`: what an owned field of the old value's type is replaced with. */
  function Replacement(value: Field, was: Value): Result<Field> {
    match was
    case Str(_) => Ok(Word(WordOf(value)))
    case Int(_) => if value.Count? then Ok(value) else Failed
    case _ => Failed
  }

  predicate Names(data: Value, package: Text) {
    data.Obj? && Lookup(data.members, NAME) == Some(Str(package))
  }

  /** The fields a declaration owns, once the document shows that it owns them. */
  function OwnedFields(data: Value, d: Declaration): Result<seq<seq<Text>>> {
    match d
    case Manifest(field, package) =>
      if package.Some? && !Names(data, package.value) then Failed else Ok([field])
    case NpmLock(package) =>
      if !Names(data, package) then Failed
      else if Lookup(data.members, PACKAGES).None? then Ok([[VERSION]])
      else
        var own :- Get(data, [PACKAGES, []]);
        if own.Obj? && Lookup(own.members, NAME) in {None, Some(Str(package))}
        then Ok([[VERSION], [PACKAGES, [], VERSION]])
        else Failed
  }

  /** The edits of the owned fields, in the order of the fields. */
  function Plan(n: Node, at: nat, fields: seq<seq<Text>>, value: Field): Result<Planned> {
    if fields == [] then Ok(Planned([], []))
    else
      var was :- Get(ToValue(n), fields[0]);
      var path := KeyPath(fields[0]);
      if Locate(n, [], path, at).None? then Failed
      else
        var field :- Replacement(value, was);
        var rest :- Plan(n, at, fields[1..], value);
        var edits := if was == FieldValue(field) then [] else [Edit(path, Locate(n, [], path, at).value.span, field)];
        Ok(Planned(edits + rest.edits, [was] + rest.previous))
  }

  function Insert(e: Edit, edits: seq<Edit>): seq<Edit> {
    if edits == [] || edits[0].span.start <= e.span.start then [e] + edits
    else [edits[0]] + Insert(e, edits[1..])
  }

  /** `sorted(edits, reverse=True)`. */
  function Descending(edits: seq<Edit>): seq<Edit> {
    if edits == [] then [] else Insert(edits[0], Descending(edits[1..]))
  }

  function CutOut(t: Text, span: Span, token: Text): Text {
    if span.start <= span.end <= |t| then Cut(t, 0, span, token) else t
  }

  /** The loop that splices the replacements into the text. */
  function Splice(t: Text, edits: seq<Edit>): Text
    decreases |edits|
  {
    if edits == [] then t else Splice(CutOut(t, edits[0].span, Dump(edits[0].field)), edits[1..])
  }

  /** `text.encode("utf-8")` succeeds. */
  predicate Encodable(t: Text) {
    forall i | 0 <= i < |t| :: !(0xD800 <= t[i] <= 0xDFFF)
  }

  function EditText(t: Text, d: Declaration, value: Field): Result<Edited> {
    var doc :- Document(t);
    var fields :- OwnedFields(ToValue(doc.node), d);
    var plan :- Plan(doc.node, |doc.pre|, fields, value);
    var text := Splice(t, Descending(plan.edits));
    if Encodable(text) then Ok(Edited(text, plan.previous)) else Failed
  }

  // ---- Splicing from the end is replacing at once -----------------------------------------

  predicate Ordered(edits: seq<Edit>) {
    |edits| >= 2 ==> edits[1].span.start < edits[0].span.start && Ordered(edits[1..])
  }

  predicate Planted(e: Edit, n: Node, at: nat) {
    IsField(e.field) && Locate(n, [], e.path, at).Some? && Locate(n, [], e.path, at).value.span == e.span
  }

  predicate AllPlanted(edits: seq<Edit>, n: Node, at: nat) {
    forall e | e in edits :: Planted(e, n, at)
  }

  function EditMap(edits: seq<Edit>): map<Path, Field> {
    if edits == [] then map[] else Only(edits[0].path, edits[0].field) + EditMap(edits[1..])
  }

  function RewriteDoc(d: Doc, m: map<Path, Field>): Doc {
    d.(node := Rewrite(d.node, [], m))
  }

  lemma {:induction false} OrderedBelow(edits: seq<Edit>, e: Edit)
    requires Ordered(edits) && |edits| > 0 && e in edits[1..]
    ensures e.span.start < edits[0].span.start
    decreases |edits|
  {
    if e != edits[1] {
      assert e in edits[1..][1..];
      OrderedBelow(edits[1..], e);
    }
  }

  lemma CutRewrites(d: Doc, e: Edit)
    requires DocWellFormed(d) && Planted(e, d.node, |d.pre|)
    ensures CutOut(PrintDoc(d), e.span, Dump(e.field)) == PrintDoc(RewriteDoc(d, Only(e.path, e.field)))
    ensures DocWellFormed(RewriteDoc(d, Only(e.path, e.field)))
  {
    hide Print, Cut, Dump, WellFormed;
    RewriteCuts(d.node, [], e.path, e.field, |d.pre|, e.span);
    CutInside(d.pre, Print(d.node), d.post, 0, e.span, Dump(e.field));
    RewriteWellFormed(d.node, [], Only(e.path, e.field));
  }

  /** Splicing planted edits in descending order replaces all of them at once. */
  lemma {:induction false} SpliceRewrites(d: Doc, edits: seq<Edit>)
    requires DocWellFormed(d) && Ordered(edits) && AllPlanted(edits, d.node, |d.pre|)
    ensures Splice(PrintDoc(d), edits) == PrintDoc(RewriteDoc(d, EditMap(edits)))
    ensures DocWellFormed(RewriteDoc(d, EditMap(edits)))
    decreases |edits|
  {
    hide Print, CutOut, Dump, WellFormed;
    if edits == [] {
      RewriteNothing(d.node, []);
    } else {
      var first, rest := edits[0], edits[1..];
      var next := RewriteDoc(d, Only(first.path, first.field));
      CutRewrites(d, first);
      forall e | e in rest ensures Planted(e, next.node, |d.pre|) {
        assert e in edits && Planted(e, d.node, |d.pre|) && Planted(first, d.node, |d.pre|);
        OrderedBelow(edits, e);
        EarlierSiteStays(d.node, [], first.path, e.path, first.field, |d.pre|,
                         Locate(d.node, [], first.path, |d.pre|).value, Locate(d.node, [], e.path, |d.pre|).value);
      }
      SpliceRewrites(next, rest);
      RewriteTwice(d.node, [], Only(first.path, first.field), EditMap(rest));
    }
  }

  // ---- The planned edits ------------------------------------------------------------------

  predicate Distinct(fields: seq<seq<Text>>) {
    forall i, j | 0 <= i < j < |fields| :: fields[i] != fields[j]
  }

  lemma OwnedFieldsDistinct(data: Value, d: Declaration)
    requires OwnedFields(data, d).Ok?
    ensures Distinct(OwnedFields(data, d).value)
  {
  }

  /** What the plan holds: each edit belongs to one field, whose old value differs from its replacement. */
  lemma {:induction false} PlanHolds(n: Node, at: nat, fields: seq<seq<Text>>, value: Field)
    requires IsField(value) && Plan(n, at, fields, value).Ok?
    ensures var p := Plan(n, at, fields, value).value;
      && |p.previous| == |fields|
      && AllPlanted(p.edits, n, at)
      && (forall e | e in p.edits :: exists i | 0 <= i < |fields| :: e.path == KeyPath(fields[i]))
      && (forall i | 0 <= i < |fields| ::
            && Get(ToValue(n), fields[i]) == Ok(p.previous[i])
            && Locate(n, [], KeyPath(fields[i]), at).Some?
            && Replacement(value, p.previous[i]).Ok?)
    decreases |fields|
  {
    hide Get, Locate;
    if fields != [] {
      PlanHolds(n, at, fields[1..], value);
      var p, rest := Plan(n, at, fields, value).value, Plan(n, at, fields[1..], value).value;
      forall i | 0 <= i < |fields|
        ensures Get(ToValue(n), fields[i]) == Ok(p.previous[i]) && Locate(n, [], KeyPath(fields[i]), at).Some?
        ensures Replacement(value, p.previous[i]).Ok?
      {
        if i > 0 {
          assert fields[i] == fields[1..][i - 1] && p.previous[i] == rest.previous[i - 1];
        }
      }
      forall e | e in p.edits
        ensures Planted(e, n, at) && exists i | 0 <= i < |fields| :: e.path == KeyPath(fields[i])
      {
        if e in rest.edits {
          var i :| 0 <= i < |fields[1..]| && e.path == KeyPath(fields[1..][i]);
          assert e.path == KeyPath(fields[i + 1]);
        } else {
          assert e.path == KeyPath(fields[0]);
        }
      }
    }
  }

  // ---- Sorting ----------------------------------------------------------------------------

  predicate Apart(edits: seq<Edit>) {
    forall i, j | 0 <= i < j < |edits| :: edits[i].span.start != edits[j].span.start
  }

  lemma {:induction false} InsertOrders(e: Edit, edits: seq<Edit>)
    requires Ordered(edits) && forall x | x in edits :: x.span.start != e.span.start
    ensures Ordered(Insert(e, edits)) && multiset(Insert(e, edits)) == multiset{e} + multiset(edits)
    ensures Insert(e, edits)[0] == e || (edits != [] && Insert(e, edits)[0] == edits[0])
    decreases |edits|
  {
    if edits != [] {
      assert edits == [edits[0]] + edits[1..];
      if edits[0].span.start > e.span.start {
        InsertOrders(e, edits[1..]);
        assert Insert(e, edits)[1..] == Insert(e, edits[1..]);
      } else {
        assert Insert(e, edits)[1..] == edits;
      }
    }
  }

  lemma {:induction false} DescendingOrders(edits: seq<Edit>)
    requires Apart(edits)
    ensures Ordered(Descending(edits)) && multiset(Descending(edits)) == multiset(edits)
    decreases |edits|
  {
    if edits != [] {
      assert edits == [edits[0]] + edits[1..];
      DescendingOrders(edits[1..]);
      forall x | x in Descending(edits[1..]) ensures x.span.start != edits[0].span.start {
        assert x in multiset(edits[1..]);
        var j :| 0 <= j < |edits[1..]| && edits[1..][j] == x;
        assert edits[j + 1] == x;
      }
      InsertOrders(edits[0], Descending(edits[1..]));
    }
  }

  predicate PathsApart(edits: seq<Edit>) {
    forall i, j | 0 <= i < j < |edits| :: edits[i].path != edits[j].path
  }

  lemma {:induction false} PlanPathsApart(n: Node, at: nat, fields: seq<seq<Text>>, value: Field)
    requires Distinct(fields) && Plan(n, at, fields, value).Ok? && IsField(value)
    ensures PathsApart(Plan(n, at, fields, value).value.edits)
    decreases |fields|
  {
    hide Get, Locate;
    if fields != [] {
      PlanFirst(n, at, fields, value);
      hide Plan;
      var rest := Plan(n, at, fields[1..], value).value.edits;
      PlanPathsApart(n, at, fields[1..], value);
      PlanHolds(n, at, fields[1..], value);
      forall j | 0 <= j < |rest| ensures rest[j].path != KeyPath(fields[0]) {
        assert rest[j] in rest;
        var k :| 0 <= k < |fields[1..]| && rest[j].path == KeyPath(fields[1..][k]);
        assert fields[0] != fields[k + 1];
        KeyPathInjective(fields[0], fields[k + 1]);
      }
    }
  }

  /** The first field adds at most its own edit in front. */
  lemma PlanFirst(n: Node, at: nat, fields: seq<seq<Text>>, value: Field)
    requires fields != [] && Plan(n, at, fields, value).Ok?
    ensures Plan(n, at, fields[1..], value).Ok?
    ensures var edits, rest := Plan(n, at, fields, value).value.edits, Plan(n, at, fields[1..], value).value.edits;
      edits == rest || (edits != [] && edits[0].path == KeyPath(fields[0]) && edits == [edits[0]] + rest)
  {
    hide Get, Locate, KeyPath;
  }

  /** Edits of different fields are edits of different places. */
  lemma PlantedApart(n: Node, at: nat, edits: seq<Edit>)
    requires WellFormed(n) && AllPlanted(edits, n, at) && PathsApart(edits)
    ensures Apart(edits)
  {
    hide Locate, WellFormed;
    forall i, j | 0 <= i < j < |edits| ensures edits[i].span.start != edits[j].span.start {
      assert edits[i] in edits && edits[j] in edits;
      SitesDiffer(n, [], edits[i].path, edits[j].path, at,
                  Locate(n, [], edits[i].path, at).value, Locate(n, [], edits[j].path, at).value);
    }
  }

  /** The map of edits of different places holds each edit. */
  lemma {:induction false} EditMapHolds(edits: seq<Edit>, n: Node, at: nat)
    requires Ordered(edits) && AllPlanted(edits, n, at)
    ensures forall e | e in edits :: e.path in EditMap(edits) && EditMap(edits)[e.path] == e.field
    ensures forall p | p in EditMap(edits) :: exists e | e in edits :: e.path == p
    decreases |edits|
  {
    if edits != [] {
      var rest := edits[1..];
      EditMapHolds(rest, n, at);
      forall e | e in edits ensures e.path in EditMap(edits) && EditMap(edits)[e.path] == e.field {
        if e in rest {
        } else {
          assert e == edits[0];
          if e.path in EditMap(rest) {
            var x :| x in rest && x.path == e.path;
            OrderedBelow(edits, x);
            assert false;
          }
        }
      }
    }
  }

  // ---- What an edit does ------------------------------------------------------------------

  /** The replaced scalars of a successful edit: path and new field. */
  function Changes(t: Text, d: Declaration, value: Field): map<Path, Field>
    requires EditText(t, d, value).Ok?
  {
    var doc := Document(t).value;
    EditMap(Descending(Plan(doc.node, |doc.pre|, OwnedFields(ToValue(doc.node), d).value, value).value.edits))
  }

  /** The new field of an owned field. */
  function NewField(data: Value, field: seq<Text>, value: Field): Option<Field> {
    var was := Get(data, field);
    if was.Ok? && Replacement(value, was.value).Ok? then Some(Replacement(value, was.value).value) else None
  }

  lemma {:induction false} PlanEditsAre(n: Node, at: nat, fields: seq<seq<Text>>, value: Field)
    requires Plan(n, at, fields, value).Ok?
    ensures var edits := Plan(n, at, fields, value).value.edits;
      && (forall e | e in edits :: exists i | 0 <= i < |fields| ::
            e.path == KeyPath(fields[i]) && NewField(ToValue(n), fields[i], value) == Some(e.field))
      && (forall i | 0 <= i < |fields| ::
            && NewField(ToValue(n), fields[i], value).Some?
            && (Get(ToValue(n), fields[i]) == Ok(FieldValue(NewField(ToValue(n), fields[i], value).value))
                || exists e | e in edits :: e.path == KeyPath(fields[i])))
    decreases |fields|
  {
    hide Get, Locate;
    if fields != [] {
      PlanEditsAre(n, at, fields[1..], value);
      var p, rest := Plan(n, at, fields, value).value, Plan(n, at, fields[1..], value).value;
      forall e | e in p.edits
        ensures exists i | 0 <= i < |fields| ::
          e.path == KeyPath(fields[i]) && NewField(ToValue(n), fields[i], value) == Some(e.field)
      {
        if e in rest.edits {
          var i :| 0 <= i < |fields[1..]| && e.path == KeyPath(fields[1..][i])
                   && NewField(ToValue(n), fields[1..][i], value) == Some(e.field);
          assert fields[i + 1] == fields[1..][i];
        } else {
          assert e.path == KeyPath(fields[0]);
        }
      }
      forall i | 0 <= i < |fields|
        ensures NewField(ToValue(n), fields[i], value).Some?
        ensures Get(ToValue(n), fields[i]) == Ok(FieldValue(NewField(ToValue(n), fields[i], value).value))
             || exists e | e in p.edits :: e.path == KeyPath(fields[i])
      {
        if i > 0 {
          assert fields[i] == fields[1..][i - 1];
          if e :| e in rest.edits && e.path == KeyPath(fields[i]) {
            assert e in p.edits;
          }
        } else if Get(ToValue(n), fields[0]) != Ok(FieldValue(NewField(ToValue(n), fields[0], value).value)) {
          assert p.edits[0] in p.edits && p.edits[0].path == KeyPath(fields[0]);
        }
      }
    }
  }

  /** The text of a successful edit parses, and its tree is the old tree with other tokens at the
      changed paths: all white space, keys and other tokens stay character for character. Its value
      is the old value with exactly these scalars replaced. */
  lemma EditRewrites(t: Text, d: Declaration, value: Field)
    requires IsField(value) && EditText(t, d, value).Ok?
    ensures Document(t).Ok?
    ensures var doc, m := Document(t).value, Changes(t, d, value);
      && Document(EditText(t, d, value).value.text) == Ok(RewriteDoc(doc, m))
      && ToValue(RewriteDoc(doc, m).node) == Substitute(ToValue(doc.node), [], m)
  {
    hide ParseNode, Print, Splice, WellFormed, Plan, OwnedFields;
    var doc := Document(t).value;
    var fields := OwnedFields(ToValue(doc.node), d).value;
    var edits := Plan(doc.node, |doc.pre|, fields, value).value.edits;
    var sorted := Descending(edits);
    DocumentPrints(t, doc);
    OwnedFieldsDistinct(ToValue(doc.node), d);
    PlanHolds(doc.node, |doc.pre|, fields, value);
    PlanPathsApart(doc.node, |doc.pre|, fields, value);
    PlantedApart(doc.node, |doc.pre|, edits);
    DescendingOrders(edits);
    forall e | e in sorted ensures Planted(e, doc.node, |doc.pre|) {
      assert e in multiset(edits);
    }
    SpliceRewrites(doc, sorted);
    DocumentPrints(Splice(t, sorted), RewriteDoc(doc, EditMap(sorted)));
    RewriteValue(doc.node, [], EditMap(sorted));
  }

  /** The changes are the planned edits. */
  lemma ChangesAre(t: Text, d: Declaration, value: Field)
    requires IsField(value) && EditText(t, d, value).Ok?
    ensures var doc, m := Document(t).value, Changes(t, d, value);
      var edits := Plan(doc.node, |doc.pre|, OwnedFields(ToValue(doc.node), d).value, value).value.edits;
      && (forall e | e in edits :: e.path in m && m[e.path] == e.field)
      && (forall p | p in m :: exists e | e in edits :: e.path == p)
  {
    hide ParseNode, Print, Splice, WellFormed, Plan, OwnedFields;
    var doc := Document(t).value;
    var fields := OwnedFields(ToValue(doc.node), d).value;
    var edits := Plan(doc.node, |doc.pre|, fields, value).value.edits;
    DocumentPrints(t, doc);
    OwnedFieldsDistinct(ToValue(doc.node), d);
    PlanHolds(doc.node, |doc.pre|, fields, value);
    PlanPathsApart(doc.node, |doc.pre|, fields, value);
    PlantedApart(doc.node, |doc.pre|, edits);
    DescendingOrders(edits);
    forall e | e in Descending(edits) ensures Planted(e, doc.node, |doc.pre|) {
      assert e in multiset(edits);
    }
    EditMapHolds(Descending(edits), doc.node, |doc.pre|);
    forall e | e in edits ensures e in Descending(edits) {
      assert e in multiset(edits);
    }
    forall p | p in Changes(t, d, value) ensures exists e | e in edits :: e.path == p {
      var e :| e in Descending(edits) && e.path == p;
      assert e in multiset(edits);
    }
  }

  lemma EditedFieldIs(fields: seq<seq<Text>>, data: Value, value: Field, e: Edit, i: nat)
    requires i < |fields| && e.path == KeyPath(fields[i])
    requires exists j | 0 <= j < |fields| ::
               e.path == KeyPath(fields[j]) && NewField(data, fields[j], value) == Some(e.field)
    ensures NewField(data, fields[i], value) == Some(e.field)
  {
    var j :| 0 <= j < |fields| && e.path == KeyPath(fields[j]) && NewField(data, fields[j], value) == Some(e.field);
    KeyPathInjective(fields[i], fields[j]);
  }

  /** What a scalar that may be replaced becomes. */
  lemma SubstitutedScalar(w: Value, p: Path, m: map<Path, Field>)
    requires w.Str? || w.Int?
    ensures Substitute(w, p, m) == if p in m then FieldValue(m[p]) else w
  {
  }

  /** The changed paths are owned fields whose old scalar differs from its new field, and after the
      edit every owned field reads as its new field. */
  lemma EditOwns(t: Text, d: Declaration, value: Field)
    requires IsField(value) && EditText(t, d, value).Ok?
    ensures Document(t).Ok? && OwnedFields(ToValue(Document(t).value.node), d).Ok?
    ensures var data := ToValue(Document(t).value.node);
      var fields, m := OwnedFields(data, d).value, Changes(t, d, value);
      && |EditText(t, d, value).value.previous| == |fields|
      && (forall i | 0 <= i < |fields| :: Get(data, fields[i]) == Ok(EditText(t, d, value).value.previous[i]))
      && (forall p | p in m :: exists i | 0 <= i < |fields| ::
            p == KeyPath(fields[i]) && NewField(data, fields[i], value) == Some(m[p]))
      && (forall i | 0 <= i < |fields| ::
            && NewField(data, fields[i], value).Some?
            && Get(Substitute(data, [], m), fields[i]) == Ok(FieldValue(NewField(data, fields[i], value).value)))
  {
    hide Document, Splice, OwnedFields, Get, Locate, Substitute, Plan, Changes;
    var doc := Document(t).value;
    var data := ToValue(doc.node);
    var fields, m := OwnedFields(data, d).value, Changes(t, d, value);
    var edits := Plan(doc.node, |doc.pre|, fields, value).value.edits;
    var sorted := Descending(edits);
    ChangesAre(t, d, value);
    PlanHolds(doc.node, |doc.pre|, fields, value);
    PlanEditsAre(doc.node, |doc.pre|, fields, value);
    forall i | 0 <= i < |fields|
      ensures NewField(data, fields[i], value).Some?
      ensures Get(Substitute(data, [], m), fields[i]) == Ok(FieldValue(NewField(data, fields[i], value).value))
    {
      var path := KeyPath(fields[i]);
      GetSubstituted(data, [], m, fields[i]);
      assert [] + path == path;
      SubstitutedScalar(Get(data, fields[i]).value, path, m);
      if e :| e in edits && e.path == path {
        assert m[path] == e.field;
        EditedFieldIs(fields, data, value, e, i);
      }
    }
  }

  // ---- A second edit ----------------------------------------------------------------------

  /** The declaration selects its document by name and edits that very name to something else. */
  predicate RenamesItself(d: Declaration, value: Field) {
    d.Manifest? && d.package.Some? && d.field == [NAME] && WordOf(value) != d.package.value
  }

  lemma NamesSubstituted(data: Value, m: map<Path, Field>, package: Text)
    requires Names(data, package)
    ensures Names(Substitute(data, [], m), package) <==>
            KeyPath([NAME]) !in m || FieldValue(m[KeyPath([NAME])]) == Str(package)
  {
    LookupSubstituted(data.members, [], m, NAME);
    assert [] + [Key(NAME)] == KeyPath([NAME]);
    SubstitutedScalar(Str(package), KeyPath([NAME]), m);
  }

  predicate OnlyThese(m: map<Path, Field>, fields: seq<seq<Text>>) {
    forall p | p in m :: exists i | 0 <= i < |fields| :: p == KeyPath(fields[i])
  }

  lemma NotChanged(m: map<Path, Field>, fields: seq<seq<Text>>, field: seq<Text>)
    requires OnlyThese(m, fields) && field !in fields
    ensures KeyPath(field) !in m
  {
    if KeyPath(field) in m {
      var i :| 0 <= i < |fields| && KeyPath(field) == KeyPath(fields[i]);
      KeyPathInjective(field, fields[i]);
    }
  }

  lemma LockStillOwned(data: Value, d: Declaration, m: map<Path, Field>)
    requires d.NpmLock? && OwnedFields(data, d).Ok? && OnlyThese(m, OwnedFields(data, d).value)
    ensures OwnedFields(Substitute(data, [], m), d) == OwnedFields(data, d)
  {
    hide Get, Lookup, FieldValue;
    var fields := OwnedFields(data, d).value;
    assert [NAME] !in fields;
    NotChanged(m, fields, [NAME]);
    NamesSubstituted(data, m, d.lockPackage);
    LookupSubstituted(data.members, [], m, PACKAGES);
    if Lookup(data.members, PACKAGES).Some? {
      var root := [PACKAGES, []];
      var own := Get(data, root).value;
      GetSubstituted(data, [], m, root);
      LookupSubstituted(own.members, [] + KeyPath(root), m, NAME);
      assert [] + KeyPath(root) + [Key(NAME)] == KeyPath([PACKAGES, [], NAME]);
      assert [PACKAGES, [], NAME] != fields[1] by { assert fields[1][2] == VERSION; }
      assert [PACKAGES, [], NAME] !in fields;
      NotChanged(m, fields, [PACKAGES, [], NAME]);
      SubstitutedScalar(Str(d.lockPackage), KeyPath([PACKAGES, [], NAME]), m);
    }
  }

  lemma {:induction false} PlanNothing(n: Node, at: nat, fields: seq<seq<Text>>, value: Field)
    requires forall i | 0 <= i < |fields| ::
      && Locate(n, [], KeyPath(fields[i]), at).Some?
      && NewField(ToValue(n), fields[i], value).Some?
      && Get(ToValue(n), fields[i]) == Ok(FieldValue(NewField(ToValue(n), fields[i], value).value))
    ensures Plan(n, at, fields, value).Ok? && Plan(n, at, fields, value).value.edits == []
    decreases |fields|
  {
    hide Get, Locate, FieldValue, Replacement;
    if fields != [] {
      assert Locate(n, [], KeyPath(fields[0]), at).Some?;
      forall i | 0 <= i < |fields[1..]|
        ensures Locate(n, [], KeyPath(fields[1..][i]), at).Some?
        ensures NewField(ToValue(n), fields[1..][i], value).Some?
        ensures Get(ToValue(n), fields[1..][i]) == Ok(FieldValue(NewField(ToValue(n), fields[1..][i], value).value))
      {
        assert fields[1..][i] == fields[i + 1];
      }
      PlanNothing(n, at, fields[1..], value);
    }
  }

  /** After an edit nothing is left to edit in the fields. */
  lemma NothingLeft(t: Text, d: Declaration, value: Field)
    requires IsField(value) && EditText(t, d, value).Ok?
    ensures Document(t).Ok? && OwnedFields(ToValue(Document(t).value.node), d).Ok?
    ensures var doc := RewriteDoc(Document(t).value, Changes(t, d, value));
      var again := Plan(doc.node, |doc.pre|, OwnedFields(ToValue(Document(t).value.node), d).value, value);
      again.Ok? && again.value.edits == []
  {
    hide Document, Splice, OwnedFields, Get, Locate, Substitute, Plan, Changes;
    EditOwns(t, d, value);
    EditRewrites(t, d, value);
    var before, m := Document(t).value, Changes(t, d, value);
    var doc := RewriteDoc(before, m);
    var fields := OwnedFields(ToValue(before.node), d).value;
    PlanHolds(before.node, |before.pre|, fields, value);
    forall i | 0 <= i < |fields|
      ensures Locate(doc.node, [], KeyPath(fields[i]), |doc.pre|).Some?
      ensures NewField(ToValue(doc.node), fields[i], value).Some?
      ensures Get(ToValue(doc.node), fields[i]) == Ok(FieldValue(NewField(ToValue(doc.node), fields[i], value).value))
    {
      RewriteSites(before.node, [], m, KeyPath(fields[i]), |doc.pre|, |before.pre|);
    }
    PlanNothing(doc.node, |doc.pre|, fields, value);
  }

  lemma OwnershipAfterEdit(t: Text, d: Declaration, value: Field)
    requires IsField(value) && EditText(t, d, value).Ok?
    ensures Document(t).Ok? && OwnedFields(ToValue(Document(t).value.node), d).Ok?
    ensures var data := ToValue(Document(t).value.node);
      OwnedFields(Substitute(data, [], Changes(t, d, value)), d)
      == if RenamesItself(d, value) then Failed else OwnedFields(data, d)
  {
    hide Document, Splice, Get, Substitute, Plan, Changes, Lookup, FieldValue;
    EditOwns(t, d, value);
    var data, m := ToValue(Document(t).value.node), Changes(t, d, value);
    var fields := OwnedFields(data, d).value;
    forall p | p in m ensures exists i | 0 <= i < |fields| :: p == KeyPath(fields[i]) {
    }
    match d
    case NpmLock(_) => LockStillOwned(data, d, m);
    case Manifest(field, package) =>
      if package.Some? {
        NamesSubstituted(data, m, package.value);
        if field != [NAME] {
          NotChanged(m, fields, [NAME]);
        } else {
          assert fields[0] == [NAME];
          RenamedReads(data, m, package.value, value);
        }
      }
  }

  lemma RenamedReads(data: Value, m: map<Path, Field>, package: Text, value: Field)
    requires Names(data, package) && NewField(data, [NAME], value).Some?
    requires Get(Substitute(data, [], m), [NAME]) == Ok(FieldValue(NewField(data, [NAME], value).value))
    ensures Names(Substitute(data, [], m), package) <==> WordOf(value) == package
  {
    assert Get(data, [NAME]) == Ok(Str(package));
  }

  /** A second edit is the identity, unless the declaration edits the very name that it selects its
      document by to something else; then the second edit fails. */
  lemma SecondEdit(t: Text, d: Declaration, value: Field)
    requires IsField(value) && EditText(t, d, value).Ok?
    ensures var text := EditText(t, d, value).value.text;
      && (EditText(text, d, value).Ok? <==> !RenamesItself(d, value))
      && (EditText(text, d, value).Ok? ==> EditText(text, d, value).value.text == text)
  {
    hide Document, OwnedFields, Plan, Substitute, Changes;
    EditRewrites(t, d, value);
    NothingLeft(t, d, value);
    OwnershipAfterEdit(t, d, value);
  }

  /** `{"name": <package>}` as a tree. */
  function NamedDoc(package: Text): Doc {
    var value := Leaf(DumpString(package), Str(package));
    Doc([], Dict(Members([], DumpString(NAME), NAME, [], [0x20], value, [], None)), [])
  }

  lemma NamedDocParses(package: Text)
    requires IsText(package)
    ensures Document(PrintDoc(NamedDoc(package))) == Ok(NamedDoc(package))
  {
    hide Document, PrintDoc, ScalarToken, KeyToken, DumpString;
    DumpIsToken(Word(package));
    NameIsKey();
    assert AllSpace([0x20]) && AllSpace([]);
    assert MembersWellFormed(NamedDoc(package).node.members, {});
    assert DocWellFormed(NamedDoc(package));
    DocumentPrints(PrintDoc(NamedDoc(package)), NamedDoc(package));
  }

  lemma NameIsKey()
    ensures KeyToken(DumpString(NAME), NAME)
  {
    var t := DumpString(NAME);
    assert t[1..|t|] == DumpCodes(NAME) + [QUOTE];
    DumpCodesRead(t, 1, NAME, |t|);
  }

  /** The failing second edit: `{"name": "a"}` owned as package `a`, with its name set to `b`. */
  lemma SecondEditMayFail()
    ensures var a, b := Chars("a"), Word(Chars("b"));
      var t, d := PrintDoc(NamedDoc(a)), Manifest([NAME], Some(a));
      EditText(t, d, b).Ok? && EditText(EditText(t, d, b).value.text, d, b).Failed?
  {
    hide Document, Print, DumpString;
    var a, b := Chars("a"), Word(Chars("b"));
    var doc := NamedDoc(a);
    var t, d := PrintDoc(doc), Manifest([NAME], Some(a));
    assert a[0] != b.s[0];
    NamedDocParses(a);
    NamedDocEdits(a, b.s);
    SecondEdit(t, d, b);
  }

  lemma {:induction false} DumpEncodable(s: Text)
    requires Encodable(s)
    ensures Encodable(DumpCodes(s))
    decreases s
  {
    if s != [] {
      DumpEncodable(s[1..]);
      assert Encodable(DumpCode(s[0]));
    }
  }

  lemma NamedDocEdits(a: Text, b: Text)
    requires IsText(a) && IsText(b) && Encodable(b) && a != b
    requires Document(PrintDoc(NamedDoc(a))) == Ok(NamedDoc(a))
    ensures EditText(PrintDoc(NamedDoc(a)), Manifest([NAME], Some(a)), Word(b)).Ok?
  {
    hide Document, DumpCodes;
    var doc, d := NamedDoc(a), Manifest([NAME], Some(a));
    var t, path := PrintDoc(doc), KeyPath([NAME]);
    assert MemberValues(doc.node.members) == [Entry(NAME, Str(a))];
    assert ToValue(doc.node) == Obj([Entry(NAME, Str(a))]);
    assert Get(ToValue(doc.node), [NAME]) == Ok(Str(a));
    assert [] + [Key(NAME)] == path;
    var members := doc.node.members;
    assert Locate(members.node, [] + [Key(NAME)], path, ValueAt(members, 1)).Some?;
    assert LocateMember(members, [], path, 1).Some?;
    var e := Edit(path, LocateMember(members, [], path, 1).value.span, Word(b));
    assert Locate(doc.node, [], path, 0) == LocateMember(members, [], path, 1);
    assert [[NAME]][1..] == [];
    assert Plan(doc.node, 0, [], Word(b)) == Ok(Planned([], []));
    assert Replacement(Word(b), Str(a)) == Ok(Word(b));
    assert [e] + [] == [e] && [Str(a)] + [] == [Str(a)];
    var plan := Plan(doc.node, 0, [[NAME]], Word(b));
    assert plan.Ok? && plan.value.edits == [e];
    DocumentPrints(t, doc);
    CutRewrites(doc, e);
    assert Descending([e]) == [e];
    assert Rewrite(members.node, [] + [Key(NAME)], Only(path, Word(b))) == Leaf(DumpString(b), Str(b));
    assert RewriteMembers(members, [], Only(path, Word(b))) == NamedDoc(b).node.members;
    assert RewriteDoc(doc, Only(path, Word(b))) == NamedDoc(b);
    assert OwnedFields(ToValue(doc.node), d) == Ok([[NAME]]) by {
      assert Lookup(ToValue(doc.node).members, NAME) == Some(Str(a));
    }
    assert Descending(plan.value.edits) == [e];
    assert Splice(t, [e]) == Splice(PrintDoc(NamedDoc(b)), [e][1..]);
    NamedDocEncodable(b);
  }

  lemma NamedDocEncodable(b: Text)
    requires Encodable(b)
    ensures Encodable(PrintDoc(NamedDoc(b)))
  {
    hide DumpCodes;
    DumpEncodable(b);
    DumpEncodable(NAME);
    assert Encodable(DumpString(b)) && Encodable(DumpString(NAME));
    var members := NamedDoc(b).node.members;
    assert PrintMembers(members) == DumpString(NAME) + ([COLON] + ([0x20] + (DumpString(b) + [RBRACE])));
  }

  // ---- The loops --------------------------------------------------------------------------

  lemma PlanUnfolds(n: Node, at: nat, fields: seq<seq<Text>>, i: nat, value: Field)
    requires i < |fields| && WellFormed(n)
    ensures Plan(n, at, fields[i..], value) ==
      var was := Get(ToValue(n), fields[i]);
      var path := KeyPath(fields[i]);
      if was.Failed? || path !in Spans(n, [], at) || Replacement(value, was.value).Failed? then Failed
      else
        match Plan(n, at, fields[i + 1..], value)
        case Failed => Failed
        case Ok(rest) =>
          var field := Replacement(value, was.value).value;
          var edits := if was.value == FieldValue(field) then [] else [Edit(path, Spans(n, [], at)[path], field)];
          Ok(Planned(edits + rest.edits, [was.value] + rest.previous))
  {
    hide Get, Locate, Spans, Replacement;
    SpansLocate(n, [], KeyPath(fields[i]), at);
    assert fields[i..][0] == fields[i] && fields[i..][1..] == fields[i + 1..];
  }

  /** What the loop over the owned fields has planned before field `i`. */
  ghost predicate PlannedSoFar(n: Node, at: nat, fields: seq<seq<Text>>, i: nat, value: Field, edits: seq<Edit>,
                               previous: seq<Value>)
    requires i <= |fields|
  {
    Plan(n, at, fields, value) ==
    match Plan(n, at, fields[i..], value)
    case Failed => Failed
    case Ok(rest) => Ok(Planned(edits + rest.edits, previous + rest.previous))
  }

  /** The second loop: the edits are spliced in one after the other. */
  method SpliceAll(text: Text, edits: seq<Edit>) returns (result: Text)
    ensures result == Splice(text, edits)
  {
    hide Splice;
    result := text;
    var i := 0;
    assert edits[0..] == edits;
    while i < |edits|
      invariant i <= |edits|
      invariant Splice(result, edits[i..]) == Splice(text, edits)
    {
      SpliceUnfolds(result, edits[i..]);
      result := CutOut(result, edits[i].span, Dump(edits[i].field));
      assert edits[i..][1..] == edits[i + 1..];
      i := i + 1;
    }
    assert edits[i..] == [];
    SpliceUnfolds(result, []);
  }

  /** `_json_edit`: both loops compute what `EditText` says. */
  method EditJson(text: Text, d: Declaration, value: Field) returns (r: Result<Edited>)
    ensures r == EditText(text, d, value)
  {
    hide Document, OwnedFields, Plan, Get, Spans, Splice, Replacement;
    var document := JsonDocument.ParseDocument(text);
    if document.None? {
      return Failed;
    }
    var data, spans := document.value.0, document.value.1;
    ghost var doc := Document(text).value;
    ghost var at := |doc.pre|;
    DocumentPrints(text, doc);
    var owned := OwnedFields(data, d);
    if owned.Failed? {
      return Failed;
    }
    var fields := owned.value;
    var edits: seq<Edit>, previous: seq<Value> := [], [];
    var i := 0;
    PlanStarts(doc.node, at, fields, value);
    while i < |fields|
      invariant i <= |fields|
      invariant PlannedSoFar(doc.node, at, fields, i, value, edits, previous)
    {
      PlanUnfolds(doc.node, at, fields, i, value);
      var was := Get(data, fields[i]);
      var path := KeyPath(fields[i]);
      if was.Failed? || path !in spans {
        return Failed;
      }
      var field := Replacement(value, was.value);
      if field.Failed? {
        return Failed;
      }
      var planned := if was.value == FieldValue(field.value) then [] else [Edit(path, spans[path], field.value)];
      PlanAdvances(doc.node, at, fields, i, value, edits, previous, planned, was.value);
      edits := edits + planned;
      previous := previous + [was.value];
      i := i + 1;
    }
    PlanEnds(doc.node, at, fields, value, edits, previous);
    var result := SpliceAll(text, Descending(edits));
    r := if Encodable(result) then Ok(Edited(result, previous)) else Failed;
  }

  lemma PlanAdvances(n: Node, at: nat, fields: seq<seq<Text>>, i: nat, value: Field,
                     edits: seq<Edit>, previous: seq<Value>, planned: seq<Edit>, was: Value)
    requires i < |fields| && PlannedSoFar(n, at, fields, i, value, edits, previous)
    requires Plan(n, at, fields[i..], value) ==
             match Plan(n, at, fields[i + 1..], value)
             case Failed => Failed
             case Ok(rest) => Ok(Planned(planned + rest.edits, [was] + rest.previous))
    ensures PlannedSoFar(n, at, fields, i + 1, value, edits + planned, previous + [was])
  {
    hide Plan;
    var rest := Plan(n, at, fields[i + 1..], value);
    if rest.Ok? {
      assert edits + planned + rest.value.edits == edits + (planned + rest.value.edits);
      assert previous + [was] + rest.value.previous == previous + ([was] + rest.value.previous);
    }
  }

  lemma PlanStarts(n: Node, at: nat, fields: seq<seq<Text>>, value: Field)
    ensures PlannedSoFar(n, at, fields, 0, value, [], [])
  {
    hide Get, Locate;
    assert fields[0..] == fields;
    var plan := Plan(n, at, fields, value);
    if plan.Ok? {
      assert [] + plan.value.edits == plan.value.edits && [] + plan.value.previous == plan.value.previous;
    }
  }

  lemma PlanEnds(n: Node, at: nat, fields: seq<seq<Text>>, value: Field, edits: seq<Edit>, previous: seq<Value>)
    requires PlannedSoFar(n, at, fields, |fields|, value, edits, previous)
    ensures Plan(n, at, fields, value) == Ok(Planned(edits, previous))
  {
    hide Get, Locate;
    assert fields[|fields|..] == [];
    assert edits + [] == edits && previous + [] == previous;
  }

  lemma SpliceUnfolds(t: Text, edits: seq<Edit>)
    ensures Splice(t, edits) ==
            if edits == [] then t else Splice(CutOut(t, edits[0].span, Dump(edits[0].field)), edits[1..])
  {
    hide CutOut, Dump;
  }
}
