/** `_json_edit` from outside: which documents it edits, and what every field reads as afterwards. */
module JsonOwnership {
  import opened Results
  import opened Texts
  import opened JsonScalars
  import opened JsonGrammar
  import opened JsonSpans
  import opened JsonEdit

  // ---- What a declaration is about --------------------------------------------------------

  predicate Says(data: Value, field: seq<Text>, text: Text) {
    Get(data, field) == Ok(Str(text))
  }

  /** The document is the one the declaration selects: its name is the package, and so is the name of the root
      package of a lock file that lists packages, where it has one. */
  predicate Selected(data: Value, d: Declaration) {
    match d
    case Manifest(_, package) => package.Some? ==> Says(data, [NAME], package.value)
    case NpmLock(package) =>
      && Says(data, [NAME], package)
      && (Get(data, [PACKAGES]).Ok? ==>
            && Get(data, [PACKAGES, []]).Ok? && Get(data, [PACKAGES, []]).value.Obj?
            && (Get(data, [PACKAGES, [], NAME]).Ok? ==> Says(data, [PACKAGES, [], NAME], package)))
  }

  /** A manifest's own field; a lock file's version, and that of its root package where it lists packages. */
  predicate Owns(data: Value, d: Declaration, field: seq<Text>) {
    match d
    case Manifest(own, _) => field == own
    case NpmLock(_) => field == [VERSION] || (field == [PACKAGES, [], VERSION] && Get(data, [PACKAGES]).Ok?)
  }

  /** The field holds a string, or an integer that a number replaces. */
  predicate Fits(data: Value, field: seq<Text>, value: Field) {
    var was := Get(data, field);
    was.Ok? && (was.value.Str? || (was.value.Int? && value.Count?))
  }

  function Updated(was: Value, value: Field): Value {
    match (was, value)
    case (Int(_), Count(n)) => Int(n)
    case (_, Count(n)) => Str(IntText(n))
    case (_, Word(s)) => Str(s)
  }

  predicate Differs(data: Value, field: seq<Text>, value: Field) {
    Get(data, field).Ok? && Updated(Get(data, field).value, value) != Get(data, field).value
  }

  /** Every string that is written can be encoded. */
  ghost predicate Writable(data: Value, d: Declaration, value: Field) {
    forall field | Owns(data, d, field) && Differs(data, field, value) && Get(data, field).value.Str? ::
      Encodable(Updated(Get(data, field).value, value).s)
  }

  ghost predicate Editable(data: Value, d: Declaration, value: Field) {
    Selected(data, d) && (forall field | Owns(data, d, field) :: Fits(data, field, value)) && Writable(data, d, value)
  }

  // ---- Owned fields -----------------------------------------------------------------------

  lemma NameRead(v: Value, text: Text)
    requires v.Obj?
    ensures Get(v, [NAME]).Ok? <==> Lookup(v.members, NAME).Some?
    ensures Get(v, [NAME]).Ok? ==> Get(v, [NAME]).value == Lookup(v.members, NAME).value
  {
    assert [NAME][1..] == [];
  }

  lemma {:induction false} GetAlong(v: Value, a: seq<Text>, b: seq<Text>)
    ensures Get(v, a + b) == match Get(v, a)
                             case Failed => Failed
                             case Ok(w) => Get(w, b)
    decreases |a|
  {
    if a == [] {
      assert a + b == b;
    } else if v.Obj? && Lookup(v.members, a[0]).Some? {
      assert (a + b)[1..] == a[1..] + b;
      GetAlong(Lookup(v.members, a[0]).value, a[1..], b);
    }
  }

  lemma OwnedFieldsAre(data: Value, d: Declaration)
    ensures OwnedFields(data, d).Ok? <==> Selected(data, d)
    ensures OwnedFields(data, d).Ok? ==> forall field :: Owns(data, d, field) <==> field in OwnedFields(data, d).value
  {
    hide Get, Lookup;
    if data.Obj? {
      NameRead(data, NAME);
      PackagesRead(data);
    } else {
      NothingToRead(data, NAME);
    }
    var root := Get(data, [PACKAGES, []]);
    if root.Ok? && root.value.Obj? {
      NameRead(root.value, NAME);
      GetAlong(data, [PACKAGES, []], [NAME]);
      assert [PACKAGES, []] + [NAME] == [PACKAGES, [], NAME];
    }
  }

  lemma PackagesRead(data: Value)
    requires data.Obj?
    ensures Get(data, [PACKAGES]).Ok? <==> Lookup(data.members, PACKAGES).Some?
  {
  }

  lemma NothingToRead(data: Value, key: Text)
    requires !data.Obj?
    ensures Get(data, [key]).Failed?
  {
  }

  // ---- Scalars that are read are located --------------------------------------------------

  lemma {:induction false} ReadIsLocated(n: Node, here: Path, field: seq<Text>, at: nat)
    requires WellFormed(n) && Get(ToValue(n), field).Ok?
    requires Get(ToValue(n), field).value.Str? || Get(ToValue(n), field).value.Int?
    ensures Locate(n, here, here + KeyPath(field), at).Some?
    decreases n, 0
  {
    match n
    case Leaf(token, _) =>
      ScalarIsNoContainer(token, 0);
      assert here + KeyPath([]) == here;
    case EmptyList(_) =>
    case List(_) =>
    case EmptyDict(_) =>
    case Dict(members) => ReadMemberIsLocated(members, {}, here, field, at + 1);
  }

  lemma {:induction false} ReadMemberIsLocated(x: Members, seen: set<Text>, here: Path, field: seq<Text>, at: nat)
    requires MembersWellFormed(x, seen) && |field| > 0 && Lookup(MemberValues(x), field[0]).Some?
    requires var got := Get(Lookup(MemberValues(x), field[0]).value, field[1..]);
      got.Ok? && (got.value.Str? || got.value.Int?)
    ensures LocateMember(x, here, here + KeyPath(field), at).Some?
    decreases x, 1
  {
    if x.key == field[0] {
      ReadIsLocated(x.node, here + [Key(x.key)], field[1..], ValueAt(x, at));
      assert here + [Key(x.key)] + KeyPath(field[1..]) == here + KeyPath(field);
    } else {
      assert MemberValues(x)[1..] == if x.rest.Some? then MemberValues(x.rest.value) else [];
      ReadMemberIsLocated(x.rest.value, seen + {x.key}, here, field, RestMemberAt(x, at));
    }
  }

  lemma {:induction false} PlanFits(n: Node, at: nat, fields: seq<seq<Text>>, value: Field)
    requires WellFormed(n)
    ensures Plan(n, at, fields, value).Ok? <==> forall field | field in fields :: Fits(ToValue(n), field, value)
    decreases |fields|
  {
    if fields != [] {
      PlanFits(n, at, fields[1..], value);
      FirstFits(n, at, fields, value);
      hide Plan, Fits;
      assert fields == [fields[0]] + fields[1..];
    }
  }

  lemma FirstFits(n: Node, at: nat, fields: seq<seq<Text>>, value: Field)
    requires WellFormed(n) && fields != []
    ensures Plan(n, at, fields, value).Ok? <==>
            Fits(ToValue(n), fields[0], value) && Plan(n, at, fields[1..], value).Ok?
  {
    hide Get, Locate;
    if Fits(ToValue(n), fields[0], value) {
      ReadIsLocated(n, [], fields[0], at);
      assert [] + KeyPath(fields[0]) == KeyPath(fields[0]);
    }
  }

  // ---- Encoding the result ----------------------------------------------------------------

  lemma {:induction false} DumpKeepsCodes(s: Text)
    ensures Encodable(DumpCodes(s)) ==> Encodable(s)
    decreases s
  {
    if s != [] && Encodable(DumpCodes(s)) {
      var head, tail := DumpCode(s[0]), DumpCodes(s[1..]);
      assert forall i | 0 <= i < |head| :: (head + tail)[i] == head[i];
      assert forall i | 0 <= i < |tail| :: (head + tail)[|head| + i] == tail[i];
      assert Encodable(tail);
      DumpKeepsCodes(s[1..]);
      assert !(0xD800 <= s[0] <= 0xDFFF) by {
        assert head[|head| - 1] == (head + tail)[|head| - 1];
      }
    }
  }

  lemma DumpEncodes(f: Field)
    ensures Encodable(Dump(f)) <==> f.Count? || Encodable(f.s)
  {
    match f
    case Count(n) => assert Encodable(IntText(n));
    case Word(s) =>
      DumpKeepsCodes(s);
      if Encodable(s) {
        DumpEncodable(s);
      }
      assert Dump(f)[1..|DumpCodes(s)| + 1] == DumpCodes(s);
  }

  /** The places of the edits descend and do not overlap, all before `limit`. */
  predicate Descends(edits: seq<Edit>, limit: nat) {
    edits == []
    || (edits[0].span.start <= edits[0].span.end <= limit && Descends(edits[1..], edits[0].span.start))
  }

  lemma DescendsBelow(edits: seq<Edit>, a: nat, b: nat)
    requires Descends(edits, a) && a <= b
    ensures Descends(edits, b)
  {
  }

  /** What stands behind all edits stays. */
  lemma {:induction false} SpliceKeepsEnd(t: Text, edits: seq<Edit>, k: nat)
    requires Descends(edits, k) && k <= |t|
    ensures var r := Splice(t, edits);
      |t| - k <= |r| && r[|r| - (|t| - k)..] == t[k..]
    decreases |edits|
  {
    hide Dump;
    if edits != [] {
      var span, token := edits[0].span, Dump(edits[0].field);
      var next := CutOut(t, span, token);
      assert next == t[..span.start] + token + t[span.end..];
      var j := |next| - (|t| - k);
      assert next[j..] == t[k..];
      DescendsBelow(edits[1..], span.start, j);
      SpliceKeepsEnd(next, edits[1..], j);
    }
  }

  lemma {:induction false} PlantedDescend(d: Doc, edits: seq<Edit>, limit: nat)
    requires DocWellFormed(d) && Ordered(edits) && AllPlanted(edits, d.node, |d.pre|)
    requires edits != [] ==> edits[0].span.end <= limit
    ensures Descends(edits, limit)
    decreases |edits|
  {
    hide Print, WellFormed, Locate;
    if edits != [] {
      var first, rest := edits[0], edits[1..];
      assert Planted(first, d.node, |d.pre|);
      RewriteCuts(d.node, [], first.path, first.field, |d.pre|, first.span);
      forall e | e in rest ensures Planted(e, d.node, |d.pre|) {
        assert e in edits;
      }
      if rest != [] {
        assert rest[0] in edits && Planted(rest[0], d.node, |d.pre|);
        EarlierSiteStays(d.node, [], first.path, rest[0].path, first.field, |d.pre|,
                         Locate(d.node, [], first.path, |d.pre|).value,
                         Locate(d.node, [], rest[0].path, |d.pre|).value);
      }
      PlantedDescend(d, rest, first.span.start);
    }
  }

  /** A text that can be encoded stays so exactly if every token can be that is put in. */
  lemma {:induction false} SpliceEncodes(t: Text, edits: seq<Edit>, limit: nat)
    requires Encodable(t) && Descends(edits, limit) && limit <= |t|
    ensures Encodable(Splice(t, edits)) <==> forall e | e in edits :: Encodable(Dump(e.field))
    decreases |edits|
  {
    hide Dump, Encodable, CutOut;
    if edits != [] {
      var span, token := edits[0].span, Dump(edits[0].field);
      var next := CutOut(t, span, token);
      assert edits == [edits[0]] + edits[1..];
      CutEncodes(t, span, token);
      if Encodable(token) {
        SpliceEncodes(next, edits[1..], span.start);
      } else {
        SpliceKeepsEnd(next, edits[1..], span.start);
        EndEncodes(Splice(next, edits[1..]), next[span.start..]);
      }
    }
  }

  lemma CutEncodes(t: Text, span: Span, token: Text)
    requires Encodable(t) && span.start <= span.end <= |t|
    ensures span.start <= |CutOut(t, span, token)|
    ensures Encodable(token) ==> Encodable(CutOut(t, span, token))
    ensures !Encodable(token) ==> !Encodable(CutOut(t, span, token)[span.start..])
  {
    var next := CutOut(t, span, token);
    assert next == t[..span.start] + token + t[span.end..];
    if !Encodable(token) {
      var i :| 0 <= i < |token| && 0xD800 <= token[i] <= 0xDFFF;
      assert next[span.start..][i] == token[i];
    }
  }

  lemma EndEncodes(t: Text, end: Text)
    requires |end| <= |t| && t[|t| - |end|..] == end && !Encodable(end)
    ensures !Encodable(t)
  {
    var i :| 0 <= i < |end| && 0xD800 <= end[i] <= 0xDFFF;
    assert t[|t| - |end| + i] == end[i];
  }

  // ---- Main results -----------------------------------------------------------------------

  /** What replaces an owned field is what it reads as afterwards. */
  lemma NewFieldUpdates(data: Value, field: seq<Text>, value: Field)
    ensures NewField(data, field, value).Some? <==> Fits(data, field, value)
    ensures Fits(data, field, value) ==>
      FieldValue(NewField(data, field, value).value) == Updated(Get(data, field).value, value)
  {
    hide Get;
  }

  /** Documents whose owned fields fit have a plan, and what it puts in can be encoded where it is writable. */
  lemma PlanWrites(doc: Doc, d: Declaration, value: Field)
    requires DocWellFormed(doc) && IsField(value) && OwnedFields(ToValue(doc.node), d).Ok?
    requires Plan(doc.node, |doc.pre|, OwnedFields(ToValue(doc.node), d).value, value).Ok?
    ensures var edits := Plan(doc.node, |doc.pre|, OwnedFields(ToValue(doc.node), d).value, value).value.edits;
      Writable(ToValue(doc.node), d, value) <==> forall e | e in edits :: Encodable(Dump(e.field))
  {
    hide Get, Locate, Plan, OwnedFields, Dump, Encodable, Owns, WellFormed;
    var data := ToValue(doc.node);
    var fields := OwnedFields(data, d).value;
    var edits := Plan(doc.node, |doc.pre|, fields, value).value.edits;
    OwnedFieldsAre(data, d);
    PlanFits(doc.node, |doc.pre|, fields, value);
    PlanEditsAre(doc.node, |doc.pre|, fields, value);
    PlanChanges(doc.node, |doc.pre|, fields, value);
    forall e | e in edits ensures Writable(data, d, value) ==> Encodable(Dump(e.field)) {
      var i :| 0 <= i < |fields| && e.path == KeyPath(fields[i]) && NewField(data, fields[i], value) == Some(e.field);
      assert fields[i] in fields && Owns(data, d, fields[i]);
      EditedDiffers(doc.node, |doc.pre|, fields, value, e, i);
      DumpOfUpdated(data, fields[i], value, e.field);
    }
    if forall e | e in edits :: Encodable(Dump(e.field)) {
      forall field | Owns(data, d, field) && Differs(data, field, value) && Get(data, field).value.Str?
        ensures Encodable(Updated(Get(data, field).value, value).s) {
        var i :| 0 <= i < |fields| && fields[i] == field;
        NewFieldUpdates(data, field, value);
        var e :| e in edits && e.path == KeyPath(fields[i]);
        EditedFieldIs(fields, data, value, e, i);
        DumpOfUpdated(data, field, value, e.field);
      }
    }
  }

  lemma DumpOfUpdated(data: Value, field: seq<Text>, value: Field, f: Field)
    requires Fits(data, field, value) && NewField(data, field, value) == Some(f)
    ensures Encodable(Dump(f)) <==>
            (Get(data, field).value.Str? ==> Encodable(Updated(Get(data, field).value, value).s))
  {
    hide Get, Encodable, Dump;
    DumpEncodes(f);
  }

  /** An edit is planned only where something changes. */
  lemma {:induction false} PlanChanges(n: Node, at: nat, fields: seq<seq<Text>>, value: Field)
    requires Plan(n, at, fields, value).Ok?
    ensures forall e | e in Plan(n, at, fields, value).value.edits ::
              exists field :: field in fields && e.path == KeyPath(field) && Differs(ToValue(n), field, value)
    decreases |fields|
  {
    hide Get, Locate;
    if fields != [] {
      PlanChanges(n, at, fields[1..], value);
      var edits, rest := Plan(n, at, fields, value).value.edits, Plan(n, at, fields[1..], value).value.edits;
      forall e | e in edits
        ensures exists field :: field in fields && e.path == KeyPath(field) && Differs(ToValue(n), field, value) {
        if e in rest {
          var field :| field in fields[1..] && e.path == KeyPath(field) && Differs(ToValue(n), field, value);
          assert field in fields;
        } else {
          assert fields[0] in fields;
        }
      }
    }
  }

  lemma EditedDiffers(n: Node, at: nat, fields: seq<seq<Text>>, value: Field, e: Edit, i: nat)
    requires Plan(n, at, fields, value).Ok? && e in Plan(n, at, fields, value).value.edits
    requires i < |fields| && e.path == KeyPath(fields[i])
    ensures Differs(ToValue(n), fields[i], value)
  {
    hide Plan, Differs;
    PlanChanges(n, at, fields, value);
    var field :| field in fields && e.path == KeyPath(field) && Differs(ToValue(n), field, value);
    KeyPathInjective(field, fields[i]);
  }

  /** Of a text that could be decoded: an edit succeeds exactly on documents that the declaration selects and
      whose owned fields can take the value. */
  lemma EditSucceeds(t: Text, d: Declaration, value: Field)
    requires IsField(value) && Encodable(t)
    ensures EditText(t, d, value).Ok? <==>
            Document(t).Ok? && Editable(ToValue(Document(t).value.node), d, value)
  {
    hide Document, OwnedFields, Plan, Splice, Encodable, Get, Fits, Selected, Owns, Writable, WellFormed, Descends;
    if Document(t).Ok? {
      var doc := Document(t).value;
      var data := ToValue(doc.node);
      DocumentPrints(t, doc);
      OwnedFieldsAre(data, d);
      if OwnedFields(data, d).Ok? {
        var fields := OwnedFields(data, d).value;
        PlanFits(doc.node, |doc.pre|, fields, value);
        if Plan(doc.node, |doc.pre|, fields, value).Ok? {
          PlanWrites(doc, d, value);
          SortedPlan(doc, d, value);
          var edits := Plan(doc.node, |doc.pre|, fields, value).value.edits;
          SpliceEncodes(t, Descending(edits), |t|);
        }
      }
    }
  }

  /** The planned edits, sorted, descend within the text. */
  lemma SortedPlan(doc: Doc, d: Declaration, value: Field)
    requires DocWellFormed(doc) && IsField(value) && OwnedFields(ToValue(doc.node), d).Ok?
    requires Plan(doc.node, |doc.pre|, OwnedFields(ToValue(doc.node), d).value, value).Ok?
    ensures var edits := Plan(doc.node, |doc.pre|, OwnedFields(ToValue(doc.node), d).value, value).value.edits;
      && Descends(Descending(edits), |PrintDoc(doc)|)
      && forall e :: e in Descending(edits) <==> e in edits
  {
    hide Locate, Plan, OwnedFields, WellFormed, Print, Descends;
    var fields := OwnedFields(ToValue(doc.node), d).value;
    var edits := Plan(doc.node, |doc.pre|, fields, value).value.edits;
    var sorted := Descending(edits);
    OwnedFieldsDistinct(ToValue(doc.node), d);
    PlanHolds(doc.node, |doc.pre|, fields, value);
    PlanPathsApart(doc.node, |doc.pre|, fields, value);
    PlantedApart(doc.node, |doc.pre|, edits);
    DescendingOrders(edits);
    forall e ensures e in sorted <==> e in edits {
      assert e in sorted <==> e in multiset(sorted);
      assert e in edits <==> e in multiset(edits);
    }
    if sorted != [] {
      var first := sorted[0];
      assert first in sorted && Planted(first, doc.node, |doc.pre|);
      RewriteCuts(doc.node, [], first.path, first.field, |doc.pre|, first.span);
    }
    PlantedDescend(doc, sorted, |PrintDoc(doc)|);
  }

  lemma {:induction false} SubstituteUntouched(v: Value, here: Path, m: map<Path, Field>)
    requires forall p | p in m :: !(here <= p)
    ensures Substitute(v, here, m) == v
    decreases v, 0
  {
    match v
    case Arr(items) => ItemsUntouched(items, here, 0, m);
    case Obj(members) => MembersUntouched(members, here, m);
    case _ =>
  }

  lemma {:induction false} ItemsUntouched(items: seq<Value>, here: Path, k: nat, m: map<Path, Field>)
    requires forall p | p in m :: !(here <= p)
    ensures SubstituteItems(items, here, k, m) == items
    decreases items, |items|
  {
    if items != [] {
      forall p | p in m ensures !(here + [Index(k)] <= p) {
        assert here <= here + [Index(k)];
      }
      SubstituteUntouched(items[0], here + [Index(k)], m);
      ItemsUntouched(items[1..], here, k + 1, m);
    }
  }

  lemma {:induction false} MembersUntouched(members: seq<Entry>, here: Path, m: map<Path, Field>)
    requires forall p | p in m :: !(here <= p)
    ensures SubstituteMembers(members, here, m) == members
    decreases members, |members|
  {
    if members != [] {
      var Entry(key, value) := members[0];
      forall p | p in m ensures !(here + [Key(key)] <= p) {
        assert here <= here + [Key(key)];
      }
      SubstituteUntouched(value, here + [Key(key)], m);
      MembersUntouched(members[1..], here, m);
    }
  }

  /** The field leads to no owned field. */
  ghost predicate Aside(data: Value, d: Declaration, field: seq<Text>) {
    forall own | Owns(data, d, own) :: !(field <= own)
  }

  /** Every field of an edited document: owned fields read as the new value, a number where they held one, and
      all others as before; exactly the owned fields that held something else are changed. */
  lemma EditReads(t: Text, d: Declaration, value: Field, field: seq<Text>)
    requires IsField(value) && EditText(t, d, value).Ok?
    ensures Document(t).Ok? && Document(EditText(t, d, value).value.text).Ok?
    ensures var before := ToValue(Document(t).value.node);
      var after := ToValue(Document(EditText(t, d, value).value.text).value.node);
      && (Get(after, field).Ok? <==> Get(before, field).Ok?)
      && (Owns(before, d, field) ==>
            Get(before, field).Ok? && Get(after, field) == Ok(Updated(Get(before, field).value, value)))
      && (Aside(before, d, field) ==> Get(after, field) == Get(before, field))
      && (KeyPath(field) in Changes(t, d, value) <==> Owns(before, d, field) && Differs(before, field, value))
  {
    hide Document, OwnedFields, Plan, Get, Substitute, Changes, Owns, Splice, WellFormed;
    var before, m := ToValue(Document(t).value.node), Changes(t, d, value);
    EditRewrites(t, d, value);
    OwnedFieldsAre(before, d);
    EditOwns(t, d, value);
    GetSubstituted(before, [], m, field);
    NewFieldUpdates(before, field, value);
    var fields := OwnedFields(before, d).value;
    if Owns(before, d, field) {
      var i :| 0 <= i < |fields| && fields[i] == field;
      assert NewField(before, fields[i], value).Some?;
    }
    if Aside(before, d, field) && Get(before, field).Ok? {
      forall p | p in m ensures !([] + KeyPath(field) <= p) {
        var i :| 0 <= i < |fields| && p == KeyPath(fields[i]);
        assert fields[i] in fields && Owns(before, d, fields[i]);
        KeyPathPrefix(field, fields[i]);
      }
      SubstituteUntouched(Get(before, field).value, [] + KeyPath(field), m);
    }
    ChangedFields(t, d, value, field);
  }

  lemma KeyPathPrefix(a: seq<Text>, b: seq<Text>)
    ensures [] + KeyPath(a) <= KeyPath(b) ==> a <= b
  {
    if [] + KeyPath(a) <= KeyPath(b) {
      forall i | 0 <= i < |a| ensures a[i] == b[i] {
        assert ([] + KeyPath(a))[i] == KeyPath(b)[i];
      }
    }
  }

  lemma ChangedFields(t: Text, d: Declaration, value: Field, field: seq<Text>)
    requires IsField(value) && EditText(t, d, value).Ok?
    ensures var before := ToValue(Document(t).value.node);
      KeyPath(field) in Changes(t, d, value) <==> Owns(before, d, field) && Differs(before, field, value)
  {
    hide Document, OwnedFields, Plan, Get, Substitute, Changes, Owns, Splice, Updated, WellFormed;
    var doc, m := Document(t).value, Changes(t, d, value);
    var before := ToValue(doc.node);
    var fields := OwnedFields(before, d).value;
    var edits := Plan(doc.node, |doc.pre|, fields, value).value.edits;
    OwnedFieldsAre(before, d);
    ChangesAre(t, d, value);
    PlanEditsAre(doc.node, |doc.pre|, fields, value);
    NewFieldUpdates(before, field, value);
    if KeyPath(field) in m {
      var e :| e in edits && e.path == KeyPath(field);
      var i :| 0 <= i < |fields| && e.path == KeyPath(fields[i]) && NewField(before, fields[i], value) == Some(e.field);
      KeyPathInjective(field, fields[i]);
      EditedDiffers(doc.node, |doc.pre|, fields, value, e, i);
    } else if Owns(before, d, field) {
      var i :| 0 <= i < |fields| && fields[i] == field;
      assert NewField(before, fields[i], value).Some?;
      assert KeyPath(fields[i]) !in m;
    }
  }

  /** The values an edit reports: those its owned fields held, the root package's last. */
  lemma PreviousAre(t: Text, d: Declaration, value: Field)
    requires IsField(value) && EditText(t, d, value).Ok?
    ensures Document(t).Ok?
    ensures var before := ToValue(Document(t).value.node);
      var held := EditText(t, d, value).value.previous;
      match d
      case Manifest(own, _) => |held| == 1 && Get(before, own) == Ok(held[0])
      case NpmLock(_) =>
        && |held| == (if Get(before, [PACKAGES]).Ok? then 2 else 1) && Get(before, [VERSION]) == Ok(held[0])
        && (|held| == 2 ==> Get(before, [PACKAGES, [], VERSION]) == Ok(held[1]))
  {
    hide Document, Plan, Substitute, Changes, Splice, Get;
    EditOwns(t, d, value);
    var before := ToValue(Document(t).value.node);
    if before.Obj? {
      PackagesRead(before);
    } else {
      NothingToRead(before, PACKAGES);
    }
  }
}
