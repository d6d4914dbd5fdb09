/** What toolchain differences report (scripts/release_versioned.py), without a stack: the places of two JSON values
    where they part, in the order of the documents. */
module ToolchainPlaces {
  import opened Results
  import opened Texts
  import opened ToolchainDiff

  // ---- Equal values -----------------------------------------------------------------------

  /** A value as Python compares it: one kind of number, and objects without an order. */
  datatype Plain = Nothing | Number(r: real) | Word(t: Text) | Row(items: seq<Plain>) | Table(entries: map<Text, Plain>)

  function Meaning(v: Value): Plain {
    match v
    case Null => Nothing
    case Bool(b) => Number(if b then 1.0 else 0.0)
    case Int(n) => Number(n as real)
    case Float(r) => Number(r)
    case Str(s) => Word(s)
    case List(items) => Row(Meanings(items))
    case Dict(entries) => Table(TableOf(entries))
  }

  function Meanings(items: seq<Value>): (r: seq<Plain>)
    ensures |r| == |items| && forall i | 0 <= i < |items| :: r[i] == Meaning(items[i])
  {
    if items == [] then [] else [Meaning(items[0])] + Meanings(items[1..])
  }

  function TableOf(entries: seq<Entry>): map<Text, Plain> {
    if entries == [] then map[] else TableOf(entries[1..])[entries[0].key := Meaning(entries[0].value)]
  }

  /** The keys of all objects inside rise. */
  predicate AllSorted(v: Value) {
    match v
    case List(items) => forall i | 0 <= i < |items| :: AllSorted(items[i])
    case Dict(entries) => Sorted(entries) && forall i | 0 <= i < |entries| :: AllSorted(entries[i].value)
    case _ => true
  }

  lemma {:induction false} TableHas(entries: seq<Entry>, key: Text)
    ensures key in TableOf(entries) <==> Lookup(entries, key).Some?
    ensures key in TableOf(entries) ==> TableOf(entries)[key] == Meaning(Lookup(entries, key).value)
    decreases |entries|
  {
    hide Meaning;
    if entries != [] {
      TableHas(entries[1..], key);
    }
  }

  lemma {:induction false} LookupIn(entries: seq<Entry>, key: Text) returns (i: nat)
    requires Lookup(entries, key).Some?
    ensures i < |entries| && entries[i] == Entry(key, Lookup(entries, key).value)
    decreases |entries|
  {
    if entries[0].key == key {
      i := 0;
    } else {
      i := LookupIn(entries[1..], key);
      i := i + 1;
    }
  }

  lemma LookupSorted(entries: seq<Entry>, key: Text)
    requires AllSorted(Dict(entries)) && Lookup(entries, key).Some?
    ensures AllSorted(Lookup(entries, key).value) && Lookup(entries, key).value < Dict(entries)
  {
    var i := LookupIn(entries, key);
    assert entries[i].value < entries[i] < Dict(entries);
  }

  /** Values are equal exactly if they mean the same. */
  lemma {:induction false} EqualIs(a: Value, b: Value)
    requires AllSorted(a) && AllSorted(b)
    ensures Equal(a, b) <==> Meaning(a) == Meaning(b)
    decreases a
  {
    if a.List? && b.List? {
      forall i | 0 <= i < |a.items| && i < |b.items| ensures Equal(a.items[i], b.items[i]) <==>
                                                           Meaning(a.items[i]) == Meaning(b.items[i]) {
        EqualIs(a.items[i], b.items[i]);
      }
    } else if a.Dict? && b.Dict? {
      TablesEqual(a.entries, b.entries);
    }
  }

  lemma {:induction false} TablesEqual(a: seq<Entry>, b: seq<Entry>)
    requires AllSorted(Dict(a)) && AllSorted(Dict(b))
    ensures Equal(Dict(a), Dict(b)) <==> TableOf(a) == TableOf(b)
    decreases Dict(a), 0
  {
    hide Equal, Meaning;
    DictsEqual(a, b);
    forall key ensures SameAt(a, b, key) <==>
                       (key in TableOf(a) <==> key in TableOf(b))
                       && (key in TableOf(a) && key in TableOf(b) ==> TableOf(a)[key] == TableOf(b)[key]) {
      TableHas(a, key);
      TableHas(b, key);
      if Lookup(a, key).Some? && Lookup(b, key).Some? {
        LookupSorted(a, key);
        LookupSorted(b, key);
        EqualIs(Lookup(a, key).value, Lookup(b, key).value);
      }
    }
  }

  // ---- Places -----------------------------------------------------------------------------

  datatype Step = Key(key: Text) | Index(i: nat)

  type Place = seq<Step>

  /** What a value has at a place. */
  function Look(v: Value, place: Place): Option<Value>
    decreases |place|
  {
    if place == [] then Some(v)
    else
      match (v, place[0])
      case (Dict(entries), Key(key)) =>
        if Lookup(entries, key).Some? then Look(Lookup(entries, key).value, place[1..]) else None
      case (List(items), Index(i)) => if i < |items| then Look(items[i], place[1..]) else None
      case _ => None
  }

  /** Both sides have an object here, or both have a list. */
  predicate Alike(x: Option<Value>, y: Option<Value>) {
    x.Some? && y.Some? && ((x.value.Dict? && y.value.Dict?) || (x.value.List? && y.value.List?))
  }

  predicate Reached(a: Value, b: Value, place: Place) {
    forall n | 0 <= n < |place| :: Alike(Look(a, place[..n]), Look(b, place[..n]))
  }

  /** Something differs here that is no difference further inside: one side has nothing, or they have different values
      that are not both objects or both lists. */
  predicate Reported(a: Value, b: Value, place: Place) {
    var x, y := Look(a, place), Look(b, place);
    && Reached(a, b, place) && !Alike(x, y) && (x.Some? || y.Some?)
    && (x.Some? && y.Some? ==> Meaning(x.value) != Meaning(y.value))
  }

  function FindingOf(x: Option<Value>, y: Option<Value>): Finding {
    if x.None? then MissingInRc
    else if y.None? then MissingInFinal
    else if TypeOf(x.value) != TypeOf(y.value) then TypeChanged(TypeOf(x.value), TypeOf(y.value))
    else ValueChanged
  }

  function StepText(s: Step): Text {
    match s
    case Key(key) => Escaped(key)
    case Index(i) => NatText(i)
  }

  /** The label of a place: every step is added to the label so far, and what is unsafe is hidden on the way. */
  function Label(shown: Text -> Text, place: Place): Text {
    if place == [] then Chars("toolchain")
    else shown(Label(shown, place[..|place| - 1]) + [0x2F] + StepText(place[|place| - 1]))
  }

  predicate StepBelow(s: Step, t: Step) {
    (s.Key? && t.Key? && Below(s.key, t.key)) || (s.Index? && t.Index? && s.i < t.i)
  }

  /** The places part at a step. */
  predicate PartAt(p: Place, q: Place, n: int) {
    0 <= n < |p| && n < |q| && p[..n] == q[..n] && StepBelow(p[n], q[n])
  }

  predicate Parts(p: Place, q: Place) {
    exists n | 0 <= n < |p| :: PartAt(p, q, n)
  }

  /** The order of the documents: outer places first, then by their steps. */
  predicate Before(p: Place, q: Place) {
    p < q || Parts(p, q)
  }

  predicate Rising(at: seq<Place>) {
    forall i, j | 0 <= i < j < |at| :: Before(at[i], at[j])
  }

  lemma {:induction false} LookOn(v: Value, place: Place, more: Place)
    ensures Look(v, place + more) == if Look(v, place).Some? then Look(Look(v, place).value, more) else None
    decreases |place|
  {
    if place == [] {
      assert place + more == more;
    } else {
      assert (place + more)[0] == place[0] && (place + more)[1..] == place[1..] + more;
      match (v, place[0])
      case (Dict(entries), Key(key)) =>
        if Lookup(entries, key).Some? { LookOn(Lookup(entries, key).value, place[1..], more); }
      case (List(items), Index(i)) =>
        if i < |items| { LookOn(items[i], place[1..], more); }
      case _ =>
    }
  }

  lemma {:induction false} LookSorted(v: Value, place: Place)
    requires AllSorted(v) && Look(v, place).Some?
    ensures AllSorted(Look(v, place).value)
    decreases |place|
  {
    if place != [] {
      match (v, place[0])
      case (Dict(entries), Key(key)) =>
        LookupSorted(entries, key);
        LookSorted(Lookup(entries, key).value, place[1..]);
      case (List(items), Index(i)) => LookSorted(items[i], place[1..]);
    }
  }

  /** What means the same means the same everywhere inside. */
  lemma {:induction false} SameInside(a: Value, b: Value, place: Place)
    requires Meaning(a) == Meaning(b)
    ensures Look(a, place).Some? <==> Look(b, place).Some?
    ensures Look(a, place).Some? ==> Meaning(Look(a, place).value) == Meaning(Look(b, place).value)
    decreases |place|
  {
    if place != [] {
      match (a, place[0])
      case (Dict(entries), Key(key)) =>
        TableHas(entries, key);
        TableHas(b.entries, key);
        if Lookup(entries, key).Some? {
          SameInside(Lookup(entries, key).value, Lookup(b.entries, key).value, place[1..]);
        }
      case (List(items), Index(i)) =>
        if i < |items| { SameInside(items[i], b.items[i], place[1..]); }
      case _ =>
    }
  }

  lemma PartsGoOn(p: Place, q: Place, p2: Place, q2: Place)
    requires Parts(p, q) && p <= p2 && q <= q2
    ensures Parts(p2, q2)
  {
    var n :| 0 <= n < |p| && PartAt(p, q, n);
    assert p2[..n] == p[..n] && q2[..n] == q[..n];
    assert PartAt(p2, q2, n);
  }

  // ---- The comparison reports the places --------------------------------------------------

  predicate IsTask(shown: Text -> Text, a: Value, b: Value, place: Place, t: Task) {
    t == Task(Label(shown, place), Look(a, place), Look(b, place)) && (t.before.Some? || t.after.Some?)
  }

  /** The tasks at these places, which part from each other in this order. */
  predicate AreTasks(shown: Text -> Text, a: Value, b: Value, places: seq<Place>, tasks: seq<Task>) {
    && |places| == |tasks|
    && (forall i | 0 <= i < |places| :: Reached(a, b, places[i]) && IsTask(shown, a, b, places[i], tasks[i]))
    && forall i, j | 0 <= i < j < |places| :: Parts(places[i], places[j])
  }

  predicate Under(places: seq<Place>, place: Place) {
    exists i | 0 <= i < |places| :: places[i] <= place
  }

  predicate AreChanges(shown: Text -> Text, a: Value, b: Value, at: seq<Place>, changes: seq<Change>) {
    && |at| == |changes|
    && forall i | 0 <= i < |at| ::
         changes[i] == Change(Label(shown, at[i]), FindingOf(Look(a, at[i]), Look(b, at[i])))
  }

  /** The places under some that are reported, in order. */
  ghost predicate AreReported(a: Value, b: Value, places: seq<Place>, at: seq<Place>) {
    Rising(at) && forall place :: place in at <==> Reported(a, b, place) && Under(places, place)
  }

  lemma LookStep(v: Value, place: Place, step: Step)
    ensures Look(v, place + [step]) ==
            match Look(v, place)
            case None => None
            case Some(w) =>
              if w.Dict? && step.Key? then Lookup(w.entries, step.key)
              else if w.List? && step.Index? then Item(w.items, step.i)
              else None
  {
    LookOn(v, place, [step]);
    assert [step][1..] == [];
  }

  lemma ReachedStep(a: Value, b: Value, place: Place, step: Step)
    ensures Reached(a, b, place + [step]) <==> Reached(a, b, place) && Alike(Look(a, place), Look(b, place))
  {
    hide Look, Alike;
    var more := place + [step];
    assert more[..|place|] == place;
    forall n | 0 <= n < |place| ensures more[..n] == place[..n] {
    }
  }

  lemma LabelStep(shown: Text -> Text, place: Place, step: Step)
    ensures Label(shown, place + [step]) == shown(Label(shown, place) + [0x2F] + StepText(step))
  {
    assert (place + [step])[..|place|] == place;
  }

  lemma PartHere(place: Place, s: Step, t: Step)
    requires StepBelow(s, t)
    ensures Parts(place + [s], place + [t])
  {
    assert PartAt(place + [s], place + [t], |place|);
  }

  /** The step from a place to one further inside. */
  lemma NextStep(a: Value, b: Value, place: Place, inner: Place) returns (step: Step)
    requires place <= inner && Reported(a, b, inner) && Alike(Look(a, place), Look(b, place))
    ensures place + [step] <= inner
    ensures Look(a, place + [step]).Some? || Look(b, place + [step]).Some?
  {
    hide Look, Meaning;
    assert place != inner && inner[..|inner|] == inner;
    step := inner[|place|];
    var next := inner[..|place| + 1];
    assert next == place + [step];
    if |next| < |inner| {
      assert Alike(Look(a, inner[..|next|]), Look(b, inner[..|next|]));
    } else {
      assert next == inner;
    }
  }

  lemma {:induction false} FindIn(pairs: seq<Pair>, key: Text) returns (i: nat)
    requires Find(pairs, key).Some?
    ensures i < |pairs| && pairs[i] == Find(pairs, key).value && pairs[i].key == key
  {
    if pairs[0].key == key {
      i := 0;
    } else {
      i := FindIn(pairs[1..], key);
      i := i + 1;
    }
  }

  lemma KeyTask(shown: Text -> Text, a: Value, b: Value, place: Place, t: Task, pairs: seq<Pair>, i: nat)
    requires AllSorted(a) && AllSorted(b) && Reached(a, b, place) && IsTask(shown, a, b, place, t)
    requires Opens(t) && t.before.value.Dict? && pairs == Union(t.before.value.entries, t.after.value.entries)
    requires i < |pairs|
    ensures i < |Inside(shown, t)| && Reached(a, b, place + [Key(pairs[i].key)])
    ensures IsTask(shown, a, b, place + [Key(pairs[i].key)], Inside(shown, t)[i])
  {
    hide Look, Equal, Below, Sorted, Label, Union, Reached, Meaning;
    var x, y, key := t.before.value.entries, t.after.value.entries, pairs[i].key;
    LookSorted(a, place);
    LookSorted(b, place);
    UnionSorted(x, y);
    ReachedStep(a, b, place, Key(key));
    LabelStep(shown, place, Key(key));
    LookStep(a, place, Key(key));
    LookStep(b, place, Key(key));
    assert pairs[i] in pairs;
    PairFound(pairs, pairs[i]);
    UnionFinds(x, y, key);
  }

  /** Whatever is reported inside two objects is so under one of their keys. */
  lemma KeyUnder(a: Value, b: Value, place: Place, x: seq<Entry>, y: seq<Entry>, q: Place) returns (i: nat)
    requires Look(a, place) == Some(Dict(x)) && Look(b, place) == Some(Dict(y)) && Sorted(x) && Sorted(y)
    requires Reported(a, b, q) && place <= q
    ensures i < |Union(x, y)| && place + [Key(Union(x, y)[i].key)] <= q
  {
    hide Look, Reported, Below, Sorted, Union;
    var step := NextStep(a, b, place, q);
    LookStep(a, place, step);
    LookStep(b, place, step);
    UnionFinds(x, y, step.key);
    i := FindIn(Union(x, y), step.key);
  }

  lemma ObjectsThere(shown: Text -> Text, a: Value, b: Value, place: Place, t: Task)
    requires AllSorted(a) && AllSorted(b) && IsTask(shown, a, b, place, t) && Opens(t) && t.before.value.Dict?
    ensures Sorted(t.before.value.entries) && Sorted(t.after.value.entries)
    ensures Look(a, place) == Some(Dict(t.before.value.entries)) && Look(b, place) == Some(Dict(t.after.value.entries))
    ensures |Inside(shown, t)| == |Union(t.before.value.entries, t.after.value.entries)|
  {
    hide Look, Equal, Label, Union;
    LookSorted(a, place);
    LookSorted(b, place);
  }

  /** The inner tasks of two objects. */
  lemma KeysInside(shown: Text -> Text, a: Value, b: Value, place: Place, t: Task) returns (inner: seq<Place>)
    requires AllSorted(a) && AllSorted(b) && Reached(a, b, place) && IsTask(shown, a, b, place, t)
    requires Opens(t) && t.before.value.Dict?
    ensures AreTasks(shown, a, b, inner, Inside(shown, t))
    ensures forall i | 0 <= i < |inner| :: place <= inner[i]
    ensures forall q | Reported(a, b, q) && place <= q :: Under(inner, q)
  {
    hide Look, Equal, Reported, Below, Sorted, Union, Inside, IsTask, Reached, AllSorted, Parts, Label;
    var x, y := t.before.value.entries, t.after.value.entries;
    var pairs := Union(x, y);
    ObjectsThere(shown, a, b, place, t);
    UnionSorted(x, y);
    inner := seq(|pairs|, i requires 0 <= i < |pairs| => place + [Key(pairs[i].key)]);
    forall i | 0 <= i < |inner| ensures Reached(a, b, inner[i]) && IsTask(shown, a, b, inner[i], Inside(shown, t)[i]) {
      KeyTask(shown, a, b, place, t, pairs, i);
    }
    forall i, j | 0 <= i < j < |inner| ensures Parts(inner[i], inner[j]) {
      PartHere(place, Key(pairs[i].key), Key(pairs[j].key));
    }
    forall q | Reported(a, b, q) && place <= q ensures Under(inner, q) {
      var i := KeyUnder(a, b, place, x, y, q);
      assert inner[i] <= q;
    }
  }

  lemma ItemTask(shown: Text -> Text, a: Value, b: Value, place: Place, t: Task, i: nat)
    requires Reached(a, b, place) && IsTask(shown, a, b, place, t) && Opens(t) && t.before.value.List?
    requires i < Longer(|t.before.value.items|, |t.after.value.items|)
    ensures i < |Inside(shown, t)| && Reached(a, b, place + [Index(i)])
    ensures IsTask(shown, a, b, place + [Index(i)], Inside(shown, t)[i])
  {
    hide Look, Equal, Label, NatText, Reached, Meaning;
    ReachedStep(a, b, place, Index(i));
    LabelStep(shown, place, Index(i));
    LookStep(a, place, Index(i));
    LookStep(b, place, Index(i));
  }

  /** Whatever is reported inside two lists is so under one of their positions. */
  lemma ItemUnder(a: Value, b: Value, place: Place, x: seq<Value>, y: seq<Value>, q: Place) returns (i: nat)
    requires Look(a, place) == Some(List(x)) && Look(b, place) == Some(List(y))
    requires Reported(a, b, q) && place <= q
    ensures i < Longer(|x|, |y|) && place + [Index(i)] <= q
  {
    hide Look, Reported;
    var step := NextStep(a, b, place, q);
    LookStep(a, place, step);
    LookStep(b, place, step);
    i := step.i;
  }

  /** And of two lists. */
  lemma ItemsInside(shown: Text -> Text, a: Value, b: Value, place: Place, t: Task) returns (inner: seq<Place>)
    requires Reached(a, b, place) && IsTask(shown, a, b, place, t)
    requires Opens(t) && t.before.value.List?
    ensures AreTasks(shown, a, b, inner, Inside(shown, t))
    ensures forall i | 0 <= i < |inner| :: place <= inner[i]
    ensures forall q | Reported(a, b, q) && place <= q :: Under(inner, q)
  {
    hide Look, Equal, Reported, Label, NatText, Reached, Parts;
    var x, y := t.before.value.items, t.after.value.items;
    inner := seq(Longer(|x|, |y|), i requires 0 <= i < Longer(|x|, |y|) => place + [Index(i)]);
    forall i | 0 <= i < |inner| ensures Reached(a, b, inner[i]) && IsTask(shown, a, b, inner[i], Inside(shown, t)[i]) {
      ItemTask(shown, a, b, place, t, i);
    }
    forall i, j | 0 <= i < j < |inner| ensures Parts(inner[i], inner[j]) {
      PartHere(place, Index(i), Index(j));
    }
    forall q | Reported(a, b, q) && place <= q ensures Under(inner, q) {
      var i := ItemUnder(a, b, place, x, y, q);
      assert inner[i] <= q;
    }
  }

  lemma FindingsAre(t: Task)
    requires !Opens(t) && (t.before.Some? || t.after.Some?)
    requires (t.before.Some? ==> AllSorted(t.before.value)) && (t.after.Some? ==> AllSorted(t.after.value))
    ensures Findings(t) ==
            if t.before.Some? && t.after.Some? && Meaning(t.before.value) == Meaning(t.after.value) then []
            else [Change(t.path, FindingOf(t.before, t.after))]
    ensures Findings(t) != [] ==> !Alike(t.before, t.after)
  {
    hide Equal, Meaning, AllSorted;
    if t.before.Some? && t.after.Some? {
      EqualIs(t.before.value, t.after.value);
    }
  }

  /** What a task reports that does not open, and what nothing inside it adds. */
  lemma TaskAlone(shown: Text -> Text, a: Value, b: Value, place: Place, t: Task) returns (at: seq<Place>)
    requires AllSorted(a) && AllSorted(b) && Reached(a, b, place) && IsTask(shown, a, b, place, t) && !Opens(t)
    ensures AreChanges(shown, a, b, at, Findings(t)) && AreReported(a, b, [place], at)
  {
    hide Look, Meaning, Label, Findings, Opens, Alike, FindingOf, AllSorted, Reached;
    if t.before.Some? { LookSorted(a, place); }
    if t.after.Some? { LookSorted(b, place); }
    FindingsAre(t);
    at := if Findings(t) == [] then [] else [place];
    OneReported(a, b, place, at);
  }

  lemma OneReported(a: Value, b: Value, place: Place, at: seq<Place>)
    requires Reached(a, b, place) && (Look(a, place).Some? || Look(b, place).Some?)
    requires at == if Look(a, place).Some? && Look(b, place).Some?
                      && Meaning(Look(a, place).value) == Meaning(Look(b, place).value) then [] else [place]
    requires at != [] ==> !Alike(Look(a, place), Look(b, place))
    ensures AreReported(a, b, [place], at)
  {
    hide Look, Meaning, Alike, Reached;
    forall q ensures q in at <==> Reported(a, b, q) && Under([place], q) {
      UnderOne(place, q);
      if place <= q && |place| == |q| {
        assert place == q;
      } else if place <= q {
        Beneath(a, b, place, q);
      }
    }
  }

  /** Nothing is reported beneath a place that is not two objects or lists, or where both mean the same. */
  lemma Beneath(a: Value, b: Value, place: Place, q: Place)
    requires place < q
    requires !Alike(Look(a, place), Look(b, place))
             || Meaning(Look(a, place).value) == Meaning(Look(b, place).value)
    ensures !Reported(a, b, q)
  {
    hide Look, Meaning, Alike;
    var rest := q[|place|..];
    assert q == place + rest && q[..|place|] == place;
    if Alike(Look(a, place), Look(b, place)) {
      AlikeIsThere(Look(a, place), Look(b, place));
      LookOn(a, place, rest);
      LookOn(b, place, rest);
      SameInside(Look(a, place).value, Look(b, place).value, rest);
    }
  }

  lemma AlikeIsThere(x: Option<Value>, y: Option<Value>)
    requires Alike(x, y)
    ensures x.Some? && y.Some?
  {
  }

  lemma TailTasks(shown: Text -> Text, a: Value, b: Value, places: seq<Place>, tasks: seq<Task>)
    requires AreTasks(shown, a, b, places, tasks) && tasks != []
    ensures AreTasks(shown, a, b, places[1..], tasks[1..])
    ensures forall j | 0 <= j < |places[1..]| :: Parts(places[0], places[1..][j])
  {
    hide IsTask, Reached, Parts;
  }

  lemma UnderFirst(places: seq<Place>, q: Place)
    requires places != []
    ensures Under(places, q) <==> places[0] <= q || Under(places[1..], q)
  {
    if Under(places[1..], q) {
      var i :| 0 <= i < |places[1..]| && places[1..][i] <= q;
      assert places[i + 1] <= q;
    }
    if Under(places, q) && !(places[0] <= q) {
      var i :| 0 <= i < |places| && places[i] <= q;
      assert places[1..][i - 1] <= q;
    }
  }

  lemma UnderOne(place: Place, q: Place)
    ensures Under([place], q) <==> place <= q
  {
    assert [place][0] == place;
  }

  /** What the first task reports comes before what the others do. */
  lemma Joined(a: Value, b: Value, places: seq<Place>, first: seq<Place>, rest: seq<Place>)
    requires places != [] && forall j | 0 <= j < |places[1..]| :: Parts(places[0], places[1..][j])
    requires AreReported(a, b, [places[0]], first) && AreReported(a, b, places[1..], rest)
    ensures AreReported(a, b, places, first + rest)
  {
    hide Reported, Parts;
    var at := first + rest;
    forall q ensures q in at <==> Reported(a, b, q) && Under(places, q) {
      UnderFirst(places, q);
      UnderOne(places[0], q);
    }
    forall i, j | 0 <= i < j < |at| ensures Before(at[i], at[j]) {
      if i < |first| <= j {
        assert at[i] in first && at[j] in rest;
        UnderOne(places[0], at[i]);
        var k :| 0 <= k < |places[1..]| && places[1..][k] <= at[j];
        PartsGoOn(places[0], places[1..][k], at[i], at[j]);
      }
    }
  }

  lemma ChangesJoined(shown: Text -> Text, a: Value, b: Value, first: seq<Place>, rest: seq<Place>, x: seq<Change>,
                      y: seq<Change>)
    requires AreChanges(shown, a, b, first, x) && AreChanges(shown, a, b, rest, y)
    ensures AreChanges(shown, a, b, first + rest, x + y)
  {
    hide Label, FindingOf, Look;
  }

  /** The inner places are those under the outer one. */
  lemma InnerIsUnder(a: Value, b: Value, place: Place, inner: seq<Place>, at: seq<Place>)
    requires AreReported(a, b, inner, at) && forall i | 0 <= i < |inner| :: place <= inner[i]
    requires forall q | Reported(a, b, q) && place <= q :: Under(inner, q)
    ensures AreReported(a, b, [place], at)
  {
    hide Reported, Rising;
    forall q ensures q in at <==> Reported(a, b, q) && Under([place], q) {
      UnderOne(place, q);
      if i :| 0 <= i < |inner| && inner[i] <= q {
        assert place <= inner[i] <= q;
      }
    }
  }

  lemma {:induction false} Walk(shown: Text -> Text, a: Value, b: Value, places: seq<Place>, tasks: seq<Task>)
    returns (at: seq<Place>)
    requires AllSorted(a) && AllSorted(b) && AreTasks(shown, a, b, places, tasks)
    ensures AreChanges(shown, a, b, at, Changes(shown, tasks)) && AreReported(a, b, places, at)
    decreases Weight(tasks), |tasks|
  {
    hide AllSorted, Opens, Findings, Inside, IsTask, Reported, Rising, Parts;
    if tasks == [] {
      at := [];
      NothingRises();
    } else {
      var t := tasks[0];
      assert [t] + tasks[1..] == tasks;
      TaskUnrolls(shown, t, tasks[1..]);
      TailTasks(shown, a, b, places, tasks);
      var first: seq<Place>;
      if Opens(t) {
        var inner := OpenTask(shown, a, b, places[0], t);
        InsideWeighsLess(shown, t);
        first := Walk(shown, a, b, inner, Inside(shown, t));
        InnerIsUnder(a, b, places[0], inner, first);
      } else {
        first := TaskAlone(shown, a, b, places[0], t);
      }
      var rest := Walk(shown, a, b, places[1..], tasks[1..]);
      at := first + rest;
      Joined(a, b, places, first, rest);
      ChangesJoined(shown, a, b, first, rest, if Opens(t) then Changes(shown, Inside(shown, t)) else Findings(t),
                    Changes(shown, tasks[1..]));
    }
  }

  lemma NothingRises()
    ensures Rising([])
  {
  }

  lemma OpenTask(shown: Text -> Text, a: Value, b: Value, place: Place, t: Task) returns (inner: seq<Place>)
    requires AllSorted(a) && AllSorted(b) && Reached(a, b, place) && IsTask(shown, a, b, place, t) && Opens(t)
    ensures AreTasks(shown, a, b, inner, Inside(shown, t))
    ensures forall i | 0 <= i < |inner| :: place <= inner[i]
    ensures forall q | Reported(a, b, q) && place <= q :: Under(inner, q)
  {
    hide AllSorted, Inside, IsTask, Reported, Parts, AreTasks, Equal;
    if t.before.value.Dict? {
      inner := KeysInside(shown, a, b, place, t);
    } else {
      inner := ItemsInside(shown, a, b, place, t);
    }
  }

  /** The comparison reports exactly the places where two values part, in the order of the documents, each with its
      label and with what differs there. */
  lemma ChangesAre(shown: Text -> Text, a: Value, b: Value) returns (at: seq<Place>)
    requires AllSorted(a) && AllSorted(b)
    ensures AreChanges(shown, a, b, at, Changes(shown, [Task(ROOT, Some(a), Some(b))]))
    ensures Rising(at) && forall place :: place in at <==> Reported(a, b, place)
  {
    hide AllSorted, Reported, Rising, Changes;
    var t := Task(ROOT, Some(a), Some(b));
    var root: Place := [];
    assert Reached(a, b, root) && IsTask(shown, a, b, root, t);
    at := Walk(shown, a, b, [root], [t]);
    forall place ensures place in at <==> Reported(a, b, place) {
      UnderOne(root, place);
    }
  }

  // ---- Labels -----------------------------------------------------------------------------

  /** A reference token of a JSON pointer, read back (section 4 of RFC 6901). */
  function Unescaped(t: Text): Text {
    if t == [] then []
    else if |t| >= 2 && t[0] == 0x7E && t[1] == 0x31 then [0x2F] + Unescaped(t[2..])
    else if |t| >= 2 && t[0] == 0x7E && t[1] == 0x30 then [0x7E] + Unescaped(t[2..])
    else [t[0]] + Unescaped(t[1..])
  }

  /** A key in a label has no slash and reads back as the key. */
  lemma {:induction false} EscapedReads(key: Text)
    ensures Unescaped(Escaped(key)) == key && forall c | c in Escaped(key) :: c != 0x2F
  {
    if key != [] {
      var rest := Escaped(key[1..]);
      EscapedReads(key[1..]);
      assert key == [key[0]] + key[1..];
      if key[0] == TILDE {
        assert Escaped(key) == [TILDE, 0x30] + rest && Escaped(key)[2..] == rest;
      } else if key[0] == SLASH {
        assert Escaped(key) == [TILDE, 0x31] + rest && Escaped(key)[2..] == rest;
      } else {
        assert Escaped(key) == [key[0]] + rest && Escaped(key)[1..] == rest;
      }
    }
  }
}
