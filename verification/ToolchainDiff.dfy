/** Toolchain differences (scripts/release_versioned.py): a stack walks two JSON values in step. */
module ToolchainDiff {
  import opened Results
  import opened Texts

  /** A JSON value; an object lists its entries by strictly rising key. */
  datatype Value =
    | Null | Bool(b: bool) | Int(n: int) | Float(r: real) | Str(s: Text)
    | List(items: seq<Value>) | Dict(entries: seq<Entry>)

  datatype Entry = Entry(key: Text, value: Value)

  predicate Below(a: Text, b: Text) {
    b != [] && (a == [] || a[0] < b[0] || (a[0] == b[0] && Below(a[1..], b[1..])))
  }

  predicate Sorted(entries: seq<Entry>) {
    forall i, j | 0 <= i < j < |entries| :: Below(entries[i].key, entries[j].key)
  }

  // ---- Equality ---------------------------------------------------------------------------

  predicate IsNumber(v: Value) {
    v.Bool? || v.Int? || v.Float?
  }

  function NumberOf(v: Value): real {
    match v
    case Bool(b) => if b then 1.0 else 0.0
    case Int(n) => n as real
    case Float(r) => r
    case _ => 0.0
  }

  /** Python's `==`, for which 1, 1.0 and True are equal. */
  predicate Equal(a: Value, b: Value) {
    if IsNumber(a) && IsNumber(b) then NumberOf(a) == NumberOf(b)
    else match (a, b)
      case (Null, Null) => true
      case (Str(s), Str(t)) => s == t
      case (List(x), List(y)) => |x| == |y| && forall i | 0 <= i < |x| :: Equal(x[i], y[i])
      case (Dict(x), Dict(y)) =>
      |x| == |y| && forall i | 0 <= i < |x| :: x[i].key == y[i].key && Equal(x[i].value, y[i].value)
      case _ => false
  }

  // ---- The recursive comparison -----------------------------------------------------------

  /** `type(...)`. */
  datatype Type = NoneType | BoolType | IntType | FloatType | StrType | ListType | DictType

  function TypeOf(v: Value): Type {
    match v
    case Null => NoneType
    case Bool(_) => BoolType
    case Int(_) => IntType
    case Float(_) => FloatType
    case Str(_) => StrType
    case List(_) => ListType
    case Dict(_) => DictType
  }

  datatype Finding = MissingInRc | MissingInFinal | TypeChanged(before: Type, after: Type) | ValueChanged

  datatype Change = Change(path: Text, finding: Finding)

  /** A place to compare; nothing stands for a missing side. */
  datatype Task = Task(path: Text, before: Option<Value>, after: Option<Value>)

  /** A key of either object, with its values. */
  datatype Pair = Pair(key: Text, before: Option<Value>, after: Option<Value>)

  /** The keys of both objects in rising order, each once. */
  function Union(a: seq<Entry>, b: seq<Entry>): seq<Pair>
    decreases |a| + |b|
  {
    if a == [] && b == [] then []
    else if b == [] || (a != [] && Below(a[0].key, b[0].key))
    then [Pair(a[0].key, Some(a[0].value), None)] + Union(a[1..], b)
    else if a == [] || Below(b[0].key, a[0].key) then [Pair(b[0].key, None, Some(b[0].value))] + Union(a, b[1..])
    else [Pair(a[0].key, Some(a[0].value), Some(b[0].value))] + Union(a[1..], b[1..])
  }

  const SLASH: Code := 0x2F
  const TILDE: Code := 0x7E

  /** `~` and `/` of a key, escaped. */
  function Escaped(key: Text): Text {
    if key == [] then []
    else
      (if key[0] == TILDE then [TILDE, 0x30] else if key[0] == SLASH then [TILDE, 0x31] else [key[0]])
      + Escaped(key[1..])
  }

  function KeyTasks(shown: Text -> Text, path: Text, pairs: seq<Pair>): seq<Task> {
    seq(|pairs|, i requires 0 <= i < |pairs| =>
      Task(shown(path + [SLASH] + Escaped(pairs[i].key)), pairs[i].before, pairs[i].after))
  }

  function Item(items: seq<Value>, i: nat): Option<Value> {
    if i < |items| then Some(items[i]) else None
  }

  function Longer(a: nat, b: nat): nat {
    if a < b then b else a
  }

  function ItemTasks(shown: Text -> Text, path: Text, a: seq<Value>, b: seq<Value>): seq<Task> {
    seq(Longer(|a|, |b|), i requires 0 <= i < Longer(|a|, |b|) =>
      Task(shown(path + [SLASH] + NatText(i)), Item(a, i), Item(b, i)))
  }

  /** The tasks inside a task whose values are both objects or both lists. */
  predicate Opens(t: Task) {
    && t.before.Some? && t.after.Some? && !Equal(t.before.value, t.after.value)
    && ((t.before.value.Dict? && t.after.value.Dict?) || (t.before.value.List? && t.after.value.List?))
  }

  function Inside(shown: Text -> Text, t: Task): seq<Task>
    requires Opens(t)
  {
    if t.before.value.Dict? then KeyTasks(shown, t.path, Union(t.before.value.entries, t.after.value.entries))
    else ItemTasks(shown, t.path, t.before.value.items, t.after.value.items)
  }

  /** What a task that does not open yields by itself. */
  function Findings(t: Task): seq<Change> {
    if t.before.None? then [Change(t.path, MissingInRc)]
    else if t.after.None? then [Change(t.path, MissingInFinal)]
    else if Equal(t.before.value, t.after.value) then []
    else if TypeOf(t.before.value) != TypeOf(t.after.value)
    then [Change(t.path, TypeChanged(TypeOf(t.before.value), TypeOf(t.after.value)))]
    else if t.before.value.Dict? || t.before.value.List? then []
    else [Change(t.path, ValueChanged)]
  }

  function Size(v: Value): nat {
    match v
    case List(items) => 1 + ItemSizes(items)
    case Dict(entries) => 1 + EntrySizes(entries)
    case _ => 1
  }

  function ItemSizes(items: seq<Value>): nat {
    if items == [] then 0 else Size(items[0]) + ItemSizes(items[1..])
  }

  function EntrySizes(entries: seq<Entry>): nat {
    if entries == [] then 0 else Size(entries[0].value) + EntrySizes(entries[1..])
  }

  function Side(v: Option<Value>): nat {
    if v.Some? then Size(v.value) else 0
  }

  function Weight(tasks: seq<Task>): nat {
    if tasks == [] then 0 else Side(tasks[0].before) + Side(tasks[0].after) + Weight(tasks[1..])
  }

  lemma {:induction false} UnionWeight(shown: Text -> Text, path: Text, a: seq<Entry>, b: seq<Entry>)
    ensures Weight(KeyTasks(shown, path, Union(a, b))) == EntrySizes(a) + EntrySizes(b)
    decreases |a| + |b|
  {
    if a == [] && b == [] {
    } else {
      var pairs := Union(a, b);
      var tasks := KeyTasks(shown, path, pairs);
      assert tasks[1..] == KeyTasks(shown, path, pairs[1..]);
      if b == [] || (a != [] && Below(a[0].key, b[0].key)) {
        assert pairs[1..] == Union(a[1..], b);
        UnionWeight(shown, path, a[1..], b);
      } else if a == [] || Below(b[0].key, a[0].key) {
        assert pairs[1..] == Union(a, b[1..]);
        UnionWeight(shown, path, a, b[1..]);
      } else {
        assert pairs[1..] == Union(a[1..], b[1..]);
        UnionWeight(shown, path, a[1..], b[1..]);
      }
    }
  }

  lemma {:induction false} ItemsFrom(tasks: seq<Task>, a: seq<Value>, b: seq<Value>, i: nat)
    requires |tasks| == Longer(|a|, |b|) && i <= |tasks|
    requires forall k | 0 <= k < |tasks| :: tasks[k].before == Item(a, k) && tasks[k].after == Item(b, k)
    ensures Weight(tasks[i..])
            == (if i <= |a| then ItemSizes(a[i..]) else 0) + (if i <= |b| then ItemSizes(b[i..]) else 0)
    decreases |tasks| - i
  {
    if i < |tasks| {
      ItemsFrom(tasks, a, b, i + 1);
      assert tasks[i..][1..] == tasks[i + 1..];
      assert i < |a| ==> a[i..][1..] == a[i + 1..];
      assert i < |b| ==> b[i..][1..] == b[i + 1..];
    }
  }

  /** The tasks inside weigh less. */
  lemma InsideWeighsLess(shown: Text -> Text, t: Task)
    requires Opens(t)
    ensures Weight(Inside(shown, t)) + 2 == Side(t.before) + Side(t.after)
  {
    if t.before.value.Dict? {
      UnionWeight(shown, t.path, t.before.value.entries, t.after.value.entries);
    } else {
      var a, b := t.before.value.items, t.after.value.items;
      var tasks := Inside(shown, t);
      ItemsFrom(tasks, a, b, 0);
      assert tasks[0..] == tasks && a[0..] == a && b[0..] == b;
    }
  }

  /** The changes below some tasks, in preorder. */
  function Changes(shown: Text -> Text, tasks: seq<Task>): seq<Change>
    decreases Weight(tasks), |tasks|
  {
    if tasks == [] then []
    else
      var t := tasks[0];
      (if Opens(t) then
         InsideWeighsLess(shown, t);
         Changes(shown, Inside(shown, t))
       else Findings(t)) + Changes(shown, tasks[1..])
  }

  lemma {:induction false} ChangesJoin(shown: Text -> Text, a: seq<Task>, b: seq<Task>)
    ensures Changes(shown, a + b) == Changes(shown, a) + Changes(shown, b)
    decreases |a|
  {
    hide Opens, Findings, Inside;
    if a == [] {
      assert a + b == b;
    } else {
      assert (a + b)[0] == a[0] && (a + b)[1..] == a[1..] + b;
      ChangesJoin(shown, a[1..], b);
    }
  }

  lemma {:induction false} WeightJoin(a: seq<Task>, b: seq<Task>)
    ensures Weight(a + b) == Weight(a) + Weight(b)
    decreases |a|
  {
    if a == [] {
      assert a + b == b;
    } else {
      assert (a + b)[0] == a[0] && (a + b)[1..] == a[1..] + b;
      WeightJoin(a[1..], b);
    }
  }

  // ---- The stack --------------------------------------------------------------------------

  /** A stack holds its tasks with the next one last. */
  function Reversed(tasks: seq<Task>): (r: seq<Task>)
    ensures |r| == |tasks| && forall i | 0 <= i < |tasks| :: r[i] == tasks[|tasks| - 1 - i]
  {
    seq(|tasks|, i requires 0 <= i < |tasks| => tasks[|tasks| - 1 - i])
  }

  /** `_queue_toolchain_mapping` and `_queue_toolchain_list`: the inner tasks in reverse order. */
  method Queue(pending: seq<Task>, inside: seq<Task>) returns (next: seq<Task>)
    ensures Reversed(next) == inside + Reversed(pending)
  {
    next := pending;
    var i := |inside|;
    assert inside[i..] + Reversed(pending) == Reversed(pending);
    while i > 0
      invariant 0 <= i <= |inside|
      invariant Reversed(next) == inside[i..] + Reversed(pending)
    {
      i := i - 1;
      ghost var before := next;
      next := next + [inside[i]];
      assert Reversed(next) == [inside[i]] + Reversed(before);
      assert inside[i..] == [inside[i]] + inside[i + 1..];
    }
    assert inside[0..] == inside;
  }

  const ROOT := Chars("toolchain")

  /** `toolchain_changes`: the stack yields the changes of the recursive comparison in its order. */
  method FindChanges(shown: Text -> Text, original: Value, current: Value) returns (changes: seq<Change>)
    ensures changes == Changes(shown, [Task(ROOT, Some(original), Some(current))])
  {
    hide Inside, Findings, Opens;
    changes := [];
    var pending := [Task(ROOT, Some(original), Some(current))];
    ghost var total := Changes(shown, pending);
    assert Reversed(pending) == pending;
    while pending != []
      invariant changes + Changes(shown, Reversed(pending)) == total
      decreases Weight(Reversed(pending)), |pending|
    {
      var t := pending[|pending| - 1];
      ghost var before := Reversed(pending);
      pending := pending[..|pending| - 1];
      assert before == [t] + Reversed(pending);
      TaskUnrolls(shown, t, Reversed(pending));
      if Opens(t) {
        var inside := Inside(shown, t);
        pending := Queue(pending, inside);
      } else {
        changes := changes + Findings(t);
      }
    }
  }

  lemma TaskUnrolls(shown: Text -> Text, t: Task, rest: seq<Task>)
    ensures Weight([t] + rest) == Side(t.before) + Side(t.after) + Weight(rest)
    ensures Opens(t) ==>
              Weight(Inside(shown, t) + rest) < Weight([t] + rest)
              && Changes(shown, [t] + rest) == Changes(shown, Inside(shown, t) + rest)
    ensures !Opens(t) ==> Changes(shown, [t] + rest) == Findings(t) + Changes(shown, rest)
  {
    hide Findings, Inside, Opens;
    assert ([t] + rest)[1..] == rest;
    if Opens(t) {
      InsideWeighsLess(shown, t);
      WeightJoin(Inside(shown, t), rest);
      ChangesJoin(shown, Inside(shown, t), rest);
    }
  }

  // ---- The keys of two objects ------------------------------------------------------------

  /** `dict.get(key, missing)`. */
  function Lookup(entries: seq<Entry>, key: Text): Option<Value> {
    if entries == [] then None
    else if entries[0].key == key then Some(entries[0].value)
    else Lookup(entries[1..], key)
  }

  lemma {:induction false} BelowOrder(a: Text, b: Text)
    ensures !Below(a, a) && !(Below(a, b) && Below(b, a))
    ensures a == b || Below(a, b) || Below(b, a)
  {
    if a != [] && b != [] {
      BelowOrder(a[1..], b[1..]);
      assert a == [a[0]] + a[1..] && b == [b[0]] + b[1..];
    }
    if a != [] {
      BelowOrder(a[1..], a[1..]);
    }
  }

  lemma {:induction false} BelowTransitive(a: Text, b: Text, c: Text)
    requires Below(a, b) && Below(b, c)
    ensures Below(a, c)
  {
    if a != [] && a[0] == b[0] && b[0] == c[0] {
      BelowTransitive(a[1..], b[1..], c[1..]);
    }
  }

  predicate AllAbove(key: Text, entries: seq<Entry>) {
    forall e | e in entries :: Below(key, e.key)
  }

  lemma TailSorted(entries: seq<Entry>)
    requires entries != [] && Sorted(entries)
    ensures Sorted(entries[1..]) && AllAbove(entries[0].key, entries[1..])
  {
    forall e | e in entries[1..] ensures Below(entries[0].key, e.key) {
      var i :| 0 <= i < |entries[1..]| && entries[1..][i] == e;
      assert entries[i + 1] == e;
    }
  }

  lemma {:induction false} LookupAbove(key: Text, entries: seq<Entry>, other: Text)
    requires AllAbove(key, entries) && (other == key || Below(other, key))
    ensures Lookup(entries, other).None?
    decreases |entries|
  {
    if entries != [] {
      assert entries[0] in entries;
      if other != key {
        BelowTransitive(other, key, entries[0].key);
      }
      BelowOrder(other, entries[0].key);
      BelowOrder(entries[0].key, entries[0].key);
      LookupAbove(key, entries[1..], other);
    }
  }

  predicate PairsAbove(key: Text, pairs: seq<Pair>) {
    forall p | p in pairs :: Below(key, p.key)
  }

  lemma {:induction false} UnionAbove(key: Text, a: seq<Entry>, b: seq<Entry>)
    requires AllAbove(key, a) && AllAbove(key, b)
    ensures PairsAbove(key, Union(a, b))
    decreases |a| + |b|
  {
    if a == [] && b == [] {
    } else if b == [] || (a != [] && Below(a[0].key, b[0].key)) {
      UnionAbove(key, a[1..], b);
    } else if a == [] || Below(b[0].key, a[0].key) {
      UnionAbove(key, a, b[1..]);
    } else {
      UnionAbove(key, a[1..], b[1..]);
    }
  }

  /** All keys of `entries` are above a key its first one is above. */
  lemma AboveFirst(key: Text, entries: seq<Entry>)
    requires Sorted(entries) && (entries != [] ==> Below(key, entries[0].key))
    ensures AllAbove(key, entries)
  {
    if entries != [] {
      TailSorted(entries);
      forall e | e in entries ensures Below(key, e.key) {
        if e != entries[0] {
          assert entries == [entries[0]] + entries[1..];
          BelowTransitive(key, entries[0].key, e.key);
        }
      }
    }
  }

  function Find(pairs: seq<Pair>, key: Text): Option<Pair> {
    if pairs == [] then None
    else if pairs[0].key == key then Some(pairs[0])
    else Find(pairs[1..], key)
  }

  /** The union holds a key exactly when one of the objects does, with what both hold under it. */
  lemma {:induction false} UnionFinds(a: seq<Entry>, b: seq<Entry>, key: Text)
    requires Sorted(a) && Sorted(b)
    ensures Find(Union(a, b), key) ==
            if Lookup(a, key).None? && Lookup(b, key).None? then None
            else Some(Pair(key, Lookup(a, key), Lookup(b, key)))
    decreases |a| + |b|
  {
    hide Below, Sorted;
    if a == [] && b == [] {
    } else if b == [] || (a != [] && Below(a[0].key, b[0].key)) {
      TailSorted(a);
      AboveFirst(a[0].key, b);
      LookupAbove(a[0].key, b, a[0].key);
      UnionFinds(a[1..], b, key);
    } else if a == [] || Below(b[0].key, a[0].key) {
      TailSorted(b);
      AboveFirst(b[0].key, a);
      LookupAbove(b[0].key, a, b[0].key);
      UnionFinds(a, b[1..], key);
    } else {
      BelowOrder(a[0].key, b[0].key);
      TailSorted(a);
      TailSorted(b);
      UnionFinds(a[1..], b[1..], key);
    }
  }

  predicate PairsSorted(pairs: seq<Pair>) {
    forall i, j | 0 <= i < j < |pairs| :: Below(pairs[i].key, pairs[j].key)
  }

  lemma PairsGrow(p: Pair, pairs: seq<Pair>)
    requires PairsSorted(pairs) && PairsAbove(p.key, pairs)
    ensures PairsSorted([p] + pairs)
  {
    assert forall i | 0 <= i < |pairs| :: pairs[i] in pairs;
  }

  /** It lists the keys in rising order, so each once. */
  lemma {:induction false} UnionSorted(a: seq<Entry>, b: seq<Entry>)
    requires Sorted(a) && Sorted(b)
    ensures PairsSorted(Union(a, b))
    decreases |a| + |b|
  {
    hide Below, Sorted, PairsSorted, AllAbove, PairsAbove;
    if a == [] && b == [] {
      NoPairs();
    } else if b == [] || (a != [] && Below(a[0].key, b[0].key)) {
      TailSorted(a);
      AboveFirst(a[0].key, b);
      UnionAbove(a[0].key, a[1..], b);
      UnionSorted(a[1..], b);
      PairsGrow(Union(a, b)[0], Union(a[1..], b));
    } else if a == [] || Below(b[0].key, a[0].key) {
      TailSorted(b);
      AboveFirst(b[0].key, a);
      UnionAbove(b[0].key, a, b[1..]);
      UnionSorted(a, b[1..]);
      PairsGrow(Union(a, b)[0], Union(a, b[1..]));
    } else {
      BelowOrder(a[0].key, b[0].key);
      TailSorted(a);
      TailSorted(b);
      UnionAbove(a[0].key, a[1..], b[1..]);
      UnionSorted(a[1..], b[1..]);
      PairsGrow(Union(a, b)[0], Union(a[1..], b[1..]));
    }
  }

  lemma NoPairs()
    ensures PairsSorted([])
  {
  }

  // ---- Nothing to report ------------------------------------------------------------------

  predicate Agrees(before: Option<Value>, after: Option<Value>) {
    before.Some? && after.Some? && Equal(before.value, after.value)
  }

  predicate EntriesEqual(a: seq<Entry>, b: seq<Entry>) {
    |a| == |b| && forall i | 0 <= i < |a| :: a[i].key == b[i].key && Equal(a[i].value, b[i].value)
  }

  /** If every key has equal values on both sides, the objects are equal. */
  lemma {:induction false} UnionAgrees(a: seq<Entry>, b: seq<Entry>)
    requires forall p | p in Union(a, b) :: Agrees(p.before, p.after)
    ensures EntriesEqual(a, b)
    decreases |a| + |b|
  {
    hide Below, Equal;
    if a != [] || b != [] {
      assert Union(a, b)[0] in Union(a, b);
      if a != [] && b != [] && !Below(a[0].key, b[0].key) && !Below(b[0].key, a[0].key) {
        BelowOrder(a[0].key, b[0].key);
        assert Union(a, b)[1..] == Union(a[1..], b[1..]);
        forall p | p in Union(a[1..], b[1..]) ensures Agrees(p.before, p.after) {
          assert p in Union(a, b);
        }
        UnionAgrees(a[1..], b[1..]);
        forall i | 0 <= i < |a| ensures a[i].key == b[i].key && Equal(a[i].value, b[i].value) {
          if i > 0 {
            assert a[i] == a[1..][i - 1] && b[i] == b[1..][i - 1];
          }
        }
      }
    }
  }

  /** Both objects lack the key, or hold equal values under it. */
  predicate SameAt(a: seq<Entry>, b: seq<Entry>, key: Text) {
    (Lookup(a, key).None? && Lookup(b, key).None?) || Agrees(Lookup(a, key), Lookup(b, key))
  }

  /** Python compares objects by keys and values, whatever their order. */
  lemma DictsEqual(a: seq<Entry>, b: seq<Entry>)
    requires Sorted(a) && Sorted(b)
    ensures Equal(Dict(a), Dict(b)) <==>
            forall key :: SameAt(a, b, key)
  {
    hide Below, Sorted, Equal;
    DictEqualIs(a, b);
    if forall key :: SameAt(a, b, key) {
      UnionSorted(a, b);
      forall p | p in Union(a, b) ensures Agrees(p.before, p.after) {
        PairFound(Union(a, b), p);
        UnionFinds(a, b, p.key);
        assert SameAt(a, b, p.key);
      }
      UnionAgrees(a, b);
    }
    if Equal(Dict(a), Dict(b)) {
      forall key ensures SameAt(a, b, key) {
        EqualLookups(a, b, key);
      }
    }
  }

  lemma DictEqualIs(a: seq<Entry>, b: seq<Entry>)
    ensures Equal(Dict(a), Dict(b)) <==> EntriesEqual(a, b)
  {
  }

  lemma {:induction false} PairFound(pairs: seq<Pair>, p: Pair)
    requires PairsSorted(pairs) && p in pairs
    ensures Find(pairs, p.key) == Some(p)
  {
    if pairs[0] != p {
      var i :| 0 < i < |pairs| && pairs[i] == p;
      BelowOrder(pairs[0].key, pairs[i].key);
      BelowOrder(p.key, p.key);
      PairFound(pairs[1..], p);
    }
  }

  lemma {:induction false} EqualLookups(a: seq<Entry>, b: seq<Entry>, key: Text)
    requires EntriesEqual(a, b)
    ensures SameAt(a, b, key)
    decreases |a|
  {
    hide Equal;
    if a != [] && a[0].key != key {
      EqualLookups(a[1..], b[1..], key);
    }
  }

  lemma TaskAlone(shown: Text -> Text, t: Task)
    ensures Changes(shown, [t]) == if Opens(t) then Changes(shown, Inside(shown, t)) else Findings(t)
  {
    hide Opens, Findings, Inside;
    TaskUnrolls(shown, t, []);
    assert [t] + [] == [t];
    if Opens(t) {
      assert Inside(shown, t) + [] == Inside(shown, t);
    }
  }

  lemma {:induction false} NoneInside(shown: Text -> Text, tasks: seq<Task>, i: nat)
    requires i < |tasks| && Changes(shown, tasks) == []
    ensures Changes(shown, [tasks[i]]) == []
  {
    hide Opens, Findings, Inside, Changes;
    assert tasks == tasks[..i] + ([tasks[i]] + tasks[i + 1..]);
    ChangesJoin(shown, tasks[..i], [tasks[i]] + tasks[i + 1..]);
    ChangesJoin(shown, [tasks[i]], tasks[i + 1..]);
  }

  lemma {:induction false} WeightOf(tasks: seq<Task>, i: nat)
    requires i < |tasks|
    ensures Side(tasks[i].before) + Side(tasks[i].after) <= Weight(tasks)
    decreases i
  {
    if i > 0 {
      WeightOf(tasks[1..], i - 1);
    }
  }

  /** A task with nothing to report has equal values on both sides. */
  lemma {:induction false} QuietAgrees(shown: Text -> Text, t: Task)
    requires Changes(shown, [t]) == []
    ensures Agrees(t.before, t.after)
    decreases Side(t.before) + Side(t.after)
  {
    hide Changes, Union;
    TaskAlone(shown, t);
    if Opens(t) {
      var inside := Inside(shown, t);
      InsideWeighsLess(shown, t);
      forall i | 0 <= i < |inside| ensures Agrees(inside[i].before, inside[i].after) {
        NoneInside(shown, inside, i);
        WeightOf(inside, i);
        QuietAgrees(shown, inside[i]);
      }
      InsideAgrees(shown, t);
    }
  }

  lemma InsideAgrees(shown: Text -> Text, t: Task)
    requires Opens(t) && forall i | 0 <= i < |Inside(shown, t)| ::
               Agrees(Inside(shown, t)[i].before, Inside(shown, t)[i].after)
    ensures Equal(t.before.value, t.after.value)
  {
    if t.before.value.Dict? {
      var pairs := Union(t.before.value.entries, t.after.value.entries);
      forall p | p in pairs ensures Agrees(p.before, p.after) {
        var i :| 0 <= i < |pairs| && pairs[i] == p;
        assert Inside(shown, t)[i].before == p.before;
      }
      UnionAgrees(t.before.value.entries, t.after.value.entries);
    } else {
      var a, b := t.before.value.items, t.after.value.items;
      forall i | 0 <= i < Longer(|a|, |b|) ensures Agrees(Item(a, i), Item(b, i)) {
        assert Inside(shown, t)[i].before == Item(a, i);
      }
      var n := Longer(|a|, |b|);
      if n > 0 {
        assert Agrees(Item(a, n - 1), Item(b, n - 1));
      }
      forall i | 0 <= i < |a| ensures Equal(a[i], b[i]) {
        assert Agrees(Item(a, i), Item(b, i));
      }
    }
  }

  /** There is nothing to report exactly when the values are equal. */
  lemma QuietIffEqual(shown: Text -> Text, original: Value, current: Value)
    ensures Changes(shown, [Task(ROOT, Some(original), Some(current))]) == [] <==> Equal(original, current)
  {
    hide Equal, Changes;
    var t := Task(ROOT, Some(original), Some(current));
    TaskAlone(shown, t);
    if Changes(shown, [t]) == [] {
      QuietAgrees(shown, t);
    }
  }

  // ---- Counting ---------------------------------------------------------------------------

  const MAX_DIAGNOSTICS := 100

  /** One platform receipt with the toolchains of the accepted RC and of the final build. */
  datatype Receipt = Receipt(name: Text, original: Value, current: Value)

  datatype Line = Line(name: Text, change: Change)

  function ChangesOf(shown: Text -> Text, r: Receipt): seq<Change> {
    Changes(shown, [Task(ROOT, Some(r.original), Some(r.current))])
  }

  function LinesOf(shown: Text -> Text, r: Receipt): seq<Line> {
    seq(|ChangesOf(shown, r)|, i requires 0 <= i < |ChangesOf(shown, r)| => Line(shown(r.name), ChangesOf(shown, r)[i]))
  }

  /** All differences of all receipts, in order. */
  function AllLines(shown: Text -> Text, receipts: seq<Receipt>): seq<Line> {
    if receipts == [] then []
    else AllLines(shown, receipts[..|receipts| - 1]) + LinesOf(shown, receipts[|receipts| - 1])
  }

  function Differing(receipts: seq<Receipt>): nat {
    if receipts == [] then 0
    else Differing(receipts[..|receipts| - 1])
         + if Equal(receipts[|receipts| - 1].original, receipts[|receipts| - 1].current) then 0 else 1
  }

  function AtMost(n: nat, limit: nat): nat {
    if n < limit then n else limit
  }

  /** The lines reported of some differences. */
  function Shown(lines: seq<Line>): seq<Line> {
    lines[..AtMost(|lines|, MAX_DIAGNOSTICS)]
  }

  /** The inner loop: the lines of one receipt are counted, and reported up to the limit. */
  method CountLines(lines: seq<Line>, ghost before: seq<Line>, reported: seq<Line>) returns (now: seq<Line>)
    requires reported == Shown(before)
    ensures now == Shown(before + lines)
  {
    now := reported;
    var k := 0;
    assert before + lines[..0] == before;
    while k < |lines|
      invariant k <= |lines| && now == Shown(before + lines[..k])
    {
      assert before + lines[..k + 1] == (before + lines[..k]) + [lines[k]];
      if |now| < MAX_DIAGNOSTICS {
        now := now + [lines[k]];
      }
      k := k + 1;
    }
    assert lines[..k] == lines;
  }

  lemma LinesGrow(shown: Text -> Text, receipts: seq<Receipt>, i: nat)
    requires i < |receipts|
    ensures AllLines(shown, receipts[..i + 1]) == AllLines(shown, receipts[..i]) + LinesOf(shown, receipts[i])
    ensures Differing(receipts[..i + 1])
            == Differing(receipts[..i]) + if Equal(receipts[i].original, receipts[i].current) then 0 else 1
    ensures Equal(receipts[i].original, receipts[i].current) <==> LinesOf(shown, receipts[i]) == []
  {
    hide Equal, Changes;
    assert receipts[..i + 1][..i] == receipts[..i];
    QuietIffEqual(shown, receipts[i].original, receipts[i].current);
    assert |LinesOf(shown, receipts[i])| == |ChangesOf(shown, receipts[i])|;
  }

  /** The counting loop of `verify_final_toolchains`: the report is a prefix of all differences up to the
      limit, reported and omitted ones add up to all, and there are some exactly when a platform differs. */
  method CountDifferences(shown: Text -> Text, receipts: seq<Receipt>)
    returns (platforms: nat, fields: nat, reported: seq<Line>, omitted: nat)
    ensures fields == |AllLines(shown, receipts)|
            && reported == AllLines(shown, receipts)[..if fields <= 100 then fields else 100]
    ensures |reported| + omitted == fields
    ensures platforms == Differing(receipts) && (platforms > 0 <==> fields > 0) && platforms <= fields
  {
    hide Equal, Changes, AllLines, Differing, LinesOf;
    platforms, fields, reported := 0, 0, [];
    var i := 0;
    NoLines(shown);
    while i < |receipts|
      invariant i <= |receipts| && platforms == Differing(receipts[..i])
      invariant fields == |AllLines(shown, receipts[..i])| && reported == Shown(AllLines(shown, receipts[..i]))
      invariant (platforms > 0 <==> fields > 0) && platforms <= fields
    {
      var r := receipts[i];
      LinesGrow(shown, receipts, i);
      if !Equal(r.original, r.current) {
        platforms := platforms + 1;
        var changes := FindChanges(shown, r.original, r.current);
        var lines := seq(|changes|, k requires 0 <= k < |changes| => Line(shown(r.name), changes[k]));
        LinesAre(shown, r, changes, lines);
        reported := CountLines(lines, AllLines(shown, receipts[..i]), reported);
        fields := fields + |lines|;
      }
      i := i + 1;
    }
    assert receipts[..i] == receipts;
    omitted := fields - |reported|;
  }

  lemma NoLines(shown: Text -> Text)
    ensures AllLines(shown, []) == [] && Differing([]) == 0
  {
  }

  lemma LinesAre(shown: Text -> Text, r: Receipt, changes: seq<Change>, lines: seq<Line>)
    requires changes == ChangesOf(shown, r) && |lines| == |changes|
    requires forall k | 0 <= k < |changes| :: lines[k] == Line(shown(r.name), changes[k])
    ensures lines == LinesOf(shown, r)
  {
    hide Changes;
  }
}
