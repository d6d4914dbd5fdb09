/** Vehicle attributes from push updates (dbus_ev/mercedes/protocol.py): a last-writer-wins register per
    key, ordered by the timestamps the values carry, and reset by full updates. */
module AttributeMerge {
  import opened Results

  type Key = string

  /** An attribute value: its `timestamp_in_ms` where that is a finite number, and the rest. */
  datatype Attribute = Attribute(stamp: Option<real>, body: string)

  /** An entry of an update; only objects are attributes. */
  datatype Entry = NoObject | Object(value: Attribute)

  /** `attributes` is nothing when the update has no such object. */
  datatype Update = Update(full: bool, attributes: Option<map<Key, Entry>>)

  datatype State = State(attributes: map<Key, Attribute>, fullReceived: bool, revision: nat)

  const FRESH := State(map[], false, 0)

  /** `finite(...) or 0`. */
  function TimeOf(v: Attribute): real {
    if v.stamp.Some? then v.stamp.value else 0.0
  }

  /** A missing old value counts as time 0. */
  function OldTime(attributes: map<Key, Attribute>, key: Key): real {
    if key in attributes then TimeOf(attributes[key]) else 0.0
  }

  predicate Accepted(u: Update) {
    u.attributes.Some? && u.attributes.value != map[]
  }

  predicate Wins(attributes: map<Key, Attribute>, incoming: map<Key, Entry>, key: Key) {
    key in incoming && incoming[key].Object? && TimeOf(incoming[key].value) >= OldTime(attributes, key)
  }

  /** The attributes after the given keys of an update were looked at. */
  function Merged(attributes: map<Key, Attribute>, incoming: map<Key, Entry>, keys: set<Key>): map<Key, Attribute> {
    map key | key in attributes.Keys + keys && (key in attributes || Wins(attributes, incoming, key)) ::
      if key in keys && Wins(attributes, incoming, key) then incoming[key].value else attributes[key]
  }

  lemma MergedNothing(attributes: map<Key, Attribute>, incoming: map<Key, Entry>)
    ensures Merged(attributes, incoming, {}) == attributes
  {
  }

  /** Looking at one more key; what was done for other keys makes no difference to it. */
  lemma MergedMore(start: map<Key, Attribute>, incoming: map<Key, Entry>, done: set<Key>, key: Key)
    requires key !in done && key in incoming
    ensures var now := Merged(start, incoming, done);
      Merged(start, incoming, done + {key}) ==
      if incoming[key].Object? && TimeOf(incoming[key].value) >= OldTime(now, key) then now[key := incoming[key].value]
      else now
  {
  }

  function Apply(s: State, u: Update): State {
    if !Accepted(u) then s
    else
      State(Merged(if u.full then map[] else s.attributes, u.attributes.value, u.attributes.value.Keys),
            s.fullReceived || u.full, s.revision + 1)
  }

  /** What `merge` reports of an accepted update. */
  datatype Report = Report(revision: nat, fullUpdate: bool, attributes: map<Key, Attribute>)

  class Protocol {
    var attributes: map<Key, Attribute>
    var fullReceived: bool
    var revision: nat

    function Now(): State
      reads this
    {
      State(attributes, fullReceived, revision)
    }

    constructor ()
      ensures Now() == FRESH
    {
      attributes, fullReceived, revision := map[], false, 0;
    }

    /** The loop over the attributes of an update. */
    method MergeEntries(incoming: map<Key, Entry>)
      modifies this`attributes
      ensures attributes == Merged(old(attributes), incoming, incoming.Keys)
    {
      hide Merged, Wins;
      ghost var start := attributes;
      var pending, done := incoming.Keys, {};
      MergedNothing(start, incoming);
      while pending != {}
        invariant pending + done == incoming.Keys && pending !! done
        invariant attributes == Merged(start, incoming, done)
        decreases |pending|
      {
        var key :| key in pending;
        pending := pending - {key};
        MergedMore(start, incoming, done, key);
        if incoming[key].Object? {
          var value := incoming[key].value;
          if TimeOf(value) >= OldTime(attributes, key) {
            attributes := attributes[key := value];
          }
        }
        done := done + {key};
      }
      assert done == incoming.Keys;
    }

    method Merge(u: Update) returns (report: Option<Report>)
      modifies this
      ensures Now() == Apply(old(Now()), u)
      ensures report == if Accepted(u) then Some(Report(revision, fullReceived, attributes)) else None
    {
      hide Merged;
      if !Accepted(u) {
        return None;
      }
      if u.full {
        attributes, fullReceived := map[], true;
      }
      MergeEntries(u.attributes.value);
      revision := revision + 1;
      report := Some(Report(revision, fullReceived, attributes));
    }

    /** `decode_rest` after decoding: an own, empty protocol merges the answer as a full update. */
    static method MergeRest(u: Update) returns (report: Option<Report>)
      ensures report == if Accepted(u)
                        then Some(Report(1, true, Apply(FRESH, u.(full := true)).attributes)) else None
    {
      var empty := new Protocol();
      report := empty.Merge(u.(full := true));
    }
  }

  // ---- Sequences of updates ---------------------------------------------------------------

  function Run(s: State, updates: seq<Update>): State {
    if updates == [] then s else Apply(Run(s, updates[..|updates| - 1]), updates[|updates| - 1])
  }

  /** What one update delivers for a key. */
  function Delivered(u: Update, key: Key): seq<Attribute> {
    if u.attributes.Some? && key in u.attributes.value && u.attributes.value[key].Object?
    then [u.attributes.value[key].value] else []
  }

  /** The update has entries; only such updates count. */
  predicate HasEntries(u: Update) {
    u.attributes.Some? && |u.attributes.value| > 0
  }

  /** What was delivered for a key since the latest full update, that one included. */
  function Deliveries(updates: seq<Update>, key: Key): seq<Attribute> {
    if updates == [] then []
    else
      var u := updates[|updates| - 1];
      (if HasEntries(u) && u.full then [] else Deliveries(updates[..|updates| - 1], key)) + Delivered(u, key)
  }

  /** The last delivery among those with the greatest time; it is not before time 0. */
  predicate IsLatest(deliveries: seq<Attribute>, i: int) {
    && 0 <= i < |deliveries| && TimeOf(deliveries[i]) >= 0.0
    && (forall j | 0 <= j < |deliveries| :: TimeOf(deliveries[j]) <= TimeOf(deliveries[i]))
    && (forall j | i < j < |deliveries| :: TimeOf(deliveries[j]) < TimeOf(deliveries[i]))
  }

  /** What the register of a key holds after some deliveries. */
  predicate Holds(attributes: map<Key, Attribute>, key: Key, deliveries: seq<Attribute>) {
    if key in attributes
    then exists i | 0 <= i < |deliveries| :: IsLatest(deliveries, i) && attributes[key] == deliveries[i]
    else forall j | 0 <= j < |deliveries| :: TimeOf(deliveries[j]) < 0.0
  }

  lemma AcceptedIs(u: Update)
    ensures Accepted(u) <==> HasEntries(u)
    ensures forall key | Delivered(u, key) != [] :: HasEntries(u)
  {
  }

  lemma ApplyHolds(s: State, u: Update, key: Key, deliveries: seq<Attribute>)
    requires Holds(s.attributes, key, deliveries)
    ensures Holds(Apply(s, u).attributes, key, (if HasEntries(u) && u.full then [] else deliveries) + Delivered(u, key))
  {
    hide IsLatest;
    AcceptedIs(u);
    var known := if Accepted(u) && u.full then [] else deliveries;
    var attributes := if Accepted(u) && u.full then map[] else s.attributes;
    assert Holds(attributes, key, known);
    if Delivered(u, key) == [] {
      assert known + [] == known;
    } else {
      var v := u.attributes.value[key].value;
      RegisterMoves(attributes, u.attributes.value, key, known, v);
    }
  }

  lemma RegisterMoves(attributes: map<Key, Attribute>, incoming: map<Key, Entry>, key: Key, known: seq<Attribute>,
                      v: Attribute)
    requires Holds(attributes, key, known) && key in incoming && incoming[key] == Object(v)
    ensures Holds(Merged(attributes, incoming, incoming.Keys), key, known + [v])
  {
    var next := Merged(attributes, incoming, incoming.Keys);
    if key in attributes {
      var i :| 0 <= i < |known| && IsLatest(known, i) && attributes[key] == known[i];
      assert IsLatest(known + [v], if TimeOf(v) >= TimeOf(attributes[key]) then |known| else i);
    } else if TimeOf(v) >= 0.0 {
      assert IsLatest(known + [v], |known|);
    }
  }

  /** After any updates every stored attribute is the last delivered among those with the greatest time
      since the latest full update, and a key is missing exactly when nothing from time 0 on came. */
  lemma {:induction false} LastWriterWins(updates: seq<Update>, key: Key)
    ensures Holds(Run(FRESH, updates).attributes, key, Deliveries(updates, key))
    decreases |updates|
  {
    hide Apply;
    if updates != [] {
      LastWriterWins(updates[..|updates| - 1], key);
      ApplyHolds(Run(FRESH, updates[..|updates| - 1]), updates[|updates| - 1], key,
                 Deliveries(updates[..|updates| - 1], key));
    }
  }

  /** The revision counts the updates with entries, and a full one among them is remembered for good. */
  lemma {:induction false} RevisionCounts(updates: seq<Update>, more: Update)
    ensures var before, after := Run(FRESH, updates), Run(FRESH, updates + [more]);
      && after.revision == before.revision + (if HasEntries(more) then 1 else 0)
      && (HasEntries(more) || after == before)
      && (after.fullReceived <==> exists u | u in updates + [more] :: HasEntries(u) && u.full)
    decreases |updates|
  {
    var all := updates + [more];
    assert all[..|updates|] == updates;
    AcceptedIs(more);
    if updates == [] {
      assert Run(FRESH, updates) == FRESH && more in all;
    } else {
      var n := |updates| - 1;
      assert updates == updates[..n] + [updates[n]];
      RevisionCounts(updates[..n], updates[n]);
      assert forall u :: u in all <==> u in updates || u == more;
    }
  }

  /** A value without a time counts as one of time 0: it replaces another exactly if that is not later, and alone
      it stays. */
  lemma Untimed(key: Key, time: real, x: string, y: string)
    ensures var u := Update(false, Some(map[key := Object(Attribute(Some(time), x))]));
      var v := Update(false, Some(map[key := Object(Attribute(None, y))]));
      var after := Run(FRESH, [u, v]).attributes;
      key in after && after[key] == if time > 0.0 then Attribute(Some(time), x) else Attribute(None, y)
  {
    var u := Update(false, Some(map[key := Object(Attribute(Some(time), x))]));
    var v := Update(false, Some(map[key := Object(Attribute(None, y))]));
    assert key in u.attributes.value && key in v.attributes.value;
    assert [u, v][..1] == [u] && [u][..0] == [];
    assert Run(FRESH, [u]) == Apply(FRESH, u);
    assert Run(FRESH, [u, v]) == Apply(Apply(FRESH, u), v);
  }

  // ---- Order and repetition ---------------------------------------------------------------

  predicate SameSet(a: seq<Attribute>, b: seq<Attribute>) {
    (forall x | x in a :: x in b) && forall x | x in b :: x in a
  }

  /** A delivery with the greatest time, from 0 on. */
  predicate IsTop(deliveries: seq<Attribute>, x: Attribute) {
    x in deliveries && TimeOf(x) >= 0.0 && forall z | z in deliveries :: TimeOf(z) <= TimeOf(x)
  }

  /** Deliveries with the greatest time are one value; what ties below it does not matter. */
  ghost predicate TopsAgree(deliveries: seq<Attribute>) {
    forall x, y | IsTop(deliveries, x) && IsTop(deliveries, y) :: x == y
  }

  /** What the register of a key holds is a delivery with the greatest time. */
  lemma HeldIsTop(a: map<Key, Attribute>, key: Key, x: seq<Attribute>)
    requires Holds(a, key, x)
    ensures key in a ==> IsTop(x, a[key])
    ensures key !in a ==> forall z :: !IsTop(x, z)
  {
  }

  lemma TopOfSet(x: seq<Attribute>, y: seq<Attribute>, v: Attribute)
    requires SameSet(x, y) && IsTop(x, v)
    ensures IsTop(y, v)
  {
  }

  lemma LatestOfSet(a: map<Key, Attribute>, b: map<Key, Attribute>, key: Key, x: seq<Attribute>, y: seq<Attribute>)
    requires Holds(a, key, x) && Holds(b, key, y) && SameSet(x, y) && TopsAgree(x)
    ensures key in a <==> key in b
    ensures key in a ==> a[key] == b[key]
  {
    hide Holds, IsTop;
    HeldIsTop(a, key, x);
    HeldIsTop(b, key, y);
    if key in a {
      TopOfSet(x, y, a[key]);
    }
    if key in b {
      TopOfSet(y, x, b[key]);
    }
  }

  /** The attributes depend only on the set of deliveries, when those with the greatest time agree. */
  lemma OrderDoesNotMatter(us: seq<Update>, vs: seq<Update>)
    requires forall key :: SameSet(Deliveries(us, key), Deliveries(vs, key)) && TopsAgree(Deliveries(us, key))
    ensures Run(FRESH, us).attributes == Run(FRESH, vs).attributes
  {
    hide Run, Deliveries, SameSet, TopsAgree, Holds;
    var a, b := Run(FRESH, us).attributes, Run(FRESH, vs).attributes;
    forall key ensures (key in a <==> key in b) && (key in a ==> a[key] == b[key]) {
      LastWriterWins(us, key);
      LastWriterWins(vs, key);
      LatestOfSet(a, b, key, Deliveries(us, key), Deliveries(vs, key));
    }
  }

  predicate Deltas(updates: seq<Update>) {
    forall u | u in updates :: !u.full
  }

  lemma {:induction false} DeltaDeliveries(updates: seq<Update>, key: Key)
    requires Deltas(updates)
    ensures forall x | x in Deliveries(updates, key) :: exists u | u in updates :: x in Delivered(u, key)
    ensures forall u, x | u in updates && x in Delivered(u, key) :: x in Deliveries(updates, key)
    decreases |updates|
  {
    if updates != [] {
      var n := |updates| - 1;
      DeltaDeliveries(updates[..n], key);
      assert updates == updates[..n] + [updates[n]];
    }
  }

  /** The same updates in any order, each any number of times. */
  predicate Rearranges(us: seq<Update>, vs: seq<Update>) {
    (forall u | u in us :: u in vs) && forall v | v in vs :: v in us
  }

  lemma RearrangedDeliveries(us: seq<Update>, vs: seq<Update>, key: Key)
    requires Deltas(us) && Rearranges(us, vs)
    ensures Deltas(vs) && SameSet(Deliveries(us, key), Deliveries(vs, key))
  {
    hide Deliveries, Delivered;
    DeltaDeliveries(us, key);
    DeltaDeliveries(vs, key);
  }

  /** A delivery with the greatest time that is repeated at the end is what is held. */
  lemma RepeatedTop(us: seq<Update>, u: Update, key: Key, x: Attribute)
    requires Deltas(us) && u in us && x in Delivered(u, key) && IsTop(Deliveries(us, key), x)
    ensures Rearranges(us, us + [u])
    ensures key in Run(FRESH, us + [u]).attributes && Run(FRESH, us + [u]).attributes[key] == x
  {
    hide Run;
    var more := us + [u];
    assert more[..|us|] == us && !u.full;
    assert Deliveries(more, key) == Deliveries(us, key) + [x];
    LastWriterWins(more, key);
    LastIsHeld(Run(FRESH, more).attributes, key, Deliveries(us, key), x);
  }

  lemma LastIsHeld(a: map<Key, Attribute>, key: Key, deliveries: seq<Attribute>, x: Attribute)
    requires Holds(a, key, deliveries + [x]) && IsTop(deliveries, x)
    ensures key in a && a[key] == x
  {
    var all := deliveries + [x];
    assert all[|deliveries|] == x;
    if key in a {
      var i :| 0 <= i < |all| && IsLatest(all, i) && a[key] == all[i];
    }
  }

  predicate SameAttributes(us: seq<Update>, vs: seq<Update>) {
    Run(FRESH, us).attributes == Run(FRESH, vs).attributes
  }

  /** No two different values of the key have its greatest time, from 0 on. */
  ghost predicate Decided(us: seq<Update>, key: Key) {
    TopsAgree(Deliveries(us, key))
  }

  ghost predicate AllOrdersAgree(us: seq<Update>) {
    forall vs | Rearranges(us, vs) :: SameAttributes(us, vs)
  }

  lemma TopIsHeld(us: seq<Update>, key: Key, x: Attribute)
    requires Deltas(us) && IsTop(Deliveries(us, key), x)
    requires AllOrdersAgree(us)
    ensures key in Run(FRESH, us).attributes && Run(FRESH, us).attributes[key] == x
  {
    hide Run, Deliveries, Delivered, Deltas, Rearranges;
    DeltaDeliveries(us, key);
    var u :| u in us && x in Delivered(u, key);
    RepeatedTop(us, u, key, x);
    assert SameAttributes(us, us + [u]);
  }

  /** When the order of deltas decides nothing: every order and every repetition of them gives the same
      attributes if and only if no key has two different values at its greatest time, from 0 on. */
  lemma PermutationsAgree(us: seq<Update>)
    requires Deltas(us)
    ensures AllOrdersAgree(us) <==> forall key :: Decided(us, key)
  {
    hide Run, Deliveries, Delivered, Deltas, Rearranges, SameSet, IsTop;
    if forall key :: Decided(us, key) {
      forall vs | Rearranges(us, vs) ensures SameAttributes(us, vs) {
        forall key ensures SameSet(Deliveries(us, key), Deliveries(vs, key)) && TopsAgree(Deliveries(us, key)) {
          assert Decided(us, key);
          RearrangedDeliveries(us, vs, key);
        }
        OrderDoesNotMatter(us, vs);
      }
    }
    if AllOrdersAgree(us) {
      forall key ensures Decided(us, key) {
        forall x, y | IsTop(Deliveries(us, key), x) && IsTop(Deliveries(us, key), y) ensures x == y {
          TopIsHeld(us, key, x);
          TopIsHeld(us, key, y);
        }
      }
    }
  }

  /** Two values at the greatest time of their key: the later delivery stays. */
  lemma TiesFollowOrder(key: Key, time: real, x: string, y: string)
    requires time >= 0.0 && x != y
    ensures var u := Update(false, Some(map[key := Object(Attribute(Some(time), x))]));
      var v := Update(false, Some(map[key := Object(Attribute(Some(time), y))]));
      && Run(FRESH, [u, v]).attributes == map[key := Attribute(Some(time), y)]
      && Run(FRESH, [v, u]).attributes == map[key := Attribute(Some(time), x)]
  {
    var u := Update(false, Some(map[key := Object(Attribute(Some(time), x))]));
    var v := Update(false, Some(map[key := Object(Attribute(Some(time), y))]));
    assert u.attributes.value != map[] && v.attributes.value != map[] by {
      assert key in u.attributes.value && key in v.attributes.value;
    }
    assert [u, v][..1] == [u] && [v, u][..1] == [v] && [u][..0] == [] && [v][..0] == [];
    var s, t := Apply(FRESH, u), Apply(FRESH, v);
    assert Run(FRESH, [u]) == s && Run(FRESH, [v]) == t;
    assert s.attributes == map[key := Attribute(Some(time), x)];
    assert t.attributes == map[key := Attribute(Some(time), y)];
    assert Run(FRESH, [u, v]) == Apply(s, v) && Run(FRESH, [v, u]) == Apply(t, u);
  }
}
