/** `sync_versions` (scripts/version_plan.py): all declared edits are prepared and checked to be a common
    fixpoint before the first file is replaced, and each file is checked again right before that. */
module VersionSync {
  import opened Results
  import opened Texts
  import JsonScalars
  import JsonEdit

  type Name = Text

  /** What `_edit` is told beside the text: a declaration of a JSON format with its projected value, or
      one that belongs to another format's adapter. */
  datatype How = Json(declaration: JsonEdit.Declaration, value: JsonScalars.Field) | Other(id: int)

  datatype Job = Job(path: Name, how: How)

  type Files = map<Name, Text>

  /** `_edit`, a partial function of text and declaration. */
  type Editor = (Text, How) -> Result<Text>

  // ---- Preparing --------------------------------------------------------------------------

  function Paths(jobs: seq<Job>): set<Name> {
    set j | j in jobs :: j.path
  }

  /** The contents of the declared files, if all exist. */
  function Originals(files: Files, jobs: seq<Job>): Files {
    map name | name in Paths(jobs) && name in files :: files[name]
  }

  /** The edits one after the other. */
  function EditAll(edit: Editor, edited: Files, jobs: seq<Job>): Result<Files>
    decreases |jobs|
  {
    if jobs == [] then Ok(edited)
    else if jobs[0].path !in edited then Failed
    else
      match edit(edited[jobs[0].path], jobs[0].how)
      case Failed => Failed
      case Ok(t) => EditAll(edit, edited[jobs[0].path := t], jobs[1..])
  }

  /** Every declared edit leaves its file as it is. */
  predicate IsFixpoint(edit: Editor, files: Files, jobs: seq<Job>) {
    forall j | j in jobs :: j.path in files && edit(files[j.path], j.how) == Ok(files[j.path])
  }

  /** Everything before the first replacement. */
  function Prepare(edit: Editor, files: Files, jobs: seq<Job>): Result<Files> {
    match EditAll(edit, Originals(files, jobs), jobs)
    case Failed => Failed
    case Ok(edited) => if IsFixpoint(edit, edited, jobs) then Ok(edited) else Failed
  }

  function Drift(files: Files, edited: Files): set<Name> {
    set name | name in edited && name in files && edited[name] != files[name]
  }

  /** Some of the prepared files put in place. */
  function Replaced(files: Files, edited: Files, done: set<Name>): Files {
    map name | name in files :: if name in done && name in edited then edited[name] else files[name]
  }

  // ---- Replacing while others write -------------------------------------------------------

  /** What other programs do to the tree meanwhile: files they write and files they remove. */
  datatype Change = Change(written: Files, removed: set<Name>)

  const NOTHING := Change(map[], {})

  function Changed(files: Files, c: Change): Files {
    (files - c.removed) + c.written
  }

  predicate Holds(files: Files, originals: Files, name: Name) {
    name in originals && name in files && files[name] == originals[name]
  }

  /** What a run does to the tree in one step: it compares a declared file with what was read of it, it
      looks at a file whose edited copy is staged, and it replaces a file by that copy. */
  datatype Op = Check(name: Name) | Stage(name: Name) | Replace(name: Name)

  /** The order of a run: all declared files are compared, the copies of the drift are staged, and then each
      file of the drift is compared again and replaced. */
  function Plan(names: seq<Name>, drift: seq<Name>): seq<Op> {
    seq(|names|, i requires 0 <= i < |names| => Check(names[i]))
    + seq(|drift|, i requires 0 <= i < |drift| => Stage(drift[i]))
    + seq(2 * |drift|, i requires 0 <= i < 2 * |drift| =>
        if i % 2 == 0 then Check(drift[i / 2]) else Replace(drift[i / 2]))
  }

  /** The step does not end the run with an error. */
  predicate Permits(files: Files, originals: Files, op: Op) {
    match op
    case Check(name) => Holds(files, originals, name)
    case Stage(name) => name in files
    case Replace(_) => true
  }

  function Put(files: Files, edited: Files, name: Name): Files {
    if name in edited then files[name := edited[name]] else files
  }

  function Done(files: Files, edited: Files, op: Op): Files {
    if op.Replace? then Put(files, edited, op.name) else files
  }

  /** The tree after the first `k` steps, when right before each step others do what `others` says. */
  function After(start: Files, edited: Files, plan: seq<Op>, others: seq<Change>, k: nat): Files
    requires k <= |plan| && k <= |others|
  {
    if k == 0 then start
    else Done(Changed(After(start, edited, plan, others, k - 1), others[k - 1]), edited, plan[k - 1])
  }

  /** What a step finds. */
  function Found(start: Files, edited: Files, plan: seq<Op>, others: seq<Change>, k: nat): Files
    requires k < |plan| && k < |others|
  {
    Changed(After(start, edited, plan, others, k), others[k])
  }

  /** How a run ends: after all its steps, dead where `others` ends, or at the first step that is refused. */
  predicate Ran(start: Files, originals: Files, edited: Files, plan: seq<Op>, others: seq<Change>, done: nat, ok: bool,
                files: Files) {
    && done <= |plan| && done <= |others|
    && (forall k | 0 <= k < done :: Permits(Found(start, edited, plan, others, k), originals, plan[k]))
    && (ok ==> done == |plan| && files == After(start, edited, plan, others, done))
    && (!ok ==> done < |plan|)
    && (!ok && done == |others| ==> files == After(start, edited, plan, others, done))
    && (!ok && done < |others| && done < |plan| ==>
          files == Found(start, edited, plan, others, done) && !Permits(files, originals, plan[done]))
  }

  predicate NoneTwice(order: seq<Name>) {
    forall i, j | 0 <= i < j < |order| :: order[i] != order[j]
  }

  predicate Lists(order: seq<Name>, names: set<Name>) {
    (set name | name in order) == names && NoneTwice(order)
  }

  /** The declared files in the order in which they are read. */
  function Declared(jobs: seq<Job>): seq<Name> {
    if jobs == [] then []
    else
      var before, path := Declared(jobs[..|jobs| - 1]), jobs[|jobs| - 1].path;
      if path in before then before else before + [path]
  }

  /** Those of some files that drift, in their order. */
  function Drifting(order: seq<Name>, drift: set<Name>): seq<Name> {
    if order == [] then []
    else
      var before, last := Drifting(order[..|order| - 1], drift), order[|order| - 1];
      if last in drift then before + [last] else before
  }

  lemma {:induction false} DeclaredLists(jobs: seq<Job>)
    ensures Lists(Declared(jobs), Paths(jobs))
    decreases |jobs|
  {
    if jobs != [] {
      var before := jobs[..|jobs| - 1];
      DeclaredLists(before);
      assert jobs == before + [jobs[|jobs| - 1]];
      assert Paths(jobs) == Paths(before) + {jobs[|jobs| - 1].path};
      OneListed(Declared(before), Paths(before), jobs[|jobs| - 1].path);
    }
  }

  lemma OneListed(order: seq<Name>, names: set<Name>, name: Name)
    requires Lists(order, names)
    ensures name in order <==> name in names
    ensures name !in names ==> Lists(order + [name], names + {name})
  {
  }

  lemma {:induction false} DriftingLists(order: seq<Name>, names: set<Name>, drift: set<Name>)
    requires Lists(order, names)
    ensures Lists(Drifting(order, drift), names * drift)
    decreases |order|
  {
    if order != [] {
      var before, last := order[..|order| - 1], order[|order| - 1];
      assert order == before + [last];
      assert Lists(before, names - {last});
      DriftingLists(before, names - {last}, drift);
      OneListed(Drifting(before, drift), (names - {last}) * drift, last);
      assert names * drift == if last in drift then (names - {last}) * drift + {last} else (names - {last}) * drift;
    }
  }

  // ---- The method -------------------------------------------------------------------------

  class Tree {
    var files: Files

    /** The first loop: originals are read once per file, edits follow each other. */
    method Edit(edit: Editor, jobs: seq<Job>) returns (edited: Result<Files>)
      ensures edited == EditAll(edit, Originals(files, jobs), jobs)
    {
      var current := Originals(files, jobs);
      ghost var start := current;
      var i := 0;
      assert jobs[0..] == jobs;
      while i < |jobs|
        invariant i <= |jobs|
        invariant EditAll(edit, current, jobs[i..]) == EditAll(edit, start, jobs)
      {
        assert jobs[i..][0] == jobs[i] && jobs[i..][1..] == jobs[i + 1..];
        var j := jobs[i];
        if j.path !in current {
          return Failed;
        }
        var t := edit(current[j.path], j.how);
        if t.Failed? {
          return Failed;
        }
        current := current[j.path := t.value];
        i := i + 1;
      }
      edited := Ok(current);
    }

    /** The second loop. */
    method Verify(edit: Editor, edited: Files, jobs: seq<Job>) returns (ok: bool)
      ensures ok <==> IsFixpoint(edit, edited, jobs)
    {
      var i := 0;
      while i < |jobs|
        invariant i <= |jobs|
        invariant forall k | 0 <= k < i ::
          jobs[k].path in edited && edit(edited[jobs[k].path], jobs[k].how) == Ok(edited[jobs[k].path])
      {
        var j := jobs[i];
        assert j in jobs;
        if j.path !in edited || edit(edited[j.path], j.how) != Ok(edited[j.path]) {
          return false;
        }
        i := i + 1;
      }
      ok := true;
    }

    /** One step of a run, with what others do right before it. */
    method Operate(originals: Files, edited: Files, op: Op, change: Change) returns (ok: bool)
      modifies this`files
      ensures ok <==> Permits(Changed(old(files), change), originals, op)
      ensures files == if ok then Done(Changed(old(files), change), edited, op) else Changed(old(files), change)
    {
      files := Changed(files, change);
      ok := Permits(files, originals, op);
      if ok && op.Replace? {
        files := Put(files, edited, op.name);
      }
    }

    /** `_apply_version_edits`, while others do something before each step; where `others` ends the process
        dies. */
    method Apply(originals: Files, edited: Files, names: seq<Name>, drift: seq<Name>, others: seq<Change>)
      returns (done: nat, ok: bool)
      modifies this`files
      ensures Ran(old(files), originals, edited, Plan(names, drift), others, done, ok, files)
    {
      hide Changed, Permits, Done, Plan, Running, Ran;
      ghost var start, plan := files, Plan(names, drift);
      PlanShape(names, drift);
      RunStarts(start, originals, edited, plan, others);
      done, ok := 0, false;
      while done < |names|
        invariant done <= |names| && Running(start, originals, edited, plan, others, done, files)
      {
        RunGoesOn(start, originals, edited, plan, others, done, files);
        if done == |others| {
          return;
        }
        var checked := Operate(originals, edited, Check(names[done]), others[done]);
        if !checked {
          return;
        }
        done := done + 1;
      }
      while done < |names| + |drift|
        invariant |names| <= done <= |names| + |drift|
        invariant Running(start, originals, edited, plan, others, done, files)
      {
        RunGoesOn(start, originals, edited, plan, others, done, files);
        if done == |others| {
          return;
        }
        var staged := Operate(originals, edited, Stage(drift[done - |names|]), others[done]);
        if !staged {
          return;
        }
        done := done + 1;
      }
      var i := 0;
      while i < |drift|
        invariant i <= |drift| && done == |names| + |drift| + 2 * i
        invariant Running(start, originals, edited, plan, others, done, files)
      {
        SwapShape(names, drift, i);
        RunGoesOn(start, originals, edited, plan, others, done, files);
        if done == |others| {
          return;
        }
        var checked := Operate(originals, edited, Check(drift[i]), others[done]);
        if !checked {
          return;
        }
        done := done + 1;
        RunGoesOn(start, originals, edited, plan, others, done, files);
        if done == |others| {
          return;
        }
        ReplacePermitted(Changed(files, others[done]), originals, drift[i]);
        var _ := Operate(originals, edited, Replace(drift[i]), others[done]);
        done := done + 1;
        i := i + 1;
      }
      RunEnds(start, originals, edited, plan, others, files);
      ok := true;
    }

    /** `sync_versions`; `sorted` are the declared names in the order of the report. */
    method Sync(edit: Editor, jobs: seq<Job>, sorted: seq<Name>, check: bool, others: seq<Change>)
      returns (edited: Result<Files>, done: nat)
      requires Lists(sorted, Paths(jobs))
      modifies this`files
      ensures edited.Ok? ==> edited == Prepare(edit, old(files), jobs)
      ensures Prepare(edit, old(files), jobs).Failed? || check ==> files == old(files) && done == 0
      ensures Prepare(edit, old(files), jobs).Ok? ==>
                var originals, target := Originals(old(files), jobs), Prepare(edit, old(files), jobs).value;
                var drift := Drifting(sorted, Drift(originals, target));
                if check then edited.Ok? <==> drift == []
                else Ran(old(files), originals, target, Plan(Declared(jobs), drift), others, done, edited.Ok?, files)
    {
      hide EditAll, IsFixpoint, Drift, Ran, Plan, Declared, Drifting;
      done := 0;
      var originals := Originals(files, jobs);
      var prepared := Edit(edit, jobs);
      if prepared.Failed? {
        return Failed, 0;
      }
      var fixed := Verify(edit, prepared.value, jobs);
      if !fixed {
        return Failed, 0;
      }
      var drift := Drifting(sorted, Drift(originals, prepared.value));
      if check {
        return if drift == [] then prepared else Failed, 0;
      }
      var ok;
      done, ok := Apply(originals, prepared.value, Declared(jobs), drift, others);
      edited := if ok then prepared else Failed;
    }
  }

  /** A run on its way. */
  predicate Running(start: Files, originals: Files, edited: Files, plan: seq<Op>, others: seq<Change>, done: nat,
                    files: Files) {
    && done <= |plan| && done <= |others| && files == After(start, edited, plan, others, done)
    && forall k | 0 <= k < done :: Permits(Found(start, edited, plan, others, k), originals, plan[k])
  }

  lemma RunStarts(start: Files, originals: Files, edited: Files, plan: seq<Op>, others: seq<Change>)
    ensures Running(start, originals, edited, plan, others, 0, start)
  {
  }

  /** The next step: the process dies before it, or the step is refused, or the run goes on. */
  lemma RunGoesOn(start: Files, originals: Files, edited: Files, plan: seq<Op>, others: seq<Change>, done: nat,
                  files: Files)
    requires Running(start, originals, edited, plan, others, done, files) && done < |plan|
    ensures done <= |others| && (done == |others| ==> Ran(start, originals, edited, plan, others, done, false, files))
    ensures done < |others| ==>
              var found := Changed(files, others[done]);
              if Permits(found, originals, plan[done])
              then Running(start, originals, edited, plan, others, done + 1, Done(found, edited, plan[done]))
              else Ran(start, originals, edited, plan, others, done, false, found)
  {
    hide Changed, Permits, Done, After;
    if done < |others| {
      OneMore(start, edited, plan, others, done);
    }
  }

  lemma OneMore(start: Files, edited: Files, plan: seq<Op>, others: seq<Change>, k: nat)
    requires k < |plan| && k < |others|
    ensures Found(start, edited, plan, others, k) == Changed(After(start, edited, plan, others, k), others[k])
    ensures After(start, edited, plan, others, k + 1) == Done(Found(start, edited, plan, others, k), edited, plan[k])
  {
  }

  lemma RunEnds(start: Files, originals: Files, edited: Files, plan: seq<Op>, others: seq<Change>, files: Files)
    requires Running(start, originals, edited, plan, others, |plan|, files)
    ensures Ran(start, originals, edited, plan, others, |plan|, true, files)
  {
    hide Permits;
  }

  lemma ReplacePermitted(files: Files, originals: Files, name: Name)
    ensures Permits(files, originals, Replace(name))
  {
  }

  lemma PlanShape(names: seq<Name>, drift: seq<Name>)
    ensures |Plan(names, drift)| == |names| + 3 * |drift|
    ensures forall i | 0 <= i < |names| :: Plan(names, drift)[i] == Check(names[i])
    ensures forall i | |names| <= i < |names| + |drift| :: Plan(names, drift)[i] == Stage(drift[i - |names|])
  {
  }

  lemma SwapShape(names: seq<Name>, drift: seq<Name>, i: nat)
    requires i < |drift|
    ensures |Plan(names, drift)| == |names| + 3 * |drift|
    ensures Plan(names, drift)[|names| + |drift| + 2 * i] == Check(drift[i])
    ensures Plan(names, drift)[|names| + |drift| + 2 * i + 1] == Replace(drift[i])
  {
  }

  // ---- Edits of one file ------------------------------------------------------------------

  /** The edits of one file, one after the other. */
  function EditOne(edit: Editor, t: Text, jobs: seq<Job>, name: Name): Result<Text>
    decreases |jobs|
  {
    if jobs == [] then Ok(t)
    else if jobs[0].path != name then EditOne(edit, t, jobs[1..], name)
    else
      match edit(t, jobs[0].how)
      case Failed => Failed
      case Ok(next) => EditOne(edit, next, jobs[1..], name)
  }

  /** Files do not influence each other. */
  lemma {:induction false} EditAllIsEach(edit: Editor, files: Files, jobs: seq<Job>)
    requires Paths(jobs) <= files.Keys
    ensures EditAll(edit, files, jobs).Ok?
            <==> forall name | name in files :: EditOne(edit, files[name], jobs, name).Ok?
    ensures EditAll(edit, files, jobs).Ok? ==>
              var edited := EditAll(edit, files, jobs).value;
              && edited.Keys == files.Keys
              && forall name | name in files :: EditOne(edit, files[name], jobs, name) == Ok(edited[name])
    decreases |jobs|
  {
    if jobs != [] {
      var j := jobs[0];
      assert j in jobs && j.path in Paths(jobs);
      assert Paths(jobs[1..]) <= Paths(jobs);
      var t := edit(files[j.path], j.how);
      if t.Ok? {
        var next := files[j.path := t.value];
        EditAllIsEach(edit, next, jobs[1..]);
        forall name | name in files
          ensures EditOne(edit, files[name], jobs, name) == EditOne(edit, next[name], jobs[1..], name) {
        }
      } else {
        assert EditOne(edit, files[j.path], jobs, j.path).Failed?;
      }
    }
  }

  /** Edits that leave a file as it is, all of them. */
  lemma {:induction false} FixedStays(edit: Editor, t: Text, jobs: seq<Job>, name: Name)
    requires forall j | j in jobs && j.path == name :: edit(t, j.how) == Ok(t)
    ensures EditOne(edit, t, jobs, name) == Ok(t)
    decreases |jobs|
  {
    if jobs != [] {
      assert jobs[0] in jobs;
      FixedStays(edit, t, jobs[1..], name);
    }
  }

  lemma PreparedHas(edit: Editor, files: Files, jobs: seq<Job>)
    requires EditAll(edit, Originals(files, jobs), jobs).Ok?
    ensures Paths(jobs) <= files.Keys && Originals(files, jobs).Keys == Paths(jobs)
  {
    AllPresent(edit, Originals(files, jobs), jobs);
  }

  lemma {:induction false} AllPresent(edit: Editor, files: Files, jobs: seq<Job>)
    requires EditAll(edit, files, jobs).Ok?
    ensures Paths(jobs) <= files.Keys
    decreases |jobs|
  {
    if jobs != [] {
      AllPresent(edit, files[jobs[0].path := edit(files[jobs[0].path], jobs[0].how).value], jobs[1..]);
      assert forall name | name in Paths(jobs) :: name == jobs[0].path || name in Paths(jobs[1..]);
    }
  }

  // ---- Main results -----------------------------------------------------------------------

  /** After any part of the replacements, preparing again gives the same result. */
  lemma PartlyReplaced(edit: Editor, files: Files, jobs: seq<Job>, done: set<Name>)
    requires Prepare(edit, files, jobs).Ok?
    ensures Prepare(edit, Replaced(files, Prepare(edit, files, jobs).value, done), jobs) == Prepare(edit, files, jobs)
  {
    hide EditAll;
    var edited := Prepare(edit, files, jobs).value;
    var now := Replaced(files, edited, done);
    var originals, again := Originals(files, jobs), Originals(now, jobs);
    PreparedHas(edit, files, jobs);
    EditAllIsEach(edit, originals, jobs);
    assert again.Keys == originals.Keys;
    forall name | name in again ensures EditOne(edit, again[name], jobs, name) == Ok(edited[name]) {
      if name in done {
        FixedStays(edit, edited[name], jobs, name);
      }
    }
    EditAllIsEach(edit, again, jobs);
    assert EditAll(edit, again, jobs).value == edited;
  }

  /** A successful run leaves a common fixpoint of all declared edits: a check right after it finds no
      drift, and running again changes nothing. */
  lemma SyncIsFixpoint(edit: Editor, files: Files, jobs: seq<Job>)
    requires Prepare(edit, files, jobs).Ok?
    ensures var edited := Prepare(edit, files, jobs).value;
      var after := Replaced(files, edited, Drift(files, edited));
      && IsFixpoint(edit, after, jobs) && Prepare(edit, after, jobs) == Ok(edited) && Drift(after, edited) == {}
      && (forall name | name in files && name !in Paths(jobs) :: name in after && after[name] == files[name])
      && Drift(Originals(files, jobs), edited) == Drift(files, edited)
  {
    hide EditAll;
    var edited := Prepare(edit, files, jobs).value;
    PartlyReplaced(edit, files, jobs, Drift(files, edited));
    PreparedHas(edit, files, jobs);
    EditAllIsEach(edit, Originals(files, jobs), jobs);
    var after := Replaced(files, edited, Drift(files, edited));
    forall j | j in jobs ensures j.path in after && after[j.path] == edited[j.path] {
      assert j.path in Paths(jobs);
    }
  }

  /** A run that is repeated after a crash between any replacements ends with the same files. */
  lemma CrashIsRepaired(edit: Editor, files: Files, jobs: seq<Job>, done: set<Name>)
    requires Prepare(edit, files, jobs).Ok? && done <= Drift(files, Prepare(edit, files, jobs).value)
    ensures var edited := Prepare(edit, files, jobs).value;
      var broken := Replaced(files, edited, done);
      && Prepare(edit, broken, jobs) == Ok(edited)
      && Replaced(broken, edited, Drift(broken, edited)) == Replaced(files, edited, Drift(files, edited))
  {
    hide EditAll;
    PartlyReplaced(edit, files, jobs, done);
  }

  // ---- Other writers ----------------------------------------------------------------------

  /** What others alone make of a tree. */
  function Alone(files: Files, others: seq<Change>): Files {
    if others == [] then files else Changed(Alone(files, others[..|others| - 1]), others[|others| - 1])
  }

  predicate Alike(a: Files, b: Files, name: Name) {
    (name in a <==> name in b) && (name in a ==> a[name] == b[name])
  }

  lemma AlikeAll(a: Files, b: Files, c: Files, name: Name)
    requires Alike(a, b, name) && Alike(b, c, name)
    ensures Alike(a, c, name)
  {
  }

  lemma ChangedAlike(a: Files, b: Files, c: Change, name: Name)
    requires Alike(a, b, name)
    ensures Alike(Changed(a, c), Changed(b, c), name)
  {
  }

  lemma DoneElsewhere(files: Files, edited: Files, op: Op, name: Name)
    requires op != Replace(name)
    ensures Alike(Done(files, edited, op), files, name)
  {
  }

  lemma {:induction false} AloneAlike(a: Files, b: Files, others: seq<Change>, name: Name)
    requires Alike(a, b, name)
    ensures Alike(Alone(a, others), Alone(b, others), name)
    decreases |others|
  {
    hide Changed, Alike;
    if others != [] {
      var before := others[..|others| - 1];
      AloneAlike(a, b, before, name);
      ChangedAlike(Alone(a, before), Alone(b, before), others[|others| - 1], name);
    }
  }

  /** Between steps that do not replace it a file is what others make of it. */
  lemma {:induction false} RestIsTheirs(start: Files, edited: Files, plan: seq<Op>, others: seq<Change>, j: nat, k: nat,
                                        name: Name)
    requires j <= k <= |plan| && k <= |others| && forall m | j <= m < k :: plan[m] != Replace(name)
    ensures Alike(After(start, edited, plan, others, k), Alone(After(start, edited, plan, others, j), others[j..k]),
                  name)
    decreases k
  {
    hide Changed, Done, Alike;
    if k == j {
      AlikeItself(After(start, edited, plan, others, k), name);
    } else {
      var was := Alone(After(start, edited, plan, others, j), others[j..k - 1]);
      RestIsTheirs(start, edited, plan, others, j, k - 1, name);
      assert others[j..k][..k - j - 1] == others[j..k - 1];
      ChangedAlike(After(start, edited, plan, others, k - 1), was, others[k - 1], name);
      DoneElsewhere(Found(start, edited, plan, others, k - 1), edited, plan[k - 1], name);
      AlikeAll(After(start, edited, plan, others, k), Found(start, edited, plan, others, k - 1),
               Changed(was, others[k - 1]), name);
    }
  }

  lemma AlikeItself(a: Files, name: Name)
    ensures Alike(a, a, name)
  {
  }

  /** A change that leaves something else than what was read of a file that held it. */
  predicate Alters(c: Change, originals: Files, name: Name)
    requires name in originals
  {
    if name in c.written then c.written[name] != originals[name] else name in c.removed
  }

  lemma AltersExactly(files: Files, c: Change, originals: Files, name: Name)
    requires Holds(files, originals, name)
    ensures Holds(Changed(files, c), originals, name) <==> !Alters(c, originals, name)
  {
  }

  lemma AlikeHolds(a: Files, b: Files, originals: Files, name: Name)
    requires Alike(a, b, name) && Holds(a, originals, name)
    ensures Holds(b, originals, name)
  {
  }

  /** A replacement comes right behind the last comparison of its file, and is the only one. */
  lemma ReplaceShape(names: seq<Name>, drift: seq<Name>, i: nat)
    requires i < |Plan(names, drift)| && Plan(names, drift)[i].Replace?
    requires NoneTwice(drift)
    ensures i > 0 && Plan(names, drift)[i - 1] == Check(Plan(names, drift)[i].name)
            && Plan(names, drift)[i].name in drift
    ensures forall m | 0 <= m < |Plan(names, drift)| && m != i :: Plan(names, drift)[m] != Plan(names, drift)[i]
  {
    var base := |names| + |drift|;
    PlanShape(names, drift);
    var n := (i - base) / 2;
    SwapShape(names, drift, n);
    forall m | base <= m < |Plan(names, drift)| && m != i ensures Plan(names, drift)[m] != Plan(names, drift)[i] {
      SwapShape(names, drift, (m - base) / 2);
    }
  }

  /** What a run overwrites. Whatever others do before any of its steps, a file holds when it is replaced
      what others made of it until then, and that is the content that was read of it, so that nothing
      foreign is lost, if and only if the change between its comparison and its replacement did not alter
      or remove it. Every other file ends as others leave it. */
  lemma ForeignIsLost(start: Files, originals: Files, edited: Files, names: seq<Name>, drift: seq<Name>,
                      others: seq<Change>, done: nat, ok: bool, files: Files)
    requires Ran(start, originals, edited, Plan(names, drift), others, done, ok, files)
    requires NoneTwice(drift)
    ensures forall i | 0 <= i < done && Plan(names, drift)[i].Replace? ::
              var name := Plan(names, drift)[i].name;
              && name in originals
              && Alike(Found(start, edited, Plan(names, drift), others, i), Alone(start, others[..i + 1]), name)
              && (Holds(Alone(start, others[..i + 1]), originals, name) <==> !Alters(others[i], originals, name))
    ensures forall name | (forall i | 0 <= i < done :: Plan(names, drift)[i] != Replace(name)) ::
              Alike(After(start, edited, Plan(names, drift), others, done), Alone(start, others[..done]), name)
  {
    hide Changed, Done, Alike, Plan, Alters;
    var plan := Plan(names, drift);
    forall i | 0 <= i < done && plan[i].Replace?
      ensures plan[i].name in originals
      ensures Alike(Found(start, edited, plan, others, i), Alone(start, others[..i + 1]), plan[i].name)
      ensures Holds(Alone(start, others[..i + 1]), originals, plan[i].name)
              <==> !Alters(others[i], originals, plan[i].name) {
      ReplaceShape(names, drift, i);
      OverwrittenIs(start, originals, edited, plan, others, i);
    }
    forall name | (forall i | 0 <= i < done :: plan[i] != Replace(name))
      ensures Alike(After(start, edited, plan, others, done), Alone(start, others[..done]), name) {
      RestIsTheirs(start, edited, plan, others, 0, done, name);
      assert others[0..done] == others[..done];
    }
  }

  lemma OverwrittenIs(start: Files, originals: Files, edited: Files, plan: seq<Op>, others: seq<Change>, i: nat)
    requires 0 < i < |plan| && i < |others| && plan[i].Replace? && plan[i - 1] == Check(plan[i].name)
    requires Permits(Found(start, edited, plan, others, i - 1), originals, plan[i - 1])
    requires forall m | 0 <= m < i :: plan[m] != plan[i]
    ensures var name := plan[i].name;
      && name in originals
      && Alike(Found(start, edited, plan, others, i), Alone(start, others[..i + 1]), name)
      && (Holds(Alone(start, others[..i + 1]), originals, name) <==> !Alters(others[i], originals, name))
  {
    hide Changed, Alike, Alters;
    var name := plan[i].name;
    RestIsTheirs(start, edited, plan, others, 0, i, name);
    assert others[0..i] == others[..i] && others[..i + 1][..i] == others[..i];
    assert After(start, edited, plan, others, i) == Found(start, edited, plan, others, i - 1);
    AlikeHolds(After(start, edited, plan, others, i), Alone(start, others[..i]), originals, name);
    ChangedAlike(After(start, edited, plan, others, i), Alone(start, others[..i]), others[i], name);
    AltersExactly(Alone(start, others[..i]), others[i], originals, name);
  }

  /** The only file of a run; another program writes between its comparison and its replacement. */
  function LateWrite(name: Name, content: Text): seq<Change> {
    [NOTHING, NOTHING, NOTHING, Change(map[name := content], {})]
  }

  /** Whatever is written there is lost: the run succeeds with its own content. */
  lemma LateWriteIsLost(name: Name, was: Text, content: Text, next: Text)
    requires content != was
    ensures Ran(map[name := was], map[name := was], map[name := next], Plan([name], [name]), LateWrite(name, content),
                4, true, map[name := next])
    ensures Alone(map[name := was], LateWrite(name, content)) == map[name := content]
  {
    hide Ran, Changed, Alone;
    var start, edited := map[name := was], map[name := next];
    var plan, others := Plan([name], [name]), LateWrite(name, content);
    assert plan == [Check(name), Stage(name), Check(name), Replace(name)];
    WrittenOver(start, name, content);
    NothingChanges(start);
    assert After(start, edited, plan, others, 1) == start;
    assert After(start, edited, plan, others, 2) == start;
    assert After(start, edited, plan, others, 3) == start;
    assert After(start, edited, plan, others, 4) == map[name := next];
    RanToTheEnd(start, start, edited, plan, others);
    assert others[..3] == [NOTHING, NOTHING, NOTHING];
    QuietAlone(start, others[..3]);
    AloneMore(start, others);
  }

  lemma WrittenOver(files: Files, name: Name, content: Text)
    requires files.Keys == {name}
    ensures Changed(files, Change(map[name := content], {})) == map[name := content]
  {
  }

  lemma NothingChanges(files: Files)
    ensures Changed(files, NOTHING) == files
  {
  }

  lemma AloneMore(files: Files, others: seq<Change>)
    requires others != []
    ensures Alone(files, others) == Changed(Alone(files, others[..|others| - 1]), others[|others| - 1])
  {
  }

  lemma {:induction false} QuietAlone(files: Files, others: seq<Change>)
    requires forall i | 0 <= i < |others| :: others[i] == NOTHING
    ensures Alone(files, others) == files
    decreases |others|
  {
    hide Changed;
    if others != [] {
      QuietAlone(files, others[..|others| - 1]);
      NothingChanges(files);
    }
  }

  lemma RanToTheEnd(start: Files, originals: Files, edited: Files, plan: seq<Op>, others: seq<Change>)
    requires |plan| <= |others|
    requires forall k | 0 <= k < |plan| :: Permits(Found(start, edited, plan, others, k), originals, plan[k])
    ensures Ran(start, originals, edited, plan, others, |plan|, true, After(start, edited, plan, others, |plan|))
  {
  }

  // ---- What a run leaves ------------------------------------------------------------------

  /** The last step of a run that is about this file. */
  predicate IsLast(plan: seq<Op>, j: int, name: Name) {
    0 <= j < |plan| && plan[j].name == name && forall m | j < m < |plan| :: plan[m].name != name
  }

  lemma {:induction false} LastStep(plan: seq<Op>, n: nat, name: Name) returns (j: nat)
    requires n < |plan| && plan[n].name == name
    ensures IsLast(plan, j, name)
    decreases |plan| - n
  {
    if forall m | n < m < |plan| :: plan[m].name != name {
      j := n;
    } else {
      var m :| n < m < |plan| && plan[m].name == name;
      j := LastStep(plan, m, name);
    }
  }

  /** Behind the first comparisons all steps are about the drift. */
  lemma LaterSteps(names: seq<Name>, drift: seq<Name>, j: nat)
    requires |names| <= j < |Plan(names, drift)|
    ensures Plan(names, drift)[j].name in drift
  {
    var base := |names| + |drift|;
    PlanShape(names, drift);
    if j >= base {
      SwapShape(names, drift, (j - base) / 2);
    }
  }

  lemma LastIsReplace(names: seq<Name>, drift: seq<Name>, j: nat, name: Name)
    requires IsLast(Plan(names, drift), j, name)
    ensures Plan(names, drift)[j] == if name in drift then Replace(name) else Check(name)
  {
    hide Plan;
    var base := |names| + |drift|;
    PlanShape(names, drift);
    if j >= |names| {
      LaterSteps(names, drift, j);
    }
    if name in drift {
      var i :| 0 <= i < |drift| && drift[i] == name;
      SwapShape(names, drift, i);
      assert Plan(names, drift)[base + 2 * i + 1].name == name;
      SwapShape(names, drift, (j - base) / 2);
    }
  }

  /** Behind the last step about a declared file a successful run has left what it prepared for it, and
      the file ends as others leave that. */
  lemma EndsAsLeft(start: Files, originals: Files, edited: Files, names: seq<Name>, drift: seq<Name>,
                   others: seq<Change>, files: Files, j: nat, name: Name)
    requires Ran(start, originals, edited, Plan(names, drift), others, |Plan(names, drift)|, true, files)
    requires Lists(drift, Drift(originals, edited)) && name in originals && name in edited
    requires IsLast(Plan(names, drift), j, name)
    ensures Alike(files, Alone(edited, others[j + 1..|Plan(names, drift)|]), name)
  {
    hide Changed, Plan, Lists, Found;
    var plan := Plan(names, drift);
    LastIsReplace(names, drift, j, name);
    OneMore(start, edited, plan, others, j);
    assert Permits(Found(start, edited, plan, others, j), originals, plan[j]);
    DriftListed(originals, edited, drift, name);
    var left := After(start, edited, plan, others, j + 1);
    assert Alike(left, edited, name);
    hide Alike, Done, Permits;
    RestIsTheirs(start, edited, plan, others, j + 1, |plan|, name);
    AloneAlike(left, edited, others[j + 1..|plan|], name);
    AlikeAll(files, Alone(left, others[j + 1..|plan|]), Alone(edited, others[j + 1..|plan|]), name);
  }

  lemma DriftListed(originals: Files, edited: Files, drift: seq<Name>, name: Name)
    requires Lists(drift, Drift(originals, edited)) && name in originals && name in edited
    ensures name in drift <==> edited[name] != originals[name]
  {
    assert name in (set n | n in drift) <==> name in Drift(originals, edited);
  }

  /** What others do to the declared files behind the last steps about them leaves what was prepared. */
  ghost predicate LeftAlone(edited: Files, plan: seq<Op>, others: seq<Change>, names: set<Name>)
    requires |plan| <= |others|
  {
    forall j, name | name in names && IsLast(plan, j, name) ::
      Alike(Alone(edited, others[j + 1..|plan|]), edited, name)
  }

  /** A successful run leaves its declared files as prepared, and so a common fixpoint of all declared edits
      in which a check finds no drift, exactly if others leave them alone behind its last steps about
      them; whatever happens earlier, and to other files, makes no difference. */
  lemma UndisturbedIsFixpoint(edit: Editor, read: Files, jobs: seq<Job>, sorted: seq<Name>, start: Files,
                              others: seq<Change>, files: Files)
    requires Prepare(edit, read, jobs).Ok? && Lists(sorted, Paths(jobs))
    requires var originals, edited := Originals(read, jobs), Prepare(edit, read, jobs).value;
      var plan := Plan(Declared(jobs), Drifting(sorted, Drift(originals, edited)));
      Ran(start, originals, edited, plan, others, |plan|, true, files)
    ensures var originals, edited := Originals(read, jobs), Prepare(edit, read, jobs).value;
      var plan := Plan(Declared(jobs), Drifting(sorted, Drift(originals, edited)));
      && ((forall name | name in Paths(jobs) :: Alike(files, edited, name))
          <==> LeftAlone(edited, plan, others, Paths(jobs)))
      && (LeftAlone(edited, plan, others, Paths(jobs)) ==>
            IsFixpoint(edit, files, jobs) && Prepare(edit, files, jobs) == Ok(edited) && Drift(files, edited) == {})
  {
    hide EditAll, IsFixpoint, Plan, Alike, Drift, Prepare, Declared, Drifting, Found, After;
    var originals, edited := Originals(read, jobs), Prepare(edit, read, jobs).value;
    var drift := Drifting(sorted, Drift(originals, edited));
    var plan := Plan(Declared(jobs), drift);
    PreparedKeys(edit, read, jobs);
    DriftIsListed(edit, read, jobs, sorted);
    forall j, name | name in Paths(jobs) && IsLast(plan, j, name)
      ensures Alike(files, edited, name) <==> Alike(Alone(edited, others[j + 1..|plan|]), edited, name) {
      EndsAsLeft(start, originals, edited, Declared(jobs), drift, others, files, j, name);
      AlikeBoth(files, Alone(edited, others[j + 1..|plan|]), edited, name);
    }
    forall name | name in Paths(jobs) ensures exists j :: IsLast(plan, j, name) {
      var j := DeclaredStep(jobs, drift, name);
    }
    if LeftAlone(edited, plan, others, Paths(jobs)) {
      AsPrepared(edit, read, jobs, files);
    }
  }

  lemma AlikeBoth(a: Files, b: Files, c: Files, name: Name)
    requires Alike(a, b, name)
    ensures Alike(a, c, name) <==> Alike(b, c, name)
  {
  }

  lemma PreparedKeys(edit: Editor, files: Files, jobs: seq<Job>)
    requires Prepare(edit, files, jobs).Ok?
    ensures Originals(files, jobs).Keys == Paths(jobs) && Prepare(edit, files, jobs).value.Keys == Paths(jobs)
  {
    hide EditAll, IsFixpoint;
    PreparedHas(edit, files, jobs);
    EditAllIsEach(edit, Originals(files, jobs), jobs);
  }

  lemma DriftIsListed(edit: Editor, files: Files, jobs: seq<Job>, sorted: seq<Name>)
    requires Prepare(edit, files, jobs).Ok? && Lists(sorted, Paths(jobs))
    ensures var drift := Drift(Originals(files, jobs), Prepare(edit, files, jobs).value);
      Lists(Drifting(sorted, drift), drift)
  {
    hide EditAll, IsFixpoint, Drifting, Prepare, Lists;
    PreparedKeys(edit, files, jobs);
    var drift := Drift(Originals(files, jobs), Prepare(edit, files, jobs).value);
    DriftingLists(sorted, Paths(jobs), drift);
    assert Paths(jobs) * drift == drift;
  }

  lemma DeclaredStep(jobs: seq<Job>, drift: seq<Name>, name: Name) returns (j: nat)
    requires name in Paths(jobs)
    ensures IsLast(Plan(Declared(jobs), drift), j, name)
  {
    hide Declared, Plan;
    DeclaredLists(jobs);
    assert name in (set n | n in Declared(jobs));
    var i :| 0 <= i < |Declared(jobs)| && Declared(jobs)[i] == name;
    PlanShape(Declared(jobs), drift);
    j := LastStep(Plan(Declared(jobs), drift), i, name);
  }

  /** A tree that holds what was prepared of another. */
  lemma AsPrepared(edit: Editor, read: Files, jobs: seq<Job>, files: Files)
    requires Prepare(edit, read, jobs).Ok?
    requires forall name | name in Paths(jobs) :: Alike(files, Prepare(edit, read, jobs).value, name)
    ensures var edited := Prepare(edit, read, jobs).value;
      IsFixpoint(edit, files, jobs) && Prepare(edit, files, jobs) == Ok(edited) && Drift(files, edited) == {}
  {
    hide EditAll, IsFixpoint, Prepare;
    var edited := Prepare(edit, read, jobs).value;
    var calm := Replaced(read, edited, Drift(read, edited));
    SyncIsFixpoint(edit, read, jobs);
    PreparedKeys(edit, read, jobs);
    PreparedKeys(edit, calm, jobs);
    forall name | name in Paths(jobs) ensures Alike(files, calm, name) {
      assert Alike(files, edited, name);
    }
    assert Originals(files, jobs) == Originals(calm, jobs);
    PreparedFrom(edit, files, calm, jobs);
    SameFixpoint(edit, files, calm, jobs);
  }

  lemma PreparedFrom(edit: Editor, a: Files, b: Files, jobs: seq<Job>)
    requires Originals(a, jobs) == Originals(b, jobs)
    ensures Prepare(edit, a, jobs) == Prepare(edit, b, jobs)
  {
    hide EditAll, IsFixpoint;
  }

  lemma SameFixpoint(edit: Editor, a: Files, b: Files, jobs: seq<Job>)
    requires IsFixpoint(edit, b, jobs) && forall name | name in Paths(jobs) :: Alike(a, b, name)
    ensures IsFixpoint(edit, a, jobs)
  {
    forall j | j in jobs ensures j.path in a && a[j.path] == b[j.path] {
      assert j.path in Paths(jobs) && Alike(a, b, j.path);
    }
  }

  // ---- Without other writers --------------------------------------------------------------

  function Swapped(plan: seq<Op>, k: nat): set<Name>
    requires k <= |plan|
  {
    set i | 0 <= i < k && plan[i].Replace? :: plan[i].name
  }

  lemma ReplacedMore(files: Files, edited: Files, done: set<Name>, op: Op)
    requires op.Replace? ==> op.name in files && op.name in edited
    ensures Done(Changed(Replaced(files, edited, done), NOTHING), edited, op)
         == Replaced(files, edited, if op.Replace? then done + {op.name} else done)
  {
  }

  lemma NoneReplaced(files: Files, edited: Files)
    ensures Replaced(files, edited, {}) == files
  {
  }

  /** Where nobody else writes, a run is nothing but its replacements, wherever it ends. */
  lemma {:induction false} QuietIsReplaced(start: Files, edited: Files, plan: seq<Op>, others: seq<Change>, k: nat)
    requires k <= |plan| && k <= |others| && forall c | c in others :: c == NOTHING
    requires forall i | 0 <= i < k && plan[i].Replace? :: plan[i].name in start && plan[i].name in edited
    ensures After(start, edited, plan, others, k) == Replaced(start, edited, Swapped(plan, k))
    decreases k
  {
    hide Changed, Done, Replaced;
    if k == 0 {
      assert Swapped(plan, 0) == {};
      NoneReplaced(start, edited);
    } else {
      var op := plan[k - 1];
      QuietIsReplaced(start, edited, plan, others, k - 1);
      assert others[k - 1] in others;
      assert Swapped(plan, k) == if op.Replace? then Swapped(plan, k - 1) + {op.name} else Swapped(plan, k - 1);
      ReplacedMore(start, edited, Swapped(plan, k - 1), op);
    }
  }

  /** The editor edits JSON formats as `JsonEdit` says. */
  ghost predicate EditsJson(edit: Editor) {
    forall t, d, value :: edit(t, Json(d, value)) ==
      match JsonEdit.EditText(t, d, value)
      case Failed => Failed
      case Ok(e) => Ok(e.text)
  }

  /** A JSON declaration alone in its file conflicts with itself exactly when it renames the very name it
      selects its document by. */
  lemma JsonAlone(edit: Editor, files: Files, name: Name, d: JsonEdit.Declaration, value: JsonScalars.Field)
    requires EditsJson(edit) && name in files && JsonScalars.IsField(value) && edit(files[name], Json(d, value)).Ok?
    ensures Prepare(edit, files, [Job(name, Json(d, value))]).Ok? <==> !JsonEdit.RenamesItself(d, value)
  {
    hide JsonEdit.EditText;
    var jobs := [Job(name, Json(d, value))];
    var originals := Originals(files, jobs);
    assert jobs[0] in jobs && name in Paths(jobs) && name in originals;
    var text := edit(files[name], Json(d, value)).value;
    JsonEdit.SecondEdit(files[name], d, value);
    assert jobs[1..] == [];
    assert EditAll(edit, originals, jobs) == EditAll(edit, originals[name := text], []);
  }
}
