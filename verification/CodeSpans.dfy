/** Inline code spans of release notes (scripts/release_control.py): backtick runs and their partners. */
module CodeSpans {
  import opened Results
  import opened Texts

  const TICK: Code := 0x60

  datatype Ticks = Ticks(start: nat, end: nat)

  // ---- Runs -------------------------------------------------------------------------------

  /** A maximal run of backticks. */
  predicate IsRun(line: Text, start: int, end: int) {
    && 0 <= start < end <= |line| && (forall k | start <= k < end :: line[k] == TICK)
    && (start > 0 ==> line[start - 1] != TICK) && (end < |line| ==> line[end] != TICK)
  }

  /** The first position from `p` on that is no backtick. */
  function TicksEnd(line: Text, p: nat): (end: nat)
    requires p <= |line|
    ensures p <= end <= |line| && (forall k | p <= k < end :: line[k] == TICK) && (end < |line| ==> line[end] != TICK)
    decreases |line| - p
  {
    if p < |line| && line[p] == TICK then TicksEnd(line, p + 1) else p
  }

  predicate Boundary(line: Text, p: nat) {
    p <= |line| && (0 < p < |line| ==> line[p - 1] != TICK || line[p] != TICK)
  }

  /** The runs from a boundary on, as the pattern "`+" finds them. */
  function RunsFrom(line: Text, p: nat): seq<Ticks>
    requires p <= |line|
    decreases |line| - p
  {
    if p == |line| then []
    else if line[p] == TICK then [Ticks(p, TicksEnd(line, p))] + RunsFrom(line, TicksEnd(line, p))
    else RunsFrom(line, p + 1)
  }

  method FindRuns(line: Text) returns (runs: seq<Ticks>)
    ensures runs == RunsFrom(line, 0)
  {
    runs := [];
    var p := 0;
    while p < |line|
      invariant p <= |line|
      invariant runs + RunsFrom(line, p) == RunsFrom(line, 0)
    {
      if line[p] == TICK {
        var end := p;
        while end < |line| && line[end] == TICK
          invariant p <= end <= |line|
          invariant TicksEnd(line, end) == TicksEnd(line, p)
        {
          end := end + 1;
        }
        runs := runs + [Ticks(p, end)];
        p := end;
      } else {
        p := p + 1;
      }
    }
  }

  predicate AreRuns(line: Text, p: nat, runs: seq<Ticks>) {
    && (forall r | r in runs :: p <= r.start < r.end <= |line| && IsRun(line, r.start, r.end))
    && (forall i, j | 0 <= i < j < |runs| :: runs[i].end <= runs[j].start)
  }

  lemma {:induction false} RunsAreRuns(line: Text, p: nat)
    requires Boundary(line, p)
    ensures AreRuns(line, p, RunsFrom(line, p))
    decreases |line| - p
  {
    if p < |line| {
      if line[p] == TICK {
        RunsAreRuns(line, TicksEnd(line, p));
      } else {
        RunsAreRuns(line, p + 1);
      }
    }
  }

  /** Every maximal run is found. */
  lemma {:induction false} RunIsFound(line: Text, p: nat, s: nat, e: nat)
    requires Boundary(line, p) && p <= s && IsRun(line, s, e)
    ensures Ticks(s, e) in RunsFrom(line, p)
    decreases |line| - p
  {
    if line[p] == TICK {
      if s == p {
        assert e == TicksEnd(line, p);
      } else {
        assert line[s - 1] != TICK;
        RunIsFound(line, TicksEnd(line, p), s, e);
      }
    } else {
      RunIsFound(line, p + 1, s, e);
    }
  }

  lemma FoundIsRun(line: Text, p: nat, r: Ticks)
    requires Boundary(line, p) && r in RunsFrom(line, p)
    ensures p <= r.start < r.end <= |line| && IsRun(line, r.start, r.end)
  {
    RunsAreRuns(line, p);
  }

  lemma FoundInOrder(line: Text, p: nat, i: nat, j: nat)
    requires Boundary(line, p) && i < j < |RunsFrom(line, p)|
    ensures RunsFrom(line, p)[i].start < RunsFrom(line, p)[i].end <= RunsFrom(line, p)[j].start
  {
    RunsAreRuns(line, p);
    assert RunsFrom(line, p)[i] in RunsFrom(line, p);
  }

  // ---- Partners ---------------------------------------------------------------------------

  /** The end of the first run of a length. */
  function NearestEnd(runs: seq<Ticks>, length: int): Option<nat> {
    if runs == [] then None
    else if runs[0].end - runs[0].start == length then Some(runs[0].end)
    else NearestEnd(runs[1..], length)
  }

  /** The quadratic search: where the code span that opens at `p` ends, if one opens there. */
  function SpanEnd(line: Text, p: nat): Option<nat>
    requires p < |line|
  {
    if Opens(line, p)
    then NearestEnd(RunsFrom(line, TicksEnd(line, p)), TicksEnd(line, p) - p)
    else None
  }

  /** `e` ends the nearest later run as long as the run at `p`. */
  predicate Closes(line: Text, p: nat, start: int, e: int) {
    && p < |line| && IsRun(line, p, TicksEnd(line, p)) && IsRun(line, start, e)
    && TicksEnd(line, p) <= start && e - start == TicksEnd(line, p) - p
    && forall s, t | TicksEnd(line, p) <= s < start && IsRun(line, s, t) :: t - s != e - start
  }

  lemma {:induction false} NearestIs(runs: seq<Ticks>, length: int)
    ensures NearestEnd(runs, length).None? ==> forall r | r in runs :: r.end - r.start != length
    ensures NearestEnd(runs, length).Some? ==>
              exists i | 0 <= i < |runs| ::
                runs[i].end == NearestEnd(runs, length).value && runs[i].end - runs[i].start == length
                                            && forall k | 0 <= k < i :: runs[k].end - runs[k].start != length
    decreases |runs|
  {
    if runs != [] && runs[0].end - runs[0].start != length {
      NearestIs(runs[1..], length);
      if NearestEnd(runs, length).Some? {
        var i :| 0 <= i < |runs[1..]| && runs[1..][i].end == NearestEnd(runs, length).value
                 && runs[1..][i].end - runs[1..][i].start == length
                 && forall k | 0 <= k < i :: runs[1..][k].end - runs[1..][k].start != length;
        assert runs[i + 1] == runs[1..][i];
        forall k | 0 <= k < i + 1 ensures runs[k].end - runs[k].start != length {
          if k > 0 {
            assert runs[k] == runs[1..][k - 1];
          }
        }
      }
    }
  }

  predicate Opens(line: Text, p: nat)
    requires p < |line|
  {
    line[p] == TICK && (p > 0 ==> line[p - 1] != TICK)
  }

  lemma OpensRun(line: Text, p: nat)
    requires p < |line|
    ensures Opens(line, p) <==> IsRun(line, p, TicksEnd(line, p))
    ensures forall e | IsRun(line, p, e) :: e == TicksEnd(line, p)
  {
  }

  lemma SpanFound(line: Text, p: nat) returns (start: nat)
    requires p < |line| && SpanEnd(line, p).Some?
    ensures Closes(line, p, start, SpanEnd(line, p).value)
  {
    var end := TicksEnd(line, p);
    var runs := RunsFrom(line, end);
    OpensRun(line, p);
    hide RunsFrom, NearestEnd, IsRun;
    NearestIs(runs, end - p);
    var i :| 0 <= i < |runs| && runs[i].end == SpanEnd(line, p).value && runs[i].end - runs[i].start == end - p
             && forall k | 0 <= k < i :: runs[k].end - runs[k].start != end - p;
    FoundIsRun(line, end, runs[i]);
    forall s, t | end <= s < runs[i].start && IsRun(line, s, t) ensures t - s != end - p {
      RunIsFound(line, end, s, t);
      var k :| 0 <= k < |runs| && runs[k] == Ticks(s, t);
      if i < k {
        FoundInOrder(line, end, i, k);
      }
      assert k < i;
    }
    start := runs[i].start;
  }

  lemma SpanMissing(line: Text, p: nat, start: int, e: int)
    requires p < |line| && SpanEnd(line, p).None?
    ensures !Closes(line, p, start, e)
  {
    var end := TicksEnd(line, p);
    OpensRun(line, p);
    hide RunsFrom, NearestEnd, IsRun;
    NearestIs(RunsFrom(line, end), end - p);
    if end <= start && IsRun(line, start, e) {
      RunIsFound(line, end, start, e);
    }
  }

  /** The search finds the end of the nearest later run of equal length, and nothing when there is none. */
  lemma SpanEndIs(line: Text, p: nat)
    requires p < |line|
    ensures SpanEnd(line, p).Some? ==> exists start :: Closes(line, p, start, SpanEnd(line, p).value)
    ensures SpanEnd(line, p).None? ==> forall start, e :: !Closes(line, p, start, e)
  {
    hide SpanEnd, Closes;
    if SpanEnd(line, p).Some? {
      var start := SpanFound(line, p);
    } else {
      forall start, e ensures !Closes(line, p, start, e) {
        SpanMissing(line, p, start, e);
      }
    }
  }

  lemma NoneIsNone(line: Text, p: nat, s: int, t: int)
    requires p < |line| && SpanEnd(line, p).None? && Opens(line, p) && TicksEnd(line, p) <= s && IsRun(line, s, t)
    ensures t - s != TicksEnd(line, p) - p
  {
    assert 0 <= s < t;
    hide RunsFrom, NearestEnd, IsRun;
    var end := TicksEnd(line, p);
    NearestIs(RunsFrom(line, end), end - p);
    RunIsFound(line, end, s, t);
  }

  /** The nearest partner is unique. */
  lemma ClosesIs(line: Text, p: nat, start: int, e: int)
    requires p < |line| && Closes(line, p, start, e)
    ensures SpanEnd(line, p) == Some(e)
  {
    OpensRun(line, p);
    if SpanEnd(line, p).None? {
      NoneIsNone(line, p, start, e);
    } else {
      var other := SpanFound(line, p);
    }
  }

  // ---- The reverse pass -------------------------------------------------------------------

  lemma {:induction false} RunsSuffix(line: Text, p: nat, i: nat)
    requires Boundary(line, p) && i < |RunsFrom(line, p)|
    ensures RunsFrom(line, p)[i].end <= |line|
    ensures RunsFrom(line, p)[i + 1..] == RunsFrom(line, RunsFrom(line, p)[i].end)
    decreases |line| - p
  {
    if line[p] == TICK {
      if i > 0 {
        RunsSuffix(line, TicksEnd(line, p), i - 1);
      }
    } else {
      RunsSuffix(line, p + 1, i);
    }
  }

  /** `following` maps every length to the end of its first run. */
  ghost predicate Follows(following: map<int, nat>, runs: seq<Ticks>) {
    forall length :: NearestEnd(runs, length) == if length in following then Some(following[length]) else None
  }

  predicate Partnered(ends: map<nat, nat>, runs: seq<Ticks>, k: nat)
    requires k < |runs|
  {
    NearestEnd(runs[k + 1..], runs[k].end - runs[k].start)
    == if runs[k].start in ends then Some(ends[runs[k].start]) else None
  }

  /** The runs from `i` on have their partners, and nothing else has. */
  predicate PartneredFrom(ends: map<nat, nat>, runs: seq<Ticks>, i: nat) {
    && (forall k | i <= k < |runs| :: Partnered(ends, runs, k))
    && (forall p | p in ends :: exists k | i <= k < |runs| :: runs[k].start == p)
  }

  lemma FollowsMore(following: map<int, nat>, runs: seq<Ticks>, run: Ticks)
    requires Follows(following, runs)
    ensures Follows(following[run.end - run.start := run.end], [run] + runs)
  {
    assert ([run] + runs)[1..] == runs;
  }

  lemma PartneredMore(line: Text, ends: map<nat, nat>, next: map<nat, nat>, runs: seq<Ticks>, i: nat,
                      following: map<int, nat>)
    requires runs == RunsFrom(line, 0) && i < |runs| && PartneredFrom(ends, runs, i + 1)
             && Follows(following, runs[i + 1..])
    requires var length := runs[i].end - runs[i].start;
      next == if length in following then ends[runs[i].start := following[length]] else ends
    ensures PartneredFrom(next, runs, i)
  {
    hide RunsFrom, NearestEnd;
    forall k | i < k < |runs| ensures runs[i].start < runs[k].start {
      FoundInOrder(line, 0, i, k);
    }
    forall k | i <= k < |runs| ensures Partnered(next, runs, k) {
      if k > i {
        assert Partnered(ends, runs, k);
      }
    }
  }

  /** `_release_code_span_ends`: one pass in reverse finds for every position what the search from that
      position finds. */
  method CodeSpanEnds(line: Text) returns (ends: map<nat, nat>)
    ensures forall p | p in ends :: p < |line|
    ensures forall p: nat | p < |line| :: SpanEnd(line, p) == if p in ends then Some(ends[p]) else None
  {
    hide Follows, PartneredFrom, RunsFrom, NearestEnd, SpanEnd;
    var runs := FindRuns(line);
    var following: map<int, nat> := map[];
    ends := map[];
    var i := |runs|;
    NothingYet(runs);
    while i > 0
      invariant 0 <= i <= |runs| && runs == RunsFrom(line, 0)
      invariant Follows(following, runs[i..]) && PartneredFrom(ends, runs, i)
    {
      i := i - 1;
      var run := runs[i];
      var length := run.end - run.start;
      ghost var before := ends;
      if length in following {
        ends := ends[run.start := following[length]];
      }
      PartneredMore(line, before, ends, runs, i, following);
      FollowsMore(following, runs[i + 1..], run);
      assert [run] + runs[i + 1..] == runs[i..];
      following := following[length := run.end];
    }
    forall p | p in ends ensures p < |line| {
      EndIsOpening(line, runs, ends, p);
    }
    forall p: nat | p < |line| ensures SpanEnd(line, p) == if p in ends then Some(ends[p]) else None {
      EndsAgree(line, runs, ends, p);
    }
  }

  lemma NothingYet(runs: seq<Ticks>)
    ensures Follows(map[], runs[|runs|..]) && PartneredFrom(map[], runs, |runs|)
  {
  }

  lemma EndIsOpening(line: Text, runs: seq<Ticks>, ends: map<nat, nat>, p: nat)
    requires runs == RunsFrom(line, 0) && PartneredFrom(ends, runs, 0) && p in ends
    ensures p < |line| && Opens(line, p)
  {
    hide RunsFrom, NearestEnd;
    var k :| 0 <= k < |runs| && runs[k].start == p;
    FoundIsRun(line, 0, runs[k]);
  }

  lemma EndsAgree(line: Text, runs: seq<Ticks>, ends: map<nat, nat>, p: nat)
    requires p < |line| && runs == RunsFrom(line, 0) && PartneredFrom(ends, runs, 0)
    ensures SpanEnd(line, p) == if p in ends then Some(ends[p]) else None
  {
    OpensRun(line, p);
    hide RunsFrom, NearestEnd, IsRun, Opens;
    if Opens(line, p) {
      RunIsFound(line, 0, p, TicksEnd(line, p));
      var k :| 0 <= k < |runs| && runs[k] == Ticks(p, TicksEnd(line, p));
      RunsSuffix(line, 0, k);
      assert Partnered(ends, runs, k);
    } else if p in ends {
      EndIsOpening(line, runs, ends, p);
    }
  }
}
