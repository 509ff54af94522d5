/** Dense warm-up: the tensor ranges of each shard are merged, each merged run is
    cut into chunks, and the chunks are read through a small pool of buffers. */
module WarmUp {
  import opened Bytes
  import opened ExpertDisk
  import opened Runs

  const WARM_CHUNK: nat := 8 * 1024 * 1024
  const WARM_POOL: nat := 16

  datatype Range = Range(off: nat, size: nat)

  datatype WarmRun = WarmRun(shard: Shard, start: nat, end: nat)

  // ---------------------------------------------------------------- merging

  ghost predicate RangesSorted(v: seq<Range>) {
    forall i, j :: 0 <= i < j < |v| ==> v[i].off <= v[j].off
  }

  ghost predicate InRun(run: WarmRun, shard: Shard, r: Range) {
    run.shard == shard && run.start <= r.off && r.off + r.size <= run.end
  }

  ghost predicate Covered(runs: seq<WarmRun>, shard: Shard, r: Range) {
    exists k :: 0 <= k < |runs| && InRun(runs[k], shard, r)
  }

  /** From index lo on: runs of one shard, in order, further apart than the tolerated gap. */
  ghost predicate ShardRuns(runs: seq<WarmRun>, lo: nat, shard: Shard) {
    && lo <= |runs|
    && (forall k :: lo <= k < |runs| ==> runs[k].shard == shard && runs[k].start <= runs[k].end)
    && (forall k :: lo <= k < |runs| - 1 ==> runs[k].end + RUN_MERGE_GAP < runs[k + 1].start)
  }

  /** Runs of one shard do not overlap. */
  lemma {:induction false} RunsDisjoint(runs: seq<WarmRun>, lo: nat, shard: Shard, i: nat, j: nat)
    requires ShardRuns(runs, lo, shard) && lo <= i < j < |runs|
    ensures runs[i].end + RUN_MERGE_GAP < runs[j].start
    decreases j
  {
    if i < j - 1 { RunsDisjoint(runs, lo, shard, i, j - 1); }
    assert runs[j - 1].end + RUN_MERGE_GAP < runs[j - 1 + 1].start;
  }

  /** The run as one that carries the ranges of the group. */
  function Carrying(run: WarmRun, group: seq<Range>): Run
    requires forall i :: 0 <= i < |group| ==> run.start <= group[i].off
  {
    Run(run.shard, run.start, run.end,
        seq(|group|, i requires 0 <= i < |group| => Slice(0, 0, group[i].size, group[i].off - run.start)))
  }

  /** The run starts with the group's first range, ends with the one reaching
      furthest, and each further range begins at most the tolerated gap behind
      what the ranges before it reached. */
  ghost predicate TightGroup(run: WarmRun, group: seq<Range>) {
    (forall i :: 0 <= i < |group| ==> run.start <= group[i].off) && Tight(Carrying(run, group))
  }

  /** The ranges fall into consecutive groups, one for each run from index lo on. */
  ghost predicate Cut(runs: seq<WarmRun>, lo: nat, v: seq<Range>, groups: seq<seq<Range>>) {
    lo <= |runs| && |groups| == |runs| - lo && Join(groups) == v
    && forall k :: 0 <= k < |groups| ==> TightGroup(runs[lo + k], groups[k])
  }

  lemma OpenGroup(shard: Shard, r: Range)
    ensures TightGroup(WarmRun(shard, r.off, r.off + r.size), [r])
  {
    var run := WarmRun(shard, r.off, r.off + r.size);
    OpenRun(Projection(shard, 0, r.off, r.size, 0));
    assert Carrying(run, [r]).slices == [Slice(0, 0, r.size, 0)];
  }

  lemma JoinGroup(run: WarmRun, group: seq<Range>, r: Range)
    requires TightGroup(run, group) && run.start <= r.off <= run.end + RUN_MERGE_GAP
    ensures TightGroup(run.(end := if r.off + r.size > run.end then r.off + r.size else run.end), group + [r])
  {
    CarryingSnoc(run, group, r);
    hide Carrying, Tight, Extended;
    ExtendRun(Carrying(run, group), Projection(run.shard, 0, r.off, r.size, 0));
  }

  lemma CarryingSnoc(run: WarmRun, group: seq<Range>, r: Range)
    requires (forall i :: 0 <= i < |group| ==> run.start <= group[i].off) && run.start <= r.off
    ensures forall i :: 0 <= i < |group + [r]| ==> run.start <= (group + [r])[i].off
    ensures Carrying(run, group).start == run.start && Carrying(run, group).end == run.end
    ensures Carrying(run.(end := if r.off + r.size > run.end then r.off + r.size else run.end), group + [r])
         == Extended(Carrying(run, group), Projection(run.shard, 0, r.off, r.size, 0))
  {
  }

  lemma RunsOpen(runs: seq<WarmRun>, lo: nat, shard: Shard, r: Range)
    requires ShardRuns(runs, lo, shard)
    requires |runs| > lo ==> runs[|runs| - 1].end + RUN_MERGE_GAP < r.off
    ensures ShardRuns(runs + [WarmRun(shard, r.off, r.off + r.size)], lo, shard)
  {
  }

  lemma RunsExtend(runs: seq<WarmRun>, lo: nat, shard: Shard, end: nat)
    requires ShardRuns(runs, lo, shard) && |runs| > lo && runs[|runs| - 1].end <= end
    ensures ShardRuns(runs[|runs| - 1 := runs[|runs| - 1].(end := end)], lo, shard)
  {
  }

  /** The last run of a shard is the shard's own. */
  lemma LastRunIs(runs: seq<WarmRun>, before: seq<WarmRun>, shard: Shard)
    requires |before| <= |runs| && runs[..|before|] == before && ShardRuns(runs, |before|, shard)
    requires forall k :: 0 <= k < |before| ==> before[k].shard != shard
    ensures runs != [] ==> (runs[|runs| - 1].shard == shard <==> |runs| > |before|)
  {
    if runs != [] && |runs| == |before| {
      assert runs == before;
    }
  }

  lemma SortedStep(v: seq<Range>, i: nat)
    requires RangesSorted(v) && 0 < i < |v|
    ensures v[i - 1].off <= v[i].off
  {
  }

  lemma CutOpens(runs: seq<WarmRun>, lo: nat, v: seq<Range>, groups: seq<seq<Range>>, shard: Shard, r: Range)
    requires Cut(runs, lo, v, groups)
    ensures Cut(runs + [WarmRun(shard, r.off, r.off + r.size)], lo, v + [r], groups + [[r]])
  {
    hide TightGroup, Join;
    var more := runs + [WarmRun(shard, r.off, r.off + r.size)];
    OpenGroup(shard, r);
    JoinConcat(groups, [[r]]);
    JoinOne([r]);
    forall k | 0 <= k <= |groups| ensures TightGroup(more[lo + k], (groups + [[r]])[k]) {
      if k < |groups| { assert more[lo + k] == runs[lo + k]; }
    }
  }

  lemma JoinOne<T>(piece: seq<T>)
    ensures Join([piece]) == piece
  {
    assert [piece][1..] == [];
    assert Join([piece]) == piece + Join([piece][1..]);
  }

  lemma CutJoins(runs: seq<WarmRun>, lo: nat, v: seq<Range>, groups: seq<seq<Range>>, r: Range)
    returns (longer: seq<seq<Range>>)
    requires Cut(runs, lo, v, groups) && lo < |runs|
    requires runs[|runs| - 1].start <= r.off <= runs[|runs| - 1].end + RUN_MERGE_GAP
    ensures var last := runs[|runs| - 1];
      Cut(runs[|runs| - 1 := last.(end := if r.off + r.size > last.end then r.off + r.size else last.end)], lo, v + [r],
          longer)
  {
    hide TightGroup, Join;
    var n, last := |groups| - 1, runs[|runs| - 1];
    longer := groups[n := groups[n] + [r]];
    var now := runs[|runs| - 1 := last.(end := if r.off + r.size > last.end then r.off + r.size else last.end)];
    JoinGroup(last, groups[n], r);
    assert groups == groups[..n] + [groups[n]] && longer == groups[..n] + [groups[n] + [r]];
    JoinConcat(groups[..n], [groups[n]]);
    JoinConcat(groups[..n], [groups[n] + [r]]);
    JoinOne(groups[n]);
    JoinOne(groups[n] + [r]);
    forall k | 0 <= k < |longer| ensures TightGroup(now[lo + k], longer[k]) {
      if k < n { assert now[lo + k] == runs[lo + k]; }
    }
  }

  /** What the merge loop has done with the first i ranges. */
  ghost predicate Merging(runs: seq<WarmRun>, before: seq<WarmRun>, shard: Shard, v: seq<Range>, i: nat,
                          groups: seq<seq<Range>>) {
    && i <= |v| && |before| <= |runs| && runs[..|before|] == before && (|runs| == |before| <==> i == 0)
    && ShardRuns(runs, |before|, shard) && Cut(runs, |before|, v[..i], groups)
    && (i > 0 ==> runs[|runs| - 1].start <= v[i - 1].off)
    && (forall k :: 0 <= k < i ==> Covered(runs, shard, v[k]))
  }

  /** The next range touches the last run. */
  lemma MergeJoins(runs: seq<WarmRun>, before: seq<WarmRun>, shard: Shard, v: seq<Range>, i: nat,
                   groups: seq<seq<Range>>) returns (longer: seq<seq<Range>>)
    requires Merging(runs, before, shard, v, i, groups) && i < |v| && RangesSorted(v)
    requires forall k :: 0 <= k < |before| ==> before[k].shard != shard
    requires runs != [] && runs[|runs| - 1].shard == shard && v[i].off <= runs[|runs| - 1].end + RUN_MERGE_GAP
    ensures var last, r := runs[|runs| - 1], v[i];
      Merging(runs[|runs| - 1 := last.(end := if r.off + r.size > last.end then r.off + r.size else last.end)], before,
              shard, v, i + 1, longer)
  {
    hide Covered, Cut, ShardRuns, RangesSorted;
    var last, r := runs[|runs| - 1], v[i];
    var end := if r.off + r.size > last.end then r.off + r.size else last.end;
    var now := runs[|runs| - 1 := last.(end := end)];
    LastRunIs(runs, before, shard);
    if i > 0 { SortedStep(v, i); }
    longer := CutJoins(runs, |before|, v[..i], groups, r);
    RunsExtend(runs, |before|, shard, end);
    assert v[..i + 1] == v[..i] + [r];
    forall k | 0 <= k < i ensures Covered(now, shard, v[k]) { CoveredKept(runs, now, shard, v[k]); }
    CoveredBy(now, shard, r, |runs| - 1);
  }

  /** The next range opens a run. */
  lemma MergeOpens(runs: seq<WarmRun>, before: seq<WarmRun>, shard: Shard, v: seq<Range>, i: nat,
                   groups: seq<seq<Range>>)
    requires Merging(runs, before, shard, v, i, groups) && i < |v|
    requires forall k :: 0 <= k < |before| ==> before[k].shard != shard
    requires !(runs != [] && runs[|runs| - 1].shard == shard && v[i].off <= runs[|runs| - 1].end + RUN_MERGE_GAP)
    ensures Merging(runs + [WarmRun(shard, v[i].off, v[i].off + v[i].size)], before, shard, v, i + 1, groups + [[v[i]]])
  {
    hide Covered, Cut, ShardRuns;
    var r := v[i];
    var now := runs + [WarmRun(shard, r.off, r.off + r.size)];
    LastRunIs(runs, before, shard);
    CutOpens(runs, |before|, v[..i], groups, shard, r);
    RunsOpen(runs, |before|, shard, r);
    assert v[..i + 1] == v[..i] + [r];
    forall k | 0 <= k < i ensures Covered(now, shard, v[k]) { CoveredKept(runs, now, shard, v[k]); }
    CoveredBy(now, shard, r, |runs|);
  }

  lemma MergeStarts(before: seq<WarmRun>, shard: Shard, v: seq<Range>)
    ensures Merging(before, before, shard, v, 0, [])
  {
    NothingCut(before);
    assert v[..0] == [];
  }

  lemma MergeEnds(runs: seq<WarmRun>, before: seq<WarmRun>, shard: Shard, v: seq<Range>, groups: seq<seq<Range>>)
    requires Merging(runs, before, shard, v, |v|, groups)
    ensures |before| <= |runs| && runs[..|before|] == before && ShardRuns(runs, |before|, shard)
    ensures forall i :: 0 <= i < |v| ==> Covered(runs, shard, v[i])
    ensures Cut(runs, |before|, v, groups)
  {
    assert v[..|v|] == v;
  }

  /** The ranges of one shard merged behind the runs of the shards before it. */
  method MergeRanges(before: seq<WarmRun>, shard: Shard, v: seq<Range>) returns (runs: seq<WarmRun>)
    requires RangesSorted(v) && forall k :: 0 <= k < |before| ==> before[k].shard != shard
    ensures |before| <= |runs| && runs[..|before|] == before
    ensures ShardRuns(runs, |before|, shard)
    ensures forall i :: 0 <= i < |v| ==> Covered(runs, shard, v[i])
    ensures exists groups :: Cut(runs, |before|, v, groups)
  {
    hide Covered, Cut, ShardRuns, RangesSorted, Merging;
    runs := before;
    ghost var groups: seq<seq<Range>> := [];
    MergeStarts(before, shard, v);
    var i := 0;
    while i < |v|
      invariant 0 <= i <= |v| && Merging(runs, before, shard, v, i, groups)
    {
      var r := v[i];
      if runs != [] && runs[|runs| - 1].shard == shard && r.off <= runs[|runs| - 1].end + RUN_MERGE_GAP {
        var last := runs[|runs| - 1];
        groups := MergeJoins(runs, before, shard, v, i, groups);
        if r.off + r.size > last.end {
          runs := runs[|runs| - 1 := last.(end := r.off + r.size)];
        } else {
          assert runs[|runs| - 1 := last.(end := last.end)] == runs;
        }
      } else {
        MergeOpens(runs, before, shard, v, i, groups);
        groups := groups + [[r]];
        runs := runs + [WarmRun(shard, r.off, r.off + r.size)];
      }
      i := i + 1;
    }
    MergeEnds(runs, before, shard, v, groups);
  }

  lemma NothingCut(before: seq<WarmRun>)
    ensures Cut(before, |before|, [], [])
  {
  }

  /** No range of the group holds byte p of the run. */
  ghost predicate Spare(run: WarmRun, group: seq<Range>, p: nat) {
    forall k :: 0 <= k < |group| ==> !(group[k].off <= run.start + p < group[k].off + group[k].size)
  }

  /** What the run reads that no range of the group needs, from its start on. */
  ghost function Unneeded(run: WarmRun, group: seq<Range>): set<nat> {
    set p: nat | p < run.end - run.start && Spare(run, group, p)
  }

  /** A tight run begins with a listed range, ends with one, and reads at most the
      tolerated gap for each range joined to the first. */
  lemma WarmPaddingBounded(run: WarmRun, group: seq<Range>)
    requires TightGroup(run, group)
    ensures group != [] && run.start == group[0].off
    ensures exists k :: 0 <= k < |group| && run.end == group[k].off + group[k].size
    ensures |Unneeded(run, group)| <= RUN_MERGE_GAP * (|group| - 1)
  {
    var r := Carrying(run, group);
    var k := ReachAttained(r.slices);
    assert run.end == group[k].off + group[k].size;
    assert Unneeded(run, group) == Uncovered(r.slices, r.end - r.start) by { SameUnneeded(run, group); }
    PaddingBounded(r);
  }

  lemma SameUnneeded(run: WarmRun, group: seq<Range>)
    requires TightGroup(run, group)
    ensures Unneeded(run, group) == Uncovered(Carrying(run, group).slices, run.end - run.start)
  {
    hide Tight;
    var slices := Carrying(run, group).slices;
    forall p: nat ensures Spare(run, group, p) <==> Bare(slices, p) {
      assert forall k :: 0 <= k < |group| ==>
        slices[k].offsetInRun == group[k].off - run.start && slices[k].size == group[k].size;
    }
  }

  /** Covering survives adding a run or lengthening one. */
  lemma CoveredKept(was: seq<WarmRun>, runs: seq<WarmRun>, shard: Shard, r: Range)
    requires Covered(was, shard, r) && |was| <= |runs|
    requires forall k :: 0 <= k < |was| ==>
      runs[k].shard == was[k].shard && runs[k].start == was[k].start && was[k].end <= runs[k].end
    ensures Covered(runs, shard, r)
  {
    var k :| 0 <= k < |was| && InRun(was[k], shard, r);
    assert InRun(runs[k], shard, r);
  }

  lemma CoveredBy(runs: seq<WarmRun>, shard: Shard, r: Range, k: nat)
    requires k < |runs| && InRun(runs[k], shard, r)
    ensures Covered(runs, shard, r)
  {
  }

  function InsertRange(sorted: seq<Range>, x: Range): seq<Range> {
    if sorted == [] then [x]
    else if x.off <= sorted[0].off then [x] + sorted
    else [sorted[0]] + InsertRange(sorted[1..], x)
  }

  /** The ranges by offset, as the library sort leaves them. */
  function SortRanges(v: seq<Range>): seq<Range> {
    if v == [] then [] else InsertRange(SortRanges(v[1..]), v[0])
  }

  lemma ConsSorted(a: Range, r: seq<Range>, rest: seq<Range>, x: Range)
    requires RangesSorted([a] + rest) && RangesSorted(r) && a.off <= x.off
    requires multiset(r) == multiset(rest) + multiset{x}
    ensures RangesSorted([a] + r)
  {
    forall j | 0 <= j < |r| ensures a.off <= r[j].off {
      assert r[j] in multiset(r);
      if r[j] != x {
        assert r[j] in multiset(rest);
        var i :| 0 <= i < |rest| && rest[i] == r[j];
        assert ([a] + rest)[i + 1] == r[j] && ([a] + rest)[0] == a;
      }
    }
  }

  lemma {:induction false} InsertRangeFacts(s: seq<Range>, x: Range)
    requires RangesSorted(s)
    ensures RangesSorted(InsertRange(s, x))
    ensures multiset(InsertRange(s, x)) == multiset(s) + multiset{x}
  {
    if s != [] {
      assert s == [s[0]] + s[1..];
      if x.off > s[0].off {
        InsertRangeFacts(s[1..], x);
        ConsSorted(s[0], InsertRange(s[1..], x), s[1..], x);
      }
    }
  }

  lemma {:induction false} SortRangesFacts(v: seq<Range>)
    ensures RangesSorted(SortRanges(v)) && multiset(SortRanges(v)) == multiset(v)
    ensures forall r :: r in SortRanges(v) <==> r in v
  {
    if v != [] {
      SortRangesFacts(v[1..]);
      InsertRangeFacts(SortRanges(v[1..]), v[0]);
      assert v == [v[0]] + v[1..];
    }
    forall r ensures r in SortRanges(v) <==> r in v {
      assert r in v <==> r in multiset(v);
      assert r in SortRanges(v) <==> r in multiset(SortRanges(v));
    }
  }

  /** Any two runs of one shard are further apart than the tolerated gap. */
  ghost predicate RunsApart(runs: seq<WarmRun>) {
    forall i, j :: 0 <= i < j < |runs| && runs[i].shard == runs[j].shard ==> runs[i].end + RUN_MERGE_GAP < runs[j].start
  }

  ghost predicate RangesCovered(runs: seq<WarmRun>, shard: Shard, v: seq<Range>) {
    forall r :: r in v ==> Covered(runs, shard, r)
  }

  lemma StillApart(before: seq<WarmRun>, runs: seq<WarmRun>, shard: Shard)
    requires RunsApart(before) && |before| <= |runs| && runs[..|before|] == before && ShardRuns(runs, |before|, shard)
    requires forall k :: 0 <= k < |before| ==> before[k].shard != shard
    ensures RunsApart(runs)
  {
    assert forall k :: 0 <= k < |before| ==> runs[k] == before[k];
    forall i, j | 0 <= i < j < |runs| && runs[i].shard == runs[j].shard
      ensures runs[i].end + RUN_MERGE_GAP < runs[j].start
    {
      if i >= |before| { RunsDisjoint(runs, |before|, shard, i, j); }
    }
  }

  lemma StillCovered(before: seq<WarmRun>, runs: seq<WarmRun>, shard: Shard, v: seq<Range>)
    requires RangesCovered(before, shard, v) && |before| <= |runs| && runs[..|before|] == before
    ensures RangesCovered(runs, shard, v)
  {
    assert forall k :: 0 <= k < |before| ==> runs[k] == before[k];
    forall r | r in v ensures Covered(runs, shard, r) { CoveredKept(before, runs, shard, r); }
  }

  lemma NewlyCovered(runs: seq<WarmRun>, shard: Shard, v: seq<Range>, sorted: seq<Range>)
    requires (forall i :: 0 <= i < |sorted| ==> Covered(runs, shard, sorted[i])) && forall r :: r in v ==> r in sorted
    ensures RangesCovered(runs, shard, v)
  {
    hide Covered;
  }

  /** The run is one of listed ranges of its shard, each used at most as often as listed. */
  ghost predicate FromListed(run: WarmRun, byShard: map<Shard, seq<Range>>) {
    run.shard in byShard
    && exists group :: TightGroup(run, group) && multiset(group) <= multiset(byShard[run.shard])
  }

  lemma {:induction false} JoinHolds<T>(pieces: seq<seq<T>>, k: nat)
    requires k < |pieces|
    ensures multiset(pieces[k]) <= multiset(Join(pieces))
  {
    if k > 0 { JoinHolds(pieces[1..], k - 1); }
  }

  /** The runs new in one shard come from its listed ranges. */
  lemma CutFromListed(runs: seq<WarmRun>, lo: nat, shard: Shard, sorted: seq<Range>, byShard: map<Shard, seq<Range>>,
                      k: nat)
    requires ShardRuns(runs, lo, shard) && lo <= k < |runs| && shard in byShard
    requires multiset(sorted) == multiset(byShard[shard]) && exists groups :: Cut(runs, lo, sorted, groups)
    ensures FromListed(runs[k], byShard)
  {
    hide TightGroup;
    var groups :| Cut(runs, lo, sorted, groups);
    JoinHolds(groups, k - lo);
    assert TightGroup(runs[lo + (k - lo)], groups[k - lo]);
  }

  /** The merge over all shards: every listed range of every shard is inside a
      run of its shard, the runs of a shard are disjoint, and each is tight around
      listed ranges. */
  method MergeShards(byShard: map<Shard, seq<Range>>) returns (runs: seq<WarmRun>)
    ensures forall shard :: shard in byShard ==> RangesCovered(runs, shard, byShard[shard])
    ensures RunsApart(runs)
    ensures forall k :: 0 <= k < |runs| ==> FromListed(runs[k], byShard)
  {
    hide RunsApart, RangesCovered, Covered, SortRanges, RangesSorted, Cut, FromListed;
    runs := [];
    assert RunsApart(runs) by { NothingApart(); }
    var todo := byShard.Keys;
    while todo != {}
      invariant todo <= byShard.Keys && RunsApart(runs)
      invariant forall k :: 0 <= k < |runs| ==> runs[k].shard in byShard && runs[k].shard !in todo
      invariant forall shard :: shard in byShard && shard !in todo ==> RangesCovered(runs, shard, byShard[shard])
      invariant forall k :: 0 <= k < |runs| ==> FromListed(runs[k], byShard)
      decreases |todo|
    {
      var shard :| shard in todo;
      var sorted := SortRanges(byShard[shard]);
      SortRangesFacts(byShard[shard]);
      var merged := MergeRanges(runs, shard, sorted);
      StillApart(runs, merged, shard);
      forall other | other in byShard && other !in todo ensures RangesCovered(merged, other, byShard[other]) {
        StillCovered(runs, merged, other, byShard[other]);
      }
      NewlyCovered(merged, shard, byShard[shard], sorted);
      assert forall k :: 0 <= k < |runs| ==> merged[k] == runs[k];
      forall k | |runs| <= k < |merged| ensures FromListed(merged[k], byShard) {
        CutFromListed(merged, |runs|, shard, sorted, byShard, k);
      }
      runs := merged;
      todo := todo - {shard};
    }
  }

  lemma NothingApart()
    ensures RunsApart([])
  {
  }

  // ---------------------------------------------------------------- chunks

  datatype Chunk = Chunk(shard: Shard, off: nat, size: nat)

  /** The chunks of a run from pos on. */
  function Chunks(run: WarmRun, pos: nat): seq<Chunk>
    decreases run.end - pos
  {
    if pos >= run.end then []
    else
      var size := if WARM_CHUNK < run.end - pos then WARM_CHUNK else run.end - pos;
      [Chunk(run.shard, pos, size)] + Chunks(run, pos + WARM_CHUNK)
  }

  /** The chunks lie end to end from start to end, none empty, none longer than a buffer. */
  ghost predicate Tile(chunks: seq<Chunk>, shard: Shard, start: nat, end: nat)
    decreases |chunks|
  {
    if chunks == [] then start == end
    else
      var c := chunks[0];
      c.shard == shard && c.off == start && 0 < c.size <= WARM_CHUNK && c.off + c.size <= end
        && Tile(chunks[1..], shard, c.off + c.size, end)
  }

  /** Cutting a run into chunks neither drops, repeats nor adds a byte. */
  lemma {:induction false} ChunksTile(run: WarmRun, pos: nat)
    requires pos <= run.end
    ensures Tile(Chunks(run, pos), run.shard, pos, run.end)
    decreases run.end - pos
  {
    if pos + WARM_CHUNK < run.end {
      ChunksTile(run, pos + WARM_CHUNK);
      assert Chunks(run, pos)[1..] == Chunks(run, pos + WARM_CHUNK);
    } else if pos < run.end {
      assert Chunks(run, pos + WARM_CHUNK) == [];
      assert Chunks(run, pos)[1..] == [];
    }
  }

  // ---------------------------------------------------------------- the buffer pool

  datatype Event = Submit(chunk: Chunk, buffer: nat) | WaitAll

  /** No read into the buffer is submitted after the last wait. */
  ghost predicate Free(log: seq<Event>, buffer: nat) {
    forall i :: 0 <= i < |log| && log[i].Submit? && log[i].buffer == buffer ==> WaitedAfter(log, i)
  }

  ghost predicate WaitedAfter(log: seq<Event>, i: nat) {
    exists w :: i < w < |log| && log[w].WaitAll?
  }

  /** Every read goes to a buffer no outstanding read targets, and fits it. */
  ghost predicate PoolSafe(log: seq<Event>) {
    forall i :: 0 <= i < |log| && log[i].Submit? ==>
      log[i].buffer < WARM_POOL && log[i].chunk.size <= WARM_CHUNK && Free(log[..i], log[i].buffer)
  }

  function Submitted(log: seq<Event>): seq<Chunk> {
    if log == [] then []
    else
      var last := log[|log| - 1];
      Submitted(log[..|log| - 1]) + (if last.Submit? then [last.chunk] else [])
  }

  /** After n submissions the buffers n % 16 and up are free. */
  ghost predicate PoolOk(log: seq<Event>, n: nat) {
    PoolSafe(log) && |Submitted(log)| == n && forall b :: n % WARM_POOL <= b < WARM_POOL ==> Free(log, b)
  }

  lemma FreeStep(log: seq<Event>, e: Event, b: nat)
    requires Free(log, b) && (e.Submit? ==> e.buffer != b)
    ensures Free(log + [e], b)
  {
    forall i | 0 <= i < |log + [e]| && (log + [e])[i].Submit? && (log + [e])[i].buffer == b
      ensures WaitedAfter(log + [e], i)
    {
      assert WaitedAfter(log, i);
      var w :| i < w < |log| && log[w].WaitAll?;
      assert (log + [e])[w].WaitAll?;
    }
  }

  lemma FreeAfterWait(log: seq<Event>, b: nat)
    ensures Free(log + [WaitAll], b)
  {
    var now := log + [WaitAll];
    forall i | 0 <= i < |now| && now[i].Submit? ensures WaitedAfter(now, i) {
      assert now[|log|].WaitAll?;
    }
  }

  lemma SafeStep(log: seq<Event>, e: Event)
    requires PoolSafe(log) && (e.Submit? ==> e.buffer < WARM_POOL && e.chunk.size <= WARM_CHUNK && Free(log, e.buffer))
    ensures PoolSafe(log + [e])
  {
    hide Free;
    var now := log + [e];
    forall i | 0 <= i < |now| && now[i].Submit?
      ensures now[i].buffer < WARM_POOL && now[i].chunk.size <= WARM_CHUNK && Free(now[..i], now[i].buffer)
    {
      assert i < |log| ==> now[..i] == log[..i] && now[i] == log[i];
      assert i == |log| ==> now[..i] == log;
    }
  }

  lemma SubmittedStep(log: seq<Event>, e: Event)
    ensures Submitted(log + [e]) == Submitted(log) + (if e.Submit? then [e.chunk] else [])
  {
    assert (log + [e])[..|log|] == log;
  }

  /** submit: the next buffer round robin, and a full wait whenever the pool wraps. */
  method SubmitChunk(log: seq<Event>, submitted: nat, c: Chunk) returns (now: seq<Event>, n: nat)
    requires PoolOk(log, submitted) && c.size <= WARM_CHUNK
    ensures PoolOk(now, n) && Submitted(now) == Submitted(log) + [c]
  {
    hide Free, PoolSafe, Submitted;
    var idx := submitted % WARM_POOL;
    var e := Submit(c, idx);
    SafeStep(log, e);
    SubmittedStep(log, e);
    now, n := log + [e], submitted + 1;
    forall b | idx < b < WARM_POOL ensures Free(now, b) { FreeStep(log, e, b); }
    if n % WARM_POOL == 0 {
      SafeStep(now, WaitAll);
      SubmittedStep(now, WaitAll);
      forall b: nat ensures Free(now + [WaitAll], b) { FreeAfterWait(now, b); }
      now := now + [WaitAll];
    }
  }

  function AllChunks(runs: seq<WarmRun>): seq<Chunk> {
    if runs == [] then [] else AllChunks(runs[..|runs| - 1]) + Chunks(runs[|runs| - 1], runs[|runs| - 1].start)
  }

  /** The read loop: every chunk of every run is submitted once, in order, and no
      two reads outstanding at the same time share a buffer. */
  method WarmAll(runs: seq<WarmRun>) returns (log: seq<Event>)
    ensures PoolSafe(log) && Submitted(log) == AllChunks(runs)
  {
    hide PoolSafe, Submitted, Free, Chunks;
    log := [];
    var submitted := 0;
    assert PoolOk(log, 0) && Submitted(log) == [] by { NothingSubmitted(); }
    var r := 0;
    while r < |runs|
      invariant 0 <= r <= |runs| && PoolOk(log, submitted) && Submitted(log) == AllChunks(runs[..r])
    {
      assert runs[..r + 1][..r] == runs[..r];
      log, submitted := WarmRunChunks(log, submitted, runs[r]);
      r := r + 1;
    }
    assert runs[..r] == runs;
    SafeStep(log, WaitAll);
    SubmittedStep(log, WaitAll);
    log := log + [WaitAll];
  }

  lemma NothingSubmitted()
    ensures PoolOk([], 0) && Submitted([]) == []
  {
  }

  method WarmRunChunks(was: seq<Event>, n: nat, run: WarmRun) returns (log: seq<Event>, submitted: nat)
    requires PoolOk(was, n)
    ensures PoolOk(log, submitted) && Submitted(log) == Submitted(was) + Chunks(run, run.start)
  {
    hide PoolOk, Submitted;
    log, submitted := was, n;
    var pos := run.start;
    while pos < run.end
      invariant PoolOk(log, submitted)
      invariant Submitted(log) + Chunks(run, pos) == Submitted(was) + Chunks(run, run.start)
      decreases run.end - pos
    {
      var c := Chunk(run.shard, pos, if WARM_CHUNK < run.end - pos then WARM_CHUNK else run.end - pos);
      log, submitted := SubmitChunk(log, submitted, c);
      pos := pos + WARM_CHUNK;
    }
  }
}
