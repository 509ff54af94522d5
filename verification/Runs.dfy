/** Coalescing the projections of a batch into merged shard reads: the run
    builder of prefetchAsync and what its runs guarantee. */
module Runs {
  import opened ExpertDisk

  /** Largest gap, in bytes, tolerated between two projections of one run. */
  const RUN_MERGE_GAP: nat := 1024 * 1024

  /** One projection to be read from a shard for an assembly. */
  datatype Projection = Projection(shard: Shard, assem: nat, offset: nat, size: nat, expertOffset: nat)

  /** A projection inside a run. */
  datatype Slice = Slice(assem: nat, expertOffset: nat, size: nat, offsetInRun: nat)

  /** One merged read [start, end) of a shard. */
  datatype Run = Run(shard: Shard, start: nat, end: nat, slices: seq<Slice>)

  // ---------------------------------------------------------------- what a run means

  /** The projection a slice of a run stands for. */
  function Placed(run: Run, i: nat): Projection
    requires i < |run.slices|
  {
    var s := run.slices[i];
    Projection(run.shard, s.assem, run.start + s.offsetInRun, s.size, s.expertOffset)
  }

  function PlacedAll(run: Run): seq<Projection> {
    seq(|run.slices|, i requires 0 <= i < |run.slices| => Placed(run, i))
  }

  /** All projections of a list of runs, run by run. */
  function Flat(runs: seq<Run>): seq<Projection> {
    if runs == [] then [] else PlacedAll(runs[0]) + Flat(runs[1..])
  }

  /** The end, relative to the run, of the slice reaching furthest. */
  function Reach(slices: seq<Slice>): nat {
    if slices == [] then 0
    else
      var last := slices[|slices| - 1];
      var before := Reach(slices[..|slices| - 1]);
      if last.offsetInRun + last.size > before then last.offsetInRun + last.size else before
  }

  /** A run starts with its first slice, ends with the furthest one, and each
      further slice begins at most the tolerated gap behind what was reached. */
  ghost predicate Tight(run: Run) {
    && run.slices != [] && run.slices[0].offsetInRun == 0
    && run.start <= run.end && run.end - run.start == Reach(run.slices)
    && forall k :: 0 < k < |run.slices| ==> run.slices[k].offsetInRun <= Reach(run.slices[..k]) + RUN_MERGE_GAP
  }

  /** Consecutive runs of a shard are further apart than the tolerated gap. */
  ghost predicate Apart(runs: seq<Run>) {
    forall r :: 0 <= r < |runs| - 1 ==> runs[r + 1].start > runs[r].end + RUN_MERGE_GAP
  }

  /** Any two runs of one shard are that far apart. */
  ghost predicate AllApart(runs: seq<Run>) {
    forall r, q :: 0 <= r < q < |runs| && runs[r].shard == runs[q].shard ==> runs[q].start > runs[r].end + RUN_MERGE_GAP
  }

  ghost predicate Sorted(ios: seq<Projection>) {
    forall i, j :: 0 <= i < j < |ios| ==> ios[i].offset <= ios[j].offset
  }

  lemma {:induction false} FlatConcat(a: seq<Run>, b: seq<Run>)
    ensures Flat(a + b) == Flat(a) + Flat(b)
  {
    hide PlacedAll, Placed;
    if a == [] {
      assert a + b == b;
    } else {
      FlatConcat(a[1..], b);
      assert (a + b)[1..] == a[1..] + b;
    }
  }

  lemma FlatOne(run: Run)
    ensures Flat([run]) == PlacedAll(run)
  {
    assert [run][1..] == [];
    assert Flat([run]) == PlacedAll(run) + Flat([run][1..]);
  }

  // ---------------------------------------------------------------- one shard

  lemma ReachOne(s: Slice)
    ensures Reach([s]) == s.offsetInRun + s.size
  {
    assert [s][..0] == [];
    assert Reach([s][..0]) == 0;
  }

  lemma ReachSnoc(slices: seq<Slice>, s: Slice)
    ensures Reach(slices + [s]) ==
      if s.offsetInRun + s.size > Reach(slices) then s.offsetInRun + s.size else Reach(slices)
  {
    assert (slices + [s])[..|slices|] == slices;
  }

  /** A new run for io. */
  lemma OpenRun(io: Projection)
    ensures var run := Run(io.shard, io.offset, io.offset + io.size, [Slice(io.assem, io.expertOffset, io.size, 0)]);
      Tight(run) && PlacedAll(run) == [io]
  {
    ReachOne(Slice(io.assem, io.expertOffset, io.size, 0));
  }

  function Extended(run: Run, io: Projection): Run
    requires run.start <= io.offset
  {
    var end := if io.offset + io.size > run.end then io.offset + io.size else run.end;
    run.(end := end, slices := run.slices + [Slice(io.assem, io.expertOffset, io.size, io.offset - run.start)])
  }

  /** io joined to a run that it touches. */
  lemma ExtendRun(run: Run, io: Projection)
    requires Tight(run) && run.start <= io.offset <= run.end + RUN_MERGE_GAP
    ensures Tight(Extended(run, io))
  {
    hide Reach;
    var slices := Extended(run, io).slices;
    ReachSnoc(run.slices, slices[|run.slices|]);
    assert slices[0] == run.slices[0];
    forall k | 0 < k < |slices| ensures slices[k].offsetInRun <= Reach(slices[..k]) + RUN_MERGE_GAP {
      assert slices[..k] == run.slices[..k];
      if k == |run.slices| { assert run.slices[..k] == run.slices; }
    }
  }

  lemma ExtendPlaces(run: Run, io: Projection)
    requires io.shard == run.shard && run.start <= io.offset
    ensures PlacedAll(Extended(run, io)) == PlacedAll(run) + [io]
  {
  }

  /** The merge loop over the offset-sorted projections of one shard: every
      projection lands in exactly one run, in order, at its own offset. */
  method MergeShard(shard: Shard, ios: seq<Projection>) returns (runs: seq<Run>)
    requires Sorted(ios) && forall i :: 0 <= i < |ios| ==> ios[i].shard == shard
    ensures Flat(runs) == ios
    ensures forall r :: 0 <= r < |runs| ==> runs[r].shard == shard && Tight(runs[r])
    ensures Apart(runs)
  {
    hide Tight, Flat, PlacedAll;
    runs := [];
    FlatNothing();
    var i := 0;
    while i < |ios|
      invariant 0 <= i <= |ios|
      invariant runs == [] <==> i == 0
      invariant Flat(runs) == ios[..i]
      invariant forall r :: 0 <= r < |runs| ==> runs[r].shard == shard && Tight(runs[r])
      invariant runs != [] ==> runs[|runs| - 1].start <= ios[i - 1].offset
      invariant Apart(runs)
    {
      var io := ios[i];
      assert ios[..i + 1] == ios[..i] + [io];
      if runs == [] || io.offset > runs[|runs| - 1].end + RUN_MERGE_GAP {
        var run := Run(shard, io.offset, io.offset + io.size, [Slice(io.assem, io.expertOffset, io.size, 0)]);
        OpenRun(io);
        FlatConcat(runs, [run]);
        FlatOne(run);
        runs := runs + [run];
      } else {
        var n := |runs| - 1;
        var run := runs[n];
        ExtendRun(run, io);
        ExtendPlaces(run, io);
        var end := run.end;
        if io.offset + io.size > end {
          end := io.offset + io.size;
        }
        var longer := run.(end := end, slices := run.slices
            + [Slice(io.assem, io.expertOffset, io.size, io.offset - run.start)]);
        FlatReplaceLast(runs, longer);
        runs := runs[..n] + [longer];
      }
      i := i + 1;
    }
    assert ios[..i] == ios;
  }

  lemma FlatNothing()
    ensures Flat([]) == []
  {
  }

  lemma FlatReplaceLast(runs: seq<Run>, longer: Run)
    requires runs != []
    ensures Flat(runs[..|runs| - 1] + [longer]) == Flat(runs[..|runs| - 1]) + PlacedAll(longer)
    ensures Flat(runs) == Flat(runs[..|runs| - 1]) + PlacedAll(runs[|runs| - 1])
  {
    var front, last := runs[..|runs| - 1], runs[|runs| - 1];
    assert runs == front + [last];
    FlatSnoc(front, last);
    FlatSnoc(front, longer);
  }

  lemma FlatSnoc(front: seq<Run>, run: Run)
    ensures Flat(front + [run]) == Flat(front) + PlacedAll(run)
  {
    hide PlacedAll, Flat;
    FlatConcat(front, [run]);
    FlatOne(run);
  }

  // ---------------------------------------------------------------- padding

  ghost predicate Bare(slices: seq<Slice>, p: nat) {
    forall k :: 0 <= k < |slices| ==> !(slices[k].offsetInRun <= p < slices[k].offsetInRun + slices[k].size)
  }

  /** The positions below n, relative to the run, that no slice covers. */
  ghost function Uncovered(slices: seq<Slice>, n: nat): set<nat> {
    set p: nat | p < n && Bare(slices, p)
  }

  ghost function Interval(a: nat, b: nat): (s: set<nat>)
    ensures forall p :: p in s <==> a <= p < b
    ensures |s| == if a <= b then b - a else 0
  {
    if b <= a then {} else Interval(a, b - 1) + {b - 1}
  }

  lemma SubsetSize<T>(a: set<T>, b: set<T>, c: set<T>)
    requires a <= b + c
    ensures |a| <= |b| + |c|
  {
    var d := b + c;
    assert d == a + (d - a);
    assert d == b + (c - b);
    assert c == (c * b) + (c - b);
  }

  /** One more slice uncovers at most the gap before it. */
  lemma UncoveredStep(before: seq<Slice>, s: Slice)
    ensures Uncovered(before + [s], Reach(before + [s])) <= Uncovered(before, Reach(before))
        + Interval(Reach(before), s.offsetInRun)
  {
    var slices := before + [s];
    ReachSnoc(before, s);
    forall p | p in Uncovered(slices, Reach(slices))
      ensures p in Uncovered(before, Reach(before)) + Interval(Reach(before), s.offsetInRun)
    {
      assert slices[|before|] == s;
      assert Bare(before, p) by {
        assert forall k :: 0 <= k < |before| ==> before[k] == slices[k];
      }
    }
  }

  lemma {:induction false} PaddingUpTo(slices: seq<Slice>, n: nat)
    requires 0 < n <= |slices| && slices[0].offsetInRun == 0
    requires forall k :: 0 < k < n ==> slices[k].offsetInRun <= Reach(slices[..k]) + RUN_MERGE_GAP
    ensures |Uncovered(slices[..n], Reach(slices[..n]))| <= RUN_MERGE_GAP * (n - 1)
    decreases n
  {
    hide Reach, Uncovered, Interval;
    var before, s := slices[..n - 1], slices[n - 1];
    assert slices[..n] == before + [s];
    UncoveredStep(before, s);
    SubsetSize(Uncovered(slices[..n], Reach(slices[..n])), Uncovered(before, Reach(before)),
      Interval(Reach(before), s.offsetInRun));
    if n == 1 {
      assert before == [] && s.offsetInRun == 0;
      UncoveredNothing();
      assert |Uncovered(slices[..n], Reach(slices[..n]))| <= 0;
    } else {
      PaddingUpTo(slices, n - 1);
      assert s.offsetInRun <= Reach(before) + RUN_MERGE_GAP;
      assert RUN_MERGE_GAP * (n - 2) + RUN_MERGE_GAP == RUN_MERGE_GAP * (n - 1);
    }
  }

  lemma UncoveredNothing()
    ensures Reach([]) == 0 && Uncovered([], 0) == {}
  {
  }

  /** What a run reads without needing it is at most the tolerated gap per join. */
  lemma PaddingBounded(run: Run)
    requires Tight(run)
    ensures |Uncovered(run.slices, run.end - run.start)| <= RUN_MERGE_GAP * (|run.slices| - 1)
  {
    hide Reach, Uncovered;
    assert run.slices[..|run.slices|] == run.slices;
    PaddingUpTo(run.slices, |run.slices|);
  }

  lemma {:induction false} ReachCovers(slices: seq<Slice>, k: nat)
    requires k < |slices|
    ensures slices[k].offsetInRun + slices[k].size <= Reach(slices)
  {
    if k + 1 < |slices| {
      ReachCovers(slices[..|slices| - 1], k);
    }
  }

  lemma {:induction false} ReachAttained(slices: seq<Slice>) returns (k: nat)
    requires slices != []
    ensures k < |slices| && Reach(slices) == slices[k].offsetInRun + slices[k].size
  {
    k := |slices| - 1;
    if |slices| == 1 {
      ReachOne(slices[0]);
      assert slices == [slices[0]];
    } else if Reach(slices) != slices[k].offsetInRun + slices[k].size {
      k := ReachAttained(slices[..|slices| - 1]);
    }
  }

  // ---------------------------------------------------------------- a whole batch

  /** The runs of a batch: the same projections, regrouped. Neither the order of
      the shards nor that of the runs matters. */
  ghost predicate Regrouped(ios: seq<Projection>, runs: seq<Run>) {
    multiset(Flat(runs)) == multiset(ios) && forall r :: 0 <= r < |runs| ==> Tight(runs[r])
  }

  function InsertByOffset(sorted: seq<Projection>, x: Projection): seq<Projection> {
    if sorted == [] then [x]
    else if x.offset <= sorted[0].offset then [x] + sorted
    else [sorted[0]] + InsertByOffset(sorted[1..], x)
  }

  /** Some offset-sorted arrangement, as the library sort produces one. */
  function SortByOffset(ios: seq<Projection>): seq<Projection> {
    if ios == [] then [] else InsertByOffset(SortByOffset(ios[1..]), ios[0])
  }

  lemma {:induction false} InsertByOffsetKeeps(s: seq<Projection>, x: Projection)
    ensures multiset(InsertByOffset(s, x)) == multiset(s) + multiset{x}
  {
    if s != [] {
      assert s == [s[0]] + s[1..];
      if x.offset > s[0].offset {
        InsertByOffsetKeeps(s[1..], x);
        MultisetCons(s[0], InsertByOffset(s[1..], x), s[1..], x);
      }
    }
  }

  lemma MultisetCons<T>(a: T, r: seq<T>, s: seq<T>, x: T)
    requires multiset(r) == multiset(s) + multiset{x}
    ensures multiset([a] + r) == multiset([a] + s) + multiset{x}
  {
  }

  lemma {:induction false} InsertByOffsetSorts(s: seq<Projection>, x: Projection)
    requires Sorted(s)
    ensures Sorted(InsertByOffset(s, x))
  {
    if s != [] && x.offset > s[0].offset {
      InsertByOffsetSorts(s[1..], x);
      InsertByOffsetKeeps(s[1..], x);
      NoneBefore(s, x, InsertByOffset(s[1..], x));
    }
  }

  lemma NoneBefore(s: seq<Projection>, x: Projection, rest: seq<Projection>)
    requires s != [] && Sorted(s) && x.offset > s[0].offset && multiset(rest) == multiset(s[1..]) + multiset{x}
    ensures forall j :: 0 <= j < |rest| ==> s[0].offset <= rest[j].offset
  {
    forall j | 0 <= j < |rest| ensures s[0].offset <= rest[j].offset {
      assert rest[j] in multiset(rest);
      assert rest[j] == x || rest[j] in multiset(s[1..]);
      if rest[j] != x { assert rest[j] in s[1..]; }
    }
  }

  lemma {:induction false} SortByOffsetFacts(ios: seq<Projection>)
    ensures Sorted(SortByOffset(ios)) && multiset(SortByOffset(ios)) == multiset(ios)
  {
    hide Sorted, InsertByOffset;
    if ios == [] {
      assert Sorted([]) by { SortedNothing(); }
    } else {
      assert ios == [ios[0]] + ios[1..];
      SortByOffsetFacts(ios[1..]);
      InsertByOffsetKeeps(SortByOffset(ios[1..]), ios[0]);
      InsertByOffsetSorts(SortByOffset(ios[1..]), ios[0]);
    }
  }

  lemma SortedNothing()
    ensures Sorted([])
  {
  }

  /** The projections of one shard, in batch order. */
  function OfShard(ios: seq<Projection>, shard: Shard): (r: seq<Projection>)
    ensures forall i :: 0 <= i < |r| ==> r[i].shard == shard
  {
    if ios == [] then []
    else
      var last := ios[|ios| - 1];
      OfShard(ios[..|ios| - 1], shard) + (if last.shard == shard then [last] else [])
  }

  function OfShards(ios: seq<Projection>, shards: set<Shard>): seq<Projection> {
    if ios == [] then []
    else
      var last := ios[|ios| - 1];
      OfShards(ios[..|ios| - 1], shards) + (if last.shard in shards then [last] else [])
  }

  lemma {:induction false} OfShardsSplit(ios: seq<Projection>, shards: set<Shard>, shard: Shard)
    requires shard !in shards
    ensures multiset(OfShards(ios, shards + {shard})) == multiset(OfShards(ios, shards)) + multiset(OfShard(ios, shard))
  {
    if ios != [] {
      var front, last := ios[..|ios| - 1], ios[|ios| - 1];
      OfShardsSplit(front, shards, shard);
      var a, b, c := OfShards(front, shards + {shard}), OfShards(front, shards), OfShard(front, shard);
      if last.shard == shard {
        assert multiset(a + [last]) == multiset(b) + multiset(c + [last]);
        assert b + [] == b;
      } else if last.shard in shards {
        assert multiset(a + [last]) == multiset(b + [last]) + multiset(c);
        assert c + [] == c;
      } else {
        assert a + [] == a && b + [] == b && c + [] == c;
      }
    }
  }

  lemma {:induction false} OfShardsAll(ios: seq<Projection>, shards: set<Shard>)
    requires forall k :: 0 <= k < |ios| ==> ios[k].shard in shards
    ensures OfShards(ios, shards) == ios
  {
    if ios != [] {
      OfShardsAll(ios[..|ios| - 1], shards);
      assert ios == ios[..|ios| - 1] + [ios[|ios| - 1]];
    }
  }

  lemma {:induction false} OfShardsNone(ios: seq<Projection>)
    ensures OfShards(ios, {}) == []
  {
    if ios != [] { OfShardsNone(ios[..|ios| - 1]); }
  }

  lemma OfShardStep(ios: seq<Projection>, n: nat, shard: Shard)
    requires n < |ios|
    ensures OfShard(ios[..n + 1], shard) == OfShard(ios[..n], shard) + (if ios[n].shard == shard then [ios[n]] else [])
  {
    assert ios[..n + 1][..n] == ios[..n];
  }

  /** Grouping by shard. */
  method GroupByShard(ios: seq<Projection>) returns (byShard: map<Shard, seq<Projection>>)
    ensures forall k :: 0 <= k < |ios| ==> ios[k].shard in byShard
    ensures forall shard :: shard in byShard ==> byShard[shard] == OfShard(ios, shard)
  {
    hide OfShard;
    byShard := map[];
    var n := 0;
    forall shard ensures OfShard(ios[..0], shard) == [] { OfShardNothing(ios[..0], shard); }
    while n < |ios|
      invariant 0 <= n <= |ios|
      invariant forall k :: 0 <= k < n ==> ios[k].shard in byShard
      invariant forall shard :: OfShard(ios[..n], shard) == if shard in byShard then byShard[shard] else []
    {
      var io := ios[n];
      forall shard
        ensures OfShard(ios[..n + 1], shard) == OfShard(ios[..n], shard) + (if io.shard == shard then [io] else [])
      {
        OfShardStep(ios, n, shard);
      }
      var list := if io.shard in byShard then byShard[io.shard] else [];
      byShard := byShard[io.shard := list + [io]];
      n := n + 1;
    }
    assert ios[..n] == ios;
  }

  lemma OfShardNothing(ios: seq<Projection>, shard: Shard)
    requires ios == []
    ensures OfShard(ios, shard) == []
  {
  }

  lemma SortedOfShard(ios: seq<Projection>, shard: Shard, sorted: seq<Projection>)
    requires multiset(sorted) == multiset(OfShard(ios, shard))
    ensures forall i :: 0 <= i < |sorted| ==> sorted[i].shard == shard
  {
    forall i | 0 <= i < |sorted| ensures sorted[i].shard == shard {
      assert sorted[i] in multiset(OfShard(ios, shard));
    }
  }

  lemma {:induction false} ApartPairwise(runs: seq<Run>, r: nat, q: nat)
    requires Apart(runs) && r < q < |runs| && forall k :: 0 <= k < |runs| ==> runs[k].start <= runs[k].end
    ensures runs[q].start > runs[r].end + RUN_MERGE_GAP
    decreases q
  {
    assert runs[q - 1 + 1].start > runs[q - 1].end + RUN_MERGE_GAP;
    if r < q - 1 { ApartPairwise(runs, r, q - 1); }
  }

  lemma NothingApart()
    ensures AllApart([])
  {
  }

  lemma TightOrdered(run: Run)
    requires Tight(run)
    ensures run.start <= run.end
  {
  }

  /** The runs of a further shard join those of the shards before it. */
  lemma JoinApart(runs: seq<Run>, merged: seq<Run>, shard: Shard)
    requires AllApart(runs) && Apart(merged) && forall r :: 0 <= r < |runs| ==> runs[r].shard != shard
    requires forall r :: 0 <= r < |merged| ==> merged[r].shard == shard && Tight(merged[r])
    ensures AllApart(runs + merged)
  {
    hide Tight, Apart;
    var all := runs + merged;
    forall k | 0 <= k < |merged| ensures merged[k].start <= merged[k].end { TightOrdered(merged[k]); }
    forall r, q | 0 <= r < q < |all| && all[r].shard == all[q].shard ensures all[q].start > all[r].end + RUN_MERGE_GAP {
      if r >= |runs| {
        ApartPairwise(merged, r - |runs|, q - |runs|);
      } else {
        assert q < |runs|;
      }
    }
  }

  /** The run builder: group by shard, sort, merge. */
  method BuildRuns(ios: seq<Projection>) returns (runs: seq<Run>)
    ensures Regrouped(ios, runs) && AllApart(runs)
  {
    hide Tight, Flat, Sorted, OfShard, SortByOffset, Apart, AllApart;
    var byShard := GroupByShard(ios);
    runs := [];
    var todo, done := byShard.Keys, {};
    OfShardsNone(ios);
    FlatNothing();
    assert AllApart(runs) by { NothingApart(); }
    while todo != {}
      invariant todo + done == byShard.Keys && todo !! done
      invariant multiset(Flat(runs)) == multiset(OfShards(ios, done))
      invariant forall r :: 0 <= r < |runs| ==> Tight(runs[r]) && runs[r].shard in done
      invariant AllApart(runs)
      decreases |todo|
    {
      var shard :| shard in todo;
      var sorted := SortByOffset(byShard[shard]);
      SortByOffsetFacts(byShard[shard]);
      SortedOfShard(ios, shard, sorted);
      var merged := MergeShard(shard, sorted);
      FlatConcat(runs, merged);
      OfShardsSplit(ios, done, shard);
      JoinApart(runs, merged, shard);
      runs := runs + merged;
      todo, done := todo - {shard}, done + {shard};
    }
    OfShardsAll(ios, done);
  }
}
