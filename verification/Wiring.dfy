/** Staging a batch: the private assemblies of the forward thread, the
    projections they need, and wiring the merged runs that carry them. */
module Wiring {
  import opened Bytes
  import opened ExpertDisk
  import opened Runs
  import opened Assembling

  // ---------------------------------------------------------------- the projections of a batch

  function ProjectionOf(parts: seq<Loc>, a: nat, p: nat): Projection
    requires p < |parts|
  {
    Projection(parts[p].shard, a, parts[p].off, parts[p].size, OffsetOf(parts, p))
  }

  /** The projections to read for assembly a: one for each of the first n parts that is not empty. */
  function PartIos(parts: seq<Loc>, a: nat, n: nat): seq<Projection>
    requires n <= |parts|
  {
    if n == 0 then []
    else PartIos(parts, a, n - 1) + (if parts[n - 1].size > 0 then [ProjectionOf(parts, a, n - 1)] else [])
  }

  /** The projections of assemblies lo..hi, in order. */
  function BatchIos(ix: Index, asms: seq<Assembly>, lo: nat, hi: nat): seq<Projection>
    requires lo <= hi <= |asms|
  {
    if lo == hi then []
    else
      var parts := Parts(ix, asms[hi - 1].key);
      BatchIos(ix, asms, lo, hi - 1) + PartIos(parts, hi - 1, |parts|)
  }

  lemma NonEmptyStep(parts: seq<Loc>, n: nat)
    requires n < |parts|
    ensures NonEmptyParts(parts[..n + 1]) == NonEmptyParts(parts[..n]) + (if parts[n].size > 0 then 1 else 0)
  {
    assert parts[..n + 1][..n] == parts[..n];
  }

  /** The per-projection loop: the counter starts at the number of projections,
      empty ones are counted off at once, the others are queued with the offset
      they will have in the assembled block. */
  method StageParts(parts: seq<Loc>, a: nat) returns (ios: seq<Projection>, remaining: int)
    ensures ios == PartIos(parts, a, |parts|)
    ensures remaining == NonEmptyParts(parts)
  {
    hide TotalSize, NonEmptyParts, PartIos;
    ios, remaining := [], |parts|;
    var expertOffset := 0;
    var p := 0;
    StagedNothing(parts, a);
    while p < |parts|
      invariant 0 <= p <= |parts|
      invariant ios == PartIos(parts, a, p)
      invariant expertOffset == OffsetOf(parts, p)
      invariant remaining == |parts| - p + NonEmptyParts(parts[..p])
    {
      StagedOne(parts, a, p);
      if parts[p].size == 0 {
        remaining := remaining - 1;
      } else {
        ios := ios + [Projection(parts[p].shard, a, parts[p].off, parts[p].size, expertOffset)];
        expertOffset := expertOffset + parts[p].size;
      }
      p := p + 1;
    }
    assert parts[..p] == parts;
  }

  lemma StagedNothing(parts: seq<Loc>, a: nat)
    ensures PartIos(parts, a, 0) == [] && OffsetOf(parts, 0) == 0 && NonEmptyParts(parts[..0]) == 0
  {
  }

  lemma StagedOne(parts: seq<Loc>, a: nat, p: nat)
    requires p < |parts|
    ensures PartIos(parts, a, p + 1) == PartIos(parts, a, p)
        + (if parts[p].size > 0 then [ProjectionOf(parts, a, p)] else [])
    ensures OffsetOf(parts, p + 1) == OffsetOf(parts, p) + parts[p].size
    ensures NonEmptyParts(parts[..p + 1]) == NonEmptyParts(parts[..p]) + (if parts[p].size > 0 then 1 else 0)
  {
    OffsetStep(parts, p);
    NonEmptyStep(parts, p);
  }

  /** x is the projection of a non-empty part of one of the assemblies lo..hi. */
  ghost predicate FromPart(ix: Index, asms: seq<Assembly>, lo: nat, hi: nat, x: Projection, p: nat)
    requires hi <= |asms|
  {
    && lo <= x.assem < hi && p < |Parts(ix, asms[x.assem].key)|
    && Parts(ix, asms[x.assem].key)[p].size > 0 && x == ProjectionOf(Parts(ix, asms[x.assem].key), x.assem, p)
  }

  lemma {:induction false} PartIosFrom(parts: seq<Loc>, a: nat, n: nat, k: nat) returns (p: nat)
    requires n <= |parts| && k < |PartIos(parts, a, n)|
    ensures p < n && parts[p].size > 0 && PartIos(parts, a, n)[k] == ProjectionOf(parts, a, p)
    decreases n
  {
    if k < |PartIos(parts, a, n - 1)| {
      p := PartIosFrom(parts, a, n - 1, k);
    } else {
      p := n - 1;
    }
  }

  lemma {:induction false} PartIosHas(parts: seq<Loc>, a: nat, n: nat, p: nat)
    requires p < n <= |parts| && parts[p].size > 0
    ensures ProjectionOf(parts, a, p) in PartIos(parts, a, n)
    decreases n
  {
    if p < n - 1 { PartIosHas(parts, a, n - 1, p); }
  }

  /** Parts of positive size have different offsets. */
  lemma OffsetsDiffer(parts: seq<Loc>, p: nat, q: nat)
    requires p < |parts| && q < |parts| && parts[p].size > 0 && parts[q].size > 0
    requires OffsetOf(parts, p) == OffsetOf(parts, q)
    ensures p == q
  {
    if p < q { OffsetsDisjoint(parts, p, q); }
    if q < p { OffsetsDisjoint(parts, q, p); }
  }

  lemma {:induction false} PartIosDistinct(parts: seq<Loc>, a: nat, n: nat)
    requires n <= |parts|
    ensures Distinct(PartIos(parts, a, n))
    decreases n
  {
    if n > 0 {
      hide OffsetOf;
      PartIosDistinct(parts, a, n - 1);
      if parts[n - 1].size > 0 {
        var front := PartIos(parts, a, n - 1);
        forall k | 0 <= k < |front| ensures front[k] != ProjectionOf(parts, a, n - 1) {
          var p := PartIosFrom(parts, a, n - 1, k);
          if OffsetOf(parts, p) == OffsetOf(parts, n - 1) { OffsetsDiffer(parts, p, n - 1); }
        }
      }
    }
  }

  lemma {:induction false} BatchIosFrom(ix: Index, asms: seq<Assembly>, lo: nat, hi: nat, k: nat) returns (p: nat)
    requires lo <= hi <= |asms| && k < |BatchIos(ix, asms, lo, hi)|
    ensures FromPart(ix, asms, lo, hi, BatchIos(ix, asms, lo, hi)[k], p)
    decreases hi
  {
    hide PartIos, OffsetOf, Parts;
    var front := BatchIos(ix, asms, lo, hi - 1);
    if k < |front| {
      p := BatchIosFrom(ix, asms, lo, hi - 1, k);
    } else {
      var parts := Parts(ix, asms[hi - 1].key);
      p := PartIosFrom(parts, hi - 1, |parts|, k - |front|);
    }
  }

  lemma {:induction false} BatchIosHas(ix: Index, asms: seq<Assembly>, lo: nat, hi: nat, a: nat, p: nat)
    requires lo <= a < hi <= |asms| && p < |Parts(ix, asms[a].key)| && Parts(ix, asms[a].key)[p].size > 0
    ensures ProjectionOf(Parts(ix, asms[a].key), a, p) in BatchIos(ix, asms, lo, hi)
    decreases hi
  {
    hide PartIos, OffsetOf, Parts;
    if a < hi - 1 {
      BatchIosHas(ix, asms, lo, hi - 1, a, p);
    } else {
      PartIosHas(Parts(ix, asms[a].key), a, |Parts(ix, asms[a].key)|, p);
    }
  }

  lemma {:induction false} BatchIosDistinct(ix: Index, asms: seq<Assembly>, lo: nat, hi: nat)
    requires lo <= hi <= |asms|
    ensures Distinct(BatchIos(ix, asms, lo, hi))
    decreases hi
  {
    hide PartIos, BatchIos, OffsetOf, Parts, Distinct, NoCommon;
    if lo < hi {
      BatchIosDistinct(ix, asms, lo, hi - 1);
      var parts := Parts(ix, asms[hi - 1].key);
      PartIosDistinct(parts, hi - 1, |parts|);
      BatchIosStep(ix, asms, lo, hi);
      BatchIosApart(ix, asms, lo, hi);
      DistinctJoined(BatchIos(ix, asms, lo, hi - 1), PartIos(parts, hi - 1, |parts|));
    } else {
      NothingDistinct(ix, asms, lo);
    }
  }

  lemma NothingDistinct(ix: Index, asms: seq<Assembly>, lo: nat)
    requires lo <= |asms|
    ensures Distinct(BatchIos(ix, asms, lo, lo))
  {
  }

  lemma BatchIosApart(ix: Index, asms: seq<Assembly>, lo: nat, hi: nat)
    requires lo < hi <= |asms|
    ensures NoCommon(BatchIos(ix, asms, lo, hi - 1),
        PartIos(Parts(ix, asms[hi - 1].key), hi - 1, |Parts(ix, asms[hi - 1].key)|))
  {
    hide PartIos, BatchIos, OffsetOf, Parts;
    var front, parts := BatchIos(ix, asms, lo, hi - 1), Parts(ix, asms[hi - 1].key);
    var back := PartIos(parts, hi - 1, |parts|);
    forall k | 0 <= k < |front| ensures front[k].assem < hi - 1 {
      var p := BatchIosFrom(ix, asms, lo, hi - 1, k);
    }
    forall l | 0 <= l < |back| ensures back[l].assem == hi - 1 {
      var q := PartIosFrom(parts, hi - 1, |parts|, l);
    }
  }

  ghost predicate NoCommon<T>(a: seq<T>, b: seq<T>) {
    forall i, j :: 0 <= i < |a| && 0 <= j < |b| ==> a[i] != b[j]
  }

  lemma DistinctJoined<T>(a: seq<T>, b: seq<T>)
    requires Distinct(a) && Distinct(b) && NoCommon(a, b)
    ensures Distinct(a + b)
  {
    forall i, j | 0 <= i < j < |a + b| ensures (a + b)[i] != (a + b)[j] {
      if i < |a| && j >= |a| {
        assert a[i] != b[j - |a|];
      } else if i >= |a| {
        assert b[i - |a|] != b[j - |a|];
      }
    }
  }

  lemma BatchIosStep(ix: Index, asms: seq<Assembly>, lo: nat, hi: nat)
    requires lo < hi <= |asms|
    ensures BatchIos(ix, asms, lo, hi)
         == BatchIos(ix, asms, lo, hi - 1) + PartIos(Parts(ix, asms[hi - 1].key), hi - 1, |Parts(ix, asms[hi - 1].key)|)
  {
  }

  // ---------------------------------------------------------------- regrouping

  lemma {:induction false} DistinctCount<T>(s: seq<T>, x: T)
    requires Distinct(s)
    ensures multiset(s)[x] <= 1
  {
    if s != [] {
      var front, last := s[..|s| - 1], s[|s| - 1];
      assert s == front + [last];
      DistinctCount(front, x);
      assert forall k :: 0 <= k < |front| ==> front[k] == s[k];
      assert last !in front;
    }
  }

  lemma RepeatedCount<T>(s: seq<T>, i: nat, j: nat)
    requires i < j < |s| && s[i] == s[j]
    ensures multiset(s)[s[i]] >= 2
  {
    var x, front, back := s[i], s[..j], s[j..];
    assert s == front + back;
    assert front[i] == x && back[0] == x;
    assert x in multiset(front) && x in multiset(back);
  }

  /** Rearranging keeps elements pairwise different. */
  lemma DistinctRearranged<T>(s: seq<T>, t: seq<T>)
    requires Distinct(s) && multiset(t) == multiset(s)
    ensures Distinct(t)
  {
    forall i, j | 0 <= i < j < |t| ensures t[i] != t[j] {
      if t[i] == t[j] {
        RepeatedCount(t, i, j);
        DistinctCount(s, t[i]);
      }
    }
  }

  lemma {:induction false} FlatHas(runs: seq<Run>, r: nat, i: nat)
    requires r < |runs| && i < |runs[r].slices|
    ensures Placed(runs[r], i) in Flat(runs)
  {
    if r == 0 {
      assert PlacedAll(runs[0])[i] == Placed(runs[0], i);
    } else {
      FlatHas(runs[1..], r - 1, i);
    }
  }

  lemma {:induction false} FlatFrom(runs: seq<Run>, x: Projection) returns (r: nat, i: nat)
    requires x in Flat(runs)
    ensures r < |runs| && i < |runs[r].slices| && Placed(runs[r], i) == x
  {
    if x in PlacedAll(runs[0]) {
      r := 0;
      i :| 0 <= i < |PlacedAll(runs[0])| && PlacedAll(runs[0])[i] == x;
    } else {
      r, i := FlatFrom(runs[1..], x);
      r := r + 1;
    }
  }

  /** When all projections differ, a projection has one place in the runs. */
  lemma {:induction false} FlatUnique(runs: seq<Run>, r: nat, i: nat, q: nat, l: nat)
    requires Distinct(Flat(runs))
    requires r < |runs| && i < |runs[r].slices| && q < |runs| && l < |runs[q].slices|
    requires Placed(runs[r], i) == Placed(runs[q], l)
    ensures r == q && i == l
  {
    var head, tail := PlacedAll(runs[0]), Flat(runs[1..]);
    assert Flat(runs) == head + tail;
    DistinctHalves(head, tail);
    if r == 0 && q == 0 {
      assert head[i] == head[l];
    } else if r > 0 && q > 0 {
      FlatUnique(runs[1..], r - 1, i, q - 1, l);
    } else if r == 0 {
      assert head[i] in head;
      FlatHas(runs[1..], q - 1, l);
    } else {
      assert head[l] in head;
      FlatHas(runs[1..], r - 1, i);
    }
  }

  lemma DistinctHalves<T>(a: seq<T>, b: seq<T>)
    requires Distinct(a + b)
    ensures Distinct(a) && Distinct(b) && NoCommon(a, b)
  {
    assert forall k :: 0 <= k < |b| ==> b[k] == (a + b)[|a| + k];
    assert forall k :: 0 <= k < |a| ==> a[k] == (a + b)[k];
  }
}
