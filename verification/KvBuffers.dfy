/** The strided blocks behind the key/value cache: where a cell lies, writing one
    token, and rebasing a block to a larger stride. */
module KvBuffers {
  import opened Bytes
  import opened KvModel

  // ---------------------------------------------------------------- one block

  function Row(cap: nat, dim: nat): nat {
    cap * dim
  }

  function RowAt(cap: nat, dim: nat, h: nat): nat {
    h * Row(cap, dim)
  }

  function Col(dim: nat, t: nat): nat {
    t * dim
  }

  /** The head-major index of a cell. */
  function Offset(cap: nat, dim: nat, h: nat, t: nat): nat {
    RowAt(cap, dim, h) + Col(dim, t)
  }

  /** A block of heads rows of cap cells of dim floats. */
  ghost predicate IsBlock(b: Vec, heads: nat, cap: nat, dim: nat) {
    |b| == RowAt(cap, dim, heads)
  }

  lemma Apart(h: nat, g: nat, n: nat)
    requires h < g
    ensures h * n + n <= g * n
  {
    assert (g - h - 1) * n >= 0;
    assert g * n == h * n + n + (g - h - 1) * n;
  }

  lemma RowsApart(cap: nat, dim: nat, h: nat, g: nat)
    requires h < g
    ensures RowAt(cap, dim, h) + Row(cap, dim) <= RowAt(cap, dim, g)
  {
    hide Row;
    Apart(h, g, Row(cap, dim));
  }

  lemma ColsApart(dim: nat, t: nat, u: nat)
    requires t < u
    ensures Col(dim, t) + dim <= Col(dim, u)
  {
    Apart(t, u, dim);
  }

  lemma ColInRow(cap: nat, dim: nat, t: nat)
    ensures t < cap ==> Col(dim, t) + dim <= Row(cap, dim)
    ensures t >= cap ==> Row(cap, dim) <= Col(dim, t)
  {
    if t < cap { ColsApart(dim, t, cap); }
    if t > cap { ColsApart(dim, cap, t); }
  }

  lemma OffsetFits(heads: nat, cap: nat, dim: nat, h: nat, t: nat)
    requires h < heads && t < cap
    ensures Offset(cap, dim, h, t) + dim <= RowAt(cap, dim, heads)
  {
    hide Row, RowAt, Col;
    ColInRow(cap, dim, t);
    RowsApart(cap, dim, h, heads);
  }

  /** The index is injective: different cells do not overlap. */
  lemma OffsetsApart(cap: nat, dim: nat, h: nat, t: nat, g: nat, u: nat)
    requires t < cap && u < cap && (h < g || (h == g && t < u))
    ensures Offset(cap, dim, h, t) + dim <= Offset(cap, dim, g, u)
  {
    hide Row, RowAt, Col;
    if h < g {
      ColInRow(cap, dim, t);
      RowsApart(cap, dim, h, g);
    } else {
      ColsApart(dim, t, u);
    }
  }

  /** The cell of head h at position t. */
  function CellAt(b: Vec, heads: nat, cap: nat, dim: nat, h: nat, t: nat): (r: Vec)
    requires IsBlock(b, heads, cap, dim) && h < heads && t < cap
    ensures |r| == dim
  {
    OffsetFits(heads, cap, dim, h, t);
    b[Offset(cap, dim, h, t)..Offset(cap, dim, h, t) + dim]
  }

  // ---------------------------------------------------------------- writing one token

  /** The heads below n have been written at position pos, nothing else has changed. */
  ghost predicate WrittenUpTo(b: Vec, was: Vec, heads: nat, cap: nat, dim: nat, pos: nat, data: Vec, n: nat) {
    && IsBlock(b, heads, cap, dim) && IsBlock(was, heads, cap, dim) && |data| == heads * dim && n <= heads
    && forall h: nat, t: nat :: h < heads && t < cap ==>
         CellAt(b, heads, cap, dim, h, t) == if t == pos && h < n then HeadPart(data, heads, dim, h)
                                             else CellAt(was, heads, cap, dim, h, t)
  }

  function HeadPart(data: Vec, heads: nat, dim: nat, h: nat): (r: Vec)
    requires |data| == heads * dim && h < heads
    ensures IsPart(r, data, dim, h)
  {
    PartFits(h, heads, dim);
    Part(data, dim, h)
  }

  /** Other cells than the one written stay as they are. */
  lemma CellElsewhere(b: Vec, heads: nat, cap: nat, dim: nat, n: nat, pos: nat, piece: Vec, h: nat, t: nat)
    requires IsBlock(b, heads, cap, dim) && n < heads && pos < cap && h < heads && t < cap && |piece| == dim
    requires h != n || t != pos
    ensures Offset(cap, dim, n, pos) + dim <= |b|
    ensures IsBlock(Spliced(b, Offset(cap, dim, n, pos), piece), heads, cap, dim)
    ensures CellAt(Spliced(b, Offset(cap, dim, n, pos), piece), heads, cap, dim, h, t)
         == CellAt(b, heads, cap, dim, h, t)
  {
    hide Offset, Spliced, RowAt;
    OffsetFits(heads, cap, dim, n, pos);
    OffsetFits(heads, cap, dim, h, t);
    var at, lo := Offset(cap, dim, n, pos), Offset(cap, dim, h, t);
    if h < n || (h == n && t < pos) {
      OffsetsApart(cap, dim, h, t, n, pos);
    } else {
      OffsetsApart(cap, dim, n, pos, h, t);
    }
    SplicedElsewhere(b, at, piece, lo, lo + dim);
  }

  lemma CellWritten(b: Vec, heads: nat, cap: nat, dim: nat, n: nat, pos: nat, piece: Vec)
    requires IsBlock(b, heads, cap, dim) && n < heads && pos < cap && |piece| == dim
    ensures Offset(cap, dim, n, pos) + dim <= |b|
    ensures IsBlock(Spliced(b, Offset(cap, dim, n, pos), piece), heads, cap, dim)
    ensures CellAt(Spliced(b, Offset(cap, dim, n, pos), piece), heads, cap, dim, n, pos) == piece
  {
    hide Offset, Spliced, RowAt;
    OffsetFits(heads, cap, dim, n, pos);
    SplicedAt(b, Offset(cap, dim, n, pos), piece);
  }

  lemma WrittenAt(b: Vec, was: Vec, heads: nat, cap: nat, dim: nat, pos: nat, data: Vec, n: nat, h: nat, t: nat)
    requires WrittenUpTo(b, was, heads, cap, dim, pos, data, n) && h < heads && t < cap
    ensures CellAt(b, heads, cap, dim, h, t) == if t == pos && h < n then HeadPart(data, heads, dim, h)
                                                else CellAt(was, heads, cap, dim, h, t)
  {
    hide CellAt, HeadPart;
  }

  lemma WriteHead(b: Vec, was: Vec, heads: nat, cap: nat, dim: nat, pos: nat, data: Vec, n: nat)
    requires WrittenUpTo(b, was, heads, cap, dim, pos, data, n) && n < heads && pos < cap
    ensures Offset(cap, dim, n, pos) + dim <= |b|
    ensures WrittenUpTo(Spliced(b, Offset(cap, dim, n, pos), HeadPart(data, heads, dim, n)), was, heads, cap, dim, pos,
        data, n + 1)
  {
    hide Offset, Spliced, HeadPart, RowAt, CellAt;
    var piece := HeadPart(data, heads, dim, n);
    CellWritten(b, heads, cap, dim, n, pos, piece);
    var c := Spliced(b, Offset(cap, dim, n, pos), piece);
    forall h: nat, t: nat | h < heads && t < cap
      ensures CellAt(c, heads, cap, dim, h, t) == if t == pos && h < n + 1 then HeadPart(data, heads, dim, h)
                                                  else CellAt(was, heads, cap, dim, h, t)
    {
      if h != n || t != pos {
        CellElsewhere(b, heads, cap, dim, n, pos, piece, h, t);
        WrittenAt(b, was, heads, cap, dim, pos, data, n, h, t);
      }
    }
  }

  /** The per-head copy loop of an append; stride must be the length of a head's row. */
  method WriteToken(b: Vec, heads: nat, stride: nat, dim: nat, pos: nat, data: Vec, ghost cap: nat) returns (r: Vec)
    requires stride == Row(cap, dim)
    requires IsBlock(b, heads, cap, dim) && pos < cap && |data| == heads * dim
    ensures WrittenUpTo(r, b, heads, cap, dim, pos, data, heads)
    ensures forall h: nat :: h < heads ==> IsPart(CellAt(r, heads, cap, dim, h, pos), data, dim, h)
  {
    hide WrittenUpTo, Spliced, Row, IsPart;
    r := b;
    assert WrittenUpTo(r, b, heads, cap, dim, pos, data, 0) by { NothingWritten(b, heads, cap, dim, pos, data); }
    var h := 0;
    while h < heads
      invariant 0 <= h <= heads && WrittenUpTo(r, b, heads, cap, dim, pos, data, h)
    {
      WriteHead(r, b, heads, cap, dim, pos, data, h);
      r := Spliced(r, h * stride + pos * dim, HeadPart(data, heads, dim, h));
      h := h + 1;
    }
    WrittenIsData(r, b, heads, cap, dim, pos, data);
  }

  lemma WrittenIsData(b: Vec, was: Vec, heads: nat, cap: nat, dim: nat, pos: nat, data: Vec)
    requires WrittenUpTo(b, was, heads, cap, dim, pos, data, heads) && pos < cap
    ensures IsBlock(b, heads, cap, dim)
    ensures forall h: nat :: h < heads ==> IsPart(CellAt(b, heads, cap, dim, h, pos), data, dim, h)
  {
    hide CellAt, IsPart, IsBlock;
  }

  lemma NothingWritten(b: Vec, heads: nat, cap: nat, dim: nat, pos: nat, data: Vec)
    requires IsBlock(b, heads, cap, dim) && |data| == heads * dim
    ensures WrittenUpTo(b, b, heads, cap, dim, pos, data, 0)
  {
  }

  // ---------------------------------------------------------------- rebasing a block

  /** The rows below n hold the old cells and zeros behind them; the others are zero. */
  ghost predicate RebasedUpTo(b: Vec, was: Vec, heads: nat, oldCap: nat, cap: nat, dim: nat, n: nat) {
    && IsBlock(b, heads, cap, dim) && IsBlock(was, heads, oldCap, dim) && oldCap <= cap && n <= heads
    && forall h: nat, t: nat :: h < heads && t < cap ==>
         CellAt(b, heads, cap, dim, h, t) == if h < n && t < oldCap then CellAt(was, heads, oldCap, dim, h, t)
                                             else Zero(dim)
  }

  /** Old row n, and where it goes. */
  function OldRow(was: Vec, heads: nat, oldCap: nat, dim: nat, n: nat): (r: Vec)
    requires IsBlock(was, heads, oldCap, dim) && n < heads
    ensures |r| == Row(oldCap, dim)
  {
    RowsApart(oldCap, dim, n, heads);
    was[RowAt(oldCap, dim, n)..RowAt(oldCap, dim, n) + Row(oldCap, dim)]
  }

  lemma RowFits(heads: nat, oldCap: nat, cap: nat, dim: nat, n: nat)
    requires n < heads && oldCap <= cap
    ensures RowAt(cap, dim, n) + Row(oldCap, dim) <= RowAt(cap, dim, heads)
    ensures Row(oldCap, dim) <= Row(cap, dim)
  {
    RowsApart(cap, dim, n, heads);
    assert (cap - oldCap) * dim >= 0;
    assert cap * dim == oldCap * dim + (cap - oldCap) * dim;
  }

  lemma RebaseRow(b: Vec, was: Vec, heads: nat, oldCap: nat, cap: nat, dim: nat, n: nat)
    requires RebasedUpTo(b, was, heads, oldCap, cap, dim, n) && n < heads
    ensures IsBlock(was, heads, oldCap, dim) && RowAt(cap, dim, n) + Row(oldCap, dim) <= |b|
    ensures RebasedUpTo(Spliced(b, RowAt(cap, dim, n), OldRow(was, heads, oldCap, dim, n)), was, heads, oldCap, cap,
        dim, n + 1)
  {
    RowFits(heads, oldCap, cap, dim, n);
    hide Spliced, RebasedUpTo, CellAt, Row, RowAt, OldRow;
    RebasedSizes(b, was, heads, oldCap, cap, dim, n);
    var c := Spliced(b, RowAt(cap, dim, n), OldRow(was, heads, oldCap, dim, n));
    forall h: nat, t: nat | h < heads && t < cap
      ensures CellAt(c, heads, cap, dim, h, t) == if h < n + 1
          && t < oldCap then CellAt(was, heads, oldCap, dim, h, t) else Zero(dim)
    {
      RebasedCell(b, was, heads, oldCap, cap, dim, n, h, t);
      if h == n && t < oldCap {
        RebasedInRow(b, was, heads, oldCap, cap, dim, n, t);
      } else {
        RebasedOutside(b, was, heads, oldCap, cap, dim, n, h, t);
      }
    }
    RebasedFrom(c, was, heads, oldCap, cap, dim, n + 1);
  }

  lemma RebasedSizes(b: Vec, was: Vec, heads: nat, oldCap: nat, cap: nat, dim: nat, n: nat)
    requires RebasedUpTo(b, was, heads, oldCap, cap, dim, n)
    ensures IsBlock(b, heads, cap, dim) && IsBlock(was, heads, oldCap, dim) && oldCap <= cap
  {
  }

  lemma RebasedCell(b: Vec, was: Vec, heads: nat, oldCap: nat, cap: nat, dim: nat, n: nat, h: nat, t: nat)
    requires RebasedUpTo(b, was, heads, oldCap, cap, dim, n) && h < heads && t < cap
    ensures CellAt(b, heads, cap, dim, h, t) == if h < n && t < oldCap then CellAt(was, heads, oldCap, dim, h, t)
                                                else Zero(dim)
  {
  }

  lemma RebasedFrom(b: Vec, was: Vec, heads: nat, oldCap: nat, cap: nat, dim: nat, n: nat)
    requires IsBlock(b, heads, cap, dim) && IsBlock(was, heads, oldCap, dim) && oldCap <= cap && n <= heads
    requires forall h: nat, t: nat :: h < heads && t < cap ==>
      CellAt(b, heads, cap, dim, h, t) == if h < n && t < oldCap then CellAt(was, heads, oldCap, dim, h, t)
                                          else Zero(dim)
    ensures RebasedUpTo(b, was, heads, oldCap, cap, dim, n)
  {
  }

  lemma RebasedInRow(b: Vec, was: Vec, heads: nat, oldCap: nat, cap: nat, dim: nat, n: nat, t: nat)
    requires IsBlock(b, heads, cap, dim) && IsBlock(was, heads, oldCap, dim) && oldCap <= cap && n < heads && t < oldCap
    requires RowAt(cap, dim, n) + Row(oldCap, dim) <= |b|
    ensures CellAt(Spliced(b, RowAt(cap, dim, n), OldRow(was, heads, oldCap, dim, n)), heads, cap, dim, n, t)
         == CellAt(was, heads, oldCap, dim, n, t)
  {
    hide Spliced, Row, RowAt, Col;
    var at, row, piece := RowAt(cap, dim, n), Row(oldCap, dim), OldRow(was, heads, oldCap, dim, n);
    var c := Spliced(b, at, piece);
    SplicedAt(b, at, piece);
    ColInRow(oldCap, dim, t);
    RowsApart(oldCap, dim, n, heads);
    Inside(c, at, row, Col(dim, t), dim);
    Inside(was, RowAt(oldCap, dim, n), row, Col(dim, t), dim);
  }

  lemma Inside(b: Vec, at: nat, row: nat, lo: nat, n: nat)
    requires at + row <= |b| && lo + n <= row
    ensures b[at..at + row][lo..lo + n] == b[at + lo..at + lo + n]
  {
    var r := b[at..at + row][lo..lo + n];
    assert forall k :: 0 <= k < |r| ==> r[k] == b[at + lo + k];
  }

  lemma RebasedOutside(b: Vec, was: Vec, heads: nat, oldCap: nat, cap: nat, dim: nat, n: nat, h: nat, t: nat)
    requires IsBlock(b, heads, cap, dim) && IsBlock(was, heads, oldCap, dim) && oldCap <= cap && n < heads && h < heads
      && t < cap
    requires h != n || t >= oldCap
    requires RowAt(cap, dim, n) + Row(oldCap, dim) <= |b|
    ensures CellAt(Spliced(b, RowAt(cap, dim, n), OldRow(was, heads, oldCap, dim, n)), heads, cap, dim, h, t)
         == CellAt(b, heads, cap, dim, h, t)
  {
    hide Spliced, Row, RowAt, Col, OldRow;
    var at, piece := RowAt(cap, dim, n), OldRow(was, heads, oldCap, dim, n);
    var lo := Offset(cap, dim, h, t);
    OffsetFits(heads, cap, dim, h, t);
    ColInRow(cap, dim, t);
    ColInRow(oldCap, dim, t);
    RowFits(heads, oldCap, cap, dim, n);
    if h < n {
      RowsApart(cap, dim, h, n);
    } else if n < h {
      RowsApart(cap, dim, n, h);
    }
    SplicedElsewhere(b, at, piece, lo, lo + dim);
  }

  lemma ZeroBlock(was: Vec, heads: nat, oldCap: nat, cap: nat, dim: nat)
    requires IsBlock(was, heads, oldCap, dim) && oldCap <= cap
    ensures RebasedUpTo(Zero(RowAt(cap, dim, heads)), was, heads, oldCap, cap, dim, 0)
  {
    hide CellAt;
    var z := Zero(RowAt(cap, dim, heads));
    forall h: nat, t: nat | h < heads && t < cap ensures CellAt(z, heads, cap, dim, h, t) == Zero(dim) {
      ZeroCell(heads, cap, dim, h, t);
    }
  }

  lemma ZeroCell(heads: nat, cap: nat, dim: nat, h: nat, t: nat)
    requires h < heads && t < cap
    ensures CellAt(Zero(RowAt(cap, dim, heads)), heads, cap, dim, h, t) == Zero(dim)
  {
    hide Row, RowAt, Col;
    OffsetFits(heads, cap, dim, h, t);
  }

  /** The per-head copy loop of a rebase: each head's row moves to its new stride. */
  method Rebase(b: Vec, heads: nat, oldStride: nat, newStride: nat, ghost oldCap: nat, ghost cap: nat,
                ghost dim: nat) returns (r: Vec)
    requires oldStride == Row(oldCap, dim) && newStride == Row(cap, dim)
    requires IsBlock(b, heads, oldCap, dim) && oldCap <= cap
    ensures RebasedUpTo(r, b, heads, oldCap, cap, dim, heads)
  {
    hide RebasedUpTo, Spliced, Zero, Row;
    r := Zero(heads * newStride);
    ZeroBlock(b, heads, oldCap, cap, dim);
    var h := 0;
    while h < heads
      invariant 0 <= h <= heads && RebasedUpTo(r, b, heads, oldCap, cap, dim, h)
    {
      RebaseRow(r, b, heads, oldCap, cap, dim, h);
      RowsApart(oldCap, dim, h, heads);
      r := Spliced(r, h * newStride, b[h * oldStride..h * oldStride + oldStride]);
      h := h + 1;
    }
  }

  /** Longer by zeros, or cut: the vector's own resize. */
  function Resize(b: Vec, n: nat): (r: Vec)
    ensures |r| == n
  {
    if |b| <= n then b + Zero(n - |b|) else b[..n]
  }

  /** A resized single-row block is a rebased one: the stride does not matter. */
  lemma ResizeRebases(b: Vec, oldCap: nat, cap: nat, dim: nat)
    requires IsBlock(b, 1, oldCap, dim) && oldCap <= cap
    ensures RebasedUpTo(Resize(b, Row(cap, dim)), b, 1, oldCap, cap, dim, 1)
  {
    RowFits(1, oldCap, cap, dim, 0);
    OneRow(oldCap, dim);
    OneRow(cap, dim);
    var r := Resize(b, Row(cap, dim));
    hide Row, RowAt, Col;
    assert r == b + Zero(Row(cap, dim) - Row(oldCap, dim));
    forall h: nat, t: nat | h < 1 && t < cap
      ensures CellAt(r, 1, cap, dim, h, t) == if t < oldCap then CellAt(b, 1, oldCap, dim, h, t) else Zero(dim)
    {
      ColInRow(oldCap, dim, t);
      ColInRow(cap, dim, t);
    }
  }

  lemma OneRow(cap: nat, dim: nat)
    ensures RowAt(cap, dim, 0) == 0 && RowAt(cap, dim, 1) == Row(cap, dim)
  {
  }
}
