/** Bytes and the few sequence facts the other modules share. */
module Bytes {
  type byte = b: int | 0 <= b < 256

  datatype Option<+T> = None | Some(value: T)

  /** No element occurs twice. */
  ghost predicate Distinct<T>(s: seq<T>) {
    forall i, j :: 0 <= i < j < |s| ==> s[i] != s[j]
  }

  /** s without its element at index i. */
  function Without<T>(s: seq<T>, i: nat): (r: seq<T>)
    requires i < |s|
    ensures |r| == |s| - 1
    ensures forall j :: 0 <= j < |r| ==> r[j] == if j < i then s[j] else s[j + 1]
  {
    s[..i] + s[i + 1..]
  }

  lemma WithoutKeepsDistinct<T>(s: seq<T>, i: nat)
    requires i < |s| && Distinct(s)
    ensures Distinct(Without(s, i))
    ensures forall x :: x in Without(s, i) <==> x in s && x != s[i]
  {
    var r := Without(s, i);
    forall x ensures x in r <==> x in s && x != s[i] {
      if x in s && x != s[i] {
        var j :| 0 <= j < |s| && s[j] == x;
        assert r[if j < i then j else j - 1] == x;
      }
      if x in r {
        var j :| 0 <= j < |r| && r[j] == x;
        assert x == s[if j < i then j else j + 1];
      }
    }
  }

  /** b with piece written over it from index at on: a memory copy into b. */
  function Spliced<T>(b: seq<T>, at: nat, piece: seq<T>): (r: seq<T>)
    requires at + |piece| <= |b|
    ensures |r| == |b|
  {
    b[..at] + piece + b[at + |piece|..]
  }

  lemma SplicedAt<T>(b: seq<T>, at: nat, piece: seq<T>)
    requires at + |piece| <= |b|
    ensures Spliced(b, at, piece)[at..at + |piece|] == piece
  {
  }

  lemma SplicedElsewhere<T>(b: seq<T>, at: nat, piece: seq<T>, lo: nat, hi: nat)
    requires at + |piece| <= |b| && lo <= hi <= |b| && (hi <= at || at + |piece| <= lo)
    ensures Spliced(b, at, piece)[lo..hi] == b[lo..hi]
  {
  }

  /** The concatenation of the pieces. */
  function Join<T>(pieces: seq<seq<T>>): seq<T> {
    if pieces == [] then [] else pieces[0] + Join(pieces[1..])
  }

  lemma {:induction false} JoinConcat<T>(u: seq<seq<T>>, v: seq<seq<T>>)
    ensures Join(u + v) == Join(u) + Join(v)
  {
    if u == [] {
      assert u + v == v;
    } else {
      JoinConcat(u[1..], v);
      assert (u + v)[0] == u[0] && (u + v)[1..] == u[1..] + v;
    }
  }
}
