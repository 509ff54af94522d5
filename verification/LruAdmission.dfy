/** Admission: when an insertion is accepted, exactly, and which call of a
    series of identical calls is the first to be accepted. */
module LruAdmission {
  import opened Bytes
  import opened LruModel

  // ---------------------------------------------------------------- bounds

  lemma KeptAfterSweep(c: Cache)
    requires Valid(c)
    ensures Covers(EvictOne(c).0.order, EvictOne(c).0.table)
    ensures KeptBytes(EvictOne(c).0.order, EvictOne(c).0.table) <= KeptBytes(c.order, c.table)
  {
    var t := Swept(c);
    KeptBytesShrinks(c.order, c.table, t);
    var i := Victim(c);
    if i >= 0 {
      ListsWithout(c.order, t, i);
      KeptBytesWithout(c.order, t, i);
      KeptBytesShrinks(Without(c.order, i), t, t - {c.order[i]});
    }
  }

  lemma StuckSweepKeepsAll(c: Cache)
    requires Valid(c) && !EvictOne(c).1
    ensures c.used == KeptBytes(c.order, c.table)
  {
    assert Victim(c) < 0;
    KeptAtMostTotal(c.order, c.table);
  }

  /** Room is always found when the new block fits beside the bytes that are
      pinned or soft-protected before the sweeps start. */
  lemma {:induction false} MakeRoomFits(c: Cache, sz: nat)
    requires Valid(c)
    requires sz + KeptBytes(c.order, c.table) <= c.capacity
    ensures MakeRoom(c, sz).used + sz <= c.capacity
    decreases |c.order|
  {
    if !(c.used + sz <= c.capacity || c.order == []) {
      EvictOneValid(c);
      KeptAfterSweep(c);
      if EvictOne(c).1 {
        MakeRoomFits(EvictOne(c).0, sz);
      } else {
        StuckSweepKeepsAll(c);
      }
    }
  }

  /** Bytes of the pinned entries. */
  function PinnedBytes(order: seq<ExpertKey>, table: map<ExpertKey, Entry>): nat
    requires Covers(order, table)
  {
    if order == [] then 0
    else (if table[order[0]].pinned then |table[order[0]].handle| else 0) + PinnedBytes(order[1..], table)
  }

  lemma {:induction false} PinnedSame(order: seq<ExpertKey>, t: map<ExpertKey, Entry>, u: map<ExpertKey, Entry>)
    requires forall k :: k in order ==> k in t && k in u && t[k].handle == u[k].handle && t[k].pinned == u[k].pinned
    ensures PinnedBytes(order, t) == PinnedBytes(order, u)
  {
    if order != [] { PinnedSame(order[1..], t, u); }
  }

  lemma {:induction false} PinnedWithout(order: seq<ExpertKey>, table: map<ExpertKey, Entry>, i: nat)
    requires Covers(order, table)
    requires i < |order|
    ensures Covers(Without(order, i), table)
    ensures PinnedBytes(order, table)
         == PinnedBytes(Without(order, i), table) + (if table[order[i]].pinned then |table[order[i]].handle| else 0)
  {
    if i == 0 {
      assert Without(order, 0) == order[1..];
    } else {
      PinnedWithout(order[1..], table, i - 1);
      assert Without(order, i)[1..] == Without(order[1..], i - 1);
    }
  }

  lemma {:induction false} PinnedBounds(order: seq<ExpertKey>, table: map<ExpertKey, Entry>)
    requires Covers(order, table)
    ensures PinnedBytes(order, table) <= KeptBytes(order, table) <= TotalBytes(order, table)
    ensures (forall k :: k in order && !table[k].pinned ==> table[k].protect <= 0)
            ==> PinnedBytes(order, table) == KeptBytes(order, table)
  {
    if order != [] { PinnedBounds(order[1..], table); }
  }

  lemma PinnedAfterSweep(c: Cache)
    requires Valid(c)
    ensures Covers(EvictOne(c).0.order, EvictOne(c).0.table)
    ensures PinnedBytes(EvictOne(c).0.order, EvictOne(c).0.table) == PinnedBytes(c.order, c.table)
  {
    var t := Swept(c);
    PinnedSame(c.order, c.table, t);
    var i := Victim(c);
    if i >= 0 {
      ListsWithout(c.order, t, i);
      PinnedWithout(c.order, t, i);
      PinnedSame(Without(c.order, i), t, t - {c.order[i]});
    }
  }

  lemma {:induction false} MakeRoomKeepsPinnedBytes(c: Cache, sz: nat)
    requires Valid(c)
    ensures Valid(MakeRoom(c, sz))
    ensures PinnedBytes(MakeRoom(c, sz).order, MakeRoom(c, sz).table) == PinnedBytes(c.order, c.table)
    decreases |c.order|
  {
    if !(c.used + sz <= c.capacity || c.order == []) {
      EvictOneValid(c);
      PinnedAfterSweep(c);
      if EvictOne(c).1 { MakeRoomKeepsPinnedBytes(EvictOne(c).0, sz); }
    }
  }

  /** Admission. Beside everything pinned or soft-protected the block must be
      accepted; beside more pinned bytes than the budget leaves it must be refused. */
  lemma InsertAdmission(c: Cache, k: ExpertKey, handle: seq<byte>)
    requires Valid(c)
    ensures Valid(Drop(c, k))
    ensures var d := Drop(c, k);
      && (|handle| + KeptBytes(d.order, d.table) <= c.capacity ==> Insert(c, k, handle).1)
      && (|handle| + PinnedBytes(d.order, d.table) > c.capacity ==> !Insert(c, k, handle).1)
  {
    DropValid(c, k);
    var d := Drop(c, k);
    if |handle| <= c.capacity {
      if |handle| + KeptBytes(d.order, d.table) <= c.capacity {
        MakeRoomFits(d, |handle|);
      }
      MakeRoomKeepsPinnedBytes(d, |handle|);
      var room := MakeRoom(d, |handle|);
      PinnedBounds(room.order, room.table);
      MakeRoomValid(d, |handle|);
    }
  }

  // ---------------------------------------------------------------- the exact condition

  /** The bytes that never make way, of entries listed nearest the head first,
      when v entries nearer the head than all of them do make way. Every sweep
      that takes a victim nearer the head passes over an unpinned entry once, so
      the entry makes way itself exactly when its protection is at most the
      number of those victims. */
  function StayingBytes(order: seq<ExpertKey>, table: map<ExpertKey, Entry>, v: nat): nat
    requires Covers(order, table)
  {
    if order == [] then 0
    else
      var e := table[order[0]];
      if !e.pinned && e.protect <= v then StayingBytes(order[1..], table, v + 1)
      else |e.handle| + StayingBytes(order[1..], table, v)
  }

  lemma {:induction false} StayingAtMostTotal(order: seq<ExpertKey>, table: map<ExpertKey, Entry>, v: nat)
    requires Covers(order, table)
    ensures StayingBytes(order, table, v) <= TotalBytes(order, table)
  {
    if order != [] {
      StayingAtMostTotal(order[1..], table, v + 1);
      StayingAtMostTotal(order[1..], table, v);
    }
  }

  /** When nothing may be evicted now, everything stays. */
  lemma {:induction false} NothingMakesWay(order: seq<ExpertKey>, table: map<ExpertKey, Entry>)
    requires Covers(order, table) && forall k :: k in order ==> !Evictable(table[k])
    ensures StayingBytes(order, table, 0) == TotalBytes(order, table)
  {
    if order != [] {
      assert order[0] in order;
      NothingMakesWay(order[1..], table);
    }
  }

  /** u is t passed over once, as far as k is concerned. */
  ghost predicate PassedOne(t: map<ExpertKey, Entry>, u: map<ExpertKey, Entry>, k: ExpertKey) {
    && k in t && k in u && !Evictable(t[k]) && u[k].handle == t[k].handle && u[k].pinned == t[k].pinned
    && (!t[k].pinned ==> u[k].protect == t[k].protect - 1)
  }

  /** u is t after every listed entry has been passed over once. */
  ghost predicate PassedAll(order: seq<ExpertKey>, t: map<ExpertKey, Entry>, u: map<ExpertKey, Entry>) {
    forall k :: k in order ==> PassedOne(t, u, k)
  }

  /** Passing over every entry is worth one victim nearer the head. */
  lemma {:induction false} StayingPassed(order: seq<ExpertKey>, t: map<ExpertKey, Entry>, u: map<ExpertKey, Entry>,
                                         v: nat)
    requires PassedAll(order, t, u)
    ensures Covers(order, t) && Covers(order, u)
    ensures StayingBytes(order, u, v) == StayingBytes(order, t, v + 1)
  {
    if order != [] {
      assert order[0] in order;
      StayingPassed(order[1..], t, u, v + 1);
      StayingPassed(order[1..], t, u, v);
    }
  }

  /** Entry i is evicted: those behind it were passed over, those before it untouched. */
  ghost predicate SweptAt(order: seq<ExpertKey>, t: map<ExpertKey, Entry>, u: map<ExpertKey, Entry>, i: nat) {
    && i < |order| && Covers(order, t) && Evictable(t[order[i]])
    && (forall j :: 0 <= j < i ==> order[j] in u && u[order[j]] == t[order[j]])
    && PassedAll(order[i + 1..], t, u)
  }

  /** A sweep with a victim changes nothing about who makes way in the end. */
  lemma {:induction false} StayingSwept(order: seq<ExpertKey>, t: map<ExpertKey, Entry>, u: map<ExpertKey, Entry>,
                                        i: nat, v: nat)
    requires SweptAt(order, t, u, i)
    ensures Covers(Without(order, i), u)
    ensures StayingBytes(Without(order, i), u, v) == StayingBytes(order, t, v)
    decreases |order|
  {
    if i == 0 {
      assert Without(order, 0) == order[1..];
      StayingPassed(order[1..], t, u, v);
    } else {
      assert order[1..][i..] == order[i + 1..];
      assert SweptAt(order[1..], t, u, i - 1);
      StayingSwept(order[1..], t, u, i - 1, v + 1);
      StayingSwept(order[1..], t, u, i - 1, v);
      assert Without(order, i)[1..] == Without(order[1..], i - 1);
    }
  }

  lemma IndexIs(order: seq<ExpertKey>, j: nat)
    requires Distinct(order) && j < |order|
    ensures IndexOf(order, order[j]) == j
  {
  }

  /** What the sweep does to the entry at list position j. */
  lemma SweptEntry(c: Cache, j: nat)
    requires Valid(c) && EvictOne(c).1 && j < |c.order| && j != Victim(c)
    ensures var k, u := c.order[j], EvictOne(c).0.table;
      && k in c.table && k in u
      && (j < Victim(c) ==> u[k] == c.table[k])
      && (j > Victim(c) ==> !Evictable(c.table[k]))
      && (j > Victim(c) ==> u[k].handle == c.table[k].handle && u[k].pinned == c.table[k].pinned)
      && (j > Victim(c) && !c.table[k].pinned ==> u[k].protect == c.table[k].protect - 1)
  {
    hide TotalBytes, IndexBelow, LastEvictable;
    IndexIs(c.order, j);
  }

  lemma VictimFacts(c: Cache)
    requires Valid(c) && EvictOne(c).1
    ensures 0 <= Victim(c) < |c.order| && c.order[Victim(c)] in c.table && Evictable(c.table[c.order[Victim(c)]])
    ensures Covers(c.order, c.table) && EvictOne(c).0.order == Without(c.order, Victim(c))
  {
    hide TotalBytes;
  }

  lemma VictimSwept(c: Cache)
    requires Valid(c) && EvictOne(c).1
    ensures SweptAt(c.order, c.table, EvictOne(c).0.table, Victim(c))
    ensures EvictOne(c).0.order == Without(c.order, Victim(c))
  {
    hide Valid, EvictOne, Victim, Without, PassedAll;
    VictimFacts(c);
    var i, u := Victim(c), EvictOne(c).0.table;
    forall j | 0 <= j < i ensures c.order[j] in u && u[c.order[j]] == c.table[c.order[j]] {
      SweptEntry(c, j);
    }
    PassedBehind(c);
  }

  lemma PassedAt(c: Cache, j: nat)
    requires Valid(c) && EvictOne(c).1 && Victim(c) < j < |c.order|
    ensures PassedOne(c.table, EvictOne(c).0.table, c.order[j])
  {
    SweptEntry(c, j);
  }

  lemma PassedBehind(c: Cache)
    requires Valid(c) && EvictOne(c).1
    ensures 0 <= Victim(c) < |c.order| && PassedAll(c.order[Victim(c) + 1..], c.table, EvictOne(c).0.table)
  {
    VictimFacts(c);
    var i, u := Victim(c), EvictOne(c).0.table;
    hide Valid, EvictOne, Victim, PassedOne;
    forall j | i < j < |c.order| ensures PassedOne(c.table, u, c.order[j]) {
      PassedAt(c, j);
    }
  }

  lemma NoVictimSwept(c: Cache)
    requires Valid(c) && !EvictOne(c).1
    ensures PassedAll(c.order, c.table, EvictOne(c).0.table) && EvictOne(c).0.order == c.order
    ensures EvictOne(c).0.used == c.used == TotalBytes(c.order, c.table)
  {
    hide TotalBytes, IndexBelow, LastEvictable;
    forall k | k in c.order
      ensures !Evictable(c.table[k])
    {
      var j :| 0 <= j < |c.order| && c.order[j] == k;
    }
  }

  /** What eviction for one insertion leaves: the same staying bytes when room was
      found; otherwise exactly the staying bytes, each passed over once more. */
  lemma {:induction false} MakeRoomStaying(c: Cache, sz: nat, v: nat)
    requires Valid(c)
    ensures Valid(MakeRoom(c, sz))
    ensures var room := MakeRoom(c, sz);
      && (room.used + sz <= room.capacity ==>
            StayingBytes(room.order, room.table, v) == StayingBytes(c.order, c.table, v))
      && (room.used + sz > room.capacity ==>
            StayingBytes(room.order, room.table, v) == StayingBytes(c.order, c.table, v + 1))
      && (room.used + sz > room.capacity ==> room.used == StayingBytes(c.order, c.table, 0))
    decreases |c.order|
  {
    MakeRoomValid(c, sz);
    if !(c.used + sz <= c.capacity || c.order == []) {
      hide Valid, EvictOne, StayingBytes, PassedAll, SweptAt;
      EvictOneValid(c);
      var e := EvictOne(c).0;
      if EvictOne(c).1 {
        VictimSwept(c);
        StayingSwept(c.order, c.table, e.table, Victim(c), v);
        StayingSwept(c.order, c.table, e.table, Victim(c), v + 1);
        StayingSwept(c.order, c.table, e.table, Victim(c), 0);
        MakeRoomStaying(e, sz, v);
      } else {
        NoVictimSwept(c);
        StayingPassed(c.order, c.table, e.table, v);
        NothingLeaves(c);
      }
    }
  }

  lemma NothingLeaves(c: Cache)
    requires Valid(c) && PassedAll(c.order, c.table, EvictOne(c).0.table)
    ensures StayingBytes(c.order, c.table, 0) == c.used
  {
    NothingMakesWay(c.order, c.table);
  }

  lemma RoomExact(c: Cache, sz: nat)
    requires Valid(c)
    ensures MakeRoom(c, sz).used + sz <= c.capacity <==> sz + StayingBytes(c.order, c.table, 0) <= c.capacity
  {
    hide MakeRoom, StayingBytes;
    MakeRoomStaying(c, sz, 0);
    MakeRoomValid(c, sz);
    var room := MakeRoom(c, sz);
    StayingAtMostTotal(room.order, room.table, 0);
  }

  /** Admission, exactly, for every cache: a block is accepted if and only if it
      fits beside the other entries that never make way. */
  lemma InsertAdmissionExact(c: Cache, k: ExpertKey, handle: seq<byte>)
    requires Valid(c)
    ensures Valid(Drop(c, k))
    ensures Insert(c, k, handle).1 <==> |handle| + StayingBytes(Drop(c, k).order, Drop(c, k).table, 0) <= c.capacity
  {
    hide Drop, MakeRoom, StayingBytes;
    DropValid(c, k);
    RoomExact(Drop(c, k), |handle|);
    MakeRoomValid(Drop(c, k), |handle|);
  }

  // ---------------------------------------------------------------- the same call again

  /** The cache after n identical calls. */
  function Inserted(c: Cache, k: ExpertKey, handle: seq<byte>, n: nat): (d: Cache)
    requires Valid(c)
    ensures Valid(d) && d.capacity == c.capacity
    decreases n
  {
    if n == 0 then c
    else
      InsertContents(Inserted(c, k, handle, n - 1), k, handle);
      Insert(Inserted(c, k, handle, n - 1), k, handle).0
  }

  /** The first n of a series of identical calls are refused. */
  ghost predicate AllRefused(c: Cache, k: ExpertKey, handle: seq<byte>, n: nat)
    requires Valid(c)
  {
    forall i: nat :: i < n ==> !Insert(Inserted(c, k, handle, i), k, handle).1
  }

  lemma RefusedStaying(c: Cache, k: ExpertKey, handle: seq<byte>, v: nat)
    requires Valid(c) && |handle| <= c.capacity && !Insert(c, k, handle).1
    ensures var d, r := Drop(c, k), Insert(c, k, handle).0;
      && Valid(d) && Valid(r) && Drop(r, k) == r
      && StayingBytes(r.order, r.table, v) == StayingBytes(d.order, d.table, v + 1)
  {
    InsertContents(c, k, handle);
    hide Drop, MakeRoom, StayingBytes, OthersKept;
    DropValid(c, k);
    MakeRoomStaying(Drop(c, k), |handle|, v);
    DropMissing(Insert(c, k, handle).0, k);
  }

  lemma DropMissing(c: Cache, k: ExpertKey)
    requires Valid(c) && k !in c.table
    ensures Drop(c, k) == c
  {
  }

  /** Each refused call passes once over everything that stays. */
  lemma {:induction false} RefusedTimes(c: Cache, k: ExpertKey, handle: seq<byte>, n: nat, v: nat)
    requires Valid(c) && |handle| <= c.capacity
    requires AllRefused(c, k, handle, n)
    ensures Valid(Drop(c, k)) && Valid(Drop(Inserted(c, k, handle, n), k))
    ensures var d, r := Drop(c, k), Drop(Inserted(c, k, handle, n), k);
      StayingBytes(r.order, r.table, v) == StayingBytes(d.order, d.table, v + n)
    decreases n
  {
    hide Drop, Insert, StayingBytes, Valid, AllRefused, Inserted;
    InsertedStep(c, k, handle, n);
    DropValid(c, k);
    DropValid(Inserted(c, k, handle, n), k);
    if n > 0 {
      LastRefused(c, k, handle, n);
      RefusedTimes(c, k, handle, n - 1, v + 1);
      RefusedStaying(Inserted(c, k, handle, n - 1), k, handle, v);
    }
  }

  lemma InsertedStep(c: Cache, k: ExpertKey, handle: seq<byte>, n: nat)
    requires Valid(c)
    ensures n == 0 ==> Inserted(c, k, handle, n) == c
    ensures n > 0 ==> Inserted(c, k, handle, n) == Insert(Inserted(c, k, handle, n - 1), k, handle).0
  {
    hide Insert, Valid;
  }

  lemma LastRefused(c: Cache, k: ExpertKey, handle: seq<byte>, n: nat)
    requires Valid(c) && AllRefused(c, k, handle, n) && n > 0
    ensures AllRefused(c, k, handle, n - 1) && !Insert(Inserted(c, k, handle, n - 1), k, handle).1
  {
    hide Insert, Valid, Inserted;
  }

  lemma {:induction false} TooLargeStays(c: Cache, k: ExpertKey, handle: seq<byte>, n: nat)
    requires Valid(c) && |handle| > c.capacity
    ensures Inserted(c, k, handle, n) == c && !Insert(Inserted(c, k, handle, n), k, handle).1
    decreases n
  {
    if n > 0 { TooLargeStays(c, k, handle, n - 1); }
  }

  /** Whether a call that has been refused n times in a row is accepted can be
      read off the cache before the first of them: it is if and only if the block
      fits beside the other entries that stay when n more victims are counted. */
  lemma RefusedThenAcceptedExact(c: Cache, k: ExpertKey, handle: seq<byte>, n: nat)
    requires Valid(c)
    requires AllRefused(c, k, handle, n)
    ensures Valid(Drop(c, k))
    ensures Insert(Inserted(c, k, handle, n), k, handle).1
       <==> |handle| + StayingBytes(Drop(c, k).order, Drop(c, k).table, n) <= c.capacity
  {
    hide Drop, Insert, StayingBytes, Valid, Inserted, AllRefused;
    DropValid(c, k);
    if |handle| <= c.capacity {
      RefusedTimes(c, k, handle, n, 0);
      InsertAdmissionExact(Inserted(c, k, handle, n), k, handle);
    } else {
      TooLargeStays(c, k, handle, n);
    }
  }

  /** A soft protection can make an insertion fail although the very same call
      repeated succeeds: the failing sweep used the protection up. */
  lemma RefusedThenAccepted()
    ensures exists c: Cache, k: ExpertKey, handle: seq<byte> ::
      Valid(c) && Valid(Insert(c, k, handle).0) && !Insert(c, k, handle).1
        && Insert(Insert(c, k, handle).0, k, handle).1
  {
    var a, b, h := ExpertKey(1, 0), ExpertKey(1, 1), [8];
    var c := Cache(1, 1, [a], map[a := Entry([7], false, 1)]);
    assert TotalBytes([a], c.table) == 1 by { assert [a][1..] == []; }
    assert Valid(c) && Drop(c, b) == c;
    assert StayingBytes([a], c.table, 0) == 1 && StayingBytes([a], c.table, 1) == 0 by { assert [a][1..] == []; }
    assert Inserted(c, b, h, 0) == c;
    InsertContents(c, b, h);
    assert Inserted(c, b, h, 1) == Insert(c, b, h).0;
    hide Insert, Inserted, StayingBytes, Valid, Drop;
    InsertAdmissionExact(c, b, h);
    assert AllRefused(c, b, h, 1);
    RefusedThenAcceptedExact(c, b, h, 1);
  }
}
