/** The byte-budgeted expert cache as a value: what each operation of
    src/storage/lru_cache.h does to the recency order, the table and the byte
    counter. The class ExpertLRU is proved against these functions and the
    streaming pipeline uses them for its shared cache. */
module LruModel {
  import opened Bytes

  datatype ExpertKey = ExpertKey(layer: nat, expertId: nat)

  datatype Entry = Entry(handle: seq<byte>, pinned: bool, protect: int)

  /** order lists the resident keys, most recently used first. */
  datatype Cache = Cache(capacity: nat, used: int, order: seq<ExpertKey>, table: map<ExpertKey, Entry>)

  function Empty(capacity: nat): Cache {
    Cache(capacity, 0, [], map[])
  }

  /** Every listed key has an entry. */
  ghost predicate Covers(order: seq<ExpertKey>, table: map<ExpertKey, Entry>) {
    forall k :: k in order ==> k in table
  }

  function TotalBytes(order: seq<ExpertKey>, table: map<ExpertKey, Entry>): nat
    requires Covers(order, table)
  {
    if order == [] then 0 else |table[order[0]].handle| + TotalBytes(order[1..], table)
  }

  predicate Evictable(e: Entry) { !e.pinned && e.protect <= 0 }

  /** Bytes held by the listed entries that no sweep may evict right now. */
  function KeptBytes(order: seq<ExpertKey>, table: map<ExpertKey, Entry>): nat
    requires Covers(order, table)
  {
    if order == [] then 0
    else (if Evictable(table[order[0]]) then 0 else |table[order[0]].handle|) + KeptBytes(order[1..], table)
  }

  /** The list is duplicate-free and names exactly the table's keys. */
  ghost predicate Lists(order: seq<ExpertKey>, table: map<ExpertKey, Entry>) {
    Distinct(order) && Covers(order, table) && (forall k :: k in table ==> k in order)
  }

  ghost predicate Valid(c: Cache) {
    && Lists(c.order, c.table)
    && (forall k :: k in c.table ==> c.table[k].protect >= 0)
    && c.used == TotalBytes(c.order, c.table)
    && c.used <= c.capacity
  }

  // ---------------------------------------------------------------- sweeps

  /** Where k stands in the list. */
  function IndexOf(order: seq<ExpertKey>, k: ExpertKey): (i: nat)
    requires k in order
    ensures i < |order| && order[i] == k
  {
    IndexBelow(order, k, |order|)
  }

  function IndexBelow(order: seq<ExpertKey>, k: ExpertKey, n: nat): (i: nat)
    requires n <= |order| && k in order[..n]
    ensures i < n && order[i] == k
  {
    if order[n - 1] == k then n - 1 else IndexBelow(order, k, n - 1)
  }

  /** The last index below n whose entry may be evicted, or -1. */
  function LastEvictable(order: seq<ExpertKey>, table: map<ExpertKey, Entry>, n: nat): (i: int)
    requires n <= |order|
    requires Covers(order, table)
    ensures -1 <= i < n
    ensures i >= 0 ==> Evictable(table[order[i]])
    ensures forall j :: i < j < n ==> !Evictable(table[order[j]])
  {
    if n == 0 then -1
    else if Evictable(table[order[n - 1]]) then n - 1
    else LastEvictable(order, table, n - 1)
  }

  function Victim(c: Cache): (i: int)
    requires Covers(c.order, c.table)
    ensures -1 <= i < |c.order|
  {
    LastEvictable(c.order, c.table, |c.order|)
  }

  /** One sweep from the tail passes over k: k sits behind the victim. */
  predicate PassedOver(c: Cache, k: ExpertKey)
    requires Covers(c.order, c.table)
  {
    k in c.order && IndexOf(c.order, k) > Victim(c)
  }

  /** The table after a sweep has walked from the tail down to index i, i
      excluded: every soft-protected entry passed over pays one protection. */
  function SweptTo(c: Cache, i: int): (t: map<ExpertKey, Entry>)
    ensures t.Keys == c.table.Keys
    ensures forall k :: k in t ==> t[k].handle == c.table[k].handle && t[k].pinned == c.table[k].pinned
  {
    map k | k in c.table ::
      if k in c.order && IndexOf(c.order, k) > i && !c.table[k].pinned && c.table[k].protect > 0
      then c.table[k].(protect := c.table[k].protect - 1)
      else c.table[k]
  }

  function Swept(c: Cache): map<ExpertKey, Entry>
    requires Covers(c.order, c.table)
  {
    SweptTo(c, Victim(c))
  }

  /** Evicts the least recent evictable entry; false when there is none. */
  function EvictOne(c: Cache): (Cache, bool)
    requires Covers(c.order, c.table)
  {
    var i := Victim(c);
    var t := Swept(c);
    if i < 0 then (c.(table := t), false)
    else
      var v := c.order[i];
      (c.(used := c.used - |t[v].handle|, order := Without(c.order, i), table := t - {v}), true)
  }

  // ---------------------------------------------------------------- insertion

  /** The cache without key k. */
  function Drop(c: Cache, k: ExpertKey): Cache
    requires Valid(c)
  {
    if k !in c.table then c
    else c.(used := c.used - |c.table[k].handle|, order := Without(c.order, IndexOf(c.order, k)),
      table := c.table - {k})
  }

  /** Evicts until sz more bytes fit, nothing is left, or a sweep finds no victim. */
  function MakeRoom(c: Cache, sz: nat): Cache
    requires Valid(c)
    decreases |c.order|
  {
    if c.used + sz <= c.capacity || c.order == [] then c
    else
      EvictOneValid(c);
      if !EvictOne(c).1 then EvictOne(c).0 else MakeRoom(EvictOne(c).0, sz)
  }

  function Insert(c: Cache, k: ExpertKey, handle: seq<byte>): (Cache, bool)
    requires Valid(c)
  {
    if |handle| > c.capacity then (c, false)
    else
      DropValid(c, k);
      var room := MakeRoom(Drop(c, k), |handle|);
      if room.used + |handle| > room.capacity then (room, false)
      else (Cache(room.capacity, room.used + |handle|, [k] + room.order,
                  room.table[k := Entry(handle, false, 0)]), true)
  }

  // ---------------------------------------------------------------- lookups and marks

  /** k moved to the front of the recency order. */
  function Promote(c: Cache, k: ExpertKey): Cache
    requires k in c.order
  {
    c.(order := [k] + Without(c.order, IndexOf(c.order, k)))
  }

  /** A copy into a buffer of destSize bytes: a hit promotes, even when the buffer is too small. */
  function CopyTo(c: Cache, k: ExpertKey, destSize: nat): (Cache, Option<seq<byte>>)
    requires Valid(c)
  {
    if k !in c.table then (c, None)
    else if destSize < |c.table[k].handle| then (Promote(c, k), None)
    else (Promote(c, k), Some(c.table[k].handle))
  }

  function Pin(c: Cache, k: ExpertKey): Cache {
    if k in c.table then c.(table := c.table[k := c.table[k].(pinned := true)]) else c
  }

  /** k's protection raised to at least the given number of sweeps. */
  function SoftProtect(c: Cache, k: ExpertKey, cycles: int): Cache
    requires k in c.table
  {
    var e := c.table[k];
    c.(table := c.table[k := e.(protect := if e.protect < cycles then cycles else e.protect)])
  }

  function Boost(c: Cache, k: ExpertKey, cycles: int): Cache
    requires Valid(c)
  {
    if k !in c.table then c else Promote(SoftProtect(c, k, cycles), k)
  }

  // ---------------------------------------------------------------- byte sums

  lemma {:induction false} TotalBytesWithout(order: seq<ExpertKey>, table: map<ExpertKey, Entry>, i: nat)
    requires Covers(order, table)
    requires i < |order|
    ensures Covers(Without(order, i), table)
    ensures TotalBytes(order, table) == TotalBytes(Without(order, i), table) + |table[order[i]].handle|
  {
    WithoutTail(order, i);
    hide Without;
    if i > 0 {
      TotalBytesWithout(order[1..], table, i - 1);
    }
  }

  lemma WithoutTail(order: seq<ExpertKey>, i: nat)
    requires i < |order|
    ensures i == 0 ==> Without(order, i) == order[1..]
    ensures i > 0 ==> Without(order, i) == [order[0]] + Without(order[1..], i - 1)
  {
  }

  lemma {:induction false} TotalBytesSameSizes(order: seq<ExpertKey>,
                                               t: map<ExpertKey, Entry>, u: map<ExpertKey, Entry>)
    requires Covers(order, t) && Covers(order, u)
    requires forall k :: k in order ==> |t[k].handle| == |u[k].handle|
    ensures TotalBytes(order, t) == TotalBytes(order, u)
  {
    if order != [] {
      TotalBytesSameSizes(order[1..], t, u);
    }
  }

  lemma {:induction false} KeptBytesShrinks(order: seq<ExpertKey>, t: map<ExpertKey, Entry>, u: map<ExpertKey, Entry>)
    requires Covers(order, t) && Covers(order, u)
    requires forall k :: k in order ==> t[k].handle == u[k].handle && (Evictable(t[k]) ==> Evictable(u[k]))
    ensures KeptBytes(order, u) <= KeptBytes(order, t)
  {
    if order != [] {
      KeptBytesShrinks(order[1..], t, u);
    }
  }

  lemma {:induction false} KeptBytesWithout(order: seq<ExpertKey>, table: map<ExpertKey, Entry>, i: nat)
    requires Covers(order, table)
    requires i < |order|
    ensures Covers(Without(order, i), table)
    ensures KeptBytes(order, table)
         == KeptBytes(Without(order, i), table) + (if Evictable(table[order[i]]) then 0 else |table[order[i]].handle|)
  {
    if i == 0 {
      assert Without(order, 0) == order[1..];
    } else {
      KeptBytesWithout(order[1..], table, i - 1);
      assert Without(order, i)[1..] == Without(order[1..], i - 1);
    }
  }

  lemma {:induction false} KeptAtMostTotal(order: seq<ExpertKey>, table: map<ExpertKey, Entry>)
    requires Covers(order, table)
    ensures KeptBytes(order, table) <= TotalBytes(order, table)
    ensures (forall k :: k in order ==> !Evictable(table[k])) ==> KeptBytes(order, table) == TotalBytes(order, table)
  {
    if order != [] {
      KeptAtMostTotal(order[1..], table);
    }
  }

  // ---------------------------------------------------------------- the invariant is kept

  lemma ListsWithout(order: seq<ExpertKey>, table: map<ExpertKey, Entry>, i: nat)
    requires Lists(order, table) && i < |order|
    ensures Lists(Without(order, i), table - {order[i]})
    ensures TotalBytes(Without(order, i), table - {order[i]}) + |table[order[i]].handle| == TotalBytes(order, table)
  {
    WithoutKeepsDistinct(order, i);
    TotalBytesWithout(order, table, i);
    TotalBytesSameSizes(Without(order, i), table, table - {order[i]});
  }

  lemma SweptValid(c: Cache)
    requires Valid(c)
    ensures Valid(c.(table := Swept(c)))
  {
    TotalBytesSameSizes(c.order, c.table, Swept(c));
  }

  lemma EvictOneValid(c: Cache)
    requires Valid(c)
    ensures Valid(EvictOne(c).0)
    ensures EvictOne(c).1 ==> |EvictOne(c).0.order| == |c.order| - 1
    ensures EvictOne(c).0.capacity == c.capacity
  {
    SweptValid(c);
    var i := Victim(c);
    if i >= 0 {
      ListsWithout(c.order, Swept(c), i);
    }
  }

  lemma DropValid(c: Cache, k: ExpertKey)
    requires Valid(c)
    ensures Valid(Drop(c, k))
    ensures k !in Drop(c, k).order && Drop(c, k).table == c.table - {k}
    ensures Drop(c, k).capacity == c.capacity
  {
    if k in c.table {
      ListsWithout(c.order, c.table, IndexOf(c.order, k));
    }
  }

  /** What eviction leaves of the table: a part of it, with the bytes and the
      pinned entries as they were. */
  ghost predicate PartOf(t: map<ExpertKey, Entry>, u: map<ExpertKey, Entry>) {
    && t.Keys <= u.Keys
    && (forall k :: k in t ==> t[k].handle == u[k].handle)
    && (forall k :: k in u && u[k].pinned ==> k in t && t[k] == u[k])
  }

  lemma PartOfTransitive(t: map<ExpertKey, Entry>, u: map<ExpertKey, Entry>, v: map<ExpertKey, Entry>)
    requires PartOf(t, u) && PartOf(u, v)
    ensures PartOf(t, v)
  {
  }

  lemma EvictOneKeeps(c: Cache)
    requires Valid(c)
    ensures PartOf(EvictOne(c).0.table, c.table)
  {
  }

  lemma {:induction false} MakeRoomValid(c: Cache, sz: nat)
    requires Valid(c)
    ensures Valid(MakeRoom(c, sz))
    ensures MakeRoom(c, sz).capacity == c.capacity
    ensures PartOf(MakeRoom(c, sz).table, c.table)
    decreases |c.order|
  {
    assert Covers(c.order, c.table);
    hide Valid, EvictOne, PartOf;
    EvictOneValid(c);
    EvictOneKeeps(c);
    if c.used + sz <= c.capacity || c.order == [] {
      assert PartOf(c.table, c.table) by { PartOfReflexive(c.table); }
    } else if EvictOne(c).1 {
      MakeRoomValid(EvictOne(c).0, sz);
      PartOfTransitive(MakeRoom(c, sz).table, EvictOne(c).0.table, c.table);
    }
  }

  lemma PartOfReflexive(t: map<ExpertKey, Entry>)
    ensures PartOf(t, t)
  {
  }

  /** What an insertion of k may do to the other keys: some are gone, none of
      them pinned; those left keep their bytes, the pinned ones everything. */
  ghost predicate OthersKept(t: map<ExpertKey, Entry>, u: map<ExpertKey, Entry>, k: ExpertKey) {
    && t.Keys <= u.Keys + {k}
    && (forall j :: j in t && j != k ==> t[j].handle == u[j].handle)
    && (forall j :: j in u && j != k && u[j].pinned ==> j in t && t[j] == u[j])
  }

  lemma DropKeepsOthers(t: map<ExpertKey, Entry>, u: map<ExpertKey, Entry>, k: ExpertKey, e: Entry)
    requires PartOf(t, u - {k})
    ensures k !in t && OthersKept(t, u, k) && OthersKept(t[k := e], u, k)
  {
  }

  lemma PushValid(c: Cache, k: ExpertKey, handle: seq<byte>)
    requires Valid(c) && k !in c.table && c.used + |handle| <= c.capacity
    ensures Valid(Cache(c.capacity, c.used + |handle|, [k] + c.order, c.table[k := Entry(handle, false, 0)]))
  {
    var order, table := [k] + c.order, c.table[k := Entry(handle, false, 0)];
    assert order[1..] == c.order;
    TotalBytesSameSizes(c.order, c.table, table);
  }

  /** Every insertion, accepted or not, leaves a valid cache in which the other
      keys keep their bytes, the other pinned keys stay as they were, and the
      inserted key holds exactly the new bytes or is gone (or, when the block
      can never fit, nothing changed at all). */
  lemma InsertContents(c: Cache, k: ExpertKey, handle: seq<byte>)
    requires Valid(c)
    ensures var (d, ok) := Insert(c, k, handle);
      && Valid(d) && d.capacity == c.capacity
      && OthersKept(d.table, c.table, k)
      && (ok ==> k in d.table && d.table[k] == Entry(handle, false, 0) && d.order[0] == k)
      && (!ok ==> if |handle| > c.capacity then d == c else k !in d.table)
  {
    hide Valid, Drop, MakeRoom, PartOf, OthersKept;
    if |handle| > c.capacity {
      assert OthersKept(c.table, c.table, k) by { OthersKeptReflexive(c.table, k); }
    } else {
      DropValid(c, k);
      var dropped := Drop(c, k);
      MakeRoomValid(dropped, |handle|);
      var room := MakeRoom(dropped, |handle|);
      DropKeepsOthers(room.table, c.table, k, Entry(handle, false, 0));
      if room.used + |handle| <= room.capacity {
        PushValid(room, k, handle);
      }
    }
  }

  lemma OthersKeptReflexive(t: map<ExpertKey, Entry>, k: ExpertKey)
    ensures OthersKept(t, t, k)
  {
  }

  lemma PromoteValid(c: Cache, k: ExpertKey)
    requires Valid(c) && k in c.order
    ensures Valid(Promote(c, k)) && Promote(c, k).order[0] == k
  {
    var i := IndexOf(c.order, k);
    TotalBytesWithout(c.order, c.table, i);
    ListsPromoted(c.order, c.table, i);
    assert Promote(c, k).order[1..] == Without(c.order, i);
  }

  lemma ListsPromoted(order: seq<ExpertKey>, table: map<ExpertKey, Entry>, i: nat)
    requires Lists(order, table) && i < |order|
    ensures Lists([order[i]] + Without(order, i), table)
  {
    WithoutKeepsDistinct(order, i);
  }

  lemma CopyToValid(c: Cache, k: ExpertKey, destSize: nat)
    requires Valid(c)
    ensures Valid(CopyTo(c, k, destSize).0)
    ensures CopyTo(c, k, destSize).0.table == c.table
  {
    if k in c.table {
      PromoteValid(c, k);
    }
  }

  lemma PinValid(c: Cache, k: ExpertKey)
    requires Valid(c)
    ensures Valid(Pin(c, k))
  {
    if k in c.table {
      TotalBytesSameSizes(c.order, c.table, Pin(c, k).table);
    }
  }

  lemma SoftProtectValid(c: Cache, k: ExpertKey, cycles: int)
    requires Valid(c) && k in c.table
    ensures Valid(SoftProtect(c, k, cycles))
  {
    TotalBytesSameSizes(c.order, c.table, SoftProtect(c, k, cycles).table);
  }

  /** A boost of a resident key leaves it protected from at least the given number
      of sweeps and from no fewer than before, and from as many as one of the two;
      its bytes, its pin and every other entry stay, and the key becomes the most
      recent. An absent key is not boosted. */
  lemma BoostValid(c: Cache, k: ExpertKey, cycles: int)
    requires Valid(c)
    ensures var d := Boost(c, k, cycles);
      && Valid(d) && d.capacity == c.capacity && d.table.Keys == c.table.Keys
      && (k !in c.table ==> d == c)
      && (k in c.table ==> d.order[0] == k && Raised(c.table[k], cycles, d.table[k]))
      && (forall j :: j in c.table && j != k ==> d.table[j] == c.table[j])
  {
    if k in c.table {
      SoftProtectValid(c, k, cycles);
      PromoteValid(SoftProtect(c, k, cycles), k);
    }
  }

  /** f is entry e with its protection raised to n sweeps, if it was less. */
  predicate Raised(e: Entry, n: int, f: Entry) {
    && f.handle == e.handle && f.pinned == e.pinned
    && f.protect >= n && f.protect >= e.protect && (f.protect == n || f.protect == e.protect)
  }
}
