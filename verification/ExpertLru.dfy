/** The class of src/storage/lru_cache.h: a linked recency list, a table whose
    entries hold an iterator into the list, and a byte counter, all updated in
    place. Every method is proved against the value model in LruModel. */
module ExpertLru {
  import opened Bytes
  import opened LruModel

  /** A list node; id is its identity, what an iterator to it remembers. */
  datatype Node = Node(id: nat, key: ExpertKey)

  datatype Slot = Slot(handle: seq<byte>, pinned: bool, protect: int, listIter: nat)

  function KeysOf(nodes: seq<Node>): (keys: seq<ExpertKey>)
    ensures |keys| == |nodes| && forall i :: 0 <= i < |keys| ==> keys[i] == nodes[i].key
  {
    seq(|nodes|, i requires 0 <= i < |nodes| => nodes[i].key)
  }

  function Entries(slots: map<ExpertKey, Slot>): (t: map<ExpertKey, Entry>)
    ensures t.Keys == slots.Keys
    ensures forall k :: k in t ==> t[k] == Entry(slots[k].handle, slots[k].pinned, slots[k].protect)
  {
    map k | k in slots :: Entry(slots[k].handle, slots[k].pinned, slots[k].protect)
  }

  /** Nodes are distinct, and every entry's iterator is the node of its own key. */
  ghost predicate Linked(nodes: seq<Node>, slots: map<ExpertKey, Slot>, nextNode: nat) {
    && (forall i, j :: 0 <= i < j < |nodes| ==> nodes[i].id != nodes[j].id)
    && (forall i :: 0 <= i < |nodes| ==>
          nodes[i].id < nextNode && nodes[i].key in slots && slots[nodes[i].key].listIter == nodes[i].id)
  }

  /** The list position an iterator denotes. */
  function Deref(nodes: seq<Node>, id: nat): (i: nat)
    requires exists j :: 0 <= j < |nodes| && nodes[j].id == id
    ensures i < |nodes| && nodes[i].id == id
  {
    if nodes[0].id == id then 0 else 1 + Deref(nodes[1..], id)
  }

  /** An entry's iterator denotes the place of its key in the recency order. */
  lemma IteratorPointsHome(nodes: seq<Node>, slots: map<ExpertKey, Slot>, nextNode: nat, k: ExpertKey)
    requires Linked(nodes, slots, nextNode) && Lists(KeysOf(nodes), Entries(slots)) && k in slots
    ensures exists j :: 0 <= j < |nodes| && nodes[j].id == slots[k].listIter
    ensures var i := Deref(nodes, slots[k].listIter); nodes[i].key == k && IndexOf(KeysOf(nodes), k) == i
  {
    assert k in Entries(slots);
    var i := IndexOf(KeysOf(nodes), k);
    assert nodes[i].id == slots[k].listIter;
  }

  /** The abstract cache a concrete state stands for. */
  ghost function ModelOf(capacity: nat, used: int, nodes: seq<Node>, slots: map<ExpertKey, Slot>): Cache {
    Cache(capacity, used, KeysOf(nodes), Entries(slots))
  }

  lemma SlotUpdated(capacity: nat, used: int, nodes: seq<Node>, slots: map<ExpertKey, Slot>, next: nat, k: ExpertKey,
                    s: Slot)
    requires Linked(nodes, slots, next) && k in slots && s.listIter == slots[k].listIter
    ensures Linked(nodes, slots[k := s], next)
    ensures var c := ModelOf(capacity, used, nodes, slots);
      ModelOf(capacity, used, nodes, slots[k := s]) == c.(table := c.table[k := Entry(s.handle, s.pinned, s.protect)])
  {
  }

  lemma NodeErased(capacity: nat, used: int, nodes: seq<Node>, slots: map<ExpertKey, Slot>, next: nat, i: nat)
    requires Linked(nodes, slots, next) && i < |nodes| && Distinct(KeysOf(nodes))
    ensures Linked(Without(nodes, i), slots - {nodes[i].key}, next)
    ensures var c := ModelOf(capacity, used, nodes, slots);
      ModelOf(capacity, used, Without(nodes, i), slots - {nodes[i].key})
        == c.(order := Without(c.order, i), table := c.table - {nodes[i].key})
  {
    var c, k := ModelOf(capacity, used, nodes, slots), nodes[i].key;
    assert KeysOf(Without(nodes, i)) == Without(c.order, i);
    assert Entries(slots - {k}) == c.table - {k};
    forall j | 0 <= j < |nodes| && j != i ensures nodes[j].key != k {
      assert c.order[j] != c.order[i];
    }
  }

  lemma NodeMovedToFront(capacity: nat, used: int, nodes: seq<Node>, slots: map<ExpertKey, Slot>, next: nat, i: nat)
    requires Linked(nodes, slots, next) && i < |nodes|
    ensures Linked([nodes[i]] + Without(nodes, i), slots, next)
    ensures var c := ModelOf(capacity, used, nodes, slots);
      ModelOf(capacity, used, [nodes[i]] + Without(nodes, i), slots) == c.(order := [c.order[i]] + Without(c.order, i))
  {
    var c, moved := ModelOf(capacity, used, nodes, slots), [nodes[i]] + Without(nodes, i);
    assert KeysOf(moved) == [c.order[i]] + Without(c.order, i);
    forall p, q | 0 <= p < q < |moved| ensures moved[p].id != moved[q].id {
      assert moved[q] == Without(nodes, i)[q - 1];
      if p > 0 { assert moved[p] == Without(nodes, i)[p - 1]; }
    }
  }

  lemma NodePushed(capacity: nat, used: int, nodes: seq<Node>, slots: map<ExpertKey, Slot>, next: nat, k: ExpertKey,
                   s: Slot)
    requires Linked(nodes, slots, next) && k !in slots && s.listIter == next
    ensures Linked([Node(next, k)] + nodes, slots[k := s], next + 1)
    ensures var c := ModelOf(capacity, used, nodes, slots);
      ModelOf(capacity, used, [Node(next, k)] + nodes, slots[k := s])
        == c.(order := [k] + c.order, table := c.table[k := Entry(s.handle, s.pinned, s.protect)])
  {
    var c := ModelOf(capacity, used, nodes, slots);
    assert KeysOf([Node(next, k)] + nodes) == [k] + c.order;
  }

  lemma PromoteKeepsTable(c: Cache, k: ExpertKey)
    requires k in c.order
    ensures Promote(c, k).table == c.table
  {
  }

  method CopyBytes(src: seq<byte>, dest: array<byte>)
    requires |src| <= dest.Length
    modifies dest
    ensures dest[..|src|] == src && dest[|src|..] == old(dest[|src|..])
  {
    forall i | 0 <= i < |src| {
      dest[i] := src[i];
    }
  }

  class ExpertLRU {
    var capacity: nat
    var used: int
    var lruOrder: seq<Node>
    var table: map<ExpertKey, Slot>
    var nextNode: nat

    ghost function Model(): Cache
      reads this
    {
      ModelOf(capacity, used, lruOrder, table)
    }

    ghost predicate Valid()
      reads this
    {
      LruModel.Valid(Model()) && Linked(lruOrder, table, nextNode)
    }

    constructor (capacityBytes: nat)
      ensures Valid() && Model() == Empty(capacityBytes)
    {
      capacity, used, lruOrder, table, nextNode := capacityBytes, 0, [], map[], 0;
    }

    /** Resets the capacity and clears the cache. */
    method Resize(newCapacity: nat)
      requires Valid()
      modifies this
      ensures Valid() && Model() == Empty(newCapacity)
    {
      capacity := newCapacity;
      lruOrder := [];
      table := map[];
      used := 0;
    }

    method Contains(k: ExpertKey) returns (resident: bool)
      requires Valid()
      ensures resident <==> k in Model().table
    {
      resident := k in table;
    }

    /** Moves the node of k to the head of the list. */
    method Splice(k: ExpertKey)
      requires Valid() && k in Model().order
      modifies `lruOrder
      ensures Valid() && Model() == Promote(old(Model()), k)
    {
      assert Lists(KeysOf(lruOrder), Entries(table)) && Linked(lruOrder, table, nextNode) && k in table;
      hide LruModel.Valid, Linked, Lists;
      IteratorPointsHome(lruOrder, table, nextNode, k);
      var i := Deref(lruOrder, table[k].listIter);
      PromoteValid(Model(), k);
      NodeMovedToFront(capacity, used, lruOrder, table, nextNode, i);
      lruOrder := [lruOrder[i]] + Without(lruOrder, i);
      assert Model() == Promote(old(Model()), k);
      assert Valid() by { ValidFromParts(); }
    }

    lemma ValidFromParts()
      requires LruModel.Valid(Model()) && Linked(lruOrder, table, nextNode)
      ensures Valid()
    {
    }

    /** A hit is copied out while the cache cannot change, so eviction never
        frees a source that is being read. False on a miss or when dest is too
        small; a hit promotes in both cases. */
    method CopyTo(k: ExpertKey, dest: array<byte>) returns (ok: bool)
      requires Valid()
      modifies `lruOrder, dest
      ensures Valid()
      ensures Model() == LruModel.CopyTo(old(Model()), k, dest.Length).0
      ensures ok <==> LruModel.CopyTo(old(Model()), k, dest.Length).1.Some?
      ensures ok ==> var h := LruModel.CopyTo(old(Model()), k, dest.Length).1.value;
                |h| <= dest.Length && dest[..|h|] == h && dest[|h|..] == old(dest[|h|..])
      ensures !ok ==> dest[..] == old(dest[..])
    {
      assert k in table ==> k in Model().order;
      hide LruModel.Valid, Linked, Promote;
      if k !in table {
        return false;
      }
      Splice(k);
      assert Model().table == old(Model()).table by { PromoteKeepsTable(old(Model()), k); }
      var src := table[k].handle;
      if dest.Length < |src| {
        return false;
      }
      CopyBytes(src, dest);
      return true;
    }

    /** Unlinks the node at position i, with its table entry and its bytes. */
    method RemoveNode(i: nat)
      requires Linked(lruOrder, table, nextNode) && i < |lruOrder| && Distinct(KeysOf(lruOrder))
      modifies `used, `lruOrder, `table
      ensures Linked(lruOrder, table, nextNode)
      ensures var c, k := old(Model()), old(lruOrder[i].key);
        k in c.table && Model() == c.(used := c.used - |c.table[k].handle|, order := Without(c.order, i),
          table := c.table - {k})
    {
      var k := lruOrder[i].key;
      assert k in table;
      hide Linked, Distinct;
      var sz := |table[k].handle|;
      NodeErased(capacity, used - sz, lruOrder, table, nextNode, i);
      used := used - sz;
      lruOrder := Without(lruOrder, i);
      table := table - {k};
    }

    /** A soft-protected entry survives a sweep and pays one protection. */
    method PayProtection(k: ExpertKey)
      requires Linked(lruOrder, table, nextNode) && k in table
      modifies `table
      ensures Linked(lruOrder, table, nextNode)
      ensures var c := old(Model());
        Model() == c.(table := c.table[k := c.table[k].(protect := c.table[k].protect - 1)])
    {
      hide Linked;
      var s := table[k].(protect := table[k].protect - 1);
      SlotUpdated(capacity, used, lruOrder, table, nextNode, k, s);
      table := table[k := s];
    }

    /** One stop of the sweep: the node at it is skipped, pays, or goes. */
    method VisitNode(it: nat, ghost c: Cache) returns (evicted: bool)
      requires Linked(lruOrder, table, nextNode) && it < |lruOrder|
      requires Sweepable(c) && Model() == c.(table := SweptTo(c, it)) && NoneBehind(c, it)
      modifies `used, `lruOrder, `table
      ensures Linked(lruOrder, table, nextNode)
      ensures !evicted ==> NoneBehind(c, it - 1) && Model() == c.(table := SweptTo(c, it - 1))
      ensures evicted ==> LruModel.EvictOne(c) == (Model(), true)
    {
      hide Linked, Sweepable, NoneBehind, SweptTo, Distinct, LruModel.EvictOne;
      SweepView(c, capacity, used, lruOrder, table, nextNode, it);
      SweptOneMore(c, it);
      SweepAt(c, it);
      var k := lruOrder[it].key;
      var entry := table[k];
      if entry.pinned {
        return false;
      }
      if entry.protect > 0 {
        PayProtection(k);
        return false;
      }
      RemoveNode(it);
      return true;
    }

    /** Evicts the least recent evictable entry. Entries passed over on the way
        pay one soft protection each, whether or not a victim is found. */
    method EvictOne() returns (evicted: bool)
      requires Valid()
      modifies `used, `lruOrder, `table
      ensures Valid()
      ensures (Model(), evicted) == LruModel.EvictOne(old(Model()))
    {
      hide LruModel.Valid, Linked, Sweepable, NoneBehind, SweptTo, LruModel.EvictOne;
      ghost var c := Model();
      EvictOneValid(c);
      SweepStarts(c);
      var it := |lruOrder|;
      while it > 0
        invariant 0 <= it <= |lruOrder| && Linked(lruOrder, table, nextNode)
        invariant NoneBehind(c, it - 1) && Model() == c.(table := SweptTo(c, it - 1))
      {
        it := it - 1;
        evicted := VisitNode(it, c);
        if evicted {
          return;
        }
      }
      SweepMisses(c);
      return false;
    }

    /** Removes the entry of k, if there is one. */
    method Erase(k: ExpertKey)
      requires Valid()
      modifies `used, `lruOrder, `table
      ensures Valid() && Model() == Drop(old(Model()), k)
    {
      DropValid(Model(), k);
      DropAbsent(Model(), k);
      if k in table {
        assert Lists(KeysOf(lruOrder), Entries(table)) && Linked(lruOrder, table, nextNode)
            && Distinct(KeysOf(lruOrder));
        assert k in Model().order;
        hide LruModel.Valid, Linked, Lists, Distinct, Drop, IndexOf;
        IteratorPointsHome(lruOrder, table, nextNode, k);
        var i := Deref(lruOrder, table[k].listIter);
        Dropped(Model(), k, i);
        RemoveNode(i);
      }
    }

    /** Sweeps until sz more bytes fit; the guard bounds the number of sweeps. */
    method EvictUntilFits(sz: nat)
      requires Valid() && sz <= capacity
      modifies `used, `lruOrder, `table
      ensures Valid() && Model() == MakeRoom(old(Model()), sz)
    {
      hide LruModel.Valid, Linked, LruModel.EvictOne;
      var guard := |lruOrder|;
      while used + sz > capacity && |lruOrder| > 0 && guard > 0
        invariant Valid()
        invariant guard == |lruOrder|
        invariant MakeRoom(Model(), sz) == MakeRoom(old(Model()), sz)
        decreases guard
      {
        guard := guard - 1;
        EvictOneValid(Model());
        var evicted := EvictOne();
        if !evicted {
          break;
        }
      }
    }

    method PushFront(k: ExpertKey, handle: seq<byte>)
      requires Linked(lruOrder, table, nextNode) && k !in table
      modifies `used, `lruOrder, `table, `nextNode
      ensures Linked(lruOrder, table, nextNode)
      ensures var c := old(Model());
        Model() == Cache(c.capacity, c.used + |handle|, [k] + c.order, c.table[k := Entry(handle, false, 0)])
    {
      hide Linked;
      NodePushed(capacity, used + |handle|, lruOrder, table, nextNode, k, Slot(handle, false, 0, nextNode));
      table := table[k := Slot(handle, false, 0, nextNode)];
      lruOrder := [Node(nextNode, k)] + lruOrder;
      nextNode := nextNode + 1;
      used := used + |handle|;
    }

    /** Inserts or replaces the entry for k, evicting until it fits. */
    method Insert(k: ExpertKey, handle: seq<byte>) returns (ok: bool)
      requires Valid()
      modifies this
      ensures Valid()
      ensures (Model(), ok) == LruModel.Insert(old(Model()), k, handle)
    {
      var sz := |handle|;
      if sz > capacity {
        return false;
      }
      InsertContents(Model(), k, handle);
      DropValid(Model(), k);
      hide LruModel.Valid, Linked, Drop, MakeRoom;
      Erase(k);
      MakeRoomValid(Model(), sz);
      EvictUntilFits(sz);
      if used + sz > capacity {
        return false;
      }
      assert k !in table by { assert k !in Model().table; }
      PushFront(k, handle);
      return true;
    }

    /** Excludes k from eviction. */
    method Pin(k: ExpertKey)
      requires Valid()
      modifies `table
      ensures Valid() && Model() == LruModel.Pin(old(Model()), k)
    {
      PinValid(Model(), k);
      hide LruModel.Valid, Linked;
      if k in table {
        SlotUpdated(capacity, used, lruOrder, table, nextNode, k, table[k].(pinned := true));
        table := table[k := table[k].(pinned := true)];
      }
    }

    /** Promotes k and lets it survive protectCycles sweeps. */
    method Boost(k: ExpertKey, protectCycles: int)
      requires Valid()
      modifies `table, `lruOrder
      ensures Valid() && Model() == LruModel.Boost(old(Model()), k, protectCycles)
      ensures k in old(Model().table) ==>
        k in Model().table && Raised(old(Model().table[k]), protectCycles, Model().table[k])
    {
      assert k in table ==> k in Model().order;
      hide LruModel.Valid, Linked;
      if k !in table {
        return;
      }
      var e := table[k];
      SoftProtectValid(Model(), k, protectCycles);
      var s := e.(protect := if e.protect < protectCycles then protectCycles else e.protect);
      SlotUpdated(capacity, used, lruOrder, table, nextNode, k, s);
      table := table[k := s];
      Splice(k);
    }
  }

  ghost predicate Sweepable(c: Cache) {
    Distinct(c.order) && Covers(c.order, c.table)
  }

  /** No entry behind position i may be evicted. */
  ghost predicate NoneBehind(c: Cache, i: int)
    requires Covers(c.order, c.table)
  {
    i >= -1 && forall j :: i < j < |c.order| ==> !Evictable(c.table[c.order[j]])
  }

  lemma SweepStarts(c: Cache)
    requires LruModel.Valid(c)
    ensures Sweepable(c) && NoneBehind(c, |c.order| - 1) && SweptTo(c, |c.order| - 1) == c.table
  {
  }

  lemma SweptOneMore(c: Cache, i: nat)
    requires Sweepable(c) && i < |c.order|
    ensures var k := c.order[i];
      && SweptTo(c, i)[k] == c.table[k]
      && SweptTo(c, i - 1) == (if !c.table[k].pinned && c.table[k].protect > 0
                               then SweptTo(c, i)[k := c.table[k].(protect := c.table[k].protect - 1)]
                                else SweptTo(c, i))
  {
    assert IndexOf(c.order, c.order[i]) == i;
  }

  lemma SweepAt(c: Cache, i: nat)
    requires Sweepable(c) && i < |c.order| && NoneBehind(c, i)
    ensures var k := c.order[i];
      if Evictable(c.table[k])
      then LruModel.EvictOne(c) ==
             (c.(used := c.used - |c.table[k].handle|, order := Without(c.order, i), table := SweptTo(c, i) - {k}),
               true)
      else NoneBehind(c, i - 1)
  {
    if Evictable(c.table[c.order[i]]) {
      assert Victim(c) == i;
      assert IndexOf(c.order, c.order[i]) == i;
    }
  }

  /** The slot a stop of the sweep reads is still the entry the sweep started with. */
  lemma SweepView(c: Cache, capacity: nat, used: int, nodes: seq<Node>, slots: map<ExpertKey, Slot>, next: nat, i: nat)
    requires Linked(nodes, slots, next) && i < |nodes|
    requires Sweepable(c) && ModelOf(capacity, used, nodes, slots) == c.(table := SweptTo(c, i))
    ensures Distinct(KeysOf(nodes))
    ensures var k := nodes[i].key;
      && k in slots && k == c.order[i] && k in c.table
      && c.table[k] == Entry(slots[k].handle, slots[k].pinned, slots[k].protect)
  {
    hide SweptTo;
    SweptOneMore(c, i);
    var k := nodes[i].key;
    assert k == c.order[i] && k in c.table;
    assert k in slots && Entries(slots)[k] == c.table[k];
  }

  lemma SweepMisses(c: Cache)
    requires Sweepable(c) && NoneBehind(c, -1)
    ensures LruModel.EvictOne(c) == (c.(table := SweptTo(c, -1)), false)
  {
    assert Victim(c) == -1;
  }

  lemma DropAbsent(c: Cache, k: ExpertKey)
    requires LruModel.Valid(c)
    ensures k !in c.table ==> Drop(c, k) == c
  {
  }

  lemma Dropped(c: Cache, k: ExpertKey, i: nat)
    requires LruModel.Valid(c) && k in c.table && k in c.order && IndexOf(c.order, k) == i
    ensures Drop(c, k) == c.(used := c.used - |c.table[k].handle|, order := Without(c.order, i), table := c.table - {k})
  {
  }
}
