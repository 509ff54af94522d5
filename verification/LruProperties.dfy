/** Eviction order and whole-run guarantees of the expert cache. */
module LruProperties {
  import opened Bytes
  import opened LruModel

  // ---------------------------------------------------------------- no needless eviction

  /** The cache after n sweeps. */
  function Sweeps(c: Cache, n: nat): (d: Cache)
    requires Valid(c)
    ensures Valid(d) && d.capacity == c.capacity
    decreases n
  {
    if n == 0 then c
    else
      EvictOneValid(Sweeps(c, n - 1));
      EvictOne(Sweeps(c, n - 1)).0
  }

  lemma {:induction false} SweepsFromFront(c: Cache, n: nat)
    requires Valid(c) && n > 0
    ensures Valid(EvictOne(c).0)
    ensures Sweeps(c, n) == Sweeps(EvictOne(c).0, n - 1)
  {
    EvictOneValid(c);
    if n > 1 { SweepsFromFront(c, n - 1); }
  }

  /** How many sweeps MakeRoom performs. */
  function SweepCount(c: Cache, sz: nat): nat
    requires Valid(c)
    decreases |c.order|
  {
    if c.used + sz <= c.capacity || c.order == [] then 0
    else
      EvictOneValid(c);
      if !EvictOne(c).1 then 1 else 1 + SweepCount(EvictOne(c).0, sz)
  }

  lemma {:induction false} MakeRoomSweeps(c: Cache, sz: nat)
    requires Valid(c)
    ensures MakeRoom(c, sz) == Sweeps(c, SweepCount(c, sz))
    decreases |c.order|
  {
    if !(c.used + sz <= c.capacity || c.order == []) {
      EvictOneValid(c);
      SweepsFromFront(c, SweepCount(c, sz));
      if EvictOne(c).1 { MakeRoomSweeps(EvictOne(c).0, sz); }
    }
  }

  /** No sweep is needless: before each one the block did not fit, and only the
      last one may find no victim. */
  lemma {:induction false} SweepsAreNeeded(c: Cache, sz: nat, i: nat)
    requires Valid(c) && i < SweepCount(c, sz)
    ensures Sweeps(c, i).used + sz > c.capacity && Sweeps(c, i).order != []
    ensures i + 1 < SweepCount(c, sz) ==> EvictOne(Sweeps(c, i)).1
    decreases i
  {
    EvictOneValid(c);
    if i > 0 {
      SweepsFromFront(c, i);
      SweepsAreNeeded(EvictOne(c).0, sz, i - 1);
    }
  }

  // ---------------------------------------------------------------- soft protection

  /** How many of the first n sweeps passed over k while it was resident. */
  function Passes(c: Cache, n: nat, k: ExpertKey): nat
    requires Valid(c)
  {
    if n == 0 then 0
    else Passes(c, n - 1, k) + (if PassedOver(Sweeps(c, n - 1), k) then 1 else 0)
  }

  /** What becomes of entry e of key k once p sweeps have passed over it: while
      resident its protection is what it was less p (never below zero); it may be
      gone only unpinned and after at least as many passes as it was protected;
      pinned it is untouched. */
  predicate Aged(e: Entry, p: nat, table: map<ExpertKey, Entry>, k: ExpertKey) {
    && (k in table ==>
          && table[k].handle == e.handle && table[k].pinned == e.pinned
          && table[k].protect == if e.pinned then e.protect else if p <= e.protect then e.protect - p else 0)
    && (k !in table ==> !e.pinned && p >= e.protect)
  }

  function Paid(e: Entry): Entry {
    if !e.pinned && e.protect > 0 then e.(protect := e.protect - 1) else e
  }

  /** What one sweep does to the entry of k. */
  lemma SweepEffect(c: Cache, k: ExpertKey)
    requires Valid(c)
    ensures var t := EvictOne(c).0.table;
      && (k !in c.table ==> k !in t && !PassedOver(c, k))
      && (k in c.table && k !in t ==> Evictable(c.table[k]) && !PassedOver(c, k))
      && (k in c.table && k in t ==> t[k] == if PassedOver(c, k) then Paid(c.table[k]) else c.table[k])
  {
    hide TotalBytes, IndexBelow, LastEvictable;
    assert Lists(c.order, c.table);
    if k !in c.table {
      assert k !in c.order;
    }
  }

  lemma AgedBySweep(c: Cache, e: Entry, p: nat, k: ExpertKey)
    requires Valid(c) && e.protect >= 0 && Aged(e, p, c.table, k)
    ensures Aged(e, p + (if PassedOver(c, k) then 1 else 0), EvictOne(c).0.table, k)
  {
    assert Covers(c.order, c.table);
    hide Valid, EvictOne, PassedOver;
    SweepEffect(c, k);
  }

  lemma SweepBase(c: Cache, k: ExpertKey)
    requires Valid(c) && k in c.table
    ensures Aged(c.table[k], Passes(c, 0, k), Sweeps(c, 0).table, k) && c.table[k].protect >= 0
  {
  }

  lemma SweepStep(c: Cache, n: nat, k: ExpertKey)
    requires Valid(c) && n > 0
    ensures var d := Sweeps(c, n - 1);
      && Sweeps(c, n) == EvictOne(d).0
      && Passes(c, n, k) == Passes(c, n - 1, k) + (if PassedOver(d, k) then 1 else 0)
  {
  }

  /** The soft-protection promise, over any number of sweeps. */
  lemma {:induction false} ProtectionOutlives(c: Cache, n: nat, k: ExpertKey)
    requires Valid(c) && k in c.table
    ensures Aged(c.table[k], Passes(c, n, k), Sweeps(c, n).table, k)
  {
    hide Sweeps, Passes, EvictOne;
    SweepBase(c, k);
    if n > 0 {
      ProtectionOutlives(c, n - 1, k);
      SweepStep(c, n, k);
      AgedBySweep(Sweeps(c, n - 1), c.table[k], Passes(c, n - 1, k), k);
    }
  }

  // ---------------------------------------------------------------- whole runs

  datatype Op =
    | OpInsert(key: ExpertKey, handle: seq<byte>)
    | OpCopy(key: ExpertKey, destSize: nat)
    | OpPin(key: ExpertKey)
    | OpBoost(key: ExpertKey, cycles: int)
    | OpResize(newCapacity: nat)

  function Apply(c: Cache, op: Op): (d: Cache)
    requires Valid(c)
    ensures Valid(d)
  {
    match op
    case OpInsert(k, h) => InsertContents(c, k, h); Insert(c, k, h).0
    case OpCopy(k, n) => CopyToValid(c, k, n); CopyTo(c, k, n).0
    case OpPin(k) => PinValid(c, k); Pin(c, k)
    case OpBoost(k, n) => BoostValid(c, k, n); Boost(c, k, n)
    case OpResize(n) => Empty(n)
  }

  function Run(c: Cache, ops: seq<Op>): (d: Cache)
    requires Valid(c)
    ensures Valid(d)
  {
    if ops == [] then c else Apply(Run(c, ops[..|ops| - 1]), ops[|ops| - 1])
  }

  /** The capacity after a run that starts with the given one. */
  function CapacityAfter(capacity: nat, ops: seq<Op>): nat {
    if ops == [] then capacity
    else if ops[|ops| - 1].OpResize? then ops[|ops| - 1].newCapacity
    else CapacityAfter(capacity, ops[..|ops| - 1])
  }

  /** The bytes offered by the last insertion of k that could fit at all: a block
      larger than the capacity of its time is turned away before the old entry is
      touched. */
  function LastFitting(capacity: nat, ops: seq<Op>, k: ExpertKey): Option<seq<byte>> {
    if ops == [] then None
    else
      var before, op := ops[..|ops| - 1], ops[|ops| - 1];
      if op.OpInsert? && op.key == k && |op.handle| <= CapacityAfter(capacity, before) then Some(op.handle)
      else LastFitting(capacity, before, k)
  }

  lemma ApplyCapacity(c: Cache, op: Op)
    requires Valid(c)
    ensures Apply(c, op).capacity == if op.OpResize? then op.newCapacity else c.capacity
  {
    if op.OpInsert? { InsertContents(c, op.key, op.handle); }
  }

  lemma EmptyValid(capacity: nat)
    ensures Valid(Empty(capacity))
  {
  }

  lemma {:induction false} RunCapacity(capacity: nat, ops: seq<Op>)
    ensures Run(Empty(capacity), ops).capacity == CapacityAfter(capacity, ops)
  {
    hide Apply, Valid;
    EmptyValid(capacity);
    if ops != [] {
      RunCapacity(capacity, ops[..|ops| - 1]);
      ApplyCapacity(Run(Empty(capacity), ops[..|ops| - 1]), ops[|ops| - 1]);
    }
  }

  /** Whose bytes a key holds after one operation. */
  lemma ApplyBytes(c: Cache, op: Op, k: ExpertKey)
    requires Valid(c) && k in Apply(c, op).table
    ensures op.OpInsert? && op.key == k && |op.handle| <= c.capacity ==> Apply(c, op).table[k].handle == op.handle
    ensures !(op.OpInsert? && op.key == k && |op.handle| <= c.capacity) ==>
      k in c.table && Apply(c, op).table[k].handle == c.table[k].handle
  {
    hide Valid, MakeRoom, Drop, CopyTo;
    match op
    case OpInsert(j, h) => InsertContents(c, j, h);
    case OpCopy(j, n) => CopyToValid(c, j, n);
    case OpPin(j) =>
    case OpBoost(j, n) => BoostValid(c, j, n);
    case OpResize(n) =>
  }

  /** In every run, whatever is offered, replaced, evicted, refused or resized, a
      resident key holds the bytes of its last insertion that could fit. */
  lemma {:induction false} ResidentBytes(capacity: nat, ops: seq<Op>, k: ExpertKey)
    requires k in Run(Empty(capacity), ops).table
    ensures LastFitting(capacity, ops, k) == Some(Run(Empty(capacity), ops).table[k].handle)
  {
    hide Apply, Valid;
    EmptyValid(capacity);
    if ops != [] {
      var before, op := ops[..|ops| - 1], ops[|ops| - 1];
      var c := Run(Empty(capacity), before);
      RunCapacity(capacity, before);
      ApplyBytes(c, op, k);
      if k in c.table { ResidentBytes(capacity, before, k); }
    }
  }

  /** Neither re-inserts k nor wipes the cache. */
  ghost predicate Leaves(op: Op, k: ExpertKey) {
    !op.OpResize? && !(op.OpInsert? && op.key == k)
  }

  lemma ApplyKeepsPinned(c: Cache, op: Op, k: ExpertKey)
    requires Valid(c) && k in c.table && c.table[k].pinned && Leaves(op, k)
    ensures k in Apply(c, op).table
    ensures Apply(c, op).table[k].handle == c.table[k].handle && Apply(c, op).table[k].pinned
  {
    match op
    case OpInsert(j, h) => InsertContents(c, j, h); hide Insert;
    case OpCopy(j, n) => CopyToValid(c, j, n); hide CopyTo;
    case OpPin(j) =>
    case OpBoost(j, n) =>
  }

  /** A pinned key survives every run that neither re-inserts it nor resizes
      the cache, with unchanged bytes and still pinned. */
  lemma {:induction false} PinnedSurvives(c: Cache, ops: seq<Op>, k: ExpertKey)
    requires Valid(c) && k in c.table && c.table[k].pinned
    requires forall i :: 0 <= i < |ops| ==> Leaves(ops[i], k)
    ensures k in Run(c, ops).table
    ensures Run(c, ops).table[k].handle == c.table[k].handle && Run(c, ops).table[k].pinned
  {
    hide Apply, Valid, Leaves;
    if ops != [] {
      PinnedSurvives(c, ops[..|ops| - 1], k);
      ApplyKeepsPinned(Run(c, ops[..|ops| - 1]), ops[|ops| - 1], k);
    }
  }

  /** Re-inserting is what ends a pin: accepted, the new entry is unpinned;
      refused for want of room, the key is gone. */
  lemma ReinsertUnpins(c: Cache, k: ExpertKey, handle: seq<byte>)
    requires Valid(c) && |handle| <= c.capacity
    ensures var (d, ok) := Insert(c, k, handle); if ok then k in d.table && !d.table[k].pinned else k !in d.table
  {
    InsertContents(c, k, handle);
  }

  // ---------------------------------------------------------------- soft protection over runs

  /** The sweeps of one operation that charge k: those of an insertion of another
      key that pass over k while it is not pinned. */
  function OpCharges(c: Cache, op: Op, k: ExpertKey): nat
    requires Valid(c)
  {
    if !op.OpInsert? || op.key == k || |op.handle| > c.capacity || (k in c.table && c.table[k].pinned) then 0
    else
      DropValid(c, op.key);
      Passes(Drop(c, op.key), SweepCount(Drop(c, op.key), |op.handle|), k)
  }

  function Charges(c: Cache, ops: seq<Op>, k: ExpertKey): nat
    requires Valid(c)
  {
    if ops == [] then 0
    else Charges(c, ops[..|ops| - 1], k) + OpCharges(Run(c, ops[..|ops| - 1]), ops[|ops| - 1], k)
  }

  /** Neither re-inserts nor boosts k, nor wipes the cache. */
  ghost predicate LeavesAlone(op: Op, k: ExpertKey) {
    Leaves(op, k) && !(op.OpBoost? && op.key == k)
  }

  /** Some operation pins k. */
  predicate Pins(ops: seq<Op>, k: ExpertKey) {
    ops != [] && (ops[|ops| - 1] == OpPin(k) || Pins(ops[..|ops| - 1], k))
  }

  /** What becomes of entry e of key k once p sweeps have charged it: resident, its
      bytes are the same and its protection is what it was less p, never below
      zero; gone, it was not pinned and was charged at least as often as protected. */
  predicate Charged(e: Entry, p: nat, pinned: bool, table: map<ExpertKey, Entry>, k: ExpertKey) {
    && (k in table ==>
          && table[k].handle == e.handle && table[k].pinned == (e.pinned || pinned)
          && table[k].protect == if p <= e.protect then e.protect - p else 0)
    && (k !in table ==> !e.pinned && p >= e.protect)
  }

  /** What one operation does to k's entry. */
  lemma OpCharged(c: Cache, op: Op, k: ExpertKey)
    requires Valid(c) && k in c.table && LeavesAlone(op, k)
    ensures Charged(c.table[k], OpCharges(c, op, k), op == OpPin(k), Apply(c, op).table, k)
  {
    hide Valid, CopyTo, MakeRoom, Passes, SweepCount, Drop, Insert;
    ProtectNotNegative(c, k);
    match op
    case OpInsert(j, h) => InsertCharged(c, j, h, k);
    case OpCopy(j, n) => CopyToValid(c, j, n);
    case OpPin(j) =>
    case OpBoost(j, n) =>
  }

  lemma InsertCharged(c: Cache, j: ExpertKey, h: seq<byte>, k: ExpertKey)
    requires Valid(c) && k in c.table && j != k && c.table[k].protect >= 0
    ensures Charged(c.table[k], OpCharges(c, OpInsert(j, h), k), false, Insert(c, j, h).0.table, k)
  {
    hide Sweeps, Passes, MakeRoom, Valid, SweepCount;
    if |h| <= c.capacity {
      DropValid(c, j);
      var d := Drop(c, j);
      assert d.table == c.table - {j};
      hide Drop;
      MakeRoomSweeps(d, |h|);
      ProtectionOutlives(d, SweepCount(d, |h|), k);
    }
  }

  lemma NotResident(c: Cache, op: Op, k: ExpertKey)
    requires Valid(c) && k !in c.table && LeavesAlone(op, k)
    ensures k !in Apply(c, op).table
  {
    if k in Apply(c, op).table { ApplyBytes(c, op, k); }
  }

  /** The promise of a boost over whole runs: through any operations that neither
      re-insert nor boost k nor resize the cache, k outlives as many charging
      sweeps, of all insertions together, as it was protected; pinned, it stays. */
  lemma {:induction false} ProtectionOutlivesRun(c: Cache, ops: seq<Op>, k: ExpertKey)
    requires Valid(c) && k in c.table && forall i :: 0 <= i < |ops| ==> LeavesAlone(ops[i], k)
    ensures Charged(c.table[k], Charges(c, ops, k), Pins(ops, k), Run(c, ops).table, k)
  {
    hide Apply, Valid, LeavesAlone, OpCharges;
    if ops == [] {
      assert c.table[k].protect >= 0 by { ProtectNotNegative(c, k); }
    } else {
      var before, op := ops[..|ops| - 1], ops[|ops| - 1];
      var d := Run(c, before);
      ProtectionOutlivesRun(c, before, k);
      ProtectNotNegative(c, k);
      if k in d.table {
        OpCharged(d, op, k);
      } else {
        NotResident(d, op, k);
      }
    }
  }

  /** What is left of a protection from n sweeps once p sweeps have charged k. */
  ghost predicate StillProtected(n: int, p: nat, table: map<ExpertKey, Entry>, k: ExpertKey) {
    if k in table then table[k].pinned || table[k].protect + p >= n else p >= n
  }

  lemma OpStillProtected(c: Cache, op: Op, k: ExpertKey, n: int, p: nat)
    requires Valid(c) && Leaves(op, k) && StillProtected(n, p, c.table, k)
    ensures StillProtected(n, p + OpCharges(c, op, k), Apply(c, op).table, k)
  {
    hide Valid, Passes, SweepCount, Drop, Insert, Boost, Promote, SoftProtect;
    if op.OpBoost? {
      BoostValid(c, op.key, op.cycles);
    } else if k in c.table {
      hide OpCharges, Apply;
      ProtectNotNegative(c, k);
      OpCharged(c, op, k);
    } else {
      hide OpCharges;
      NotResident(c, op, k);
    }
  }

  /** What a boost is for: from it on, whatever happens to the cache short of
      re-inserting k or resizing (other boosts of k included), k is gone only once
      as many sweeps as the boost granted have passed over it. */
  lemma {:induction false} BoostOutlives(c: Cache, k: ExpertKey, cycles: int, ops: seq<Op>)
    requires Valid(c) && k in c.table
    requires forall i :: 0 <= i < |ops| ==> Leaves(ops[i], k)
    ensures var d := Boost(c, k, cycles);
      && Valid(d)
      && StillProtected(cycles, Charges(d, ops, k), Run(d, ops).table, k)
  {
    hide Valid, Leaves, Boost, Apply, OpCharges;
    var d := Boost(c, k, cycles);
    BoostValid(c, k, cycles);
    if ops != [] {
      var before := ops[..|ops| - 1];
      BoostOutlives(c, k, cycles, before);
      OpStillProtected(Run(d, before), ops[|ops| - 1], k, cycles, Charges(d, before, k));
    }
  }

  lemma ProtectNotNegative(c: Cache, k: ExpertKey)
    requires Valid(c) && k in c.table
    ensures c.table[k].protect >= 0
  {
  }

  // ---------------------------------------------------------------- recency

  /** The key an operation moves to the front, if any. */
  function Touched(c: Cache, op: Op): Option<ExpertKey>
    requires Valid(c)
  {
    match op
    case OpInsert(k, h) => if Insert(c, k, h).1 then Some(k) else None
    case OpCopy(k, _) => if k in c.table then Some(k) else None
    case OpBoost(k, _) => if k in c.table then Some(k) else None
    case _ => None
  }

  /** When each key was last moved to the front. */
  function LastTouch(c: Cache, ops: seq<Op>): map<ExpertKey, nat>
    requires Valid(c)
  {
    if ops == [] then map[]
    else
      var before := ops[..|ops| - 1];
      match Touched(Run(c, before), ops[|ops| - 1])
      case Some(k) => LastTouch(c, before)[k := |ops|]
      case None => LastTouch(c, before)
  }

  /** More recently touched keys come first. */
  ghost predicate ByRecency(order: seq<ExpertKey>, touch: map<ExpertKey, nat>, now: nat) {
    && (forall i :: 0 <= i < |order| ==> order[i] in touch && touch[order[i]] <= now)
    && (forall i, j :: 0 <= i < j < |order| ==> touch[order[i]] > touch[order[j]])
  }

  lemma WithoutByRecency(order: seq<ExpertKey>, touch: map<ExpertKey, nat>, now: nat, i: nat)
    requires ByRecency(order, touch, now) && i < |order|
    ensures ByRecency(Without(order, i), touch, now)
  {
  }

  lemma FrontByRecency(k: ExpertKey, rest: seq<ExpertKey>, touch: map<ExpertKey, nat>, now: nat)
    requires ByRecency(rest, touch, now) && k !in rest
    ensures ByRecency([k] + rest, touch[k := now + 1], now + 1)
  {
    var order, later := [k] + rest, touch[k := now + 1];
    forall i | 0 <= i < |rest| ensures rest[i] != k && later[rest[i]] == touch[rest[i]] {
      assert rest[i] in rest;
    }
    forall i, j | 0 <= i < j < |order| ensures later[order[i]] > later[order[j]] {
      assert order[j] == rest[j - 1];
      if i > 0 { assert order[i] == rest[i - 1]; }
    }
  }

  lemma {:induction false} MakeRoomByRecency(c: Cache, sz: nat, touch: map<ExpertKey, nat>, now: nat)
    requires Valid(c) && ByRecency(c.order, touch, now)
    ensures ByRecency(MakeRoom(c, sz).order, touch, now)
    decreases |c.order|
  {
    if !(c.used + sz <= c.capacity || c.order == []) {
      EvictOneValid(c);
      if EvictOne(c).1 {
        WithoutByRecency(c.order, touch, now, Victim(c));
        MakeRoomByRecency(EvictOne(c).0, sz, touch, now);
      }
    }
  }

  lemma PromoteByRecency(c: Cache, k: ExpertKey, touch: map<ExpertKey, nat>, now: nat)
    requires Valid(c) && k in c.table && ByRecency(c.order, touch, now)
    ensures ByRecency(Promote(c, k).order, touch[k := now + 1], now + 1)
  {
    var i := IndexOf(c.order, k);
    WithoutKeepsDistinct(c.order, i);
    WithoutByRecency(c.order, touch, now, i);
    FrontByRecency(k, Without(c.order, i), touch, now);
  }

  lemma DropByRecency(c: Cache, k: ExpertKey, touch: map<ExpertKey, nat>, now: nat)
    requires Valid(c) && ByRecency(c.order, touch, now)
    ensures Valid(Drop(c, k)) && ByRecency(Drop(c, k).order, touch, now)
  {
    DropValid(c, k);
    if k in c.table { WithoutByRecency(c.order, touch, now, IndexOf(c.order, k)); }
  }

  lemma InsertByRecency(c: Cache, k: ExpertKey, handle: seq<byte>, touch: map<ExpertKey, nat>, now: nat)
    requires Valid(c) && ByRecency(c.order, touch, now)
    ensures var (d, ok) := Insert(c, k, handle);
      ByRecency(d.order, if ok then touch[k := now + 1] else touch, now + 1)
  {
    if |handle| <= c.capacity {
      DropByRecency(c, k, touch, now);
      var dropped := Drop(c, k);
      assert k !in dropped.table;
      MakeRoomByRecency(dropped, |handle|, touch, now);
      MakeRoomValid(dropped, |handle|);
      var room := MakeRoom(dropped, |handle|);
      assert k !in room.order by { NotListed(dropped, room, k); }
      LaterByRecency(room.order, touch, now);
      FrontByRecency(k, room.order, touch, now);
      hide Drop, MakeRoom, ByRecency, Valid, OthersKept;
    } else {
      LaterByRecency(c.order, touch, now);
    }
  }

  lemma LaterByRecency(order: seq<ExpertKey>, touch: map<ExpertKey, nat>, now: nat)
    requires ByRecency(order, touch, now)
    ensures ByRecency(order, touch, now + 1)
  {
  }

  lemma NotListed(c: Cache, d: Cache, k: ExpertKey)
    requires Valid(d) && d.table.Keys <= c.table.Keys && k !in c.table
    ensures k !in d.order
  {
    hide TotalBytes;
  }

  lemma ApplyByRecency(c: Cache, op: Op, touch: map<ExpertKey, nat>, now: nat)
    requires Valid(c) && ByRecency(c.order, touch, now)
    ensures ByRecency(Apply(c, op).order,
                      if Touched(c, op).Some? then touch[Touched(c, op).value := now + 1] else touch, now + 1)
  {
    LaterByRecency(c.order, touch, now);
    match op
    case OpInsert(k, h) =>
      hide Insert, ByRecency, Valid;
      InsertByRecency(c, k, h, touch, now);
    case OpCopy(k, _) =>
      hide Promote, ByRecency, Valid;
      if k in c.table { PromoteByRecency(c, k, touch, now); }
    case OpPin(k) => hide ByRecency, Valid;
    case OpBoost(k, m) =>
      if k in c.table {
        SoftProtectValid(c, k, m);
        assert SoftProtect(c, k, m).order == c.order && k in SoftProtect(c, k, m).table;
        hide Promote, SoftProtect, ByRecency, Valid;
        PromoteByRecency(SoftProtect(c, k, m), k, touch, now);
      }
    case OpResize(_) =>
  }

  /** In every run from an empty cache the list is sorted by last touch. */
  lemma {:induction false} OrderIsRecency(capacity: nat, ops: seq<Op>)
    ensures ByRecency(Run(Empty(capacity), ops).order, LastTouch(Empty(capacity), ops), |ops|)
  {
    if ops != [] {
      var before := ops[..|ops| - 1];
      OrderIsRecency(capacity, before);
      ApplyByRecency(Run(Empty(capacity), before), ops[|ops| - 1], LastTouch(Empty(capacity), before), |before|);
    }
  }

  /** v may be evicted and every other evictable key was touched after it. */
  ghost predicate LeastRecentEvictable(c: Cache, touch: map<ExpertKey, nat>, v: ExpertKey) {
    && v in c.table && Evictable(c.table[v])
    && forall k :: k in c.table && k != v && Evictable(c.table[k]) ==> k in touch && v in touch && touch[v] < touch[k]
  }

  lemma VictimIsOldest(c: Cache, touch: map<ExpertKey, nat>, now: nat)
    requires Valid(c) && ByRecency(c.order, touch, now) && EvictOne(c).1
    ensures Victim(c) >= 0 && LeastRecentEvictable(c, touch, c.order[Victim(c)])
    ensures EvictOne(c).0.table.Keys == c.table.Keys - {c.order[Victim(c)]}
  {
    var v := c.order[Victim(c)];
    forall k | k in c.table && k != v && Evictable(c.table[k])
      ensures k in touch && v in touch && touch[v] < touch[k]
    {
      var i := IndexOf(c.order, k);
      assert i < Victim(c);
    }
  }

  lemma SweepByRecency(c: Cache, touch: map<ExpertKey, nat>, now: nat)
    requires Valid(c) && ByRecency(c.order, touch, now)
    ensures ByRecency(EvictOne(c).0.order, touch, now)
  {
    if EvictOne(c).1 { WithoutByRecency(c.order, touch, now, Victim(c)); }
  }

  lemma {:induction false} SweepsByRecency(c: Cache, n: nat, touch: map<ExpertKey, nat>, now: nat)
    requires Valid(c) && ByRecency(c.order, touch, now)
    ensures ByRecency(Sweeps(c, n).order, touch, now)
  {
    hide Valid, ByRecency, EvictOne;
    if n > 0 {
      SweepsByRecency(c, n - 1, touch, now);
      SweepByRecency(Sweeps(c, n - 1), touch, now);
    }
  }

  /** A sweep removes exactly v, the least recent entry it may remove. */
  ghost predicate Removes(c: Cache, touch: map<ExpertKey, nat>, v: ExpertKey)
    requires Valid(c)
  {
    LeastRecentEvictable(c, touch, v) && EvictOne(c).0.table.Keys == c.table.Keys - {v}
  }

  lemma SweepRemoves(c: Cache, touch: map<ExpertKey, nat>, now: nat) returns (v: ExpertKey)
    requires Valid(c) && ByRecency(c.order, touch, now) && EvictOne(c).1
    ensures Removes(c, touch, v)
  {
    assert Covers(c.order, c.table);
    hide Valid, EvictOne, ByRecency, LeastRecentEvictable, Victim;
    VictimIsOldest(c, touch, now);
    v := c.order[Victim(c)];
  }

  /** When each key was last moved to the front, in a run from an empty cache. */
  function TouchTimes(capacity: nat, ops: seq<Op>): map<ExpertKey, nat> {
    EmptyValid(capacity);
    LastTouch(Empty(capacity), ops)
  }

  /** The cache before sweep i of an insertion of k after a run: k's old entry is
      dropped and i sweeps have been made. */
  function BeforeSweep(capacity: nat, ops: seq<Op>, k: ExpertKey, i: nat): (c: Cache)
    ensures Valid(c) && Covers(c.order, c.table)
  {
    EmptyValid(capacity);
    DropValid(Run(Empty(capacity), ops), k);
    Sweeps(Drop(Run(Empty(capacity), ops), k), i)
  }

  lemma BeforeSweepByRecency(capacity: nat, ops: seq<Op>, k: ExpertKey, i: nat)
    ensures ByRecency(BeforeSweep(capacity, ops, k, i).order, TouchTimes(capacity, ops), |ops|)
  {
    hide Run, LastTouch, EvictOne, ByRecency, Drop, Sweeps;
    EmptyValid(capacity);
    OrderIsRecency(capacity, ops);
    DropByRecency(Run(Empty(capacity), ops), k, LastTouch(Empty(capacity), ops), |ops|);
    SweepsByRecency(Drop(Run(Empty(capacity), ops), k), i, LastTouch(Empty(capacity), ops), |ops|);
  }

  /** In every run, what a sweep removes is the one resident key that is neither
      pinned nor protected and was touched longest ago: for the first and every
      further sweep of the next insertion, of a new key or of a resident one. */
  lemma VictimIsLeastRecent(capacity: nat, ops: seq<Op>, k: ExpertKey, i: nat)
    requires EvictOne(BeforeSweep(capacity, ops, k, i)).1
    ensures exists v :: Removes(BeforeSweep(capacity, ops, k, i), TouchTimes(capacity, ops), v)
  {
    hide *;
    BeforeSweepByRecency(capacity, ops, k, i);
    var v := SweepRemoves(BeforeSweep(capacity, ops, k, i), TouchTimes(capacity, ops), |ops|);
  }
}
