/** The GPU expert cache itself: its tables, its pinned slots and the streams it
    drives, proved to do the steps of GpuModel and GpuErrors, whatever call to
    the device fails. */
module GpuCache {
  import opened Bytes
  import opened GpuModel
  import opened GpuSafety
  import opened GpuErrors

  class ExpertGpuCache {
    // the device, as the host sees it
    var host: seq<Block>
    var dev: seq<Block>
    ghost var held: seq<Option<nat>>
    var queue: seq<Copy>
    var issued: nat
    var done: nat
    var copyDone: seq<nat>
    var gate: nat
    // the tables
    var lastUse: seq<int>
    var inUse: seq<bool>
    var slotPending: seq<bool>
    var nextStageSlot: nat
    var lruClock: int
    var mapKeyToSlot: map<nat, nat>
    var uploadPending: map<nat, bool>
    var uploadStageSlot: map<nat, nat>

    ghost function State(): Gpu
      reads this
    {
      Gpu(host, dev, held, queue, issued, done, copyDone, lastUse, inUse, slotPending, nextStageSlot, lruClock,
          mapKeyToSlot, uploadPending, uploadStageSlot)
    }

    /** The state with what the compute stream waits for. */
    ghost function HostState(): Host
      reads this
    {
      Host(State(), gate)
    }

    /** capacity device slots and slotCount pinned slots. */
    constructor (capacity: nat, slotCount: nat, content: Block)
      requires capacity > 0 && slotCount > 0
      ensures Initial(State()) && gate == 0 && |dev| == capacity && |host| == slotCount
    {
      host, dev := seq(slotCount, _ => content), seq(capacity, _ => content);
      held := seq(capacity, _ => None);
      queue, issued, done, copyDone, gate := [], 0, 0, seq(slotCount, _ => 0), 0;
      lastUse, inUse := seq(capacity, _ => 0), seq(capacity, _ => false);
      slotPending, nextStageSlot, lruClock := seq(slotCount, _ => false), 0, 0;
      mapKeyToSlot, uploadPending, uploadStageSlot := map[], map[], map[];
    }

    /** The host blocks until the stream has carried out the first n copies. */
    method Wait(n: nat)
      requires Shaped(State())
      modifies this
      ensures State() == DrainTo(old(State()), n) && gate == old(gate)
    {
      hide DrainTo, Shaped, QueueFits;
      ghost var start := State();
      ShapedFits(start);
      while queue != [] && done < n
        invariant QueueFits(State()) && DrainTo(State(), n) == DrainTo(start, n) && gate == old(gate)
        decreases |queue|
      {
        var c := queue[0];
        DrainStep(State(), n);
        dev, queue, done := dev[c.slot := host[c.stage]], queue[1..], done + 1;
        held := held[c.slot := Some(c.key)];
      }
      DrainEnd(State(), n);
    }

    /** Round-robin claim of a pinned slot; a slot that may still be read drains
        the stream, and none is handed out when that fails. */
    method ClaimStageSlot(drainFails: bool) returns (s: Option<nat>)
      requires Shaped(State())
      modifies this
      ensures drainFails && old(slotPending[nextStageSlot]) ==> State() == Turned(old(State())) && s == None
      ensures !(drainFails && old(slotPending[nextStageSlot])) ==>
        State() == Claim(old(State())).0 && s == Some(Claim(old(State())).1)
      ensures gate == old(gate)
    {
      ghost var was := State();
      ClaimIs(was);
      DrainAs(Turned(was), was.issued);
      StageFits(was);
      hide Shaped, QueueFits, DrainTo, Claim;
      var i := nextStageSlot;
      nextStageSlot := (nextStageSlot + 1) % |slotPending|;
      assert State() == Turned(was);
      if slotPending[i] {
        if drainFails {
          return None;
        }
        Wait(issued);
        slotPending := seq(|slotPending|, _ => false);
        assert |slotPending| == |was.slotPending|;
      }
      return Some(i);
    }

    /** The search for the least recently staged slot. */
    method FindOldest() returns (victim: nat)
      requires 0 < |lastUse|
      ensures victim == Oldest(lastUse, |lastUse|)
    {
      victim := 0;
      var e := 1;
      while e < |lastUse|
        invariant 1 <= e <= |lastUse| && victim == Oldest(lastUse, e)
      {
        if lastUse[e] < lastUse[victim] {
          victim := e;
        }
        e := e + 1;
      }
    }

    /** The search for an unused slot. */
    method FindFree() returns (free: nat)
      ensures free == FirstFree(inUse, 0)
    {
      free := 0;
      while free < |inUse| && inUse[free]
        invariant free <= |inUse| && FirstFree(inUse, free) == FirstFree(inUse, 0)
      {
        free := free + 1;
      }
    }

    /** Forgets the key that holds the slot; 0 when none does. */
    method ForgetOwner(victim: nat) returns (evicted: nat)
      requires Injective(mapKeyToSlot)
      modifies `mapKeyToSlot
      ensures mapKeyToSlot == old(mapKeyToSlot) - Owners(old(mapKeyToSlot), victim)
      ensures Owners(old(mapKeyToSlot), victim) == {evicted}
          || (evicted == 0 && Owners(old(mapKeyToSlot), victim) == {})
    {
      hide Forgetting, Injective, Owners;
      evicted := 0;
      ghost var was := mapKeyToSlot;
      var todo := mapKeyToSlot.Keys;
      assert Forgetting(was, mapKeyToSlot, todo, victim, evicted) by { ForgetStart(was, victim); }
      while todo != {}
        invariant todo <= mapKeyToSlot.Keys && Forgetting(was, mapKeyToSlot, todo, victim, evicted)
        decreases |todo|
      {
        var k :| k in todo;
        ForgetStep(was, mapKeyToSlot, todo, victim, evicted, k);
        if mapKeyToSlot[k] == victim {
          evicted := k;
          mapKeyToSlot := mapKeyToSlot - {k};
        }
        todo := todo - {k};
      }
      ForgetDone(was, mapKeyToSlot, victim, evicted);
    }

    /** Lookup or admission. Erasing the forgotten key's upload records is right
        because no key is 0. */
    method AcquireSlot(k: nat) returns (slot: nat, needUpload: bool)
      requires Shaped(State()) && Injective(mapKeyToSlot) && 0 !in mapKeyToSlot && Tracked(State())
      modifies this
      ensures (State(), slot, needUpload) == Acquire(old(State()), k) && gate == old(gate)
    {
      if k in mapKeyToSlot {
        slot := mapKeyToSlot[k];
        lruClock := lruClock + 1;
        lastUse := lastUse[slot := lruClock];
        return slot, false;
      }
      slot := FindVictim();
      Admit(k, slot);
      return slot, true;
    }

    method FindVictim() returns (victim: nat)
      requires Shaped(State())
      ensures victim == Victim(State())
    {
      if |mapKeyToSlot| >= |dev| {
        victim := FindOldest();
      } else {
        victim := FindFree();
        if victim >= |dev| {
          victim := 0;
        }
      }
    }

    /** The slot's owner makes way for k. */
    method Admit(k: nat, victim: nat)
      requires Shaped(State()) && Injective(mapKeyToSlot) && 0 !in mapKeyToSlot && Tracked(State())
      requires k !in mapKeyToSlot && victim == Victim(State())
      modifies this
      ensures State() == Acquire(old(State()), k).0 && gate == old(gate)
    {
      ghost var was := State();
      VictimFits(was);
      hide Shaped, Injective, QueueFits, Victim, Owners, Acquire, Tracked, Forgetting, Taking, Forgotten;
      var evictedKey := ForgetOwner(victim);
      AdmitIs(was, k, victim, evictedKey);
      ForgetUpload(evictedKey);
      TakeSlot(k, victim);
    }

    method ForgetUpload(key: nat)
      modifies this
      ensures State() == Forgotten(old(State()), key) && gate == old(gate)
    {
      uploadPending := uploadPending - {key};
      uploadStageSlot := uploadStageSlot - {key};
    }

    method TakeSlot(k: nat, victim: nat)
      requires victim < |inUse| == |lastUse|
      modifies this
      ensures State() == Taking(old(State()), k, victim) && gate == old(gate)
    {
      lruClock := lruClock + 1;
      inUse, lastUse := inUse[victim := true], lastUse[victim := lruClock];
      mapKeyToSlot := mapKeyToSlot[k := victim];
    }

    /** Behind the admission: fill a pinned slot, queue the upload, record it. */
    method QueueUpload(k: nat, slot: nat, w: Block, fault: Option<Fault>) returns (ok: bool)
      requires Shaped(State())
      modifies this
      ensures State() == Fill(old(State()), k, slot, w, fault) && gate == old(gate)
      ensures ok <==> !Breaks(old(State()), fault)
    {
      ghost var was := State();
      FillIs(was, k, slot, w, fault);
      hide Claim, Shaped, Turned, Fill, QueueFits, Queueing, Marked;
      var claimed := ClaimStageSlot(fault == Some(DrainFails));
      if claimed == None {
        return false;
      }
      var s := claimed.value;
      host := host[s := w];
      if fault == Some(CopyFails) {
        return false;
      }
      QueueCopy(k, slot, s);
      MarkUpload(k, s);
      return true;
    }

    /** The copy is put on the stream and its event recorded behind it. */
    method QueueCopy(k: nat, slot: nat, s: nat)
      requires s < |copyDone|
      modifies this
      ensures State() == Queueing(old(State()), k, slot, s) && gate == old(gate)
    {
      queue, issued := queue + [Copy(s, slot, k)], issued + 1;
      copyDone := copyDone[s := issued];
    }

    method MarkUpload(k: nat, s: nat)
      requires s < |slotPending|
      modifies this
      ensures State() == Marked(old(State()), k, s) && gate == old(gate)
    {
      slotPending := slotPending[s := true];
      uploadPending, uploadStageSlot := uploadPending[k := true], uploadStageSlot[k := s];
    }

    /** gpuExpertStage: admit, fill a pinned slot, queue the upload. An error
        leaves the expert in the table. */
    method ExpertStage(layer: nat, expert: nat, w: Block, fault: Option<Fault>) returns (ok: bool)
      requires Shaped(State()) && Injective(mapKeyToSlot) && 0 !in mapKeyToSlot && Tracked(State())
      modifies this
      ensures ok <==> !Strikes(old(State()), KeyOf(layer, expert), fault)
      ensures ok ==> State() == Stage(old(State()), KeyOf(layer, expert), w)
      ensures !ok ==> State() == StageFailed(old(State()), KeyOf(layer, expert), w, fault.value)
      ensures gate == old(gate)
    {
      var k := KeyOf(layer, expert);
      StagingIs(State(), k, w, fault);
      hide Acquire, Claim, Shaped, Stage, StageFailed, Strikes, Breaks, Fill, KeyOf;
      var slot, needUpload := AcquireSlot(k);
      if !needUpload {
        return true;
      }
      ok := QueueUpload(k, slot, w, fault);
    }

    /** The compute stream is told to wait for the upload, and its marks are cleared. */
    method ClearMarks(k: nat, s: nat)
      requires s < |copyDone| == |slotPending|
      modifies this
      ensures State() == Clearing(old(State()), k, s) && gate == Max(old(gate), copyDone[s])
    {
      gate := if gate < copyDone[s] then copyDone[s] else gate;
      slotPending := slotPending[s := false];
      uploadPending := uploadPending[k := false];
    }

    /** gpuExpertFFN: the block its kernel reads, or a refusal; with an error it
        gives up before or behind the wait of the compute stream. */
    method ExpertFfn(layer: nat, expert: nat, error: Option<ComputeError>) returns (read: Option<Block>)
      requires Shaped(State())
      modifies this
      ensures var was, k := old(HostState()), KeyOf(layer, expert);
        && (error == None || (error == Some(WaitFails) && !Waits(was.g, k)) ==> (HostState(), read) == Compute(was, k))
        && (error == Some(WaitFails) && Waits(was.g, k) ==> HostState() == was && read == None)
        && (error == Some(KernelFails) ==> HostState() == Fail(was, k) && read == None)
    {
      var k := KeyOf(layer, expert);
      ghost var was := HostState();
      FailShaped(was, k);
      if k !in mapKeyToSlot {
        return None;
      }
      var slot := mapKeyToSlot[k];
      if k in uploadPending && uploadPending[k] && k in uploadStageSlot {
        if error == Some(WaitFails) {
          return None;
        }
        ClearMarks(k, uploadStageSlot[k]);
      }
      assert HostState() == Fail(was, k);
      if error == Some(KernelFails) {
        return None;
      }
      DrainAs(State(), gate);
      Wait(gate);
      return Some(dev[slot]);
    }
  }

  /** Of the keys already looked at, only the slot's owner is gone. */
  ghost predicate Forgetting(was: map<nat, nat>, now: map<nat, nat>, todo: set<nat>, victim: nat, evicted: nat) {
    && now.Keys <= was.Keys && todo <= now.Keys
    && (forall k :: k in now ==> now[k] == was[k])
    && (forall k :: k in was && k !in todo ==> (k in now <==> was[k] != victim))
    && (forall k :: k in was && k !in todo && was[k] == victim ==> evicted == k)
    && (evicted != 0 ==> evicted in was && evicted !in todo && was[evicted] == victim)
  }

  lemma ForgetStart(was: map<nat, nat>, victim: nat)
    ensures Forgetting(was, was, was.Keys, victim, 0)
  {
  }

  lemma ForgetStep(was: map<nat, nat>, now: map<nat, nat>, todo: set<nat>, victim: nat, evicted: nat, k: nat)
    requires Injective(was) && Forgetting(was, now, todo, victim, evicted) && k in todo && k in now
    ensures now[k] == victim ==> Forgetting(was, now - {k}, todo - {k}, victim, k)
    ensures now[k] != victim ==> Forgetting(was, now, todo - {k}, victim, evicted)
  {
  }

  lemma ForgetDone(was: map<nat, nat>, now: map<nat, nat>, victim: nat, evicted: nat)
    requires Injective(was) && Forgetting(was, now, {}, victim, evicted)
    ensures now == was - Owners(was, victim)
    ensures Owners(was, victim) == {evicted} || (evicted == 0 && Owners(was, victim) == {})
  {
    assert forall k :: k in Owners(was, victim) ==> k == evicted;
    if evicted in Owners(was, victim) {
      assert Owners(was, victim) == {evicted};
    }
  }

  lemma DrainStep(g: Gpu, n: nat)
    requires QueueFits(g) && g.queue != [] && g.done < n
    ensures g.queue[0].stage < |g.host| && g.queue[0].slot < |g.dev| == |g.held|
    ensures QueueFits(CopyOne(g)) && DrainTo(g, n) == DrainTo(CopyOne(g), n)
  {
  }

  lemma DrainEnd(g: Gpu, n: nat)
    requires QueueFits(g) && (g.queue == [] || g.done >= n)
    ensures DrainTo(g, n) == g
  {
  }

  lemma StageFits(g: Gpu)
    requires Shaped(g)
    ensures g.nextStage < |g.slotPending| == |g.host| == |g.event|
  {
  }

  function Clearing(g: Gpu, k: nat, s: nat): Gpu
    requires s < |g.slotPending|
  {
    g.(slotPending := g.slotPending[s := false], uploadPending := g.uploadPending[k := false])
  }

  /** The fault strikes behind the admission. */
  predicate Breaks(g: Gpu, fault: Option<Fault>) {
    fault.Some? && (fault.value.DrainFails? ==> g.nextStage < |g.slotPending| && g.slotPending[g.nextStage])
  }

  /** What staging does behind the admission. */
  ghost function Fill(g: Gpu, k: nat, slot: nat, w: Block, fault: Option<Fault>): Gpu
    requires Shaped(g)
  {
    ClaimShaped(g);
    var (c, s) := Claim(g);
    if !Breaks(g, fault) then Upload(c, k, slot, s, w)
    else if fault.value.DrainFails? then Turned(g)
    else c.(host := c.host[s := w])
  }

  /** A copy is queued from a pinned slot that is filled already. */
  function Queueing(g: Gpu, k: nat, slot: nat, s: nat): Gpu
    requires s < |g.event|
  {
    g.(queue := g.queue + [Copy(s, slot, k)], issued := g.issued + 1, event := g.event[s := g.issued + 1])
  }

  /** k's upload is recorded to go through pinned slot s. */
  function Marked(g: Gpu, k: nat, s: nat): Gpu
    requires s < |g.slotPending|
  {
    g.(slotPending := g.slotPending[s := true], uploadPending := g.uploadPending[k := true],
       uploadStage := g.uploadStage[k := s])
  }

  /** Fill, case by case. */
  lemma FillIs(g: Gpu, k: nat, slot: nat, w: Block, fault: Option<Fault>)
    requires Shaped(g)
    ensures g.nextStage < |g.slotPending|
    ensures var (c, s) := Claim(g);
      && s < |c.host| && s < |c.event| && s < |c.slotPending|
      && (fault == Some(DrainFails) && g.slotPending[g.nextStage] ==> Fill(g, k, slot, w, fault) == Turned(g))
      && (fault == Some(CopyFails) ==> Fill(g, k, slot, w, fault) == c.(host := c.host[s := w]))
      && (!Breaks(g, fault) ==>
            Fill(g, k, slot, w, fault) == Marked(Queueing(c.(host := c.host[s := w]), k, slot, s), k, s))
      && |Queueing(c.(host := c.host[s := w]), k, slot, s).slotPending| == |c.slotPending|
  {
    ClaimShaped(g);
    hide Claim, QueueFits;
  }

  /** Staging is the admission and what is behind it. */
  lemma StagingIs(g: Gpu, k: nat, w: Block, fault: Option<Fault>)
    requires Shaped(g)
    ensures Shaped(Acquire(g, k).0) && (Acquire(g, k).2 <==> k !in g.slotOf)
    ensures k in g.slotOf ==> Stage(g, k, w) == Acquire(g, k).0 && !Strikes(g, k, fault)
    ensures k !in g.slotOf ==> (Strikes(g, k, fault) <==> Breaks(Acquire(g, k).0, fault))
    ensures k !in g.slotOf && !Strikes(g, k, fault) ==>
      Fill(Acquire(g, k).0, k, Acquire(g, k).1, w, fault) == Stage(g, k, w)
    ensures k !in g.slotOf && Strikes(g, k, fault) ==>
      Fill(Acquire(g, k).0, k, Acquire(g, k).1, w, fault) == StageFailed(g, k, w, fault.value)
  {
    AcquireShaped(g, k);
    assert Acquire(g, k).0.nextStage == g.nextStage && Acquire(g, k).0.slotPending == g.slotPending;
    if k !in g.slotOf {
      StageIs(g, k, w);
      FailedIs(g, k, w);
      hide Acquire, Claim, Stage, StageFailed, QueueFits;
    }
  }

  lemma VictimFits(g: Gpu)
    requires Shaped(g)
    ensures Victim(g) < |g.dev| == |g.lastUse| == |g.inUse| && forall k :: k in g.slotOf ==> g.slotOf[k] < |g.dev|
  {
  }

  lemma NotTracked(g: Gpu, victim: nat, evicted: nat, gone: set<nat>)
    requires Tracked(g) && 0 !in g.slotOf && (gone == {evicted} || (evicted == 0 && gone == {})) && evicted !in gone
    ensures evicted !in g.uploadPending && evicted !in g.uploadStage
  {
  }

  function Forgotten(g: Gpu, key: nat): Gpu {
    g.(uploadPending := g.uploadPending - {key}, uploadStage := g.uploadStage - {key})
  }

  /** The slot is used for k from now on. */
  function Taking(g: Gpu, k: nat, victim: nat): Gpu
    requires victim < |g.inUse| == |g.lastUse|
  {
    g.(lastUse := g.lastUse[victim := g.clock + 1], inUse := g.inUse[victim := true], clock := g.clock + 1,
       slotOf := g.slotOf[k := victim])
  }

  /** Admission by the key reported evicted. */
  lemma AdmitIs(g: Gpu, k: nat, victim: nat, evicted: nat)
    requires Shaped(g) && Tracked(g) && 0 !in g.slotOf && k !in g.slotOf && victim == Victim(g)
    requires Owners(g.slotOf, victim) == {evicted} || (evicted == 0 && Owners(g.slotOf, victim) == {})
    ensures victim < |g.inUse| == |g.lastUse|
    ensures Acquire(g, k).0 ==
      Taking(Forgotten(g.(slotOf := g.slotOf - Owners(g.slotOf, victim)), evicted), k, victim)
  {
    hide QueueFits, Victim;
    var gone := Owners(g.slotOf, victim);
    if evicted !in gone { NotTracked(g, victim, evicted, gone); }
    hide Tracked, Owners;
    assert g.uploadPending - {evicted} == g.uploadPending - gone;
    assert g.uploadStage - {evicted} == g.uploadStage - gone;
  }
}
