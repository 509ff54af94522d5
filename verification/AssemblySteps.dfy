/** The atomic steps on assemblies and reads, and that each keeps the invariant
    of Assembling. */
module AssemblySteps {
  import opened Bytes
  import opened LruModel
  import opened ExpertDisk
  import opened Runs
  import opened Assembling

  function SetPhase(w: Work, j: nat, ph: Phase): Work
    requires j < |w.jobs|
  {
    w.(jobs := w.jobs[j := w.jobs[j].(phase := ph)])
  }

  function SetAssembly(w: Work, a: nat, asm: Assembly): Work
    requires a < |w.asms|
  {
    w.(asms := w.asms[a := asm])
  }

  // ---------------------------------------------------------------- steps that touch no assembly

  /** Submission, queueing, reading and return: from which phase to which. */
  ghost predicate Quiet(disk: Disk, job: Job, ph: Phase) {
    || (job.phase.Built? && ph.Counted?)
    || (job.phase.Built? && ph == Done(false))
    || (job.phase.Counted? && ph.Queued?)
    || (job.phase.Queued? && ph.Reading?)
    || (job.phase.Reading? && ph == Returned(false))
    || (job.phase.Reading? && RunReadable(disk, job.run)
      && ph == Scatter(disk[job.run.shard][job.run.start..job.run.end], 0, Copy))
    || (job.phase.Returned? && ph == Done(job.phase.ok))
  }

  lemma QuietUntouched(disk: Disk, w: Work, j: nat, ph: Phase, a: nat)
    requires j < |w.jobs| && a < |w.asms| && Quiet(disk, w.jobs[j], ph)
    ensures Untouched(w, SetPhase(w, j, ph), a)
  {
  }

  lemma QuietKeeps(ix: Index, disk: Disk, w: Work, j: nat, ph: Phase)
    requires Inv(ix, disk, w) && j < |w.jobs| && Quiet(disk, w.jobs[j], ph)
    ensures Inv(ix, disk, SetPhase(w, j, ph))
  {
    var v := SetPhase(w, j, ph);
    assert RunReadable(disk, w.jobs[j].run);
    assert PhasesOk(disk, v.jobs);
    hide Quiet, Static, PhasesOk, AssemblyOk, Untouched;
    StaticKept(ix, disk, w, v);
    forall a | 0 <= a < |w.asms| ensures AssemblyOk(ix, disk, v, a) {
      QuietUntouched(disk, w, j, ph, a);
      AssemblyUntouched(ix, disk, w, v, a);
    }
  }

  // ---------------------------------------------------------------- the current slice

  ghost predicate Doing(w: Work, j: nat, act: Act) {
    j < |w.jobs| && w.jobs[j].phase.Scatter? && w.jobs[j].phase.act == act
      && w.jobs[j].phase.slice < |w.jobs[j].run.slices|
    && w.jobs[j].run.slices[w.jobs[j].phase.slice].assem < |w.asms|
  }

  function Cur(w: Work, j: nat): Slice
    requires j < |w.jobs| && w.jobs[j].phase.Scatter? && w.jobs[j].phase.slice < |w.jobs[j].run.slices|
  {
    w.jobs[j].run.slices[w.jobs[j].phase.slice]
  }

  /** After the current slice: the next one, or the callback returns. */
  function NextSlice(job: Job): Phase
    requires job.phase.Scatter?
  {
    if job.phase.slice + 1 < |job.run.slices| then job.phase.(slice := job.phase.slice + 1, act := Copy)
    else Returned(true)
  }

  /** The copy of the current slice writes inside a live buffer and reads inside the read. */
  ghost predicate CopySafe(w: Work, j: nat)
    requires Doing(w, j, Copy)
  {
    var s := Cur(w, j);
    var asm := w.asms[s.assem];
    && asm.buffer.Some? && s.expertOffset + s.size <= |asm.buffer.value|
    && s.offsetInRun + s.size <= |w.jobs[j].phase.data|
  }

  /** memcpy of the current slice; skipped when the read was too short. */
  ghost function DoCopy(w: Work, j: nat): Work
    requires Doing(w, j, Copy)
  {
    var s, ph := Cur(w, j), w.jobs[j].phase;
    var v := SetPhase(w, j, ph.(act := Dec));
    if CopySafe(w, j) then
      var asm := w.asms[s.assem];
      SetAssembly(v, s.assem, asm.(buffer := Some(Spliced(asm.buffer.value, s.expertOffset,
                                                          ph.data[s.offsetInRun..s.offsetInRun + s.size]))))
    else v
  }

  /** --remaining, and whether this was the last slice of the assembly. */
  function DoDec(w: Work, j: nat): Work
    requires Doing(w, j, Dec)
  {
    var a, ph := Cur(w, j).assem, w.jobs[j].phase;
    var asm := w.asms[a].(remaining := w.asms[a].remaining - 1);
    SetAssembly(SetPhase(w, j, if asm.remaining == 0 then ph.(act := Exchange) else NextSlice(w.jobs[j])), a, asm)
  }

  /** inserted.exchange(true): only the first to set the flag goes on to hand over. */
  function DoExchange(w: Work, j: nat): Work
    requires Doing(w, j, Exchange)
  {
    var a, ph := Cur(w, j).assem, w.jobs[j].phase;
    if w.asms[a].inserted then SetPhase(w, j, NextSlice(w.jobs[j]))
    else SetAssembly(SetPhase(w, j, ph.(act := Move)), a, w.asms[a].(inserted := true))
  }

  /** The buffer is moved out of the assembly. */
  function DoMove(w: Work, j: nat): Work
    requires Doing(w, j, Move)
  {
    var a, ph := Cur(w, j).assem, w.jobs[j].phase;
    SetAssembly(SetPhase(w, j, ph.(act := Erase)), a, w.asms[a].(buffer := None, handovers := w.asms[a].handovers + 1))
  }

  function DoErase(w: Work, j: nat): Work
    requires Doing(w, j, Erase)
  {
    var a := Cur(w, j).assem;
    SetAssembly(SetPhase(w, j, NextSlice(w.jobs[j])), a, w.asms[a].(erased := true))
  }

  // ---------------------------------------------------------------- copying

  lemma PendingCounts(jobs: seq<Job>, j: nat, i: nat)
    requires IsSlice(jobs, j, i) && Pending(jobs[j].phase, i)
    ensures Sl(jobs, j, i).expertOffset in Undecremented(jobs, Sl(jobs, j, i).assem)
    ensures |Undecremented(jobs, Sl(jobs, j, i).assem)| > 0
  {
    var s := Undecremented(jobs, Sl(jobs, j, i).assem);
    assert jobs[j].run.slices[i].expertOffset in s;
  }

  /** A slice still to be counted down keeps its assembly's buffer alive. */
  lemma PendingAlive(ix: Index, disk: Disk, w: Work, j: nat, i: nat)
    requires Inv(ix, disk, w) && IsSlice(w.jobs, j, i) && Pending(w.jobs[j].phase, i)
    ensures var a := Sl(w.jobs, j, i).assem;
      a < w.wired && w.asms[a].remaining > 0 && !w.asms[a].inserted && w.asms[a].buffer.Some? && !w.asms[a].erased
      && SomePart(ix, w.asms[a].key, w.jobs[j].run, Sl(w.jobs, j, i))
  {
    hide Pending, SomePart, BufferExact;
    PendingCounts(w.jobs, j, i);
    var a := Sl(w.jobs, j, i).assem;
    assert AssemblyOk(ix, disk, w, a);
  }

  /** Where a part's slice lies in the assembled block. */
  lemma SliceFits(ix: Index, disk: Disk, key: ExpertKey, run: Run, s: Slice)
    requires SomePart(ix, key, run, s) && RunReadable(disk, run)
    ensures s.size > 0 && s.expertOffset + s.size <= TotalSize(Parts(ix, key))
    ensures run.start + s.offsetInRun + s.size <= run.end
  {
    var p: nat :| SliceOf(ix, key, run, s, p);
    OffsetsDisjoint(Parts(ix, key), p, |Parts(ix, key)|);
    assert Parts(ix, key)[..|Parts(ix, key)|] == Parts(ix, key);
  }

  /** Slices of one assembly at different offsets do not overlap. */
  lemma SlicesApart(ix: Index, key: ExpertKey, run: Run, s: Slice, run': Run, s': Slice)
    requires SomePart(ix, key, run, s) && SomePart(ix, key, run', s') && s.expertOffset != s'.expertOffset
    ensures s.expertOffset + s.size <= s'.expertOffset || s'.expertOffset + s'.size <= s.expertOffset
  {
    var p: nat :| SliceOf(ix, key, run, s, p);
    var q: nat :| SliceOf(ix, key, run', s', q);
    if p < q {
      OffsetsDisjoint(Parts(ix, key), p, q);
    } else if q < p {
      OffsetsDisjoint(Parts(ix, key), q, p);
    }
  }

  /** The copy never writes into a buffer that was moved out, nor out of bounds,
      and its guard on the bytes read never skips it. */
  lemma CopyIsSafe(ix: Index, disk: Disk, w: Work, j: nat)
    requires Inv(ix, disk, w) && Doing(w, j, Copy)
    ensures CopySafe(w, j)
  {
    var i := w.jobs[j].phase.slice;
    assert IsSlice(w.jobs, j, i);
    PendingAlive(ix, disk, w, j, i);
    var a := Cur(w, j).assem;
    assert AssemblyOk(ix, disk, w, a) && PhaseOk(disk, w.jobs[j]) && RunReadable(disk, w.jobs[j].run);
    SliceFits(ix, disk, w.asms[a].key, w.jobs[j].run, Cur(w, j));
  }

  lemma SliceOfSlice(b: seq<byte>, from: nat, to: nat, lo: nat, hi: nat)
    requires from <= to <= |b| && lo <= hi <= to - from
    ensures b[from..to][lo..hi] == b[from + lo..from + hi]
  {
    var r := b[from..to][lo..hi];
    assert forall k :: 0 <= k < |r| ==> r[k] == b[from + lo + k];
  }

  /** The current slice is in place once it is copied. */
  lemma CurrentInPlace(ix: Index, disk: Disk, w: Work, j: nat)
    requires Inv(ix, disk, w) && Doing(w, j, Copy) && CopySafe(w, j)
    ensures InPlace(disk, w.jobs[j].run, Cur(w, j), DoCopy(w, j).asms[Cur(w, j).assem].buffer.value)
  {
    hide Spliced, SliceOf, Static, AssemblyOk;
    var s, run, data := Cur(w, j), w.jobs[j].run, w.jobs[j].phase.data;
    assert PhaseOk(disk, w.jobs[j]) && RunReadable(disk, run);
    SplicedAt(w.asms[s.assem].buffer.value, s.expertOffset, data[s.offsetInRun..s.offsetInRun + s.size]);
    SliceOfSlice(disk[run.shard], run.start, run.end, s.offsetInRun, s.offsetInRun + s.size);
  }

  /** Slices of one assembly other than the current one lie elsewhere in the block. */
  lemma OtherApart(ix: Index, disk: Disk, w: Work, j: nat, k: nat, l: nat)
    requires Inv(ix, disk, w) && Doing(w, j, Copy)
    requires IsSlice(w.jobs, k, l) && Sl(w.jobs, k, l).assem == Cur(w, j).assem
    requires k != j || l != w.jobs[j].phase.slice
    ensures var s, t := Cur(w, j), Sl(w.jobs, k, l);
      s.expertOffset + s.size <= t.expertOffset || t.expertOffset + t.size <= s.expertOffset
  {
    hide PhasesOk, AssemblyOk, SliceOf, PartsWired;
    var c, a := w.jobs[j].phase.slice, Cur(w, j).assem;
    assert IsSlice(w.jobs, j, c) && SlicesUnique(w.jobs) && SlicesPlaced(ix, w);
    SlicesApart(ix, w.asms[a].key, w.jobs[j].run, Cur(w, j), w.jobs[k].run, Sl(w.jobs, k, l));
  }

  lemma CopiedInPlace(ix: Index, disk: Disk, w: Work, j: nat, k: nat, l: nat)
    requires Inv(ix, disk, w) && Doing(w, j, Copy) && CopySafe(w, j)
    requires IsSlice(w.jobs, k, l) && Sl(w.jobs, k, l).assem == Cur(w, j).assem
    requires Copied(DoCopy(w, j).jobs[k].phase, l)
    ensures InPlace(disk, w.jobs[k].run, Sl(w.jobs, k, l), DoCopy(w, j).asms[Cur(w, j).assem].buffer.value)
  {
    var s, a := Cur(w, j), Cur(w, j).assem;
    if k == j && l == w.jobs[j].phase.slice {
      hide Inv, Spliced;
      CurrentInPlace(ix, disk, w, j);
    } else {
      OtherApart(ix, disk, w, j, k, l);
      assert AssemblyOk(ix, disk, w, a) && Copied(w.jobs[k].phase, l);
      hide Inv, Spliced, CountExact, HandoverExact;
      var b, t, data := w.asms[a].buffer.value, Sl(w.jobs, k, l), w.jobs[j].phase.data;
      assert InPlace(disk, w.jobs[k].run, t, b);
      SplicedElsewhere(b, s.expertOffset, data[s.offsetInRun..s.offsetInRun + s.size], t.expertOffset,
                       t.expertOffset + t.size);
    }
  }

  lemma CopyUntouched(w: Work, j: nat, b: nat)
    requires Doing(w, j, Copy) && b < |w.asms| && b != Cur(w, j).assem
    ensures Untouched(w, DoCopy(w, j), b)
  {
  }

  lemma CopyHandover(ix: Index, disk: Disk, w: Work, j: nat)
    requires Inv(ix, disk, w) && Doing(w, j, Copy) && CopySafe(w, j)
    ensures var a := Cur(w, j).assem; CountExact(ix, DoCopy(w, j), a) && HandoverExact(DoCopy(w, j), a)
  {
    var c, a := w.jobs[j].phase.slice, Cur(w, j).assem;
    var v := DoCopy(w, j);
    assert IsSlice(w.jobs, j, c);
    PendingAlive(ix, disk, w, j, c);
    assert AssemblyOk(ix, disk, w, a);
    UndecrementedSame(w, v, a);
    forall k | 0 <= k < |v.jobs| ensures !Hands(v.jobs[k], a) {
      assert !Hands(w.jobs[k], a);
    }
  }

  lemma CopyKeeps(ix: Index, disk: Disk, w: Work, j: nat)
    requires Inv(ix, disk, w) && Doing(w, j, Copy)
    ensures CopySafe(w, j) && Inv(ix, disk, DoCopy(w, j))
  {
    CopyIsSafe(ix, disk, w, j);
    var v, a := DoCopy(w, j), Cur(w, j).assem;
    CopyHandover(ix, disk, w, j);
    assert BufferExact(ix, disk, v, a) by {
      assert AssemblyOk(ix, disk, w, a);
      forall k: nat, l: nat | IsSlice(v.jobs, k, l) && Sl(v.jobs, k, l).assem == a && Copied(v.jobs[k].phase, l)
        ensures InPlace(disk, v.jobs[k].run, Sl(v.jobs, k, l), v.asms[a].buffer.value)
      {
        assert IsSlice(w.jobs, k, l);
        CopiedInPlace(ix, disk, w, j, k, l);
      }
    }
    assert PhasesOk(disk, v.jobs);
    hide Static, PhasesOk, CountExact, BufferExact, HandoverExact, Untouched, CopySafe;
    StaticKept(ix, disk, w, v);
    forall b | 0 <= b < |w.asms| ensures AssemblyOk(ix, disk, v, b) {
      if b != a {
        CopyUntouched(w, j, b);
        AssemblyUntouched(ix, disk, w, v, b);
      }
    }
  }

  // ---------------------------------------------------------------- counting down

  lemma DecUndecremented(ix: Index, disk: Disk, w: Work, j: nat)
    requires Inv(ix, disk, w) && Doing(w, j, Dec)
    ensures var a, o := Cur(w, j).assem, Cur(w, j).expertOffset;
      o in Undecremented(w.jobs, a) && Undecremented(DoDec(w, j).jobs, a) == Undecremented(w.jobs, a) - {o}
  {
    hide BufferExact, HandoverExact, CountExact, PartsWired, SlicesPlaced, Undecremented;
    var a, o, c := Cur(w, j).assem, Cur(w, j).expertOffset, w.jobs[j].phase.slice;
    var v := DoDec(w, j);
    assert IsSlice(w.jobs, j, c);
    PendingCounts(w.jobs, j, c);
    assert SlicesUnique(w.jobs);
    forall k: nat, l: nat | IsSlice(w.jobs, k, l) && Sl(w.jobs, k, l).assem == a
      ensures Pending(v.jobs[k].phase, l) <==> Pending(w.jobs[k].phase, l) && Sl(w.jobs, k, l).expertOffset != o
    {
      if Sl(w.jobs, k, l).expertOffset == o {
        assert k == j && l == c;
      }
    }
    hide Pending, SlicesUnique;
    UndecrementedLess(w, v, a, o);
  }

  lemma UndecrementedLess(w: Work, v: Work, a: nat, o: nat)
    requires SameShape(w, v)
    requires forall k: nat, l: nat :: IsSlice(w.jobs, k, l) && Sl(w.jobs, k, l).assem == a ==>
      (Pending(v.jobs[k].phase, l) <==> Pending(w.jobs[k].phase, l) && Sl(w.jobs, k, l).expertOffset != o)
    ensures Undecremented(v.jobs, a) == Undecremented(w.jobs, a) - {o}
  {
    hide Pending;
    var x, y := Undecremented(v.jobs, a), Undecremented(w.jobs, a) - {o};
    forall q | q in x ensures q in y {
      var k, l :| 0 <= k < |v.jobs| && 0 <= l < |v.jobs[k].run.slices| && v.jobs[k].run.slices[l].assem == a
        && Pending(v.jobs[k].phase, l) && v.jobs[k].run.slices[l].expertOffset == q;
      assert IsSlice(w.jobs, k, l);
    }
    forall q | q in y ensures q in x {
      var k, l :| 0 <= k < |w.jobs| && 0 <= l < |w.jobs[k].run.slices| && w.jobs[k].run.slices[l].assem == a
        && Pending(w.jobs[k].phase, l) && w.jobs[k].run.slices[l].expertOffset == q;
      assert IsSlice(w.jobs, k, l);
    }
  }

  lemma DecBuffer(ix: Index, disk: Disk, w: Work, j: nat)
    requires Doing(w, j, Dec) && BufferExact(ix, disk, w, Cur(w, j).assem)
    ensures BufferExact(ix, disk, DoDec(w, j), Cur(w, j).assem)
  {
    hide InPlace;
    var a, v := Cur(w, j).assem, DoDec(w, j);
    assert v.asms[a].buffer == w.asms[a].buffer;
    if v.asms[a].buffer.Some? {
      forall k: nat, l: nat | IsSlice(v.jobs, k, l) && Sl(v.jobs, k, l).assem == a && Copied(v.jobs[k].phase, l)
        ensures InPlace(disk, v.jobs[k].run, Sl(v.jobs, k, l), v.asms[a].buffer.value)
      {
        assert IsSlice(w.jobs, k, l) && Copied(w.jobs[k].phase, l);
      }
    }
  }

  lemma DecAssembly(ix: Index, disk: Disk, w: Work, j: nat)
    requires Inv(ix, disk, w) && Doing(w, j, Dec)
    ensures AssemblyOk(ix, disk, DoDec(w, j), Cur(w, j).assem)
  {
    var a, c := Cur(w, j).assem, w.jobs[j].phase.slice;
    var v := DoDec(w, j);
    assert IsSlice(w.jobs, j, c);
    assert AssemblyOk(ix, disk, w, a);
    PendingAlive(ix, disk, w, j, c);
    DecUndecremented(ix, disk, w, j);
    assert CountExact(ix, v, a);
    DecBuffer(ix, disk, w, j);
    hide BufferExact, InPlace, CountExact, Static, PhasesOk;
    forall k | 0 <= k < |w.jobs| && k != j ensures !Hands(v.jobs[k], a) {
      assert v.jobs[k] == w.jobs[k];
      assert !Hands(w.jobs[k], a);
    }
    if v.asms[a].remaining == 0 {
      assert Hands(v.jobs[j], a);
    } else {
      assert !Hands(v.jobs[j], a);
    }
  }

  lemma DecUntouched(w: Work, j: nat, b: nat)
    requires Doing(w, j, Dec) && b < |w.asms| && b != Cur(w, j).assem
    ensures Untouched(w, DoDec(w, j), b)
  {
  }

  lemma DecKeeps(ix: Index, disk: Disk, w: Work, j: nat)
    requires Inv(ix, disk, w) && Doing(w, j, Dec)
    ensures Inv(ix, disk, DoDec(w, j))
  {
    var v, a := DoDec(w, j), Cur(w, j).assem;
    assert PhasesOk(disk, v.jobs);
    DecAssembly(ix, disk, w, j);
    hide Static, PhasesOk, AssemblyOk, Untouched;
    StaticKept(ix, disk, w, v);
    forall b | 0 <= b < |w.asms| ensures AssemblyOk(ix, disk, v, b) {
      if b != a {
        DecUntouched(w, j, b);
        AssemblyUntouched(ix, disk, w, v, b);
      }
    }
  }

  // ---------------------------------------------------------------- handing over

  /** The flag is never found set: only one callback sees the counter reach zero. */
  lemma ExchangeIsFirst(ix: Index, disk: Disk, w: Work, j: nat)
    requires Inv(ix, disk, w) && Doing(w, j, Exchange)
    ensures !w.asms[Cur(w, j).assem].inserted
  {
    assert AssemblyOk(ix, disk, w, Cur(w, j).assem);
    assert Hands(w.jobs[j], Cur(w, j).assem);
  }

  /** At the handover the buffer holds exactly the bytes of its key. */
  lemma BufferComplete(ix: Index, disk: Disk, w: Work, a: nat)
    requires GoodIndex(ix, disk) && Inv(ix, disk, w) && a < w.wired
    requires w.asms[a].remaining == 0 && w.asms[a].buffer.Some?
    ensures w.asms[a].buffer.value == KeyBytes(ix, disk, w.asms[a].key)
  {
    assert AssemblyOk(ix, disk, w, a);
    var key, b := w.asms[a].key, w.asms[a].buffer.value;
    var parts := Parts(ix, key);
    PartsInBounds(ix, disk, key);
    assert |b| == TotalSize(parts);
    forall p | 0 <= p < |parts| && parts[p].size > 0 ensures PartInPlace(disk, parts, b, p) {
      PartCopied(ix, disk, w, a, p);
    }
    PartsInPlace(disk, parts, b);
  }

  lemma PartCopied(ix: Index, disk: Disk, w: Work, a: nat, p: nat)
    requires GoodIndex(ix, disk) && Inv(ix, disk, w) && a < w.wired
    requires w.asms[a].remaining == 0 && w.asms[a].buffer.Some?
    requires p < |Parts(ix, w.asms[a].key)| && Parts(ix, w.asms[a].key)[p].size > 0
    ensures InBounds(disk, Parts(ix, w.asms[a].key)[p])
    ensures PartInPlace(disk, Parts(ix, w.asms[a].key), w.asms[a].buffer.value, p)
  {
    var key, b := w.asms[a].key, w.asms[a].buffer.value;
    var parts := Parts(ix, key);
    PartsInBounds(ix, disk, key);
    assert AssemblyOk(ix, disk, w, a) && SlicesPlaced(ix, w);
    assert HasSlice(w.jobs, a, OffsetOf(parts, p));
    var j: nat, i: nat :| IsSlice(w.jobs, j, i) && Sl(w.jobs, j, i).assem == a
        && Sl(w.jobs, j, i).expertOffset == OffsetOf(parts, p);
    SliceInPlace(ix, disk, w, a, j, i);
    hide Inv, AssemblyOk, Parts, OffsetOf, PartInPlace, InPlace;
    SliceOfOffset(ix, key, w.jobs[j].run, Sl(w.jobs, j, i), p);
    PartFromSlice(ix, disk, key, w.jobs[j].run, Sl(w.jobs, j, i), p, b);
  }

  lemma PartFromSlice(ix: Index, disk: Disk, key: ExpertKey, run: Run, s: Slice, p: nat, b: seq<byte>)
    requires SliceOf(ix, key, run, s, p) && InPlace(disk, run, s, b)
    ensures InBounds(disk, Parts(ix, key)[p]) && PartInPlace(disk, Parts(ix, key), b, p)
  {
    hide Parts, OffsetOf;
  }

  /** Every slice of an assembly that is counted down is in place. */
  lemma SliceInPlace(ix: Index, disk: Disk, w: Work, a: nat, j: nat, i: nat)
    requires a < |w.asms| && AssemblyOk(ix, disk, w, a) && w.asms[a].remaining == 0 && w.asms[a].buffer.Some?
    requires a < w.wired && IsSlice(w.jobs, j, i) && Sl(w.jobs, j, i).assem == a
    ensures InPlace(disk, w.jobs[j].run, Sl(w.jobs, j, i), w.asms[a].buffer.value)
  {
    hide InPlace, HandoverExact, Parts;
    if Pending(w.jobs[j].phase, i) { PendingCounts(w.jobs, j, i); }
    assert Copied(w.jobs[j].phase, i);
  }

  /** The offset tells the part. */
  lemma SliceOfOffset(ix: Index, key: ExpertKey, run: Run, s: Slice, p: nat)
    requires SomePart(ix, key, run, s) && p < |Parts(ix, key)| && Parts(ix, key)[p].size > 0
    requires s.expertOffset == OffsetOf(Parts(ix, key), p)
    ensures SliceOf(ix, key, run, s, p)
  {
    var q: nat :| SliceOf(ix, key, run, s, q);
    if p < q { OffsetsDisjoint(Parts(ix, key), p, q); }
    if q < p { OffsetsDisjoint(Parts(ix, key), q, p); }
  }

  /** The three handover steps change one assembly and the phase of one callback;
      no slice becomes pending or copied by them. */
  lemma HandStepUntouched(w: Work, v: Work, j: nat, b: nat)
    requires Doing(w, j, Exchange) || Doing(w, j, Move) || Doing(w, j, Erase)
    requires SameShape(w, v) && b < |w.asms| && b != Cur(w, j).assem && v.asms[b] == w.asms[b]
    requires forall k :: 0 <= k < |w.jobs| && k != j ==> v.jobs[k] == w.jobs[k]
    requires v.jobs[j].phase == NextSlice(w.jobs[j])
          || (v.jobs[j].phase.Scatter? && !v.jobs[j].phase.act.Copy? && !v.jobs[j].phase.act.Dec?
              && v.jobs[j].phase == w.jobs[j].phase.(act := v.jobs[j].phase.act))
    ensures Untouched(w, v, b)
  {
  }

  lemma HandStepSlices(w: Work, v: Work, j: nat, a: nat)
    requires Doing(w, j, Exchange) || Doing(w, j, Move) || Doing(w, j, Erase)
    requires SameShape(w, v)
    requires forall k :: 0 <= k < |w.jobs| && k != j ==> v.jobs[k] == w.jobs[k]
    requires v.jobs[j].phase == NextSlice(w.jobs[j])
          || (v.jobs[j].phase.Scatter? && !v.jobs[j].phase.act.Copy? && !v.jobs[j].phase.act.Dec?
              && v.jobs[j].phase == w.jobs[j].phase.(act := v.jobs[j].phase.act))
    ensures Undecremented(v.jobs, a) == Undecremented(w.jobs, a)
    ensures forall k: nat, l: nat :: IsSlice(w.jobs, k, l) ==> Copied(v.jobs[k].phase, l) == Copied(w.jobs[k].phase, l)
  {
    forall k: nat, l: nat | IsSlice(w.jobs, k, l) ensures Pending(v.jobs[k].phase, l) == Pending(w.jobs[k].phase, l) {
    }
    UndecrementedSame(w, v, a);
  }

  lemma HandStepKeeps(ix: Index, disk: Disk, w: Work, v: Work, j: nat)
    requires Inv(ix, disk, w) && (Doing(w, j, Exchange) || Doing(w, j, Move) || Doing(w, j, Erase))
    requires SameShape(w, v) && forall b :: 0 <= b < |w.asms| && b != Cur(w, j).assem ==> v.asms[b] == w.asms[b]
    requires forall k :: 0 <= k < |w.jobs| && k != j ==> v.jobs[k] == w.jobs[k]
    requires v.jobs[j].phase == NextSlice(w.jobs[j])
          || (v.jobs[j].phase.Scatter? && !v.jobs[j].phase.act.Copy? && !v.jobs[j].phase.act.Dec?
              && v.jobs[j].phase == w.jobs[j].phase.(act := v.jobs[j].phase.act))
    requires AssemblyOk(ix, disk, v, Cur(w, j).assem)
    ensures Inv(ix, disk, v)
  {
    assert PhasesOk(disk, v.jobs);
    hide Static, PhasesOk, AssemblyOk, Untouched;
    StaticKept(ix, disk, w, v);
    forall b | 0 <= b < |w.asms| ensures AssemblyOk(ix, disk, v, b) {
      if b != Cur(w, j).assem {
        HandStepUntouched(w, v, j, b);
        AssemblyUntouched(ix, disk, w, v, b);
      }
    }
  }

  lemma ExchangeAssembly(ix: Index, disk: Disk, w: Work, j: nat)
    requires Inv(ix, disk, w) && Doing(w, j, Exchange)
    ensures AssemblyOk(ix, disk, DoExchange(w, j), Cur(w, j).assem)
  {
    var a, v := Cur(w, j).assem, DoExchange(w, j);
    ExchangeIsFirst(ix, disk, w, j);
    assert AssemblyOk(ix, disk, w, a);
    HandStepSlices(w, v, j, a);
    HandedAssembly(ix, disk, w, v, j);
  }

  /** What remains to be shown of the assembly a callback is handing over. */
  lemma HandedAssembly(ix: Index, disk: Disk, w: Work, v: Work, j: nat)
    requires Inv(ix, disk, w) && (Doing(w, j, Exchange) || Doing(w, j, Move) || Doing(w, j, Erase))
    requires SameShape(w, v) && forall k :: 0 <= k < |w.jobs| && k != j ==> v.jobs[k] == w.jobs[k]
    requires var a := Cur(w, j).assem;
      && Undecremented(v.jobs, a) == Undecremented(w.jobs, a)
      && (forall k: nat, l: nat :: IsSlice(w.jobs, k, l) ==> Copied(v.jobs[k].phase, l) == Copied(w.jobs[k].phase, l))
      && v.asms[a].remaining == w.asms[a].remaining
      && (v.asms[a].buffer == w.asms[a].buffer || v.asms[a].buffer.None?)
      && v.asms[a].handovers == (if v.asms[a].buffer.None? then 1 else 0)
      && (Hands(v.jobs[j], a) ==> HandingExact(v.asms[a], v.jobs[j].phase.act))
      && (!Hands(v.jobs[j], a) ==> v.asms[a].erased)
      && (v.asms[a].erased ==> v.asms[a].buffer.None? && v.asms[a].inserted)
    ensures AssemblyOk(ix, disk, v, Cur(w, j).assem)
  {
    var a := Cur(w, j).assem;
    assert AssemblyOk(ix, disk, w, a);
    assert Hands(w.jobs[j], a);
    forall k | 0 <= k < |w.jobs| && k != j ensures !Hands(v.jobs[k], a) {
    }
    assert BufferExact(ix, disk, v, a) by {
      hide InPlace, Copied;
      if v.asms[a].buffer.Some? {
        forall k: nat, l: nat | IsSlice(v.jobs, k, l) && Sl(v.jobs, k, l).assem == a && Copied(v.jobs[k].phase, l)
          ensures InPlace(disk, v.jobs[k].run, Sl(v.jobs, k, l), v.asms[a].buffer.value)
        {
          assert IsSlice(w.jobs, k, l) && Copied(w.jobs[k].phase, l);
        }
      }
    }
  }

  lemma ExchangeKeeps(ix: Index, disk: Disk, w: Work, j: nat)
    requires Inv(ix, disk, w) && Doing(w, j, Exchange)
    ensures Inv(ix, disk, DoExchange(w, j))
  {
    ExchangeIsFirst(ix, disk, w, j);
    ExchangeAssembly(ix, disk, w, j);
    hide Inv, AssemblyOk;
    HandStepKeeps(ix, disk, w, DoExchange(w, j), j);
  }

  lemma MoveKeeps(ix: Index, disk: Disk, w: Work, j: nat)
    requires GoodIndex(ix, disk) && Inv(ix, disk, w) && Doing(w, j, Move)
    ensures var asm := w.asms[Cur(w, j).assem];
      asm.buffer.Some? && asm.buffer.value == KeyBytes(ix, disk, asm.key) && asm.handovers == 0
    ensures Inv(ix, disk, DoMove(w, j))
  {
    var a, v := Cur(w, j).assem, DoMove(w, j);
    assert AssemblyOk(ix, disk, w, a) && Hands(w.jobs[j], a);
    assert IsSlice(w.jobs, j, w.jobs[j].phase.slice);
    assert a < w.wired;
    BufferComplete(ix, disk, w, a);
    HandStepSlices(w, v, j, a);
    HandedAssembly(ix, disk, w, v, j);
    hide Inv, AssemblyOk, GoodIndex;
    HandStepKeeps(ix, disk, w, v, j);
  }

  lemma EraseKeeps(ix: Index, disk: Disk, w: Work, j: nat)
    requires Inv(ix, disk, w) && Doing(w, j, Erase)
    ensures Inv(ix, disk, DoErase(w, j))
  {
    var a, v := Cur(w, j).assem, DoErase(w, j);
    assert AssemblyOk(ix, disk, w, a) && Hands(w.jobs[j], a);
    HandStepSlices(w, v, j, a);
    assert !Hands(v.jobs[j], a);
    HandedAssembly(ix, disk, w, v, j);
    hide Inv, AssemblyOk;
    HandStepKeeps(ix, disk, w, v, j);
  }
}
