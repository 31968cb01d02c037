/** The steps of the storage and upload threads, of retention and of a restart keep the event store's invariant. */
module EventStoreThreads {
  import opened Prelude
  import opened EventStore
  import opened EventStoreInvariant
  import opened EventStoreSteps

  // ---- storage thread: one job ----

  lemma DoneAppend(done: seq<Done>, x: Done)
    ensures Finals(done + [x]) == Finals(done) + [x.final] && Persisted(done + [x]) == Persisted(done) + x.persisted
    ensures AllOk(done + [x]) <==> AllOk(done) && x.ok
  {
    var all := done + [x];
    assert all[..|all| - 1] == done && all[|all| - 1] == x;
    assert forall y :: y in all <==> y in done || y == x;
  }

  /** While a job of an event is being written the event is not finished. */
  lemma NotFinishedYet(v: View, rank: Ranking, uploads: bool)
    requires ViewOk(v, rank, uploads) && v.work.Writes?
    ensures v.born && v.log.Some? && Finals(v.log.value.done) != Script(v.log.value.post)
    ensures v.work.final ==> !v.log.value.dropped && Finals(v.log.value.done) + [true] == Script(v.log.value.post)
    ensures v.disk.Some? && v.disk.value.complete.None?
  {
    var l := v.log.value;
    assert |Finals(l.done)| < |l.submitted| <= |Script(l.post)|;
    assert l.submitted[|Finals(l.done)|] == v.work.final == Script(l.post)[|Finals(l.done)|];
    if v.work.final {
      assert |l.submitted| == |Script(l.post)|;
      assert l.submitted == Script(l.post);
    }
  }

  lemma PopViewOk(v: View, rank: Ranking, uploads: bool)
    requires ViewOk(v, rank, uploads) && v.work.Elsewhere? && v.queued != []
    ensures v.born && ViewOk(v.(queued := v.queued[1..], work := Writes(v.queued[0], 0, 0, true)), rank, uploads)
  {
    assert v.queued == [v.queued[0]] + v.queued[1..];
  }

  lemma PopDir(s: State, e: Name)
    requires DirOk(s, e) && CanPop(s)
    ensures DirOk(Pop(s), e)
  {
    hide ViewOk, HoldOf, Wanted;
    var t := Pop(s);
    if e != s.queue.jobs[0].dir {
      OtherwiseTheSame(s, t, e);
    } else {
      var v := ViewOf(s, e);
      PopViewOk(v, s.rank, s.uploads);
      assert v.queued[1..] == QueuedFor(s.queue.jobs[1..], e);
      assert ViewOf(t, e) == v.(queued := v.queued[1..], work := Writes(v.queued[0], 0, 0, true));
    }
  }

  lemma PopGlobal(s: State)
    requires Global(s) && CanPop(s)
    ensures Global(Pop(s))
  {
    RunningPhase(Pop(s));
    hide PhaseOk;
  }

  /** A step of the storage thread that leaves every queue alone. */
  lemma WorkerGlobal(s: State, t: State)
    requires Global(s) && s.phase.Running?
    requires t == s.(files := t.files, log := t.log, progress := t.progress, worker := t.worker)
    requires !t.worker.Sweeping? && (s.executor.Holding? ==> s.executor.d !in t.files && s.executor.d !in t.log)
    ensures Global(t)
  {
    RunningPhase(t);
    hide PhaseOk;
  }

  /** The directory of a job being written is there: retention has not touched it. */
  lemma NeverReopens(s: State)
    requires CanWrite(s) && DirOk(s, s.worker.job.dir)
    ensures s.worker.job.dir in s.files
  {
    NotFinishedYet(ViewOf(s, s.worker.job.dir), s.rank, s.uploads);
  }

  function RecordedWork(work: Work, ok: bool): Work
    requires work.Writes?
  {
    if ok then work.(persisted := work.persisted + 1, buffered := work.buffered + 1) else work.(ok := false)
  }

  lemma RecordViewOk(v: View, ok: bool, rank: Ranking, uploads: bool)
    requires ViewOk(v, rank, uploads) && v.work.Writes?
    ensures ViewOk(v.(work := RecordedWork(v.work, ok)), rank, uploads)
  {}

  lemma WriteRecordDir(s: State, ok: bool, e: Name)
    requires DirOk(s, e) && CanWrite(s)
    ensures DirOk(WriteRecord(s, ok), e)
  {
    hide ViewOk, HoldOf, Wanted, QueuedFor;
    if e != s.worker.job.dir {
      OtherwiseTheSame(s, WriteRecord(s, ok), e);
    } else {
      RecordViewOk(ViewOf(s, e), ok, s.rank, s.uploads);
      assert ViewOf(WriteRecord(s, ok), e) == ViewOf(s, e).(work := RecordedWork(ViewOf(s, e).work, ok));
    }
  }

  function SpiltView(v: View): View
    requires v.work.Writes? && v.work.buffered > 0 && v.disk.Some?
  {
    v.(disk := Some(v.disk.value.(rows := v.disk.value.rows + 1)), work := v.work.(buffered := v.work.buffered - 1))
  }

  lemma SpiltViewOk(v: View, rank: Ranking, uploads: bool)
    requires ViewOk(v, rank, uploads) && v.work.Writes? && v.work.buffered > 0 && v.disk.Some?
    ensures ViewOk(SpiltView(v), rank, uploads)
  {
    NotFinishedYet(v, rank, uploads);
  }

  lemma SpillDir(s: State, e: Name)
    requires DirOk(s, e) && CanSpill(s)
    ensures DirOk(Spill(s), e)
  {
    hide ViewOk, HoldOf, Wanted, QueuedFor;
    if e != s.worker.job.dir {
      OtherwiseTheSame(s, Spill(s), e);
    } else {
      SpiltViewOk(ViewOf(s, e), s.rank, s.uploads);
      assert ViewOf(Spill(s), e) == SpiltView(ViewOf(s, e));
    }
  }

  function WorkAfter(final: bool, p: Progress): Work
  {
    if !final then Elsewhere else if p.failed || p.persisted == 0 then Rejects(0) else Seals(p.persisted)
  }

  function FinishedView(v: View, done: Done): View
    requires v.log.Some?
  {
    var p := Advanced(v.progress, done);
    v.(log := Some(v.log.value.(done := v.log.value.done + [done])), progress := p, work := WorkAfter(done.final, p))
  }

  lemma FinishedUnderway(v: View, done: Done)
    requires v.log.Some? && v.work.Writes? && done.final == v.work.final && Underway(v, v.log.value)
    requires Finals(v.log.value.done) != Script(v.log.value.post)
    requires done.ok ==> v.work.ok && v.work.buffered == 0 && done.persisted == v.work.persisted
    requires done.final ==> Finals(v.log.value.done) + [true] == Script(v.log.value.post)
    ensures Underway(FinishedView(v, done), FinishedView(v, done).log.value)
  {
    DoneAppend(v.log.value.done, done);
    hide Finals, Persisted, AllOk;
  }

  lemma FinishedWork(v: View, done: Done)
    requires v.log.Some? && v.work.Writes? && done.final == v.work.final && Underway(v, v.log.value)
    requires Finals(v.log.value.done) != Script(v.log.value.post)
    requires done.ok ==> v.work.ok && v.work.buffered == 0 && done.persisted == v.work.persisted
    requires done.final ==> !v.log.value.dropped && Finals(v.log.value.done) + [true] == Script(v.log.value.post)
    ensures WorkOk(FinishedView(v, done), FinishedView(v, done).log.value)
  {
    DoneAppend(v.log.value.done, done);
    hide Finals, Persisted, AllOk;
  }

  lemma FinishedAccount(v: View, done: Done)
    requires v.log.Some? && v.work.Writes? && done.final == v.work.final && Accounted(v, v.log.value)
    ensures Accounted(FinishedView(v, done), FinishedView(v, done).log.value)
  {
    DoneAppend(v.log.value.done, done);
    hide Finals;
    var w, processed := FinishedView(v, done), Finals(v.log.value.done);
    assert (processed + [done.final]) + [] == processed + [done.final];
    assert Finals(w.log.value.done) == processed + [done.final] && Current(w.work) == [];
  }

  lemma FinishedRest(v: View, done: Done, rank: Ranking, uploads: bool)
    requires v.log.Some? && Persistent(v.disk, v.log, rank) && HoldOk(v, v.log.value) && WantedOk(v, rank, uploads)
    requires DoomOk(v, rank, uploads)
    requires v.disk.Some? ==> v.disk.value.complete.None?
    ensures var w := FinishedView(v, done);
            && Persistent(w.disk, w.log, rank) && HoldOk(w, w.log.value) && WantedOk(w, rank, uploads)
            && DoomOk(w, rank, uploads)
  {
    hide Succeeded;
  }

  lemma FinishedViewOk(v: View, done: Done, rank: Ranking, uploads: bool)
    requires ViewOk(v, rank, uploads) && v.work.Writes? && v.log.Some? && done.final == v.work.final
    requires done.ok ==> v.work.ok && v.work.buffered == 0 && done.persisted == v.work.persisted
    ensures ViewOk(FinishedView(v, done), rank, uploads)
  {
    NotFinishedYet(v, rank, uploads);
    hide Persistent, Underway, WorkOk, HoldOk, Accounted, WantedOk, DoomOk, Finals, Advanced, WorkAfter;
    FinishedUnderway(v, done);
    FinishedWork(v, done);
    FinishedAccount(v, done);
    FinishedRest(v, done, rank, uploads);
  }

  lemma FinishOthers(s: State, flushed: bool, threw: bool, e: Name)
    requires DirOk(s, e) && CanFinish(s, flushed) && e != s.worker.job.dir
    ensures DirOk(Finish(s, flushed, threw), e)
  {
    hide ViewOk, HoldOf, Wanted, QueuedFor;
    OtherwiseTheSame(s, Finish(s, flushed, threw), e);
  }

  lemma FinishDir(s: State, flushed: bool, threw: bool)
    requires CanFinish(s, flushed) && DirOk(s, s.worker.job.dir)
    ensures DirOk(Finish(s, flushed, threw), s.worker.job.dir)
  {
    hide ViewOk, HoldOf, Wanted, QueuedFor;
    var e, done := s.worker.job.dir, Outcome(s.worker, flushed, threw);
    FinishedViewOk(ViewOf(s, e), done, s.rank, s.uploads);
    assert ViewOf(Finish(s, flushed, threw), e) == FinishedView(ViewOf(s, e), done);
  }

  // ---- storage thread: closing an event ----

  function SealedView(v: View): View
    requires v.disk.Some? && v.work.Seals?
  {
    v.(disk := Some(v.disk.value.(sealed := true)), work := Completes(v.work.n, 0))
  }

  lemma SealViewOk(v: View, rank: Ranking, uploads: bool)
    requires ViewOk(v, rank, uploads) && v.disk.Some? && v.work.Seals?
    ensures ViewOk(SealedView(v), rank, uploads) && ViewOk(v.(work := Rejects(0)), rank, uploads)
  {}

  lemma SealDir(s: State, e: Name)
    requires DirOk(s, e) && CanSeal(s)
    ensures DirOk(Seal(s), e)
  {
    hide ViewOk, HoldOf, Wanted, QueuedFor;
    if e != s.worker.d {
      OtherwiseTheSame(s, Seal(s), e);
    } else {
      SealViewOk(ViewOf(s, e), s.rank, s.uploads);
      assert ViewOf(Seal(s), e) == SealedView(ViewOf(s, e));
    }
  }

  lemma SealFailedDir(s: State, e: Name)
    requires DirOk(s, e) && CanSeal(s)
    ensures DirOk(SealFailed(s), e)
  {
    hide ViewOk, HoldOf, Wanted, QueuedFor;
    if e != s.worker.d {
      OtherwiseTheSame(s, SealFailed(s), e);
    } else {
      SealViewOk(ViewOf(s, e), s.rank, s.uploads);
      assert ViewOf(SealFailed(s), e) == ViewOf(s, e).(work := Rejects(0));
    }
  }

  function CompletedView(v: View): View
    requires v.disk.Some? && v.work.Completes?
  {
    v.(disk := Some(CompleteOp(v.disk.value, v.work.n, v.work.stage)), work := Completes(v.work.n, v.work.stage + 1))
  }

  function HinderedView(v: View): View
    requires v.work.Completes?
  {
    v.(work := if v.work.stage == 0 then Rejects(0) else Completes(v.work.n, v.work.stage + 1))
  }

  lemma CompletedViewOk(v: View, rank: Ranking, uploads: bool)
    requires ViewOk(v, rank, uploads) && v.disk.Some? && v.work.Completes? && v.work.stage <= 2
    requires v.doom == Spared
    ensures ViewOk(CompletedView(v), rank, uploads) && ViewOk(HinderedView(v), rank, uploads)
  {}

  lemma CompleteOpDoneDir(s: State, e: Name)
    requires DirOk(s, e) && CanCompleteOp(s)
    ensures DirOk(CompleteOpDone(s), e)
  {
    hide ViewOk, HoldOf, Wanted, QueuedFor, CompleteOp;
    if e != s.worker.d {
      OtherwiseTheSame(s, CompleteOpDone(s), e);
    } else {
      CompletedViewOk(ViewOf(s, e), s.rank, s.uploads);
      assert ViewOf(CompleteOpDone(s), e) == CompletedView(ViewOf(s, e));
    }
  }

  lemma CompleteOpFailedDir(s: State, e: Name)
    requires DirOk(s, e) && CanCompleteOp(s)
    ensures DirOk(CompleteOpFailed(s), e)
  {
    hide ViewOk, HoldOf, Wanted, QueuedFor, CompleteOp;
    if e != s.worker.d {
      OtherwiseTheSame(s, CompleteOpFailed(s), e);
    } else {
      CompletedViewOk(ViewOf(s, e), s.rank, s.uploads);
      assert ViewOf(CompleteOpFailed(s), e) == HinderedView(ViewOf(s, e));
    }
  }

  function RejectedView(v: View): View
    requires v.disk.Some? && v.work.Rejects?
  {
    v.(disk := Some(FailOp(v.disk.value, v.work.stage)), work := Rejects(v.work.stage + 1))
  }

  function RejectHinderedView(v: View): View
    requires v.work.Rejects?
  {
    v.(work := Rejects(if v.work.stage == 0 then 3 else v.work.stage + 1))
  }

  lemma RejectedViewOk(v: View, rank: Ranking, uploads: bool)
    requires ViewOk(v, rank, uploads) && v.disk.Some? && v.work.Rejects? && v.work.stage <= 2
    requires v.doom == Spared
    ensures ViewOk(RejectedView(v), rank, uploads) && ViewOk(RejectHinderedView(v), rank, uploads)
  {}

  lemma RejectOpDoneDir(s: State, e: Name)
    requires DirOk(s, e) && CanRejectOp(s)
    ensures DirOk(RejectOpDone(s), e)
  {
    hide ViewOk, HoldOf, Wanted, QueuedFor, FailOp;
    if e != s.worker.d {
      OtherwiseTheSame(s, RejectOpDone(s), e);
    } else {
      RejectedViewOk(ViewOf(s, e), s.rank, s.uploads);
      assert ViewOf(RejectOpDone(s), e) == RejectedView(ViewOf(s, e));
    }
  }

  lemma RejectOpFailedDir(s: State, e: Name)
    requires DirOk(s, e) && CanRejectOp(s)
    ensures DirOk(RejectOpFailed(s), e)
  {
    hide ViewOk, HoldOf, Wanted, QueuedFor, FailOp;
    if e != s.worker.d {
      OtherwiseTheSame(s, RejectOpFailed(s), e);
    } else {
      RejectedViewOk(ViewOf(s, e), s.rank, s.uploads);
      assert ViewOf(RejectOpFailed(s), e) == RejectHinderedView(ViewOf(s, e));
    }
  }

  lemma ClosedViewOk(v: View, rank: Ranking, uploads: bool)
    requires ViewOk(v, rank, uploads) && (v.work.Completes? || v.work.Rejects?)
    ensures ViewOk(v.(work := Elsewhere, progress := Progress(false, 0)), rank, uploads)
  {}

  lemma CloseOthers(s: State, e: Name)
    requires DirOk(s, e) && CanClose(s) && e != s.worker.d
    ensures DirOk(Close(s), e)
  {
    hide ViewOk, HoldOf, Wanted, QueuedFor;
    OtherwiseTheSame(s, Close(s), e);
  }

  lemma CloseDir(s: State)
    requires CanClose(s) && DirOk(s, s.worker.d)
    ensures DirOk(Close(s), s.worker.d)
  {
    hide ViewOk, HoldOf, Wanted, QueuedFor;
    var e := s.worker.d;
    ClosedViewOk(ViewOf(s, e), s.rank, s.uploads);
    assert ViewOf(Close(s), e) == ViewOf(s, e).(work := Elsewhere, progress := Progress(false, 0));
  }

  // ---- retention ----

  lemma SweepKeeps(s: State)
    requires Inv(s) && CanSweep(s)
    ensures Inv(Sweep(s))
  {
    var t := Sweep(s);
    RunningPhase(t);
    hide ViewOk, PhaseOk;
    forall e ensures DirOk(t, e) { assert DirOk(s, e); OtherwiseTheSame(s, t, e); }
  }

  function ProbedView(v: View, d: Name, probe: Probe, uploads: bool): View
    requires v.disk.Some? && !probe.Erasing?
  {
    var next := NextProbe(probe, d, v.disk.value, uploads);
    v.(doom := if next.At? then Doom(v.doom.collected, next.stage, next.complete, false)
               else Doom(v.doom.collected, 0, false, false))
  }

  lemma ProbedViewOk(v: View, d: Name, probe: Probe, rank: Ranking, uploads: bool)
    requires ViewOk(v, rank, uploads) && v.disk.Some? && !probe.Erasing? && !v.doom.erasing
    requires probe.At? ==> probe.stage >= 1 && v.doom.stage == probe.stage && v.doom.complete == probe.complete
    ensures ViewOk(ProbedView(v, d, probe, uploads), rank, uploads)
  {
    hide Persistent, Volatile;
    assert Volatile(ProbedView(v, d, probe, uploads)) by { SameVolatile(v, ProbedView(v, d, probe, uploads)); }
  }

  /** Volatile does not look at the upload thread or at retention. */
  lemma SameVolatile(v: View, w: View)
    requires Volatile(v) && w == v.(wanted := w.wanted, doom := w.doom)
    ensures Volatile(w)
  {}

  lemma LookOthers(s: State, d: Name, e: Name)
    requires DirOk(s, e) && CanLook(s, d) && e != d
    ensures DirOk(Look(s, d), e)
  {
    hide ViewOk, HoldOf, Wanted, QueuedFor, NextProbe;
    LookLooksAt(s.worker.probe, d, s.files[d], s.uploads);
    OtherwiseTheSame(s, Look(s, d), e);
  }

  lemma LookDir(s: State, d: Name)
    requires DirOk(s, d) && CanLook(s, d) && WorkerOk(s)
    ensures DirOk(Look(s, d), d)
  {
    hide ViewOk, HoldOf, Wanted, QueuedFor, NextProbe;
    LookLooksAt(s.worker.probe, d, s.files[d], s.uploads);
    ProbedViewOk(ViewOf(s, d), d, s.worker.probe, s.rank, s.uploads);
    assert ViewOf(Look(s, d), d) == ProbedView(ViewOf(s, d), d, s.worker.probe, s.uploads);
  }

  lemma LookLooksAt(probe: Probe, d: Name, disk: Disk, uploads: bool)
    requires !probe.Erasing?
    ensures var next :=
              NextProbe(probe, d, disk, uploads); !next.Erasing? && (next.At? ==> next.d == d && next.stage >= 1)
  {}

  /** Everything seen: into the list. Off the list, or no longer looked at: nothing to keep. */
  lemma CollectedViewOk(v: View, rank: Ranking, uploads: bool)
    requires ViewOk(v, rank, uploads)
    ensures v.doom.stage >= 5 ==> ViewOk(v.(doom := Doom(true, 0, false, false)), rank, uploads)
    ensures ViewOk(v.(doom := Spared), rank, uploads)
    ensures v.doom.collected ==> ViewOk(v.(doom := Doom(true, 0, false, false)), rank, uploads)
                                 && ViewOk(v.(doom := Doom(true, 0, false, true)), rank, uploads)
  {
    hide Volatile;
    SameVolatile(v, v.(doom := Doom(true, 0, false, false)));
    SameVolatile(v, v.(doom := Doom(true, 0, false, true)));
    SameVolatile(v, v.(doom := Spared));
  }

  lemma CollectDir(s: State, e: Name)
    requires DirOk(s, e) && CanCollect(s)
    ensures DirOk(Collect(s), e)
  {
    hide ViewOk, HoldOf, Wanted, QueuedFor;
    if e != s.worker.probe.d {
      OtherwiseTheSame(s, Collect(s), e);
    } else {
      CollectedViewOk(ViewOf(s, e), s.rank, s.uploads);
      assert ViewOf(Collect(s), e) == ViewOf(s, e).(doom := Doom(true, 0, false, false));
    }
  }

  /** What may be removed is neither still to be written, failed or completed, nor wanted for upload - unless part of
      it is gone and the order of removal is wrong. */
  lemma DoomedIsDone(v: View, rank: Ranking, uploads: bool)
    requires ViewOk(v, rank, uploads) && Doomed(v.doom)
    ensures v.log.Some? && !v.hold.Fresh? && !v.hold.Armed? && !v.hold.Due? && v.queued == [] && !v.work.Writes?
    ensures v.born ==> v.log.value.dropped || Finals(v.log.value.done) == Script(v.log.value.post)
    ensures v.hold.Dropping? ==> v.hold.stage == 2
    ensures !v.log.value.erased || KeepsUploaded(rank) ==> !v.wanted
  {
    if v.born {
      var l := v.log.value;
      assert |l.submitted| == |Finals(l.done)| + |Current(v.work)| + |v.queued|;
      if !l.dropped { assert |l.submitted| <= |Script(l.post)|; }
    }
  }

  lemma EraseDir(s: State, d: Name, e: Name)
    requires DirOk(s, e) && CanErase(s, d)
    ensures DirOk(Erase(s, d), e)
  {
    hide ViewOk, HoldOf, Wanted, QueuedFor;
    if e != d {
      OtherwiseTheSame(s, Erase(s, d), e);
    } else {
      CollectedViewOk(ViewOf(s, e), s.rank, s.uploads);
      assert ViewOf(Erase(s, d), e) == ViewOf(s, e).(doom := Doom(true, 0, false, true));
    }
  }

  function StrippedView(v: View, part: Part): View
    requires v.log.Some? && v.disk.Some?
  {
    v.(disk := Some(Stripped(v.disk.value, part)), log := Some(v.log.value.(erased := true)))
  }

  /** The next part to go has the lowest rank of those present. */
  ghost predicate NextToGo(disk: Disk, part: Part, rank: Ranking)
  {
    Present(disk, part) && forall other :: Present(disk, other) ==> rank(part) <= rank(other)
  }

  lemma StrippedPersistent(v: View, part: Part, rank: Ranking)
    requires v.log.Some? && v.disk.Some? && Persistent(v.disk, v.log, rank) && !v.disk.value.pending
    requires NextToGo(v.disk.value, part, rank)
    ensures var w := StrippedView(v, part); Persistent(w.disk, w.log, rank)
  {
    hide Finals, Succeeded;
    if v.disk.value.complete.Some? {
      assert Present(v.disk.value, CompletePart);
      assert rank(part) <= rank(CompletePart);
      assert Succeeded(v.log.value.(erased := true), v.disk.value.complete.value) by {
        SucceededErased(v.log.value, v.disk.value.complete.value);
      }
    }
  }

  lemma SucceededErased(log: Log, n: nat)
    requires Succeeded(log, n)
    ensures Succeeded(log.(erased := true), n)
  {}

  lemma StrippedVolatile(v: View, part: Part, rank: Ranking, uploads: bool)
    requires ViewOk(v, rank, uploads) && v.log.Some? && v.disk.Some? && Doomed(v.doom) && v.work.Elsewhere?
    ensures Volatile(StrippedView(v, part))
  {
    DoomedIsDone(v, rank, uploads);
    hide Persistent, WantedOk, DoomOk;
  }

  lemma StrippedDoom(v: View, part: Part, rank: Ranking, uploads: bool)
    requires v.log.Some? && v.disk.Some? && DoomOk(v, rank, uploads) && v.doom.erasing && v.doom.stage == 0
    requires NextToGo(v.disk.value, part, rank)
    ensures DoomOk(StrippedView(v, part), rank, uploads)
  {
    if v.disk.value.complete.Some? {
      assert Present(v.disk.value, CompletePart);
      assert rank(part) <= rank(CompletePart);
    }
  }

  lemma StrippedViewOk(v: View, part: Part, rank: Ranking, uploads: bool)
    requires ViewOk(v, rank, uploads) && v.log.Some? && v.disk.Some? && v.doom.erasing && v.doom.stage == 0
    requires v.work.Elsewhere?
    requires NextToGo(v.disk.value, part, rank)
    ensures ViewOk(StrippedView(v, part), rank, uploads)
  {
    DoomedIsDone(v, rank, uploads);
    StrippedVolatile(v, part, rank, uploads);
    StrippedDoom(v, part, rank, uploads);
    StrippedPersistent(v, part, rank);
    hide Persistent, Volatile, DoomOk, NextToGo;
  }

  lemma RemoveDir(s: State, part: Part, e: Name)
    requires DirOk(s, e) && CanRemove(s, part) && WorkerOk(s)
    ensures DirOk(Remove(s, part), e)
  {
    var d := s.worker.probe.d;
    if e == d {
      DoomedIsDone(ViewOf(s, e), s.rank, s.uploads);
      assert WorkOn(s.worker, d).Elsewhere?;
      assert NextToGo(s.files[d], part, s.rank);
      StrippedViewOk(ViewOf(s, e), part, s.rank, s.uploads);
    }
    hide ViewOk, HoldOf, Wanted, QueuedFor;
    if e != d {
      OtherwiseTheSame(s, Remove(s, part), e);
    } else {
      assert ViewOf(Remove(s, part), e) == StrippedView(ViewOf(s, e), part);
    }
  }

  function ErasedView(v: View): View
    requires v.log.Some?
  {
    v.(disk := None, log := Some(v.log.value.(erased := true)), doom := Spared)
  }

  lemma ErasedViewOk(v: View, rank: Ranking, uploads: bool)
    requires ViewOk(v, rank, uploads) && v.log.Some? && v.doom.erasing && v.work.Elsewhere? && v.disk == Some(Bare)
    ensures ViewOk(ErasedView(v), rank, uploads)
  {
    DoomedIsDone(v, rank, uploads);
    hide Finals;
  }

  lemma EraseDoneDir(s: State, e: Name)
    requires DirOk(s, e) && CanEraseDone(s) && WorkerOk(s)
    ensures DirOk(EraseDone(s), e)
  {
    var d := s.worker.probe.d;
    if e == d {
      DoomedIsDone(ViewOf(s, e), s.rank, s.uploads);
      assert WorkOn(s.worker, d).Elsewhere? && d in s.files;
      ErasedViewOk(ViewOf(s, e), s.rank, s.uploads);
    }
    hide ViewOk, HoldOf, Wanted, QueuedFor;
    if e != d {
      OtherwiseTheSame(s, EraseDone(s), e);
    } else {
      assert ViewOf(EraseDone(s), e) == ErasedView(ViewOf(s, e));
    }
  }

  lemma EraseFailedDir(s: State, e: Name)
    requires DirOk(s, e) && CanEraseFailed(s) && WorkerOk(s)
    ensures DirOk(EraseFailed(s), e)
  {
    hide ViewOk, HoldOf, Wanted, QueuedFor;
    if e != s.worker.probe.d {
      OtherwiseTheSame(s, EraseFailed(s), e);
    } else {
      CollectedViewOk(ViewOf(s, e), s.rank, s.uploads);
      assert ViewOf(EraseFailed(s), e) == ViewOf(s, e).(doom := Doom(true, 0, false, false));
    }
  }

  lemma SweepingGlobal(s: State, t: State)
    requires Global(s) && s.phase.Running? && t == s.(files := t.files, log := t.log, worker := t.worker)
    requires t.files.Keys <= s.files.Keys && t.log.Keys == s.log.Keys && WorkerOk(t)
    ensures Global(t)
  {
    RunningPhase(t);
    hide PhaseOk;
  }

  lemma EndSweepDir(s: State, e: Name)
    requires DirOk(s, e) && CanEndSweep(s) && WorkerOk(s)
    ensures DirOk(EndSweep(s), e)
  {
    hide ViewOk, HoldOf, Wanted, QueuedFor;
    CollectedViewOk(ViewOf(s, e), s.rank, s.uploads);
    assert ViewOf(EndSweep(s), e) == ViewOf(s, e).(doom := Spared);
  }

  // ---- upload thread ----

  lemma WantedViewOk(v: View, rank: Ranking, uploads: bool)
    requires ViewOk(v, rank, uploads)
    ensures uploads && v.disk.Some? && Candidate(v.disk.value) ==> ViewOk(v.(wanted := true), rank, uploads)
    ensures ViewOk(v.(wanted := false), rank, uploads)
  {
    hide Volatile, DoomOk;
    SameVolatile(v, v.(wanted := true));
    SameVolatile(v, v.(wanted := false));
    assert DoomOk(v.(wanted := true), rank, uploads) && DoomOk(v.(wanted := false), rank, uploads) by {
      SameDoom(v, rank, uploads);
    }
  }

  lemma SameDoom(v: View, rank: Ranking, uploads: bool)
    requires DoomOk(v, rank, uploads)
    ensures DoomOk(v.(wanted := true), rank, uploads) && DoomOk(v.(wanted := false), rank, uploads)
  {}

  lemma ScanDir(s: State, list: seq<Name>, e: Name)
    requires DirOk(s, e) && CanScan(s, list)
    ensures DirOk(Scan(s, list), e)
  {
    hide ViewOk, HoldOf, QueuedFor, WorkOn, DoomOf;
    WantedViewOk(ViewOf(s, e), s.rank, s.uploads);
    assert ViewOf(Scan(s, list), e) == ViewOf(s, e).(wanted := e in list);
  }

  function DiskIn(v: View): Disk { if v.disk.Some? then v.disk.value else Bare }

  function LeasedView(v: View, leased: bool): View
  {
    v.(disk := Some(DiskIn(v).(uploading := leased)))
  }

  /** A lease is written for what is wanted - which is there unless retention has begun on it -, or taken back. */
  lemma LeasedViewOk(v: View, leased: bool, rank: Ranking, uploads: bool)
    requires ViewOk(v, rank, uploads) && (if leased then v.wanted else v.disk.Some?)
    ensures ViewOk(LeasedView(v, leased), rank, uploads)
  {
    hide Finals, Persisted, QueuedFor;
  }

  lemma LeaseDir(s: State, e: Name)
    requires DirOk(s, e) && CanLease(s)
    ensures DirOk(Lease(s), e)
  {
    hide ViewOk, HoldOf, QueuedFor, WorkOn, DoomOf;
    var list := s.uploader.list;
    assert list == [list[0]] + list[1..];
    if e != list[0] {
      OtherwiseTheSame(s, Lease(s), e);
    } else {
      LeasedViewOk(ViewOf(s, e), true, s.rank, s.uploads);
      assert ViewOf(Lease(s), e) == LeasedView(ViewOf(s, e), true);
    }
  }

  lemma LeaseFailedDir(s: State, e: Name)
    requires DirOk(s, e) && CanLease(s)
    ensures DirOk(LeaseFailed(s), e)
  {
    hide ViewOk, HoldOf, QueuedFor, WorkOn, DoomOf;
    var list := s.uploader.list;
    assert list == [list[0]] + list[1..];
    WantedViewOk(ViewOf(s, e), s.rank, s.uploads);
    assert ViewOf(LeaseFailed(s), e) == ViewOf(s, e) || ViewOf(LeaseFailed(s), e) == ViewOf(s, e).(wanted := false);
  }

  function UploadedView(v: View): View
  {
    v.(disk := Some(DiskIn(v).(uploaded := true)), wanted := false)
  }

  lemma UploadedViewOk(v: View, rank: Ranking, uploads: bool)
    requires ViewOk(v, rank, uploads) && v.wanted
    ensures ViewOk(UploadedView(v), rank, uploads)
  {}

  lemma MarkUploadedDir(s: State, e: Name)
    requires DirOk(s, e) && CanFinishTransfer(s) && s.uploader.d !in s.uploader.rest
    ensures DirOk(MarkUploaded(s), e)
  {
    hide ViewOk, HoldOf, QueuedFor, WorkOn, DoomOf;
    if e != s.uploader.d {
      OtherwiseTheSame(s, MarkUploaded(s), e);
    } else {
      UploadedViewOk(ViewOf(s, e), s.rank, s.uploads);
      assert ViewOf(MarkUploaded(s), e) == UploadedView(ViewOf(s, e));
    }
  }

  lemma TransferFailedDir(s: State, e: Name)
    requires DirOk(s, e) && CanFinishTransfer(s)
    ensures DirOk(TransferFailed(s), e)
  {
    hide ViewOk, HoldOf, QueuedFor, WorkOn, DoomOf;
    WantedViewOk(ViewOf(s, e), s.rank, s.uploads);
    assert ViewOf(TransferFailed(s), e) == ViewOf(s, e)
      || ViewOf(TransferFailed(s), e) == ViewOf(s, e).(wanted := false);
  }

  lemma LeaveKeeps(s: State)
    requires Inv(s) && CanLeave(s)
    ensures Inv(Leave(s))
  {
    var t := Leave(s);
    RunningPhase(t);
    hide ViewOk, PhaseOk;
    forall e ensures DirOk(t, e) { assert DirOk(s, e); OtherwiseTheSame(s, t, e); }
  }

  lemma UnleaseDir(s: State, d: Name, e: Name)
    requires DirOk(s, e) && CanUnlease(s, d)
    ensures DirOk(Unlease(s, d), e)
  {
    hide ViewOk, HoldOf, QueuedFor, WorkOn, DoomOf, Wanted;
    if e != d {
      OtherwiseTheSame(s, Unlease(s, d), e);
    } else {
      LeasedViewOk(ViewOf(s, e), false, s.rank, s.uploads);
      assert ViewOf(Unlease(s, d), e) == LeasedView(ViewOf(s, e), false);
    }
  }

  lemma UploadGlobal(s: State, t: State)
    requires Global(s) && s.phase.Running? && t == s.(files := t.files, uploader := t.uploader)
    requires UploaderOk(t) && (s.executor.Holding? ==> s.executor.d !in t.files)
    ensures Global(t)
  {
    RunningPhase(t);
    hide PhaseOk;
  }

  /** Without its first entry a list of distinct names stays distinct. */
  lemma TailIsDistinct(list: seq<Name>)
    requires Distinct(list) && list != []
    ensures Distinct(list[1..]) && list[0] !in list[1..] && [list[0]] + list[1..] == list
  {}

  // ---- the process dies and starts again ----

  lemma CrashedViewOk(v: View, rank: Ranking, uploads: bool, next: bool)
    requires ViewOk(v, rank, uploads)
    ensures ViewOk(View(v.disk, v.log, false, Free, [], Elsewhere, Progress(false, 0), false, Spared), rank, next)
  {}

  lemma CrashKeeps(s: State, uploads: bool)
    requires Inv(s)
    ensures Inv(Crash(s, uploads))
  {
    var t := Crash(s, uploads);
    hide ViewOk;
    forall e ensures DirOk(t, e) {
      assert DirOk(s, e);
      CrashedViewOk(ViewOf(s, e), s.rank, s.uploads, uploads);
    }
  }

  lemma PhaseOnly(s: State, t: State, e: Name)
    requires DirOk(s, e) && t == s.(phase := t.phase)
    ensures DirOk(t, e)
  {
    hide ViewOk;
    OtherwiseTheSame(s, t, e);
  }

  lemma DecidedViewOk(v: View, rank: Ranking, uploads: bool)
    requires ViewOk(v, rank, uploads) && !v.born && v.disk.Some? && Decided(v.disk.value)
    ensures ViewOk(v.(disk := Some(Removed(v.disk.value, Pending))), rank, uploads)
  {}

  lemma VisitDecidedKeeps(s: State, d: Name)
    requires Inv(s) && CanVisit(s, d) && Decided(s.files[d])
    ensures Inv(VisitDecided(s, d))
  {
    var t := VisitDecided(s, d);
    forall e ensures DirOk(t, e) { assert DirOk(s, e); VisitDecidedDir(s, d, e); }
    hide DirOk;
  }

  lemma VisitDecidedDir(s: State, d: Name, e: Name)
    requires DirOk(s, e) && CanVisit(s, d) && Decided(s.files[d]) && s.born == {}
    ensures DirOk(VisitDecided(s, d), e)
  {
    hide ViewOk, HoldOf, QueuedFor, WorkOn, DoomOf, Wanted;
    if e != d {
      OtherwiseTheSame(s, VisitDecided(s, d), e);
    } else {
      DecidedViewOk(ViewOf(s, e), s.rank, s.uploads);
      assert ViewOf(VisitDecided(s, d), e) == ViewOf(s, e).(disk := Some(Removed(s.files[d], Pending)));
    }
  }

  lemma VisitPastKeeps(s: State, d: Name)
    requires Inv(s) && CanVisit(s, d)
    ensures Inv(VisitPast(s, d))
  {
    var t := VisitPast(s, d);
    forall e ensures DirOk(t, e) { assert DirOk(s, e); PhaseOnly(s, t, e); }
    hide DirOk;
  }

  lemma VisitUndecidedKeeps(s: State, d: Name)
    requires Inv(s) && CanVisit(s, d) && s.files[d].pending && !Decided(s.files[d])
    ensures Inv(VisitUndecided(s, d))
  {
    var t := VisitUndecided(s, d);
    forall e ensures DirOk(t, e) { assert DirOk(s, e); PhaseOnly(s, t, e); }
    hide DirOk;
  }

  lemma RepairedViewOk(v: View, stage: nat, rank: Ranking, uploads: bool)
    requires ViewOk(v, rank, uploads) && !v.born && v.disk.Some? && v.doom == Spared && !v.wanted
    requires v.disk.value.complete.None? && (if stage == 0 then v.disk.value.pending else v.disk.value.failed)
    ensures ViewOk(v.(disk := Some(FailOp(v.disk.value, stage))), rank, uploads)
  {
    var w := v.(disk := Some(FailOp(v.disk.value, stage)));
    assert Volatile(w);
    assert WantedOk(w, rank, uploads);
    assert DoomOk(w, rank, uploads);
    assert Persistent(w.disk, w.log, rank);
  }

  lemma RepairDir(s: State, e: Name)
    requires DirOk(s, e) && CanRepair(s) && PhaseOk(s)
    ensures DirOk(Repair(s), e)
  {
    hide ViewOk, QueuedFor, FailOp;
    var d := s.phase.at.value;
    if e != d {
      OtherwiseTheSame(s, Repair(s), e);
    } else {
      RepairedViewOk(ViewOf(s, e), s.phase.stage, s.rank, s.uploads);
      assert ViewOf(Repair(s), e) == ViewOf(s, e).(disk := Some(FailOp(s.files[d], s.phase.stage)));
    }
  }

  lemma RepairGlobal(s: State)
    requires Global(s) && CanRepair(s)
    ensures Global(Repair(s)) && Global(RepairFailed(s))
  {}
}
