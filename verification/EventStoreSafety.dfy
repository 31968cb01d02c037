/** What holds in every reachable state of the event store. */
module EventStoreSafety {
  import opened Prelude
  import opened EventStore
  import opened EventStoreInvariant
  import opened EventStoreSteps
  import opened EventStoreThreads

  // ---- executor ----

  lemma BeginKeeps(s: State)
    requires Inv(s) && CanBegin(s)
    ensures Inv(Begin(s)) && Inv(LeaveBare(s))
  {
    hide DirOk, PhaseOk;
    assert DirOk(s, s.executor.d);
    BeginGlobal(s);
    LeaveBareGlobal(s);
    forall e ensures DirOk(Begin(s), e) && DirOk(LeaveBare(s), e) {
      assert DirOk(s, e);
      BeginDir(s, e);
      LeaveBareDir(s, e);
    }
  }

  lemma ReleaseKeeps(s: State)
    requires Inv(s) && CanRelease(s)
    ensures Inv(Release(s))
  {
    hide DirOk, Global;
    ReleaseGlobal(s);
    forall e ensures DirOk(Release(s), e) { assert DirOk(s, e); ReleaseDir(s, e); }
  }

  /** The executor works on events begun since the last start. */
  lemma ExecutorsAreBorn(s: State, d: Name)
    requires DirOk(s, d)
    ensures s.executor.Begun? && s.executor.d == d ==> d in s.born
    ensures s.executor.Failing? && s.executor.d == d ==> d in s.born && s.executor.stage <= 2
    ensures s.executor.Harvesting? && d in s.executor.tasks ==> d in s.born
  {}

  lemma FirstKeeps(s: State, accepted: bool)
    requires Inv(s) && CanEnqueueFirst(s, accepted)
    ensures Inv(if accepted then EnqueueFirst(s) else RefuseFirst(s))
  {
    assert DirOk(s, s.executor.d);
    ExecutorsAreBorn(s, s.executor.d);
    hide DirOk, PhaseOk;
    if accepted {
      EnqueueFirstGlobal(s);
      forall e ensures DirOk(EnqueueFirst(s), e) { assert DirOk(s, e); EnqueueFirstDir(s, e); }
    } else {
      RefuseFirstGlobal(s);
      forall e ensures DirOk(RefuseFirst(s), e) { assert DirOk(s, e); RefuseFirstDir(s, e); }
    }
  }

  lemma FailOpKeeps(s: State)
    requires Inv(s) && CanFailOp(s)
    ensures Inv(FailOpDone(s))
  {
    assert DirOk(s, s.executor.d);
    ExecutorsAreBorn(s, s.executor.d);
    hide DirOk, PhaseOk;
    AfterFailOpOk(s, true);
    RunningPhase(FailOpDone(s));
    forall e ensures DirOk(FailOpDone(s), e) { assert DirOk(s, e); FailOpDir(s, e); }
  }

  lemma FailSkipKeeps(s: State, ok: bool)
    requires Inv(s) && CanFailSkip(s, ok)
    ensures Inv(FailOpSkipped(s, ok))
  {
    assert DirOk(s, s.executor.d);
    ExecutorsAreBorn(s, s.executor.d);
    hide DirOk, PhaseOk;
    AfterFailOpOk(s, ok);
    forall e ensures DirOk(FailOpSkipped(s, ok), e) { assert DirOk(s, e); FailSkipDir(s, ok, e); }
  }

  lemma HarvestKeeps(s: State, tasks: seq<Name>)
    requires Inv(s) && CanHarvest(s, tasks)
    ensures Inv(Harvest(s, tasks))
  {
    hide DirOk, Global;
    HarvestGlobal(s, tasks);
    forall e ensures DirOk(Harvest(s, tasks), e) { assert DirOk(s, e); HarvestDir(s, tasks, e); }
  }

  lemma FinalKeeps(s: State)
    requires Inv(s) && CanEnqueueFinal(s, true)
    ensures Inv(EnqueueFinal(s))
  {
    var d := s.executor.tasks[0];
    assert DirOk(s, d);
    ExecutorsAreBorn(s, d);
    hide DirOk, PhaseOk;
    EnqueueFinalGlobal(s);
    forall e ensures DirOk(EnqueueFinal(s), e) { assert DirOk(s, e); EnqueueFinalDir(s, e); }
  }

  /** A last batch is never refused. */
  lemma NoFinalRefused(s: State)
    requires Inv(s)
    ensures !CanEnqueueFinal(s, false)
  {
    hide DirOk;
    if s.executor.Harvesting? && s.executor.tasks != [] { FinalIsAccepted(s); }
  }

  lemma ExecutorStepKeeps(s: State, step: Step, t: State)
    requires Inv(s) && ExecutorStep(s, step, t)
    ensures Inv(t)
  {
    hide Inv;
    match step
    case SReserve(d, post) => ReserveKeeps(s, d, post);
    case SRefuse => RefuseKeeps(s);
    case SLeaveBare => BeginKeeps(s);
    case SBegin => BeginKeeps(s);
    case SEnqueueFirst => FirstKeeps(s, true);
    case SRefuseFirst => FirstKeeps(s, false);
    case SRelease => ReleaseKeeps(s);
    case SFailOp => FailOpKeeps(s);
    case SFailOpSkipped(ok) => FailSkipKeeps(s, ok);
    case SHarvest(names) => HarvestKeeps(s, names);
    case SEnqueueFinal => FinalKeeps(s);
    case SRefuseFinal => NoFinalRefused(s);
    case SStop => StopKeeps(s);
    case _ =>
  }

  // ---- storage thread ----

  lemma PopKeeps(s: State)
    requires Inv(s) && CanPop(s)
    ensures Inv(Pop(s))
  {
    hide DirOk, Global;
    PopGlobal(s);
    forall e ensures DirOk(Pop(s), e) { assert DirOk(s, e); PopDir(s, e); }
  }

  /** What the event directory about to be begun excludes. */
  lemma NotTheOneHeld(s: State)
    requires ExecutorOk(s) && s.executor.Holding?
    ensures s.executor.d !in s.files && s.executor.d !in s.log
  {}

  /** No job ever finds its directory gone. */
  lemma NothingReopened(s: State)
    requires Inv(s)
    ensures !CanReopen(s)
  {
    if CanWrite(s) {
      assert DirOk(s, s.worker.job.dir);
      hide DirOk, Global;
      NeverReopens(s);
    }
  }

  lemma WriteRecordKeeps(s: State, ok: bool)
    requires Inv(s) && CanWrite(s)
    ensures Inv(WriteRecord(s, ok))
  {
    if s.executor.Holding? { NotTheOneHeld(s); }
    hide DirOk, PhaseOk, FailOp, CompleteOp;
    WorkerGlobal(s, WriteRecord(s, ok));
    forall e ensures DirOk(WriteRecord(s, ok), e) { assert DirOk(s, e); WriteRecordDir(s, ok, e); }
  }

  lemma SpillKeeps(s: State)
    requires Inv(s) && CanSpill(s)
    ensures Inv(Spill(s))
  {
    if s.executor.Holding? { NotTheOneHeld(s); }
    hide DirOk, PhaseOk, FailOp, CompleteOp;
    WorkerGlobal(s, Spill(s));
    forall e ensures DirOk(Spill(s), e) { assert DirOk(s, e); SpillDir(s, e); }
  }

  lemma FinishKeeps(s: State, flushed: bool, threw: bool)
    requires Inv(s) && CanFinish(s, flushed)
    ensures Inv(Finish(s, flushed, threw))
  {
    var t, d := Finish(s, flushed, threw), s.worker.job.dir;
    if s.executor.Holding? { NotTheOneHeld(s); }
    hide DirOk, PhaseOk;
    WorkerGlobal(s, t);
    forall e ensures DirOk(t, e) {
      assert DirOk(s, e);
      if e == d { FinishDir(s, flushed, threw); } else { FinishOthers(s, flushed, threw, e); }
    }
  }

  lemma SealKeeps(s: State)
    requires Inv(s) && CanSeal(s)
    ensures Inv(Seal(s))
  {
    if s.executor.Holding? { NotTheOneHeld(s); }
    hide DirOk, PhaseOk, FailOp, CompleteOp;
    WorkerGlobal(s, Seal(s));
    forall e ensures DirOk(Seal(s), e) { assert DirOk(s, e); SealDir(s, e); }
  }

  lemma SealFailedKeeps(s: State)
    requires Inv(s) && CanSeal(s)
    ensures Inv(SealFailed(s))
  {
    if s.executor.Holding? { NotTheOneHeld(s); }
    hide DirOk, PhaseOk, FailOp, CompleteOp;
    WorkerGlobal(s, SealFailed(s));
    forall e ensures DirOk(SealFailed(s), e) { assert DirOk(s, e); SealFailedDir(s, e); }
  }

  lemma CompleteOpKeeps(s: State)
    requires Inv(s) && CanCompleteOp(s)
    ensures Inv(CompleteOpDone(s))
  {
    if s.executor.Holding? { NotTheOneHeld(s); }
    hide DirOk, PhaseOk, FailOp, CompleteOp;
    WorkerGlobal(s, CompleteOpDone(s));
    forall e ensures DirOk(CompleteOpDone(s), e) { assert DirOk(s, e); CompleteOpDoneDir(s, e); }
  }

  lemma CompleteOpFailedKeeps(s: State)
    requires Inv(s) && CanCompleteOp(s)
    ensures Inv(CompleteOpFailed(s))
  {
    if s.executor.Holding? { NotTheOneHeld(s); }
    hide DirOk, PhaseOk, FailOp, CompleteOp;
    WorkerGlobal(s, CompleteOpFailed(s));
    forall e ensures DirOk(CompleteOpFailed(s), e) { assert DirOk(s, e); CompleteOpFailedDir(s, e); }
  }

  lemma RejectOpKeeps(s: State)
    requires Inv(s) && CanRejectOp(s)
    ensures Inv(RejectOpDone(s))
  {
    if s.executor.Holding? { NotTheOneHeld(s); }
    hide DirOk, PhaseOk, FailOp, CompleteOp;
    WorkerGlobal(s, RejectOpDone(s));
    forall e ensures DirOk(RejectOpDone(s), e) { assert DirOk(s, e); RejectOpDoneDir(s, e); }
  }

  lemma RejectOpFailedKeeps(s: State)
    requires Inv(s) && CanRejectOp(s)
    ensures Inv(RejectOpFailed(s))
  {
    if s.executor.Holding? { NotTheOneHeld(s); }
    hide DirOk, PhaseOk, FailOp, CompleteOp;
    WorkerGlobal(s, RejectOpFailed(s));
    forall e ensures DirOk(RejectOpFailed(s), e) { assert DirOk(s, e); RejectOpFailedDir(s, e); }
  }

  lemma CloseKeeps(s: State)
    requires Inv(s) && CanClose(s)
    ensures Inv(Close(s))
  {
    if s.executor.Holding? { NotTheOneHeld(s); }
    hide DirOk, PhaseOk;
    WorkerGlobal(s, Close(s));
    forall e ensures DirOk(Close(s), e) {
      assert DirOk(s, e);
      if e == s.worker.d { CloseDir(s); } else { CloseOthers(s, e); }
    }
  }

  lemma StorageStepKeeps(s: State, step: Step, t: State)
    requires Inv(s) && StorageStep(s, step, t)
    ensures Inv(t)
  {
    hide Inv;
    match step
    case SPop => PopKeeps(s);
    case SFinish(flushed, threw) => FinishKeeps(s, flushed, threw);
    case SClose => CloseKeeps(s);
    case SReopen => NothingReopened(s);
    case SWriteRecord(ok) => WriteRecordKeeps(s, ok);
    case SSpill => SpillKeeps(s);
    case SSeal => SealKeeps(s);
    case SSealFailed => SealFailedKeeps(s);
    case SCompleteOp => CompleteOpKeeps(s);
    case SCompleteOpFailed => CompleteOpFailedKeeps(s);
    case SRejectOp => RejectOpKeeps(s);
    case SRejectOpFailed => RejectOpFailedKeeps(s);
    case _ =>
  }

  // ---- retention ----

  lemma LookKeeps(s: State, d: Name)
    requires Inv(s) && CanLook(s, d)
    ensures Inv(Look(s, d))
  {
    LookLooksAt(s.worker.probe, d, s.files[d], s.uploads);
    hide DirOk, PhaseOk, NextProbe;
    SweepingGlobal(s, Look(s, d));
    forall e ensures DirOk(Look(s, d), e) {
      assert DirOk(s, e);
      if e == d { LookDir(s, d); } else { LookOthers(s, d, e); }
    }
  }

  lemma CollectKeeps(s: State)
    requires Inv(s) && CanCollect(s)
    ensures Inv(Collect(s))
  {
    hide DirOk, PhaseOk;
    SweepingGlobal(s, Collect(s));
    forall e ensures DirOk(Collect(s), e) { assert DirOk(s, e); CollectDir(s, e); }
  }

  lemma EraseKeeps(s: State, d: Name)
    requires Inv(s) && CanErase(s, d)
    ensures Inv(Erase(s, d))
  {
    hide DirOk, PhaseOk;
    SweepingGlobal(s, Erase(s, d));
    forall e ensures DirOk(Erase(s, d), e) { assert DirOk(s, e); EraseDir(s, d, e); }
  }

  lemma RemoveKeeps(s: State, part: Part)
    requires Inv(s) && CanRemove(s, part)
    ensures Inv(Remove(s, part))
  {
    hide DirOk, PhaseOk, Stripped;
    SweepingGlobal(s, Remove(s, part));
    forall e ensures DirOk(Remove(s, part), e) { assert DirOk(s, e); RemoveDir(s, part, e); }
  }

  lemma EraseDoneKeeps(s: State)
    requires Inv(s) && CanEraseDone(s)
    ensures Inv(EraseDone(s))
  {
    hide DirOk, PhaseOk;
    SweepingGlobal(s, EraseDone(s));
    forall e ensures DirOk(EraseDone(s), e) { assert DirOk(s, e); EraseDoneDir(s, e); }
  }

  lemma EraseFailedKeeps(s: State)
    requires Inv(s) && CanEraseFailed(s)
    ensures Inv(EraseFailed(s))
  {
    hide DirOk, PhaseOk;
    SweepingGlobal(s, EraseFailed(s));
    forall e ensures DirOk(EraseFailed(s), e) { assert DirOk(s, e); EraseFailedDir(s, e); }
  }

  lemma EndSweepKeeps(s: State)
    requires Inv(s) && CanEndSweep(s)
    ensures Inv(EndSweep(s))
  {
    hide DirOk, PhaseOk;
    SweepingGlobal(s, EndSweep(s));
    forall e ensures DirOk(EndSweep(s), e) { assert DirOk(s, e); EndSweepDir(s, e); }
  }

  lemma RetentionStepKeeps(s: State, step: Step, t: State)
    requires Inv(s) && RetentionStep(s, step, t)
    ensures Inv(t)
  {
    hide Inv;
    match step
    case SSweep => SweepKeeps(s);
    case SLook(d) => LookKeeps(s, d);
    case SCollect => CollectKeeps(s);
    case SErase(d) => EraseKeeps(s, d);
    case SRemove(part) => RemoveKeeps(s, part);
    case SEraseDone => EraseDoneKeeps(s);
    case SEraseFailed => EraseFailedKeeps(s);
    case SEndSweep => EndSweepKeeps(s);
    case _ =>
  }

  // ---- upload thread ----

  lemma ScanKeeps(s: State, list: seq<Name>)
    requires Inv(s) && CanScan(s, list)
    ensures Inv(Scan(s, list))
  {
    if s.executor.Holding? { NotTheOneHeld(s); }
    hide DirOk, PhaseOk;
    UploadGlobal(s, Scan(s, list));
    forall e ensures DirOk(Scan(s, list), e) { assert DirOk(s, e); ScanDir(s, list, e); }
  }

  /** What is wanted for upload was begun long ago. */
  lemma WantedIsLogged(s: State, d: Name)
    requires Inv(s) && Wanted(s.uploader, d)
    ensures d in s.log && (s.executor.Holding? ==> s.executor.d != d && s.executor.d !in s.files)
  {
    assert DirOk(s, d);
    hide PhaseOk, UploaderOk, WorkerOk, SlotsOk;
  }

  lemma LeaseKeeps(s: State)
    requires Inv(s) && CanLease(s)
    ensures Inv(Lease(s)) && Inv(LeaseFailed(s))
  {
    TailIsDistinct(s.uploader.list);
    WantedIsLogged(s, s.uploader.list[0]);
    hide DirOk, PhaseOk, Distinct;
    UploadGlobal(s, Lease(s));
    UploadGlobal(s, LeaseFailed(s));
    forall e ensures DirOk(Lease(s), e) && DirOk(LeaseFailed(s), e) {
      assert DirOk(s, e);
      LeaseDir(s, e);
      LeaseFailedDir(s, e);
    }
  }

  lemma TransferKeeps(s: State)
    requires Inv(s) && CanFinishTransfer(s)
    ensures Inv(MarkUploaded(s)) && Inv(TransferFailed(s))
  {
    TailIsDistinct([s.uploader.d] + s.uploader.rest);
    assert ([s.uploader.d] + s.uploader.rest)[1..] == s.uploader.rest;
    WantedIsLogged(s, s.uploader.d);
    hide DirOk, PhaseOk, Distinct;
    UploadGlobal(s, MarkUploaded(s));
    UploadGlobal(s, TransferFailed(s));
    forall e ensures DirOk(MarkUploaded(s), e) && DirOk(TransferFailed(s), e) {
      assert DirOk(s, e);
      MarkUploadedDir(s, e);
      TransferFailedDir(s, e);
    }
  }

  lemma UnleaseKeeps(s: State, d: Name)
    requires Inv(s) && CanUnlease(s, d)
    ensures Inv(Unlease(s, d))
  {
    if s.executor.Holding? { NotTheOneHeld(s); }
    hide DirOk, PhaseOk;
    UploadGlobal(s, Unlease(s, d));
    forall e ensures DirOk(Unlease(s, d), e) { assert DirOk(s, e); UnleaseDir(s, d, e); }
  }

  lemma UploadStepKeeps(s: State, step: Step, t: State)
    requires Inv(s) && UploadStep(s, step, t)
    ensures Inv(t)
  {
    hide Inv;
    match step
    case SScan(names) => ScanKeeps(s, names);
    case SLease => LeaseKeeps(s);
    case SLeaseFailed => LeaseKeeps(s);
    case SMarkUploaded => TransferKeeps(s);
    case STransferFailed => TransferKeeps(s);
    case SLeave => LeaveKeeps(s);
    case SUnlease(d) => UnleaseKeeps(s, d);
    case _ =>
  }

  // ---- restart ----

  lemma RepairKeeps(s: State)
    requires Inv(s) && CanRepair(s)
    ensures Inv(Repair(s)) && Inv(RepairFailed(s))
  {
    RepairGlobal(s);
    hide DirOk;
    forall e ensures DirOk(Repair(s), e) && DirOk(RepairFailed(s), e) {
      assert DirOk(s, e);
      RepairDir(s, e);
      PhaseOnly(s, RepairFailed(s), e);
    }
  }

  lemma StartKeeps(s: State)
    requires Inv(s) && CanStart(s)
    ensures Inv(Start(s))
  {
    RunningPhase(Start(s));
    hide DirOk, PhaseOk;
    forall e ensures DirOk(Start(s), e) { assert DirOk(s, e); PhaseOnly(s, Start(s), e); }
  }

  lemma RestartStepKeeps(s: State, step: Step, t: State)
    requires Inv(s) && RestartStep(s, step, t)
    ensures Inv(t)
  {
    hide Inv;
    match step
    case SCrash(uploads) => CrashKeeps(s, uploads);
    case SVisitPast(d) => VisitPastKeeps(s, d);
    case SVisitDecided(d) => VisitDecidedKeeps(s, d);
    case SVisitUndecided(d) => VisitUndecidedKeeps(s, d);
    case SRepair => RepairKeeps(s);
    case SRepairFailed => RepairKeeps(s);
    case SStart => StartKeeps(s);
    case _ =>
  }

  // ---- every run ----

  lemma NextKeeps(s: State, t: State)
    requires Inv(s) && Next(s, t)
    ensures Inv(t)
  {
    hide Inv, ExecutorStep, StorageStep, RetentionStep, UploadStep, RestartStep;
    var step :| Taken(s, step, t);
    if ExecutorStep(s, step, t) { ExecutorStepKeeps(s, step, t); }
    if StorageStep(s, step, t) { StorageStepKeeps(s, step, t); }
    if RetentionStep(s, step, t) { RetentionStepKeeps(s, step, t); }
    if UploadStep(s, step, t) { UploadStepKeeps(s, step, t); }
    if RestartStep(s, step, t) { RestartStepKeeps(s, step, t); }
  }

  lemma ShorterRun(states: seq<State>)
    requires Run(states) && |states| > 1
    ensures Run(states[..|states| - 1]) && Next(states[|states| - 2], states[|states| - 1])
  {
    hide Next, Init;
    var front := states[..|states| - 1];
    assert Follows(states, |states| - 1);
    forall i | 0 < i < |front| ensures Follows(front, i) { assert Follows(states, i); }
  }

  lemma {:induction false} RunKeeps(states: seq<State>)
    requires Run(states)
    ensures Inv(states[|states| - 1])
  {
    hide Inv, Next;
    if |states| == 1 {
      InitHolds(states[0]);
    } else {
      ShorterRun(states);
      RunKeeps(states[..|states| - 1]);
      NextKeeps(states[|states| - 2], states[|states| - 1]);
    }
  }
}
