/** What the event store promises over every run, with crashes anywhere. */
module EventStoreTheorems {
  import opened Prelude
  import opened EventStore
  import opened EventStoreInvariant
  import opened EventStoreSteps
  import opened EventStoreThreads
  import opened EventStoreSafety

  function Now(states: seq<State>): State
    requires states != []
  {
    states[|states| - 1]
  }

  // ---- the marker transaction ----

  /** No directory ever carries both decisions. */
  lemma NeverBothDecisions(states: seq<State>, d: Name)
    requires Run(states) && d in Now(states).files
    ensures Now(states).files[d].complete.Some? ==> !Now(states).files[d].failed
  {
    RunKeeps(states);
    assert DirOk(Now(states), d);
  }

  /** .complete with records=n means: first the pre-window job (if the event has a post window), then the last one,
      both without a fault and n > 0 rows in all; and until retention has begun to remove the directory - or throughout,
      if .complete is removed first - the n data rows are in manifest.csv, and manifest.sha256 is written. */
  lemma CompleteMeansStored(states: seq<State>, d: Name)
    requires Run(states) && d in Now(states).files && Now(states).files[d].complete.Some?
    ensures var s := Now(states);
            var n := s.files[d].complete.value;
            && d in s.log && n > 0
            && Finals(s.log[d].done) == (if s.log[d].post then [false, true] else [true])
            && AllOk(s.log[d].done) && Persisted(s.log[d].done) == n
            && (!s.log[d].erased || KeepsRows(s.rank) ==> s.files[d].rows == n)
            && (!s.log[d].erased || KeepsManifest(s.rank) ==> s.files[d].sealed)
  {
    RunKeeps(states);
    assert DirOk(Now(states), d);
  }

  /** When a restart has gone over every directory without a failed file operation, each event ever begun and not
      erased since has exactly one decision and is not pending. */
  lemma ReconciledIsDecided(states: seq<State>, d: Name)
    requires Run(states) && d in Now(states).log && !Now(states).log[d].erased
    requires CanStart(Now(states)) && Now(states).phase.clean
    ensures var s := Now(states);
            d in s.files && !s.files[d].pending && (s.files[d].complete.Some? <==> !s.files[d].failed)
  {
    RunKeeps(states);
    assert DirOk(Now(states), d);
  }

  // ---- reservations ----

  /** Jobs and reservations never exceed the limit, and between callbacks every reservation belongs to exactly one
      active capture: each path that rejects an event has returned the slot it took. */
  lemma SlotsBelongToCaptures(states: seq<State>)
    requires Run(states)
    ensures var s := Now(states);
            && |s.queue.jobs| + s.queue.reserved <= s.queue.limit
            && (s.executor.Idle? ==> s.queue.reserved == |s.active|)
  {
    RunKeeps(states);
    hide DirOk;
  }

  /** A capture's last batch is never refused, however full the queue is, and leaves it within its limit. */
  lemma LastBatchAlwaysHasRoom(states: seq<State>)
    requires Run(states) && Now(states).executor.Harvesting?
    ensures var s := Now(states);
            && s.executor.tasks != [] && Final(s).1
            && |Final(s).0.jobs| + Final(s).0.reserved <= s.queue.limit
  {
    RunKeeps(states);
    hide DirOk;
    FinalIsAccepted(Now(states));
  }

  /** Between callbacks an event begun since the start and not refused has all its jobs handed over, or has handed
      over the pre-window job and is an active capture. */
  lemma AcceptedIsScheduled(states: seq<State>, d: Name)
    requires Run(states) && d in Now(states).born && Now(states).executor.Idle?
    ensures d in Now(states).log
    ensures var s, l := Now(states), Now(states).log[d];
            !l.dropped ==> if d in s.active then l.submitted == [false] && l.post else l.submitted == Script(l.post)
  {
    RunKeeps(states);
    assert DirOk(Now(states), d);
  }

  // ---- retention and upload ----

  /** Retention is about to remove the directory, or is at it. */
  ghost predicate Erases(s: State, d: Name)
  {
    CanErase(s, d) || (s.phase.Running? && s.worker.Sweeping? && s.worker.probe == Erasing(d))
  }

  /** What retention removes is not pending, has no active capture and no job queued or being written; and until
      something of it is gone it is decided, uploaded if it was to be, and not wanted for upload. The last holds
      throughout if .complete is removed before .uploaded. */
  lemma RetentionSparesTheUnfinished(states: seq<State>, d: Name)
    requires Run(states) && Erases(Now(states), d)
    ensures var s := Now(states);
            && d in s.files && d in s.log && !s.files[d].pending
            && d !in s.active && QueuedFor(s.queue.jobs, d) == [] && WorkOn(s.worker, d).Elsewhere?
            && (!s.log[d].erased ==>
                s.files[d].failed || (s.files[d].complete.Some? && (s.uploads ==> s.files[d].uploaded)))
            && (!s.log[d].erased || KeepsUploaded(s.rank) ==> !Wanted(s.uploader, d))
  {
    var s := Now(states);
    RunKeeps(states);
    assert DirOk(s, d);
    assert Doomed(DoomOf(s.worker, d));
    DoomedIsDone(ViewOf(s, d), s.rank, s.uploads);
    WorkWhileSweeping(s, d);
    NotHeldNotActive(s, d);
  }

  lemma WorkWhileSweeping(s: State, d: Name)
    requires WorkerOk(s) && s.worker.Sweeping?
    ensures WorkOn(s.worker, d).Elsewhere? || WorkOn(s.worker, d).Writes?
  {}

  lemma NotHeldNotActive(s: State, d: Name)
    requires ExecutorOk(s) && (HoldOf(s.executor, s.active, d).Free? || HoldOf(s.executor, s.active, d).Dropping?)
    ensures d !in s.active
  {}

  /** What the upload thread holds is complete, not yet uploaded and safe from retention - unless retention has removed
      something of it before, in an order that takes .uploaded no later than .complete. */
  lemma UploadsAreComplete(states: seq<State>, d: Name)
    requires Run(states) && Wanted(Now(states).uploader, d)
    ensures d in Now(states).log
    ensures var s := Now(states);
            !s.log[d].erased || KeepsUploaded(s.rank) ==>
              d in s.files && s.files[d].complete.Some? && !s.files[d].uploaded && !Erases(s, d)
  {
    RunKeeps(states);
    assert DirOk(Now(states), d);
    if Erases(Now(states), d) { RetentionSparesTheUnfinished(states, d); }
  }

  // ---- no step is missing ----

  /** The steps of a thread that is somewhere always find the directory they are about. */
  lemma ExecutorFindsItsDirectory(states: seq<State>)
    requires Run(states)
    ensures var s := Now(states);
            && (s.executor.Begun? ==> s.executor.d in s.log)
            && (s.executor.Failing? && s.executor.stage == 0 ==> s.executor.d in s.files)
            && (s.executor.Harvesting? ==> s.executor.tasks != [] && s.executor.tasks[0] in s.log)
  {
    var s := Now(states);
    RunKeeps(states);
    if s.executor.Begun? || s.executor.Failing? { assert DirOk(s, s.executor.d); }
    if s.executor.Harvesting? { assert DirOk(s, s.executor.tasks[0]); }
  }

  lemma StorageFindsItsDirectory(states: seq<State>)
    requires Run(states)
    ensures var s := Now(states);
            && (s.worker.Writing? ==> s.worker.job.dir in s.log)
            && (s.worker.Sealing? || s.worker.Completing? || s.worker.Rejecting? ==> s.worker.d in s.files)
            && (s.worker.Sweeping? ==> s.worker.collected <= s.log.Keys * s.files.Keys)
  {
    var s := Now(states);
    RunKeeps(states);
    if s.worker.Writing? { assert DirOk(s, s.worker.job.dir); }
    if s.worker.Sealing? || s.worker.Completing? || s.worker.Rejecting? { assert DirOk(s, s.worker.d); }
    forall d | s.worker.Sweeping? && d in s.worker.collected ensures d in s.log && d in s.files { assert DirOk(s, d); }
  }

  // ---- the data of a complete directory ----

  /** Complete with this data, unless retention has begun to remove it. */
  ghost predicate Kept(s: State, d: Name, data: Disk)
  {
    && d in s.log && !s.log[d].dropped && Finals(s.log[d].done) == Script(s.log[d].post)
    && (!s.log[d].erased ==>
          && d in s.files && s.files[d].complete == data.complete && data.complete.Some? && s.files[d].rows == data.rows
          && s.files[d].sealed == data.sealed)
    && (d in s.files && s.files[d].complete.Some? ==> s.files[d].complete == data.complete)
  }

  lemma KeptIsFinished(s: State, d: Name, data: Disk)
    requires DirOk(s, d) && Kept(s, d, data)
    ensures !WorkOn(s.worker, d).Writes? && !WorkOn(s.worker, d).Seals? && !HoldOf(s.executor, s.active, d).Dropping?
    ensures !HoldOf(s.executor, s.active, d).Fresh? && !HoldOf(s.executor, s.active, d).Due?
    ensures d in s.files && !s.log[d].erased ==> !s.files[d].failed && !WorkOn(s.worker, d).Rejects?
    ensures s.log[d].erased ==> !WorkOn(s.worker, d).Rejects? && !WorkOn(s.worker, d).Completes?
    ensures var work := WorkOn(s.worker, d); work.Completes? ==> work.stage > 0 && !s.log[d].erased
  {
    if WorkOn(s.worker, d).Writes? { NotFinishedYet(ViewOf(s, d), s.rank, s.uploads); }
  }

  /** Only the directories' disk and the processed jobs matter. */
  lemma KeptBySame(s: State, t: State, d: Name, data: Disk)
    requires Kept(s, d, data) && Get(t.files, d) == Get(s.files, d) && (d in s.log ==> d in t.log)
    requires d in s.log ==>
               t.log[d].done == s.log[d].done && t.log[d].erased == s.log[d].erased && t.log[d].post == s.log[d].post
    requires d in s.log ==> t.log[d].dropped == s.log[d].dropped
    ensures Kept(t, d, data)
  {}

  lemma ExecutorDiskSteps(s: State, step: Step, t: State, d: Name, data: Disk)
    requires DirOk(s, d) && ExecutorOk(s) && ExecutorStep(s, step, t) && Kept(s, d, data)
    requires step.SLeaveBare? || step.SBegin? || step.SFailOp?
    ensures Kept(t, d, data)
  {
    KeptIsFinished(s, d, data);
    hide DirOk, First, Final, AfterFailOp, FailOp, Released, Reserved, Apart, Finals, QueuedFor, Kept, WorkOn;
    KeptBySame(s, t, d, data);
  }

  lemma ExecutorQueueSteps(s: State, step: Step, t: State, d: Name, data: Disk)
    requires DirOk(s, d) && ExecutorStep(s, step, t) && Kept(s, d, data)
    requires step.SEnqueueFirst? || step.SRefuseFirst? || step.SEnqueueFinal? || step.SRefuseFinal?
    ensures Kept(t, d, data)
  {
    KeptIsFinished(s, d, data);
    hide DirOk, First, Final, Finals, Kept, QueuedFor, WorkOn;
    KeptBySame(s, t, d, data);
  }

  lemma ExecutorKeepsData(s: State, step: Step, t: State, d: Name, data: Disk)
    requires DirOk(s, d) && ExecutorOk(s) && ExecutorStep(s, step, t) && Kept(s, d, data)
    ensures Kept(t, d, data)
  {
    hide DirOk, ExecutorOk, First, Final, AfterFailOp, FailOp, Released, Reserved, Finals, Kept;
    if step.SLeaveBare? || step.SBegin? || step.SFailOp? {
      ExecutorDiskSteps(s, step, t, d, data);
    } else if step.SEnqueueFirst? || step.SRefuseFirst? || step.SEnqueueFinal? || step.SRefuseFinal? {
      ExecutorQueueSteps(s, step, t, d, data);
    } else {
      KeptBySame(s, t, d, data);
    }
  }

  lemma StorageDiskSteps(s: State, step: Step, t: State, d: Name, data: Disk)
    requires DirOk(s, d) && StorageStep(s, step, t) && Kept(s, d, data)
    requires step.SReopen? || step.SSpill? || step.SFinish? || step.SSeal? || step.SRejectOp?
    ensures Kept(t, d, data)
  {
    KeptIsFinished(s, d, data);
    hide DirOk, AfterJob, Advanced, ProgressOf, Outcome, Finals, QueuedFor, Kept, FailOp, HoldOf;
    KeptBySame(s, t, d, data);
  }

  lemma StorageKeepsData(s: State, step: Step, t: State, d: Name, data: Disk)
    requires DirOk(s, d) && StorageStep(s, step, t) && Kept(s, d, data)
    ensures Kept(t, d, data)
  {
    if step.SCompleteOp? {
      KeptIsFinished(s, d, data);
      hide DirOk, Finals, HoldOf, QueuedFor;
      assert StorageStep(s, step, t);
    } else {
      hide DirOk, AfterJob, Advanced, ProgressOf, Outcome, Finals, Kept, FailOp;
      if step.SReopen? || step.SSpill? || step.SFinish? || step.SSeal? || step.SRejectOp? {
        StorageDiskSteps(s, step, t, d, data);
      } else {
        KeptBySame(s, t, d, data);
      }
    }
  }

  lemma RemovalKeepsData(s: State, step: Step, t: State, d: Name, data: Disk)
    requires RetentionStep(s, step, t) && Kept(s, d, data) && (step.SRemove? || step.SEraseDone?)
    ensures Kept(t, d, data)
  {
    hide Finals;
  }

  lemma RetentionKeepsData(s: State, step: Step, t: State, d: Name, data: Disk)
    requires RetentionStep(s, step, t) && Kept(s, d, data)
    ensures Kept(t, d, data)
  {
    hide NextProbe, Finals, Kept;
    if step.SRemove? || step.SEraseDone? {
      RemovalKeepsData(s, step, t, d, data);
    } else {
      KeptBySame(s, t, d, data);
    }
  }

  lemma UploadKeepsData(s: State, step: Step, t: State, d: Name, data: Disk)
    requires UploadStep(s, step, t) && Kept(s, d, data)
    ensures Kept(t, d, data)
  {}

  lemma RestartKeepsData(s: State, step: Step, t: State, d: Name, data: Disk)
    requires PhaseOk(s) && RestartStep(s, step, t) && Kept(s, d, data)
    ensures Kept(t, d, data)
  {
    hide AfterRepair;
  }

  lemma StepKeepsData(s: State, t: State, d: Name, data: Disk)
    requires Inv(s) && Next(s, t) && Kept(s, d, data)
    ensures Kept(t, d, data)
  {
    assert DirOk(s, d);
    hide DirOk, SlotsOk, ExecutorOk, WorkerOk, UploaderOk, PhaseOk, Kept, ExecutorStep, StorageStep, RetentionStep,
         UploadStep, RestartStep;
    var step :| Taken(s, step, t);
    if ExecutorStep(s, step, t) { ExecutorKeepsData(s, step, t, d, data); }
    if StorageStep(s, step, t) { StorageKeepsData(s, step, t, d, data); }
    if RetentionStep(s, step, t) { RetentionKeepsData(s, step, t, d, data); }
    if UploadStep(s, step, t) { UploadKeepsData(s, step, t, d, data); }
    if RestartStep(s, step, t) { RestartKeepsData(s, step, t, d, data); }
  }

  /** Once .complete is there, the rows, manifest.sha256 and .complete itself never change again, over any number of
      crashes, until retention begins to remove the directory; and .complete never comes back with another number. */
  lemma {:induction false} CompleteDataNeverChanges(states: seq<State>, i: nat, d: Name)
    requires Run(states) && i < |states| && d in states[i].files && states[i].files[d].complete.Some?
    ensures Kept(Now(states), d, states[i].files[d])
    decreases states, 1
  {
    if i == |states| - 1 {
      RunKeeps(states);
      assert DirOk(Now(states), d);
      CompleteIsKept(Now(states), d);
    } else {
      ShorterRun(states);
      KeptByRun(states, i, d);
    }
  }

  lemma CompleteIsKept(s: State, d: Name)
    requires DirOk(s, d) && d in s.files && s.files[d].complete.Some?
    ensures Kept(s, d, s.files[d])
  {}

  lemma {:induction false} KeptByRun(states: seq<State>, i: nat, d: Name)
    requires Run(states) && i < |states| - 1 && d in states[i].files && states[i].files[d].complete.Some?
    requires Run(states[..|states| - 1]) && Next(states[|states| - 2], states[|states| - 1])
    ensures Kept(Now(states), d, states[i].files[d])
    decreases states, 0
  {
    hide Next, Kept, Run, Inv;
    var front := states[..|states| - 1];
    CompleteDataNeverChanges(front, i, d);
    RunKeeps(front);
    StepKeepsData(states[|states| - 2], states[|states| - 1], d, states[i].files[d]);
  }
}
