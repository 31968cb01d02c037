/**
 The calls of EventCapture and StorageJob are sequences of the event store's single steps, whichever file operations
 fail: what the classes are proved to do is what the event store's threads do.
 */
module EventStoreCalls {
  import opened Prelude
  import opened EventStore
  import opened EventCapture
  import opened StorageJob

  /** These steps, one after the other, lead from s to t. */
  ghost predicate Reaches(s: State, steps: seq<Step>, t: State)
    decreases |steps|, 1
  {
    if steps == [] then t == s else exists u :: Via(s, steps, u, t)
  }

  ghost predicate Via(s: State, steps: seq<Step>, u: State, t: State)
    requires steps != []
    decreases |steps|, 0
  {
    Reaches(s, steps[..|steps| - 1], u) && Taken(u, steps[|steps| - 1], t)
  }

  lemma Here(s: State)
    ensures Reaches(s, [], s)
  {
  }

  lemma OneStep(s: State, steps: seq<Step>, t: State, step: Step, u: State)
    requires Reaches(s, steps, t) && Taken(t, step, u)
    ensures Reaches(s, steps + [step], u)
  {
    hide Taken;
    assert (steps + [step])[..|steps|] == steps;
    assert Via(s, steps + [step], t, u);
  }

  /** So what the calls do is part of a run, of which all theorems about the event store speak. */
  lemma {:induction false} CallsAreInRuns(states: seq<State>, steps: seq<Step>, t: State) returns (longer: seq<State>)
    requires Run(states) && Reaches(states[|states| - 1], steps, t)
    ensures Run(longer) && longer[|longer| - 1] == t && states <= longer
  {
    if steps == [] {
      longer := states;
    } else {
      hide Taken, Init;
      var u :| Via(states[|states| - 1], steps, u, t);
      var before := CallsAreInRuns(states, steps[..|steps| - 1], u);
      longer := Onward(before, steps[|steps| - 1], t);
    }
  }

  lemma Onward(states: seq<State>, step: Step, t: State) returns (longer: seq<State>)
    requires Run(states) && Taken(states[|states| - 1], step, t)
    ensures Run(longer) && longer == states + [t]
  {
    assert Next(states[|states| - 1], t);
    hide Taken, Init, Next;
    longer := states + [t];
    forall i | 0 < i < |longer| ensures Follows(longer, i) {
      if i < |states| { assert Follows(states, i); }
    }
  }

  // ---- the marker calls ----

  function WithDisk(s: State, d: Name, disk: Disk): State { s.(files := s.files[d := disk]) }

  /** One call's three operations, as far as it gets; without its marker it removes nothing. */
  function Tries(w: Works, ok: Step, failed: Step): seq<Step>
  {
    if !w.written then [failed] else [ok, if w.removed1 then ok else failed, if w.removed2 then ok else failed]
  }

  /** Where the storage thread is with a directory's decision. */
  function RejectingAt(s: State, d: Name, disk: Disk, stage: nat): State
  {
    WithDisk(s, d, disk).(worker := Rejecting(d, stage))
  }

  lemma RejectOne(start: State, steps: seq<Step>, s: State, d: Name, disk: Disk, stage: nat, works: bool)
    requires s.phase.Running? && stage <= 2 && Reaches(start, steps, RejectingAt(s, d, disk, stage))
    ensures works ==> Reaches(start, steps + [SRejectOp], RejectingAt(s, d, FailOp(disk, stage), stage + 1))
    ensures !works ==> Reaches(start, steps + [SRejectOpFailed],
                               RejectingAt(s, d, disk, if stage == 0 then 3 else stage + 1))
  {
    hide ExecutorStep, RetentionStep, UploadStep, RestartStep, Reaches, FailOp;
    var t := RejectingAt(s, d, disk, stage);
    if works {
      var u := RejectingAt(s, d, FailOp(disk, stage), stage + 1);
      UpdateTwice(s.files, d, disk, FailOp(disk, stage));
      OneStep(start, steps, t, SRejectOp, u);
    } else {
      OneStep(start, steps, t, SRejectOpFailed, RejectingAt(s, d, disk, if stage == 0 then 3 else stage + 1));
    }
  }

  /** event_state::fail on the storage thread: its operations, of which those fail that w says. */
  lemma RejectCallIsSteps(start: State, steps: seq<Step>, s: State, d: Name, disk: Disk, w: Works)
    requires s.phase.Running? && Reaches(start, steps, RejectingAt(s, d, disk, 0))
    ensures Reaches(start, steps + Tries(w, SRejectOp, SRejectOpFailed), RejectingAt(s, d, FailedDisk(disk, w), 3))
  {
    hide Reaches;
    RejectOne(start, steps, s, d, disk, 0, w.written);
    if w.written {
      var put := FailOp(disk, 0);
      var one := steps + [SRejectOp];
      RejectOne(start, one, s, d, put, 1, w.removed1);
      var two := one + [if w.removed1 then SRejectOp else SRejectOpFailed];
      RejectOne(start, two, s, d, Tried(put, w.removed1, Pending), 2, w.removed2);
      assert two + [if w.removed2 then SRejectOp else SRejectOpFailed] == steps + Tries(w, SRejectOp, SRejectOpFailed);
    }
  }

  function CompletingAt(s: State, d: Name, disk: Disk, n: nat, stage: nat): State
  {
    WithDisk(s, d, disk).(worker := Completing(d, n, stage))
  }

  lemma CompleteOne(start: State, steps: seq<Step>, s: State, d: Name, disk: Disk, n: nat, stage: nat, works: bool)
    requires s.phase.Running? && stage <= 2 && Reaches(start, steps, CompletingAt(s, d, disk, n, stage))
    ensures works ==>
              Reaches(start, steps + [SCompleteOp], CompletingAt(s, d, CompleteOp(disk, n, stage), n, stage + 1))
    ensures !works ==>
              Reaches(start, steps + [SCompleteOpFailed],
                      if stage > 0 then CompletingAt(s, d, disk, n, stage + 1) else RejectingAt(s, d, disk, 0))
  {
    hide ExecutorStep, RetentionStep, UploadStep, RestartStep, Reaches, CompleteOp;
    var t := CompletingAt(s, d, disk, n, stage);
    if works {
      UpdateTwice(s.files, d, disk, CompleteOp(disk, n, stage));
      OneStep(start, steps, t, SCompleteOp, CompletingAt(s, d, CompleteOp(disk, n, stage), n, stage + 1));
    } else {
      OneStep(start, steps, t, SCompleteOpFailed,
              if stage > 0 then CompletingAt(s, d, disk, n, stage + 1) else RejectingAt(s, d, disk, 0));
    }
  }

  /** event_state::complete on the storage thread, and fail when .complete cannot be written. */
  function CompleteSteps(w: Works, fail: Works): seq<Step>
  {
    Tries(w, SCompleteOp, SCompleteOpFailed) + if w.written then [] else Tries(fail, SRejectOp, SRejectOpFailed)
  }

  lemma CompleteCallIsSteps(start: State, steps: seq<Step>, s: State, d: Name, disk: Disk, n: nat, w: Works,
                            fail: Works)
    requires s.phase.Running? && Reaches(start, steps, CompletingAt(s, d, disk, n, 0))
    ensures Reaches(start, steps + CompleteSteps(w, fail),
                    if w.written then CompletingAt(s, d, CompletedDisk(disk, n, w), n, 3)
                    else RejectingAt(s, d, FailedDisk(disk, fail), 3))
  {
    hide Reaches;
    CompleteOne(start, steps, s, d, disk, n, 0, w.written);
    if w.written {
      var put := CompleteOp(disk, n, 0);
      var one := steps + [SCompleteOp];
      CompleteOne(start, one, s, d, put, n, 1, w.removed1);
      var two := one + [if w.removed1 then SCompleteOp else SCompleteOpFailed];
      CompleteOne(start, two, s, d, Tried(put, w.removed1, Pending), n, 2, w.removed2);
      assert two + [if w.removed2 then SCompleteOp else SCompleteOpFailed] == steps + CompleteSteps(w, fail);
    } else {
      RejectCallIsSteps(start, steps + [SCompleteOpFailed], s, d, disk, fail);
      assert steps + [SCompleteOpFailed] + Tries(fail, SRejectOp, SRejectOpFailed) == steps + CompleteSteps(w, fail);
    }
  }

  // ---- the storage thread's accounting ----

  /** How a directory is decided: rejected, or sealed and completed, as far as the operations work. */
  function DecisionSteps(p: Progress, checksums: bool, complete: Works, fail: Works): seq<Step>
  {
    if p.failed || p.persisted == 0 then Tries(fail, SRejectOp, SRejectOpFailed)
    else if !checksums then [SSealFailed] + Tries(fail, SRejectOp, SRejectOpFailed)
    else [SSeal] + CompleteSteps(complete, fail)
  }

  /** The directory's decision from the end of its last job on: StorageThread.Account's, step by step. */
  lemma DecisionIsSteps(start: State, steps: seq<Step>, s: State, d: Name, disk: Disk, p: Progress, checksums: bool,
                        complete: Works, fail: Works)
    requires s.phase.Running? && Reaches(start, steps, WithDisk(s, d, disk).(worker := AfterJob(Job(d, true), p)))
    ensures var decided := WithDisk(s, d, DecidedDisk(Summed(disk, p, checksums), p, checksums, complete, fail));
            Reaches(start, steps + DecisionSteps(p, checksums, complete, fail) + [SClose],
                    decided.(progress := s.progress - {d}, worker := Waiting))
  {
    hide Reaches, FailedDisk, CompletedDisk, Tries, CompleteSteps;
    var decided := DecidedDisk(Summed(disk, p, checksums), p, checksums, complete, fail);
    var all := steps + DecisionSteps(p, checksums, complete, fail);
    if p.failed || p.persisted == 0 {
      RejectCallIsSteps(start, steps, s, d, disk, fail);
      Closed(start, all, s, d, decided, Rejecting(d, 3));
    } else {
      SealedOrNot(start, steps, s, d, disk, p.persisted, checksums);
      if !checksums {
        RejectCallIsSteps(start, steps + [SSealFailed], s, d, disk, fail);
        assert steps + [SSealFailed] + Tries(fail, SRejectOp, SRejectOpFailed) == all;
        Closed(start, all, s, d, decided, Rejecting(d, 3));
      } else {
        CompleteCallIsSteps(start, steps + [SSeal], s, d, disk.(sealed := true), p.persisted, complete, fail);
        assert steps + [SSeal] + CompleteSteps(complete, fail) == all;
        Closed(start, all, s, d, decided, if complete.written then Completing(d, p.persisted, 3) else Rejecting(d, 3));
      }
    }
  }

  lemma SealedOrNot(start: State, steps: seq<Step>, s: State, d: Name, disk: Disk, n: nat, checksums: bool)
    requires s.phase.Running? && Reaches(start, steps, WithDisk(s, d, disk).(worker := Sealing(d, n)))
    ensures checksums ==> Reaches(start, steps + [SSeal], CompletingAt(s, d, disk.(sealed := true), n, 0))
    ensures !checksums ==> Reaches(start, steps + [SSealFailed], RejectingAt(s, d, disk, 0))
  {
    hide ExecutorStep, RetentionStep, UploadStep, RestartStep, Reaches;
    var t := WithDisk(s, d, disk).(worker := Sealing(d, n));
    if checksums {
      UpdateTwice(s.files, d, disk, disk.(sealed := true));
      OneStep(start, steps, t, SSeal, CompletingAt(s, d, disk.(sealed := true), n, 0));
    } else {
      OneStep(start, steps, t, SSealFailed, RejectingAt(s, d, disk, 0));
    }
  }

  lemma Closed(start: State, steps: seq<Step>, s: State, d: Name, disk: Disk, worker: Worker)
    requires s.phase.Running? && Reaches(start, steps, WithDisk(s, d, disk).(worker := worker))
    requires (worker.Completing? || worker.Rejecting?) && worker.d == d && worker.stage == 3
    ensures Reaches(start, steps + [SClose], WithDisk(s, d, disk).(progress := s.progress - {d}, worker := Waiting))
  {
    hide ExecutorStep, RetentionStep, UploadStep, RestartStep, Reaches;
    OneStep(start, steps, WithDisk(s, d, disk).(worker := worker), SClose,
            WithDisk(s, d, disk).(progress := s.progress - {d}, worker := Waiting));
  }

  lemma FinishIsStep(s: State, flushed: bool, threw: bool)
    requires CanFinish(s, flushed)
    ensures Reaches(s, [SFinish(flushed, threw)], Finish(s, flushed, threw))
  {
    Here(s);
    hide ExecutorStep, RetentionStep, UploadStep, RestartStep, Reaches, Outcome, Advanced, AfterJob;
    assert [] + [SFinish(flushed, threw)] == [SFinish(flushed, threw)];
    OneStep(s, [], s, SFinish(flushed, threw), Finish(s, flushed, threw));
  }

  /** One turn of the storage thread's loop after writeJob: what StorageThread.Account is proved to do to progress and
      directories, by just these steps of the event store, of which those fail that its parameters say. */
  lemma AccountIsSteps(s: State, flushed: bool, threw: bool, checksums: bool, complete: Works, fail: Works)
    requires CanFinish(s, flushed) && s.worker.job.dir in s.files
    ensures var job, done := s.worker.job, Outcome(s.worker, flushed, threw);
            var p := Advanced(ProgressOf(s.progress, job.dir), done);
            var (progress, files) := Accounted(s.progress, s.files, job, done, checksums, complete, fail);
            var log := s.log[job.dir := s.log[job.dir].(done := s.log[job.dir].done + [done])];
            Reaches(s, [SFinish(flushed, threw)]
                       + if job.final then DecisionSteps(p, checksums, complete, fail) + [SClose] else [],
                    s.(log := log, progress := progress, files := files, worker := Waiting))
  {
    var job, t := s.worker.job, Finish(s, flushed, threw);
    var p := t.progress[job.dir];
    var first := [SFinish(flushed, threw)];
    assert first + [] == first;
    hide ExecutorStep, StorageStep, RetentionStep, UploadStep, RestartStep, Reaches, DecidedDisk, DecisionSteps, Summed;
    FinishIsStep(s, flushed, threw);
    if job.final {
      assert WithDisk(t, job.dir, s.files[job.dir]) == t;
      assert Job(job.dir, true) == job;
      DecisionIsSteps(s, first, t, job.dir, s.files[job.dir], p, checksums, complete, fail);
      assert t.progress - {job.dir} == s.progress - {job.dir};
      assert first + DecisionSteps(p, checksums, complete, fail) + [SClose]
          == first + (DecisionSteps(p, checksums, complete, fail) + [SClose]);
    }
  }

  // ---- reconciliation ----

  function RepairingAt(s: State, d: Name, disk: Disk, stage: nat, clean: bool): State
    requires s.phase.Reconciling?
  {
    WithDisk(s, d, disk).(phase := s.phase.(todo := s.phase.todo - {d}, at := Some(d), stage := stage, clean := clean))
  }

  /** After a directory: the phase as it was, with one less to do. */
  function PassedAt(s: State, d: Name, disk: Disk, stage: nat, clean: bool): State
    requires s.phase.Reconciling?
  {
    WithDisk(s, d, disk).(phase := s.phase.(todo := s.phase.todo - {d}, stage := stage, clean := clean))
  }

  lemma RepairOne(start: State, steps: seq<Step>, s: State, d: Name, disk: Disk, stage: nat, clean: bool, works: bool)
    requires s.phase.Reconciling? && s.phase.at.None? && stage <= 2
    requires Reaches(start, steps, RepairingAt(s, d, disk, stage, clean))
    ensures var after := if works then FailOp(disk, stage) else disk;
            Reaches(start, steps + [if works then SRepair else SRepairFailed],
                    if stage == 2 || (stage == 0 && !works) then PassedAt(s, d, after, stage + 1, clean && works)
                    else RepairingAt(s, d, after, stage + 1, clean && works))
  {
    hide ExecutorStep, StorageStep, RetentionStep, UploadStep, Reaches, FailOp;
    var t, after := RepairingAt(s, d, disk, stage, clean), if works then FailOp(disk, stage) else disk;
    UpdateTwice(s.files, d, disk, after);
    OneStep(start, steps, t, if works then SRepair else SRepairFailed,
            if stage == 2 || (stage == 0 && !works) then PassedAt(s, d, after, stage + 1, clean && works)
            else RepairingAt(s, d, after, stage + 1, clean && works));
  }

  /** What reconcile does with one directory. */
  function VisitSteps(d: Name, disk: Disk, w: Works): seq<Step>
  {
    if !disk.pending then [SVisitPast(d)]
    else if Decided(disk) then [if w.removed1 then SVisitDecided(d) else SVisitPast(d)]
    else [SVisitUndecided(d)] + Tries(w, SRepair, SRepairFailed)
  }

  /** Whether nothing went wrong with it. */
  predicate VisitClean(disk: Disk, w: Works)
  {
    disk.pending ==> if Decided(disk) then w.removed1 else w.written && w.removed1 && w.removed2
  }

  lemma RepairIsSteps(start: State, steps: seq<Step>, s: State, d: Name, disk: Disk, clean: bool, w: Works)
    returns (stage: nat)
    requires s.phase.Reconciling? && s.phase.at.None? && Reaches(start, steps, RepairingAt(s, d, disk, 0, clean))
    ensures Reaches(start, steps + Tries(w, SRepair, SRepairFailed),
                    PassedAt(s, d, FailedDisk(disk, w), stage, clean && w.written && w.removed1 && w.removed2))
  {
    hide Reaches;
    RepairOne(start, steps, s, d, disk, 0, clean, w.written);
    stage := 1;
    if w.written {
      var put := FailOp(disk, 0);
      var one := steps + [SRepair];
      RepairOne(start, one, s, d, put, 1, clean, w.removed1);
      var two := one + [if w.removed1 then SRepair else SRepairFailed];
      RepairOne(start, two, s, d, Tried(put, w.removed1, Pending), 2, clean && w.removed1, w.removed2);
      assert two + [if w.removed2 then SRepair else SRepairFailed] == steps + Tries(w, SRepair, SRepairFailed);
      stage := 3;
    }
  }

  lemma VisitIsSteps(start: State, steps: seq<Step>, s: State, d: Name, w: Works) returns (t: State)
    requires s.phase.Reconciling? && s.phase.at.None? && d in s.phase.todo && d in s.files && Reaches(start, steps, s)
    ensures Reaches(start, steps + VisitSteps(d, s.files[d], w), t) && t.phase.Reconciling? && t.phase.at.None?
    ensures t == WithDisk(s, d, ReconciledDisk(s.files[d], w)).(phase := t.phase)
    ensures t.phase.todo == s.phase.todo - {d} && (t.phase.clean <==> s.phase.clean && VisitClean(s.files[d], w))
  {
    var disk := s.files[d];
    assert s.files == s.files[d := disk];
    hide ExecutorStep, StorageStep, RetentionStep, UploadStep, RestartStep, Reaches, Tries, FailedDisk;
    if !disk.pending || (Decided(disk) && !w.removed1) {
      t := VisitPast(s, d);
      PastIsStep(start, steps, s, d);
    } else if Decided(disk) {
      t := VisitDecided(s, d);
      DecidedIsStep(start, steps, s, d);
    } else {
      t := UndecidedIsSteps(start, steps, s, d, w);
    }
  }

  lemma PastIsStep(start: State, steps: seq<Step>, s: State, d: Name)
    requires CanVisit(s, d) && (s.files[d].pending ==> Decided(s.files[d])) && Reaches(start, steps, s)
    ensures Reaches(start, steps + [SVisitPast(d)], VisitPast(s, d))
  {
    hide ExecutorStep, StorageStep, RetentionStep, UploadStep, Reaches;
    OneStep(start, steps, s, SVisitPast(d), VisitPast(s, d));
  }

  lemma DecidedIsStep(start: State, steps: seq<Step>, s: State, d: Name)
    requires CanVisit(s, d) && s.files[d].pending && Decided(s.files[d]) && Reaches(start, steps, s)
    ensures Reaches(start, steps + [SVisitDecided(d)], VisitDecided(s, d))
  {
    hide ExecutorStep, StorageStep, RetentionStep, UploadStep, Reaches;
    OneStep(start, steps, s, SVisitDecided(d), VisitDecided(s, d));
  }

  lemma UndecidedIsSteps(start: State, steps: seq<Step>, s: State, d: Name, w: Works) returns (t: State)
    requires s.phase.Reconciling? && s.phase.at.None? && d in s.phase.todo && d in s.files && Reaches(start, steps, s)
    requires s.files[d].pending && !Decided(s.files[d])
    ensures Reaches(start, steps + VisitSteps(d, s.files[d], w), t) && t.phase.Reconciling? && t.phase.at.None?
    ensures t == WithDisk(s, d, FailedDisk(s.files[d], w)).(phase := t.phase) && t.phase.todo == s.phase.todo - {d}
    ensures t.phase.clean <==> s.phase.clean && w.written && w.removed1 && w.removed2
  {
    var disk, clean := s.files[d], s.phase.clean;
    assert s.files == s.files[d := disk];
    hide ExecutorStep, StorageStep, RetentionStep, UploadStep, Reaches, Tries, FailedDisk;
    OneStep(start, steps, s, SVisitUndecided(d), VisitUndecided(s, d));
    assert VisitUndecided(s, d) == RepairingAt(s, d, disk, 0, clean);
    hide RestartStep;
    var stage := RepairIsSteps(start, steps + [SVisitUndecided(d)], s, d, disk, clean, w);
    t := PassedAt(s, d, FailedDisk(disk, w), stage, clean && w.written && w.removed1 && w.removed2);
    assert steps + [SVisitUndecided(d)] + Tries(w, SRepair, SRepairFailed) == steps + VisitSteps(d, disk, w);
  }

  function ReconcileSteps(order: seq<Name>, files: map<Name, Disk>, works: map<Name, Works>): seq<Step>
    requires Workable(order, files, works)
  {
    if order == [] then []
    else
      var n := |order| - 1;
      ReconcileSteps(order[..n], files, works) + VisitSteps(order[n], files[order[n]], works[order[n]])
  }

  /** The listed directories are reconciled and done with, nothing else has changed, and it counts as clean exactly when
      nothing went wrong with any. */
  ghost predicate Restored(s: State, order: seq<Name>, works: map<Name, Works>, t: State)
    requires s.phase.Reconciling? && Workable(order, s.files, works)
  {
    && ReconciledAll(order, s.files, t.files, works)
    && t == s.(files := t.files, phase := t.phase) && t.phase.Reconciling? && t.phase.at.None?
    && t.phase.todo == s.phase.todo - Names(order)
    && (t.phase.clean <==> s.phase.clean && forall d :: d in order ==> VisitClean(s.files[d], works[d]))
  }

  lemma OneMoreRestored(s: State, order: seq<Name>, works: map<Name, Works>, u: State, t: State)
    requires s.phase.Reconciling? && Workable(order, s.files, works) && Distinct(order) && order != []
    requires var front, d := order[..|order| - 1], order[|order| - 1];
             && Workable(front, s.files, works) && Restored(s, front, works, u) && d in u.files
             && t == WithDisk(u, d, ReconciledDisk(u.files[d], works[d])).(phase := t.phase)
             && t.phase.Reconciling? && t.phase.at.None? && t.phase.todo == u.phase.todo - {d}
             && (t.phase.clean <==> u.phase.clean && VisitClean(u.files[d], works[d]))
    ensures Restored(s, order, works, t)
  {
    var n := |order| - 1;
    assert order[..n + 1] == order && order == order[..n] + [order[n]];
    NextReconciled(order, n, s.files, u.files, works);
    hide ReconciledAll, ReconciledDisk, VisitClean, Distinct;
    assert Names(order) == Names(order[..n]) + {order[n]};
    assert forall e :: e in order <==> e in order[..n] || e == order[n];
  }

  /** reconcile: what RecordStore.Reconcile is proved to do, by just these steps of the event store's restart, directory
      by directory. */
  lemma {:induction false} ReconcileIsSteps(s: State, order: seq<Name>, works: map<Name, Works>) returns (t: State)
    requires s.phase.Reconciling? && s.phase.at.None? && Distinct(order) && Names(order) <= s.phase.todo
    requires Workable(order, s.files, works)
    ensures Reaches(s, ReconcileSteps(order, s.files, works), t) && Restored(s, order, works, t)
  {
    if order == [] {
      t := s;
      Here(s);
    } else {
      var front, d := order[..|order| - 1], order[|order| - 1];
      hide Reaches, VisitClean, ReconciledDisk, VisitSteps;
      var u := ReconcileIsSteps(s, front, works);
      LastUntouched(s, order, works, u);
      hide Restored, ReconciledAll;
      t := VisitIsSteps(s, ReconcileSteps(front, s.files, works), u, d, works[d]);
      OneMoreRestored(s, order, works, u, t);
    }
  }

  lemma LastUntouched(s: State, order: seq<Name>, works: map<Name, Works>, u: State)
    requires s.phase.Reconciling? && order != [] && Distinct(order) && Names(order) <= s.phase.todo
    requires Workable(order, s.files, works)
    requires Restored(s, order[..|order| - 1], works, u)
    ensures var d := order[|order| - 1];
            && d in u.files && u.files[d] == s.files[d] && d in u.phase.todo && u.phase.Reconciling? && u.phase.at.None?
  {
    hide ReconciledDisk, VisitClean;
    assert order[|order| - 1] in order && order[|order| - 1] !in order[..|order| - 1];
  }

  // ---- the executor's calls ----

  function FailingAt(s: State, d: Name, disk: Disk, stage: nat, rest: seq<Name>): State
  {
    WithDisk(s, d, disk).(executor := Failing(d, stage, rest))
  }

  function Past(s: State, d: Name, disk: Disk, rest: seq<Name>): State
  {
    WithDisk(s, d, disk).(executor := AfterTask(rest))
  }

  lemma FailOne(start: State, steps: seq<Step>, s: State, d: Name, disk: Disk, stage: nat, rest: seq<Name>, works: bool)
    requires s.phase.Running? && stage <= 2 && Reaches(start, steps, FailingAt(s, d, disk, stage, rest))
    ensures var after := if works then FailOp(disk, stage) else disk;
            Reaches(start, steps + [if works then SFailOp else SFailOpSkipped(false)],
                    if stage == 2 || (stage == 0 && !works) then Past(s, d, after, rest)
                    else FailingAt(s, d, after, stage + 1, rest))
  {
    hide StorageStep, RetentionStep, UploadStep, RestartStep, Reaches, FailOp, AfterTask;
    var t, after := FailingAt(s, d, disk, stage, rest), if works then FailOp(disk, stage) else disk;
    UpdateTwice(s.files, d, disk, after);
    OneStep(start, steps, t, if works then SFailOp else SFailOpSkipped(false),
            if stage == 2 || (stage == 0 && !works) then Past(s, d, after, rest)
            else FailingAt(s, d, after, stage + 1, rest));
  }

  /** event_state::fail on the executor. */
  lemma FailCallIsSteps(start: State, steps: seq<Step>, s: State, d: Name, disk: Disk, rest: seq<Name>, w: Works)
    requires s.phase.Running? && Reaches(start, steps, FailingAt(s, d, disk, 0, rest))
    ensures Reaches(start, steps + Tries(w, SFailOp, SFailOpSkipped(false)), Past(s, d, FailedDisk(disk, w), rest))
  {
    hide Reaches, AfterTask;
    FailOne(start, steps, s, d, disk, 0, rest, w.written);
    if w.written {
      var put := FailOp(disk, 0);
      var one := steps + [SFailOp];
      FailOne(start, one, s, d, put, 1, rest, w.removed1);
      var two := one + [if w.removed1 then SFailOp else SFailOpSkipped(false)];
      FailOne(start, two, s, d, Tried(put, w.removed1, Pending), 2, rest, w.removed2);
      assert two + [if w.removed2 then SFailOp else SFailOpSkipped(false)]
          == steps + Tries(w, SFailOp, SFailOpSkipped(false));
    }
  }

  /** Rejected before .pending: the slot is given back; made says whether the directory was left behind. */
  lemma RejectionIsSteps(s: State, d: Name, post: bool, made: bool)
    requires CanReserve(s, d) && (made && post ==> |s.active| < s.maxActive)
    ensures Reaches(s, [SReserve(d, post), if made then SLeaveBare else SRefuse, SRelease],
                    if made then WithDisk(s, d, Bare) else s)
  {
    Here(s);
    hide StorageStep, RetentionStep, UploadStep, RestartStep, Reaches;
    var t := Reserve(s, d, post);
    OneStep(s, [], s, SReserve(d, post), t);
    var u, how := if made then LeaveBare(t) else Refuse(t), if made then SLeaveBare else SRefuse;
    OneStep(s, [] + [SReserve(d, post)], t, how, u);
    OneStep(s, [] + [SReserve(d, post)] + [how], u, SRelease, if made then WithDisk(s, d, Bare) else s);
    assert [] + [SReserve(d, post)] + [how] + [SRelease] == [SReserve(d, post), how, SRelease];
  }

  /** Begun: in the log, pending on disk, and an active capture when there is a post window. */
  function BegunAt(s: State, d: Name, post: bool): State
    requires CanReserve(s, d)
  {
    Begin(Reserve(s, d, post))
  }

  lemma BegunIsSteps(s: State, d: Name, post: bool)
    requires CanReserve(s, d) && (post ==> |s.active| < s.maxActive)
    ensures Reaches(s, [SReserve(d, post), SBegin], BegunAt(s, d, post))
  {
    Here(s);
    hide StorageStep, RetentionStep, UploadStep, RestartStep, Reaches;
    var t := Reserve(s, d, post);
    OneStep(s, [], s, SReserve(d, post), t);
    OneStep(s, [] + [SReserve(d, post)], t, SBegin, Begin(t));
    assert [] + [SReserve(d, post)] + [SBegin] == [SReserve(d, post), SBegin];
  }

  /** What a monitor shares with the storage thread in this state. */
  function SharedOf(s: State): Shared { Shared(s.queue, s.active, s.maxActive, s.files) }

  /** Between two calls, with nothing changed that is the other threads' own. */
  ghost predicate CallDone(s: State, t: State)
  {
    && t.executor.Idle? && t.worker == s.worker && t.uploader == s.uploader && t.progress == s.progress
    && t.phase == s.phase
  }

  /** The steps of a call that is accepted, refused with its first batch, or rejected before .pending. */
  function RecordSteps(s: State, d: Name, post: bool, made: bool, written: bool, accepted: bool, w: Works): seq<Step>
  {
    var full := post && |s.active| >= s.maxActive;
    if !Reserved(s.queue).1 then []
    else if full || !written then [SReserve(d, post), if made && !full then SLeaveBare else SRefuse, SRelease]
    else [SReserve(d, post), SBegin]
         + if accepted then [SEnqueueFirst]
           else [SRefuseFirst, SRelease] + Tries(w, SFailOp, SFailOpSkipped(false))
  }

  /** recordDataAroundEventDetailed from the reservation on: what EventMonitor.RecordEvent is proved to do while the
      storage thread stands still, on every path, by steps of the event store. */
  lemma RecordEventIsSteps(s: State, d: Name, post: bool, made: bool, written: bool, w: Works)
    returns (t: State, accepted: bool)
    requires s.phase.Running? && s.executor.Idle? && !s.queue.stopping && d !in s.files && d !in s.log && d !in s.active
    requires written ==> made
    ensures Reaches(s, RecordSteps(s, d, post, made, written, accepted, w), t) && CallDone(s, t)
    ensures Recorded(SharedOf(s), SharedOf(t), accepted, d, post, 0, made, written, w)
  {
    Here(s);
    hide Reaches;
    if !Reserved(s.queue).1 {
      t, accepted := s, false;
    } else if (post && |s.active| >= s.maxActive) || !written {
      var left := made && !(post && |s.active| >= s.maxActive);
      t, accepted := if left then WithDisk(s, d, Bare) else s, false;
      RejectionIsSteps(s, d, post, left);
    } else {
      t, accepted := FirstIsSteps(s, d, post, w);
    }
  }

  lemma FirstIsSteps(s: State, d: Name, post: bool, w: Works) returns (t: State, accepted: bool)
    requires CanReserve(s, d) && d !in s.active && (post ==> |s.active| < s.maxActive)
    ensures Reaches(s, RecordSteps(s, d, post, true, true, accepted, w), t) && CallDone(s, t)
    ensures Recorded(SharedOf(s), SharedOf(t), accepted, d, post, 0, true, true, w)
  {
    hide StorageStep, RetentionStep, UploadStep, RestartStep, Reaches, Tries;
    BegunIsSteps(s, d, post);
    var b := BegunAt(s, d, post);
    if First(b).1 {
      t, accepted := EnqueueFirst(b), true;
      OneStep(s, [SReserve(d, post), SBegin], b, SEnqueueFirst, t);
    } else {
      t, accepted := RefusedIsSteps(s, d, post, w);
    }
  }

  /** The refused first batch of a capture: the slot goes back, and the event has failed. */
  lemma RefusedIsSteps(s: State, d: Name, post: bool, w: Works) returns (t: State, accepted: bool)
    requires CanReserve(s, d) && d !in s.active && (post ==> |s.active| < s.maxActive)
    requires Reaches(s, [SReserve(d, post), SBegin], BegunAt(s, d, post)) && !First(BegunAt(s, d, post)).1
    ensures Reaches(s, RecordSteps(s, d, post, true, true, accepted, w), t) && CallDone(s, t)
    ensures Recorded(SharedOf(s), SharedOf(t), accepted, d, post, 0, true, true, w)
  {
    hide StorageStep, RetentionStep, UploadStep, RestartStep, Reaches, FailedDisk, Tries;
    var b := BegunAt(s, d, post);
    var r, disk := RefuseFirst(b), Put(Bare, Pending);
    var two := [SReserve(d, post), SBegin];
    OneStep(s, two, b, SRefuseFirst, r);
    OneStep(s, two + [SRefuseFirst], r, SRelease, Release(r));
    assert FailingAt(Release(r), d, disk, 0, []) == Release(r);
    var four := two + [SRefuseFirst] + [SRelease];
    FailCallIsSteps(s, four, Release(r), d, disk, [], w);
    t, accepted := Past(Release(r), d, FailedDisk(disk, w), []), false;
    assert four + Tries(w, SFailOp, SFailOpSkipped(false)) == RecordSteps(s, d, post, true, true, false, w);
    UpdateTwice(s.files, d, disk, FailedDisk(disk, w));
    assert s.active + {d} - {d} == s.active;
  }

  lemma {:induction false} HandOver(start: State, steps: seq<Step>, s: State, tasks: seq<Name>) returns (t: State)
    requires s.phase.Running? && !s.queue.stopping && s.queue.reserved >= |tasks| && s.executor == AfterTask(tasks)
    requires Reaches(start, steps, s) && forall d :: d in tasks ==> d in s.log
    ensures Reaches(start, steps + seq(|tasks|, _ => SEnqueueFinal), t)
    ensures t.executor.Idle? && t.worker == s.worker && t.uploader == s.uploader && t.progress == s.progress
    ensures t.phase == s.phase && t.files == s.files && t.active == s.active && t.maxActive == s.maxActive
    ensures t.queue == s.queue.(jobs := s.queue.jobs + LastJobs(tasks), reserved := s.queue.reserved - |tasks|)
    decreases |tasks|
  {
    hide StorageStep, RetentionStep, UploadStep, RestartStep, Reaches;
    if tasks == [] {
      t := s;
      assert s.queue.jobs + LastJobs(tasks) == s.queue.jobs;
      assert steps + seq(|tasks|, _ => SEnqueueFinal) == steps;
    } else {
      var u := EnqueueFinal(s);
      OneStep(start, steps, s, SEnqueueFinal, u);
      assert tasks == [tasks[0]] + tasks[1..];
      t := HandOver(start, steps + [SEnqueueFinal], u, tasks[1..]);
      assert steps + [SEnqueueFinal] + seq(|tasks[1..]|, _ => SEnqueueFinal)
          == steps + seq(|tasks|, _ => SEnqueueFinal);
      assert LastJobs(tasks) == [Job(tasks[0], true)] + LastJobs(tasks[1..]);
      assert s.queue.jobs + LastJobs(tasks) == (s.queue.jobs + [Job(tasks[0], true)]) + LastJobs(tasks[1..]);
    }
  }

  /** processExpiredCaptures: what EventMonitor.ProcessExpired is proved to do, by steps of the event store; no last
      batch is refused. */
  lemma ProcessExpiredIsSteps(s: State, tasks: seq<Name>) returns (t: State)
    requires s.phase.Running? && s.executor.Idle? && !s.queue.stopping && Distinct(tasks) && s.queue.reserved >= |tasks|
    requires forall d :: d in tasks ==> d in s.active && d in s.log
    ensures Reaches(s, if tasks == [] then [] else [SHarvest(tasks)] + seq(|tasks|, _ => SEnqueueFinal), t)
    ensures CallDone(s, t) && Harvested(SharedOf(s), SharedOf(t), tasks, [], map[])
  {
    Here(s);
    hide Reaches, StorageStep, RetentionStep, UploadStep, RestartStep;
    if tasks == [] {
      t := s;
      assert s.active - Names(tasks) == s.active && s.queue.jobs + LastJobs(tasks) == s.queue.jobs;
    } else {
      OneStep(s, [], s, SHarvest(tasks), Harvest(s, tasks));
      assert [] + [SHarvest(tasks)] == [SHarvest(tasks)];
      t := HandOver(s, [SHarvest(tasks)], Harvest(s, tasks), tasks);
    }
  }
}
