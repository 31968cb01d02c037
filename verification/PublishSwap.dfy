/**
 The directory swap at the end of ReceiverNode.finish and ReceiverNode.recover_backups, one file-system
 operation at a time. A run may stop after any operation: that is a crash.
 */
module PublishSwap {
  import opened Prelude
  import opened ReceiverNames
  import opened Receiver

  /** Where the swap is; Unsynced is in place, but the last sync of the inbox raised. */
  datatype Pc = ClearingBackup | MovingAside | MovingIn | Restoring | DroppingBackup | Published | Unsynced | Aborted

  /** The new copy is in place. */
  predicate Moved(pc: Pc) { pc == DroppingBackup || pc == Published || pc == Unsynced }

  /** The swap has come to its end; anywhere else it was cut off. */
  predicate Over(pc: Pc) { pc == Published || pc == Unsynced || pc == Aborted }

  datatype Swap = Swap(pc: Pc, inbox: Inbox)

  /** os.replace succeeds on a missing or empty target directory. */
  predicate CanReplace(inbox: Inbox, from: string, to: string)
  {
    from in inbox && (to in inbox ==> inbox[to] == map[])
  }

  function Replaced(inbox: Inbox, from: string, to: string): Inbox
    requires from in inbox
  {
    (inbox - {from})[to := inbox[from]]
  }

  /** rmtree(ignore_errors=True) removed some files of one entry, or the whole entry. */
  ghost predicate PartlyRemoved(a: Inbox, b: Inbox, name: string)
  {
    || b == a - {name}
    || (name in a && name in b && b == a[name := b[name]] && b[name].Keys <= a[name].Keys
        && forall p :: p in b[name] ==> b[name][p] == a[name][p])
  }

  /** One operation of the swap; a rename or a sync may raise, the handler's own rename only if restoreMayFail. */
  ghost predicate SwapStep(event: string, staging: string, restoreMayFail: bool, a: Swap, b: Swap)
  {
    var final, backup := FinalName(event), BackupName(event);
    match a.pc
    case ClearingBackup =>
      b.pc in {ClearingBackup, MovingAside} && PartlyRemoved(a.inbox, b.inbox, backup)
    case MovingAside =>
      || b == Swap(Aborted, a.inbox)
      || (if final in a.inbox then
            b.pc == MovingIn && CanReplace(a.inbox, final, backup) && b.inbox == Replaced(a.inbox, final, backup)
          else b == Swap(MovingIn, a.inbox))
    case MovingIn =>
      || (b.pc == DroppingBackup && CanReplace(a.inbox, staging, final) && b.inbox == Replaced(a.inbox, staging, final))
      || b == Swap(Restoring, a.inbox)
    case Restoring =>
      if backup in a.inbox && final !in a.inbox then
        || b == Swap(Aborted, Replaced(a.inbox, backup, final))
        || (restoreMayFail && b == Swap(Aborted, a.inbox))
      else b == Swap(Aborted, a.inbox)
    case DroppingBackup =>
      b.pc in {DroppingBackup, Published, Unsynced} && PartlyRemoved(a.inbox, b.inbox, backup)
    case Published => false
    case Unsynced => false
    case Aborted => false
  }

  ghost predicate SwapRun(event: string, staging: string, restoreMayFail: bool, run: seq<Swap>)
  {
    && run != [] && run[0].pc == ClearingBackup
    && forall i :: 0 < i < |run| ==> SwapStep(event, staging, restoreMayFail, run[i - 1], run[i])
  }

  /** The last complete copy of an event: the published directory, else the backup set aside. */
  function Copy(inbox: Inbox, event: string): Option<Tree>
  {
    if FinalName(event) in inbox then Some(inbox[FinalName(event)])
    else if BackupName(event) in inbox then Some(inbox[BackupName(event)])
    else None
  }

  /** A backup never stands alone. */
  predicate BackupGuarded(inbox: Inbox, event: string)
  {
    BackupName(event) in inbox ==> FinalName(event) in inbox
  }

  /** The entries of a staging directory and an event that the swap may touch are three distinct ones. */
  predicate ThreeNames(event: string, staging: string)
  {
    FinalName(event) != BackupName(event) && staging != FinalName(event) && staging != BackupName(event)
  }

  /** What holds between any two operations of any swap that started in `start`. */
  ghost predicate SwapFrame(event: string, staging: string, start: Inbox, s: Swap)
    requires staging in start
  {
    var final, backup := FinalName(event), BackupName(event);
    && s.inbox - {final, backup, staging} == start - {final, backup, staging}
    && if Moved(s.pc) then staging !in s.inbox && final in s.inbox && s.inbox[final] == start[staging]
       else staging in s.inbox && s.inbox[staging] == start[staging]
  }

  /** And of one that started guarded. */
  ghost predicate SwapInvariant(event: string, staging: string, restoreMayFail: bool, start: Inbox, s: Swap)
    requires staging in start
  {
    var final, backup := FinalName(event), BackupName(event);
    && SwapFrame(event, staging, start, s)
    && (s.pc in {ClearingBackup, MovingAside} ==>
          BackupGuarded(s.inbox, event) && Get(s.inbox, final) == Get(start, final))
    && (s.pc in {MovingIn, Restoring} ==> final !in s.inbox && Get(s.inbox, backup) == Get(start, final))
    && (s.pc == Aborted ==> Copy(s.inbox, event) == Copy(start, event))
    && (s.pc == Aborted && !restoreMayFail ==>
          BackupGuarded(s.inbox, event) && Get(s.inbox, final) == Get(start, final))
  }

  lemma FrameStepKeeps(event: string, staging: string, restoreMayFail: bool, start: Inbox, a: Swap, b: Swap)
    requires ThreeNames(event, staging) && staging in start && SwapFrame(event, staging, start, a)
    requires SwapStep(event, staging, restoreMayFail, a, b)
    ensures SwapFrame(event, staging, start, b)
  {
    hide FinalName, BackupName;
    var final, backup := FinalName(event), BackupName(event);
    assert b.inbox - {final, backup, staging} == a.inbox - {final, backup, staging};
  }

  lemma {:induction false} FrameRunKeeps(event: string, staging: string, restoreMayFail: bool, run: seq<Swap>, n: nat)
    requires SwapRun(event, staging, restoreMayFail, run) && n < |run|
    requires ThreeNames(event, staging) && staging in run[0].inbox
    ensures SwapFrame(event, staging, run[0].inbox, run[n])
  {
    if n > 0 {
      FrameRunKeeps(event, staging, restoreMayFail, run, n - 1);
      hide SwapStep, SwapFrame;
      FrameStepKeeps(event, staging, restoreMayFail, run[0].inbox, run[n - 1], run[n]);
    }
  }

  lemma SwapStepKeeps(event: string, staging: string, restoreMayFail: bool, start: Inbox, a: Swap, b: Swap)
    requires ThreeNames(event, staging) && staging in start && BackupGuarded(start, event)
    requires SwapInvariant(event, staging, restoreMayFail, start, a)
    requires SwapStep(event, staging, restoreMayFail, a, b)
    ensures SwapInvariant(event, staging, restoreMayFail, start, b)
  {
    FrameStepKeeps(event, staging, restoreMayFail, start, a, b);
    hide FinalName, BackupName;
  }

  lemma {:induction false} SwapRunKeeps(event: string, staging: string, restoreMayFail: bool, run: seq<Swap>, n: nat)
    requires SwapRun(event, staging, restoreMayFail, run) && n < |run|
    requires ThreeNames(event, staging) && staging in run[0].inbox && BackupGuarded(run[0].inbox, event)
    ensures SwapInvariant(event, staging, restoreMayFail, run[0].inbox, run[n])
  {
    if n > 0 {
      SwapRunKeeps(event, staging, restoreMayFail, run, n - 1);
      SwapStepKeeps(event, staging, restoreMayFail, run[0].inbox, run[n - 1], run[n]);
    }
  }

  lemma InvariantKeepsCopy(event: string, staging: string, restoreMayFail: bool, start: Inbox, s: Swap)
    requires ThreeNames(event, staging) && staging in start && BackupGuarded(start, event)
    requires SwapInvariant(event, staging, restoreMayFail, start, s)
    ensures Copy(s.inbox, event) == Copy(start, event) || Copy(s.inbox, event) == Some(start[staging])
  {
    hide FinalName, BackupName;
  }

  /** Wherever a swap stops, the event's copy is the previous one or the whole staged one. */
  ghost predicate CrashSafe(inbox: Inbox, event: string, staging: string)
    requires staging in inbox
  {
    forall run: seq<Swap> :: SwapRun(event, staging, true, run) && run[0].inbox == inbox ==>
      var copy := Copy(run[|run| - 1].inbox, event);
      copy == Copy(inbox, event) || copy == Some(inbox[staging])
  }

  /** The swap is crash-safe exactly when no backup stands alone at its start. */
  lemma CrashSafeIffGuarded(inbox: Inbox, event: string, staging: string)
    requires ThreeNames(event, staging) && staging in inbox
    ensures CrashSafe(inbox, event, staging) <==> BackupGuarded(inbox, event)
  {
    if BackupGuarded(inbox, event) {
      forall run: seq<Swap> | SwapRun(event, staging, true, run) && run[0].inbox == inbox
        ensures var copy := Copy(run[|run| - 1].inbox, event);
                copy == Copy(inbox, event) || copy == Some(inbox[staging])
      {
        SwapRunKeeps(event, staging, true, run, |run| - 1);
        InvariantKeepsCopy(event, staging, true, inbox, run[|run| - 1]);
      }
    } else {
      var emptied := Swap(MovingAside, inbox - {BackupName(event)});
      var run := [Swap(ClearingBackup, inbox), emptied];
      assert SwapStep(event, staging, true, run[0], run[1]);
      assert Copy(run[|run| - 1].inbox, event) == None;
    }
  }

  /** A handler whose own rename raises is what breaks the guard: the next END may lose the copy. */
  lemma DoubleRenameFailure(inbox: Inbox, event: string, staging: string, previous: Tree)
    requires ThreeNames(event, staging) && staging in inbox
    requires BackupName(event) !in inbox && Get(inbox, FinalName(event)) == Some(previous)
    ensures exists run: seq<Swap> ::
              && SwapRun(event, staging, true, run) && run[0].inbox == inbox && run[|run| - 1].pc == Aborted
              && Copy(run[|run| - 1].inbox, event) == Some(previous)
              && staging in run[|run| - 1].inbox && !CrashSafe(run[|run| - 1].inbox, event, staging)
  {
    var final, backup := FinalName(event), BackupName(event);
    assert inbox - {backup} == inbox;
    var aside := Replaced(inbox, final, backup);
    var run := [Swap(ClearingBackup, inbox), Swap(MovingAside, inbox), Swap(MovingIn, aside),
                Swap(Restoring, aside), Swap(Aborted, aside)];
    assert SwapStep(event, staging, true, run[0], run[1]);
    assert SwapStep(event, staging, true, run[1], run[2]);
    assert SwapStep(event, staging, true, run[2], run[3]);
    assert SwapStep(event, staging, true, run[3], run[4]);
    CrashSafeIffGuarded(aside, event, staging);
  }

  // ---- recovery at start-up ----

  /** One operation of recover_backups on one backup entry. */
  ghost predicate RecoverStep(event: string, a: Inbox, b: Inbox)
  {
    && ValidEventName(event) && BackupName(event) in a
    && if FinalName(event) in a then PartlyRemoved(a, b, BackupName(event))
       else b == Replaced(a, BackupName(event), FinalName(event))
  }

  /** Every backup was visited: none stands alone any more. */
  ghost predicate Recovered(inbox: Inbox)
  {
    forall e :: ValidEventName(e) ==> BackupGuarded(inbox, e)
  }

  /** No recovery operation changes any event's copy, so recovery may itself be cut short. */
  lemma RecoverStepKeepsCopies(event: string, a: Inbox, b: Inbox, other: string)
    requires RecoverStep(event, a, b) && ValidEventName(other)
    ensures Copy(b, other) == Copy(a, other)
    ensures BackupGuarded(a, other) ==> BackupGuarded(b, other)
  {
    InboxNamesDisjoint(event, other, "");
    InboxNamesDisjoint(other, event, "");
    InboxNamesDisjoint(event, event, "");
    InboxNamesDisjoint(other, other, "");
    assert FinalName(event) == FinalName(other) ==> event == other;
    hide BackupName, ValidEventName;
  }

  /** After recovery a published directory is the event's copy, and there is one if there was a copy. */
  lemma RecoveredPublishesCopy(inbox: Inbox, event: string)
    requires Recovered(inbox) && ValidEventName(event)
    ensures Get(inbox, FinalName(event)) == Copy(inbox, event)
  {
  }
}
