/**
 What a swap can do whose two renames both raise, tools/receiver_node.py:236-241: the event's only copy is its backup,
 under whose name the next END begins by removing things.
 */
module LoneBackup {
  import opened Prelude
  import opened ReceiverNames
  import opened ChecksumManifest
  import opened Receiver
  import opened UploadSender
  import opened ReceiverSafety
  import opened PublishSwap
  import opened UploadProtocol
  import opened UploadCompletion
  import opened UploadRuns

  // ---- the sender has everything staged ----

  /** Everything but END has arrived, END has been sent, and nothing has failed so far. */
  ghost predicate Staged(c: Config, key: Key, w: World, at: Attempt)
    requires ValidConfig(c) && key in c.sources
  {
    && Sole(w, at) && AtEnd(c, key, 1, at) && w.spoiled == {} && !w.beginFailed
    && Holding(w.store, key, c.sources[key], c.sources[key].Keys, 0, c.lib)
  }

  lemma PrunedKeepsEvent(s: Store, event: string, now: int, remains: map<string, set<string>>)
    requires ValidEventName(event)
    ensures var inbox := Pruned(s, now, remains).inbox;
            && Get(inbox, FinalName(event)) == Get(s.inbox, FinalName(event))
            && Get(inbox, BackupName(event)) == Get(s.inbox, BackupName(event))
  {
    forall k: Key ensures StagingOf(k) != FinalName(event) && StagingOf(k) != BackupName(event) {
      InboxNamesDisjoint(event, k.event, k.id);
    }
    hide FinalName, BackupName, StagingName, ValidEventName;
  }

  lemma HoldingHas(s: Store, key: Key, files: Tree, lib: Library)
    requires Holding(s, key, files, files.Keys, 0, lib)
    ensures key in s.transfers && StagingOf(key) in s.inbox && s.inbox[StagingOf(key)] == files
    ensures ReceivedBytes(s.transfers[key]) == TreeBytes(files)
  {
    assert ReceivedSizes(s.transfers[key].files) == Sizes(files);
    hide Sum, NormalSource, FoldsApart;
  }

  lemma PrunedHolds(s: Store, key: Key, files: Tree, lib: Library)
    requires Holding(s, key, files, files.Keys, 0, lib)
    ensures var p := Pruned(s, 0, NoFaults.remains);
            key in p.transfers && Holding(Touched(p, key, 0), key, files, files.Keys, 0, lib)
  {
    PrunedKeepsLive(s, key, 0, 0, NoFaults.remains);
    hide Pruned, Finished, NormalSource, FoldsApart, ValidKey, PlainId;
    var p := Pruned(s, 0, NoFaults.remains);
    assert p.transfers[key].(lastActivity := 0) == p.transfers[key];
  }

  /** The transaction does not care what else is in the inbox. */
  lemma HoldingElsewhere(s: Store, inbox: Inbox, key: Key, files: Tree, lib: Library)
    requires Holding(s, key, files, files.Keys, 0, lib) && Get(inbox, StagingOf(key)) == Get(s.inbox, StagingOf(key))
    ensures Holding(Store(inbox, s.transfers), key, files, files.Keys, 0, lib)
  {
    hide Finished, NormalSource, FoldsApart, ValidKey, PlainId;
  }

  /** END passes every check, and where the swap starts. */
  lemma AtSwap(c: Config, key: Key, w: World, at: Attempt) returns (t: Store)
    requires ValidConfig(c) && Takeable(c, key) && Staged(c, key, w, at)
    ensures Handled(w.store, ScriptOf(c, at)[at.next], 0, NoFaults, c.lib) == None
    ensures t == SwapStart(w, key, 0, NoFaults) && Holding(t, key, c.sources[key], c.sources[key].Keys, 0, c.lib)
    ensures Get(t.inbox, FinalName(key.event)) == Get(w.store.inbox, FinalName(key.event))
    ensures Get(t.inbox, BackupName(key.event)) == Get(w.store.inbox, BackupName(key.event))
  {
    hide Holding, ScriptOf, Handled, Pruned, ValidConfig, BeginRefusal, ReceiverVerdict, SizeOf, Lists, NormalSource,
         FoldsApart, ValidEventName, FinalName, BackupName;
    var files := c.sources[key];
    EndPasses(w.store, EndRequest(key), files, 0, 0, c.lib);
    PrunedHolds(w.store, key, files, c.lib);
    PrunedKeepsEvent(w.store, key.event, 0, NoFaults.remains);
    t := SwapStart(w, key, 0, NoFaults);
  }

  // ---- the first publication, and everything sent once more ----

  /** A first attempt gets to its END. */
  lemma FirstEnd(c: Config, key: Key) returns (worlds: seq<World>, at: Attempt, t: Store)
    requires ValidConfig(c) && Takeable(c, key)
    ensures Behaviour(c, worlds) && worlds[0] == NowhereYet && AtEnd(c, key, 1, at) && at.status == Waiting
    ensures Onward(FirstTry(at), Last(worlds), Last(worlds).store)
    ensures Handled(Last(worlds).store, ScriptOf(c, at)[at.next], 0, NoFaults, c.lib) == None
    ensures t == SwapStart(Last(worlds), key, 0, NoFaults)
    ensures Holding(t, key, c.sources[key], c.sources[key].Keys, 0, c.lib)
    ensures Copy(t.inbox, key.event) == None && ValidKey(key)
  {
    hide Script, Holding, ScriptOf, Handled, Next, ValidConfig, BeginRefusal, SizeOf, Lists, NormalSource, FoldsApart,
         ReceiverVerdict, FinalName, BackupName, StagingName, ValidEventName, SwapStart;
    var s;
    worlds, at, s := SentOnce(c, key, 1);
    NothingYet(c, worlds, key);
    hide Behaviour;
    t := AtSwap(c, key, Last(worlds), at);
  }

  /** It goes well, and the sender marks the directory as uploaded. */
  lemma UploadedOnce(c: Config, key: Key) returns (worlds: seq<World>, at: Attempt)
    requires ValidConfig(c) && Takeable(c, key)
    ensures Behaviour(c, worlds) && worlds[0] == NowhereYet && AtEnd(c, key, 1, at) && at.status == Confirmed
    ensures Onward(Confirmation(FirstTry(at), at, Last(worlds).store), Last(worlds), Last(worlds).store)
  {
    var first, t;
    worlds, first, t := FirstEnd(c, key);
    HoldingHas(t, key, c.sources[key], c.lib);
    at := first.(status := Confirmed);
    ScriptOfNext(c, first);
    hide Holding, ScriptOf, Handled, Next, ValidConfig, BeginRefusal, Acceptable, StagingName, ValidKey, SwapStart,
         ReceivedBytes, TreeBytes, Copy, ValidEventName;
    worlds := PublishedAndConfirmed(c, worlds, first, t);
  }

  /** The receiver is started again, and late copies of all requests but END reach it in order. */
  lemma StagedAgain(c: Config, key: Key) returns (worlds: seq<World>, at: Attempt)
    requires ValidConfig(c) && Takeable(c, key)
    ensures Behaviour(c, worlds) && worlds[0] == NowhereYet && Staged(c, key, Last(worlds), at)
    ensures Onward(Confirmation(FirstTry(at), at, Last(worlds).store), Last(worlds), Last(worlds).store)
  {
    hide Holding, Handled, Next, ValidConfig, BeginRefusal, SizeOf, Script, FinalName, BackupName, StagingName, Copy,
         RunFrom, NormalSource, FoldsApart, ReceiverVerdict;
    worlds, at := UploadedOnce(c, key);
    worlds := StartedAgain(c, worlds);
    var order, files, inbox := c.orders[key], c.sources[key], Last(worlds).store.inbox;
    EmptyAdmits(BeginRequest(key, |order|, SizeOf(order, files)), inbox);
    assert Steady(Still());
    var s := LosslessScriptHolds(Store(inbox, map[]), key, order, files, 1, Still(), c.lib);
    var script := Script(key, order, files, 1);
    assert ScriptOf(c, at) == script;
    worlds := Redelivered(c, worlds, at, script[..|script| - 1], 0, s);
  }

  // ---- both renames raise ----

  /** The published copy is moved aside, and neither the new one nor it can be moved in. */
  lemma StrandingRun(inbox: Inbox, key: Key, files: Tree) returns (run: seq<Swap>)
    requires ValidKey(key) && StagingOf(key) in inbox && Get(inbox, FinalName(key.event)) == Some(files)
    ensures run != [] && SwapRun(key.event, StagingOf(key), true, run) && run[0].inbox == inbox
    ensures var end := run[|run| - 1];
            && end.pc == Aborted && FinalName(key.event) !in end.inbox && !BackupGuarded(end.inbox, key.event)
            && Get(end.inbox, BackupName(key.event)) == Some(files)
            && Get(end.inbox, StagingOf(key)) == Get(inbox, StagingOf(key))
  {
    InboxNamesDisjoint(key.event, key.event, key.id);
    var final, backup := FinalName(key.event), BackupName(key.event);
    hide FinalName, BackupName, StagingName;
    var cleared := inbox - {backup};
    var aside := Replaced(cleared, final, backup);
    run := [Swap(ClearingBackup, inbox), Swap(MovingAside, cleared), Swap(MovingIn, aside), Swap(Restoring, aside),
            Swap(Aborted, aside)];
    assert SwapStep(key.event, StagingOf(key), true, run[0], run[1])
      && SwapStep(key.event, StagingOf(key), true, run[1], run[2]);
    assert SwapStep(key.event, StagingOf(key), true, run[2], run[3])
      && SwapStep(key.event, StagingOf(key), true, run[3], run[4]);
  }

  /** The sender takes its directory for uploaded, and a running receiver that no BEGIN has failed on shows nothing. */
  ghost predicate Stranded(c: Config, key: Key, w: World, at: Attempt)
    requires ValidConfig(c) && key in c.sources
  {
    && Staged(c, key, w, at) && key in w.uploaded && w.stranded == {key.event}
    && FinalName(key.event) !in w.store.inbox && Get(w.store.inbox, BackupName(key.event)) == Some(c.sources[key])
  }

  /** END is handled again, and both renames raise. */
  lemma Strands(c: Config, worlds: seq<World>, at: Attempt, t: Store, run: seq<Swap>) returns (longer: seq<World>)
    requires ValidConfig(c) && Behaviour(c, worlds) && Sole(Last(worlds), at) && at.next + 1 == |ScriptOf(c, at)|
    requires Handled(Last(worlds).store, ScriptOf(c, at)[at.next], 0, NoFaults, c.lib) == None
    requires t == SwapStart(Last(worlds), at.key, 0, NoFaults)
    requires run != [] && SwapRun(at.key.event, StagingOf(at.key), true, run) && run[0].inbox == t.inbox
    requires var end := run[|run| - 1]; end.pc == Aborted && !BackupGuarded(end.inbox, at.key.event)
    ensures Behaviour(c, longer) && longer[0] == worlds[0]
    ensures var w, w' := Last(worlds), Last(longer);
            w' == w.(store := Store(run[|run| - 1].inbox, t.transfers), replies := w'.replies,
                     stranded := w.stranded + {at.key.event}, backupLeft := true, lost := w'.lost)
  {
    hide Next, Handled, SwapRun, SwapStart, ScriptOf, ValidConfig, Copy, BackupGuarded, StagingName;
    var w, event, end := Last(worlds), at.key.event, run[|run| - 1];
    var w' := w.(store := Store(end.inbox, t.transfers), replies := w.replies + {Reply(0, at.next, Failure(Raised))},
                 stranded := w.stranded + {event}, backupLeft := true,
                 lost := if event in w.stranded then w.lost + {event} else w.lost);
    assert SwapAnswer(t, at.key, end) == Some(Failure(Raised));
    assert Publish(c, w, w', 0, at.next, 0, NoFaults, run);
    longer := Extend(c, worlds, w', PublishStep(0, at.next, 0, NoFaults, run));
  }

  /** END is handled again, and the receiver dies while it removes the old backup. */
  lemma CutOff(c: Config, worlds: seq<World>, at: Attempt, t: Store, run: seq<Swap>) returns (longer: seq<World>)
    requires ValidConfig(c) && Behaviour(c, worlds) && Sole(Last(worlds), at) && at.next + 1 == |ScriptOf(c, at)|
    requires Handled(Last(worlds).store, ScriptOf(c, at)[at.next], 0, NoFaults, c.lib) == None
    requires t == SwapStart(Last(worlds), at.key, 0, NoFaults)
    requires run != [] && SwapRun(at.key.event, StagingOf(at.key), true, run) && run[0].inbox == t.inbox
    requires run[|run| - 1].pc == ClearingBackup
    ensures Behaviour(c, longer) && longer[0] == worlds[0]
    ensures var w, w' := Last(worlds), Last(longer);
            w' == w.(store := Store(run[|run| - 1].inbox, map[]), up := false, lost := w'.lost)
  {
    hide Next, Handled, SwapRun, SwapStart, ScriptOf, ValidConfig, Copy, BackupGuarded, StagingName;
    var w, event, end := Last(worlds), at.key.event, run[|run| - 1];
    var w' := w.(store := Store(end.inbox, map[]), up := false,
                 lost := if event in w.stranded then w.lost + {event} else w.lost);
    assert SwapAnswer(t, at.key, end) == None;
    assert Publish(c, w, w', 0, at.next, 0, NoFaults, run);
    longer := Extend(c, worlds, w', PublishStep(0, at.next, 0, NoFaults, run));
  }

  /** What is published before it is moved aside. */
  lemma PublishedSoFar(c: Config, worlds: seq<World>, key: Key)
    requires ValidConfig(c) && Behaviour(c, worlds) && Last(worlds).up && ValidEventName(key.event) && key in c.sources
    requires var w := Last(worlds);
             && key.event in w.latest && w.latest[key.event] == key && w.stranded == {}
             && key.event !in w.doubtful && key.event !in w.lost
    ensures Get(Last(worlds).store.inbox, FinalName(key.event)) == Some(c.sources[key])
  {
    Reachable(c, worlds, |worlds| - 1);
    hide Next, ValidConfig, TransfersOk, HistoryOk, AttemptsOk, ValidEventName;
    assert CopyOk(c, worlds[0].store.inbox, Last(worlds), key.event);
    assert BackupGuarded(Last(worlds).store.inbox, key.event);
  }

  /** An uploaded directory's only copy comes to be the backup. */
  lemma LoneBackupHides(c: Config, key: Key) returns (worlds: seq<World>, at: Attempt)
    requires ValidConfig(c) && Takeable(c, key)
    ensures Behaviour(c, worlds) && worlds[0] == NowhereYet && Stranded(c, key, Last(worlds), at)
  {
    hide Holding, ScriptOf, Handled, Next, ValidConfig, BeginRefusal, SizeOf, Script, FinalName, BackupName,
         StagingName, Lists, BackupGuarded, SwapStart, SwapRun, NormalSource, FoldsApart, ReceiverVerdict,
         ValidEventName, Copy;
    worlds, at := StagedAgain(c, key);
    var t := AtSwap(c, key, Last(worlds), at);
    HoldingHas(t, key, c.sources[key], c.lib);
    PublishedSoFar(c, worlds, key);
    var run := StrandingRun(t.inbox, key, c.sources[key]);
    hide Acceptable;
    worlds := Strands(c, worlds, at, t, run);
    HoldingElsewhere(t, Last(worlds).store.inbox, key, c.sources[key], c.lib);
  }

  // ---- what the next END can do to it ----

  /** The removal of the old backup is cut off after one file. */
  lemma CutRun(inbox: Inbox, key: Key, files: Tree, path: string) returns (run: seq<Swap>)
    requires Get(inbox, BackupName(key.event)) == Some(files)
    ensures run != [] && SwapRun(key.event, StagingOf(key), true, run) && run[0].inbox == inbox
    ensures run[|run| - 1] == Swap(ClearingBackup, inbox[BackupName(key.event) := files - {path}])
  {
    hide FinalName, BackupName, StagingName;
    run := [Swap(ClearingBackup, inbox), Swap(ClearingBackup, inbox[BackupName(key.event) := files - {path}])];
  }

  /** Recovery publishes what remains, and then there is nothing more for it to do. */
  lemma RemainsTakenUp(inbox: Inbox, key: Key, rest: Tree)
    requires ValidKey(key) && GuardedExcept(inbox, {key.event}) && FinalName(key.event) !in inbox
    ensures var cut := inbox[BackupName(key.event) := rest];
            var recovered := Replaced(cut, BackupName(key.event), FinalName(key.event));
            && RecoverStep(key.event, cut, recovered) && Recovered(recovered)
            && Get(recovered, FinalName(key.event)) == Some(rest)
  {
    InboxNamesDisjoint(key.event, key.event, key.id);
    var event, cut := key.event, inbox[BackupName(key.event) := rest];
    var recovered := Replaced(cut, BackupName(event), FinalName(event));
    hide FinalName, BackupName, ValidEventName, StagingName;
    forall e | ValidEventName(e) ensures BackupGuarded(recovered, e) {
      if e != event {
        assert cut - SwapNames(key) == inbox - SwapNames(key);
        OtherEventCopies(key, inbox, cut, e);
        RecoverStepKeepsCopies(event, cut, recovered, e);
      }
    }
  }

  lemma OthersGuarded(c: Config, worlds: seq<World>, key: Key)
    requires ValidConfig(c) && Behaviour(c, worlds) && Last(worlds).up && Last(worlds).stranded == {key.event}
    ensures GuardedExcept(SwapStart(Last(worlds), key, 0, NoFaults).inbox, {key.event})
  {
    var w := Last(worlds);
    Reachable(c, worlds, |worlds| - 1);
    PruneOk(c, w.spoiled, w.store, 0, NoFaults.remains);
    hide Next, ValidConfig, TransfersOk, HistoryOk, AttemptsOk, CopyOk, Pruned, ValidEventName, Copy, BackupGuarded;
  }

  /** For every directory there is a run in which no BEGIN fails, one swap leaves a lone backup, and in the end a
      running receiver publishes a directory without one of its files, which its sender takes for uploaded. */
  lemma LoneBackupCorrupts(c: Config, key: Key, path: string) returns (worlds: seq<World>)
    requires ValidConfig(c) && Takeable(c, key) && path in c.sources[key]
    ensures Behaviour(c, worlds) && worlds[0] == NowhereYet
    ensures var w := Last(worlds);
            && w.up && key in w.uploaded && FinalName(key.event) in w.store.inbox && !w.beginFailed
            && w.store.inbox[FinalName(key.event)] == c.sources[key] - {path}
            && !WholeOrOld(c, worlds[0].store.inbox, w, key.event)
  {
    hide Holding, ScriptOf, Handled, Next, ValidConfig, BeginRefusal, SizeOf, Script, FinalName, BackupName,
         StagingName, Lists, BackupGuarded, SwapStart, SwapRun, NormalSource, FoldsApart, ReceiverVerdict,
         ValidEventName, Recovered, RecoverStep, GuardedExcept;
    var at;
    worlds, at := LoneBackupHides(c, key);
    var t := AtSwap(c, key, Last(worlds), at);
    OthersGuarded(c, worlds, key);
    var run := CutRun(t.inbox, key, c.sources[key], path);
    RemainsTakenUp(t.inbox, key, c.sources[key] - {path});
    worlds := CutOff(c, worlds, at, t, run);
    worlds := Recovers(c, worlds, key.event,
                       Replaced(Last(worlds).store.inbox, BackupName(key.event), FinalName(key.event)));
    assert path !in c.sources[key] - {path};
  }

  /** recover_backups takes up one backup, and the receiver runs. */
  lemma Recovers(c: Config, worlds: seq<World>, event: string, recovered: Inbox) returns (longer: seq<World>)
    requires ValidConfig(c) && Behaviour(c, worlds) && !Last(worlds).up && Last(worlds).store.transfers == map[]
    requires RecoverStep(event, Last(worlds).store.inbox, recovered) && Recovered(recovered)
    ensures Behaviour(c, longer) && longer[0] == worlds[0]
    ensures Last(longer) == Last(worlds).(up := true, store := Store(recovered, map[]), stranded := {})
  {
    hide Next, ValidConfig, Recovered, RecoverStep;
    var w := Last(worlds);
    var w1 := w.(store := Store(recovered, map[]));
    assert Recover(w, w1, event);
    longer := Extend(c, worlds, w1, RecoverStepOf(event));
    var w2 := w1.(up := true, stranded := {});
    assert Restart(w1, w2);
    longer := Extend(c, longer, w2, RestartStep);
  }
}
