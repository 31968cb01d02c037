/**
 Retention removes a directory file by file, include/disk_space_manager.hpp:228-238, in the order the file system yields
 them, and may be cut short: exactly which orders keep the promises of the event store throughout.
 */
module EventStoreRemoval {
  import opened Prelude
  import opened EventStore
  import opened EventStoreInvariant
  import opened EventStoreSafety
  import opened EventStoreTheorems

  lemma Extended(states: seq<State>, step: Step, t: State) returns (longer: seq<State>)
    requires Run(states) && Taken(Now(states), step, t)
    ensures longer != [] && Run(longer) && Now(longer) == t
  {
    hide Taken, Init;
    longer := states + [t];
    assert Next(Now(states), t);
    forall i | 0 < i < |longer| ensures Follows(longer, i) {
      assert i < |states| ==> Follows(states, i);
      assert longer[i - 1] == if i < |states| then states[i - 1] else Now(states);
    }
  }

  // ---- one event, stored, completed and collected for removal ----

  const EVENT: Name := "e_0_1700000000000000000"

  datatype Setting = Setting(uploads: bool, rank: Ranking)

  function Scene(setting: Setting, disk: Disk, log: Log, queue: seq<Job>, worker: Worker, progress: map<Name, Progress>,
              uploader: Uploader): State
  {
    State(map[EVENT := disk], map[EVENT := log], {EVENT}, Queue(queue, 0, 1, false), {}, Idle, worker, progress,
          uploader, Running, 1, setting.uploads, setting.rank)
  }

  const Handed := Log(false, false, false, [true], [])

  const Processed := Log(false, false, false, [true], [Done(true, true, 1)])

  /** Complete with one row; uploaded when there is an upload thread. */
  function Whole(uploaded: bool): Disk { Disk(false, Some(1), false, false, uploaded, 1, true) }

  lemma Queued(setting: Setting) returns (states: seq<State>)
    ensures Run(states)
    ensures Now(states) == Scene(setting, Put(Bare, Pending), Handed, [Job(EVENT, true)], Waiting, map[], Listed([]))
  {
    hide StorageStep, RetentionStep, UploadStep, RestartStep;
    var s0 := State(map[], map[], {}, Queue([], 0, 1, false), {}, Idle, Waiting, map[], Listed([]), Running, 1,
                    setting.uploads, setting.rank);
    states := [s0];
    var s1 := Reserve(s0, EVENT, false);
    states := Extended(states, SReserve(EVENT, false), s1);
    var s2 := Begin(s1);
    states := Extended(states, SBegin, s2);
    var s3 := EnqueueFirst(s2);
    assert s3.queue.jobs == [Job(EVENT, true)] && s3.log[EVENT].submitted == [true];
    states := Extended(states, SEnqueueFirst, s3);
  }

  lemma Written(setting: Setting) returns (states: seq<State>)
    ensures Run(states)
    ensures Now(states)
            == Scene(setting, Put(Bare, Pending).(rows := 1), Handed, [], Writing(Job(EVENT, true), 1, 0, true), map[],
                     Listed([]))
  {
    hide ExecutorStep, RetentionStep, UploadStep, RestartStep, Init, Follows;
    states := Queued(setting);
    states := Extended(states, SPop,
                       Scene(setting, Put(Bare, Pending), Handed, [], Writing(Job(EVENT, true), 0, 0, true), map[],
                             Listed([])));
    states := Extended(states, SWriteRecord(true),
                       Scene(setting, Put(Bare, Pending), Handed, [], Writing(Job(EVENT, true), 1, 1, true), map[],
                             Listed([])));
    states := Extended(states, SSpill, Spill(Now(states)));
  }

  lemma StoredOnce(setting: Setting) returns (states: seq<State>)
    ensures Run(states)
    ensures Now(states) == Scene(setting, Put(Bare, Pending).(rows := 1), Processed, [], Sealing(EVENT, 1),
                              map[EVENT := Progress(false, 1)], Listed([]))
  {
    hide ExecutorStep, RetentionStep, UploadStep, RestartStep, Init, Follows;
    states := Written(setting);
    assert Finish(Now(states), true, false).log[EVENT].done == [Done(true, true, 1)];
    states := Extended(states, SFinish(true, false), Finish(Now(states), true, false));
  }

  function Deciding(setting: Setting, disk: Disk, stage: nat): State
  {
    Scene(setting, disk, Processed, [], Completing(EVENT, 1, stage), map[EVENT := Progress(false, 1)], Listed([]))
  }

  lemma Decided(setting: Setting) returns (states: seq<State>)
    ensures Run(states) && Now(states) == Deciding(setting, Whole(false).(pending := true), 1)
  {
    hide ExecutorStep, RetentionStep, UploadStep, RestartStep, Init, Follows;
    states := StoredOnce(setting);
    states := Extended(states, SSeal, Deciding(setting, Whole(false).(pending := true, complete := None), 0));
    states := Extended(states, SCompleteOp, Deciding(setting, Whole(false).(pending := true), 1));
  }

  lemma Completed(setting: Setting) returns (states: seq<State>)
    ensures Run(states) && Now(states) == Scene(setting, Whole(false), Processed, [], Waiting, map[], Listed([]))
  {
    hide ExecutorStep, RetentionStep, UploadStep, RestartStep, Init, Follows;
    states := Decided(setting);
    states := Extended(states, SCompleteOp, Deciding(setting, Whole(false), 2));
    states := Extended(states, SCompleteOp, Deciding(setting, Whole(false), 3));
    assert map[EVENT := Progress(false, 1)] - {EVENT} == map[];
    states := Extended(states, SClose, Scene(setting, Whole(false), Processed, [], Waiting, map[], Listed([])));
  }

  /** Uploaded first, when there is an upload thread. */
  lemma Settled(setting: Setting) returns (states: seq<State>)
    ensures Run(states)
    ensures Now(states) == Scene(setting, Whole(setting.uploads), Processed, [], Waiting, map[], Listed([]))
  {
    hide ExecutorStep, StorageStep, RetentionStep, RestartStep, Init, Follows;
    states := Completed(setting);
    if setting.uploads {
      var listed, leased, marked := Whole(false), Whole(false).(uploading := true), Whole(true).(uploading := true);
      assert [EVENT][1..] == [];
      states := Extended(states, SScan([EVENT]),
                         Scene(setting, listed, Processed, [], Waiting, map[], Listed([EVENT])));
      states := Extended(states, SLease,
                         Scene(setting, leased, Processed, [], Waiting, map[], Transferring(EVENT, [])));
      states := Extended(states, SMarkUploaded,
                         Scene(setting, marked, Processed, [], Waiting, map[], Leaving(EVENT, [])));
      states := Extended(states, SLeave, Scene(setting, marked, Processed, [], Waiting, map[], Listed([])));
      states := Extended(states, SUnlease(EVENT),
                         Scene(setting, Whole(true), Processed, [], Waiting, map[], Listed([])));
    }
  }

  function Looking(setting: Setting, probe: Probe, collected: set<Name>): State
  {
    Scene(setting, Whole(setting.uploads), Processed, [], Sweeping(collected, probe, Waiting), map[], Listed([]))
  }

  lemma HalfLooked(setting: Setting) returns (states: seq<State>)
    ensures Run(states) && Now(states) == Looking(setting, At(EVENT, 2, false), {})
  {
    hide ExecutorStep, StorageStep, UploadStep, RestartStep, Init, Follows;
    states := Settled(setting);
    states := Extended(states, SSweep, Looking(setting, Off, {}));
    states := Extended(states, SLook(EVENT), Looking(setting, At(EVENT, 1, false), {}));
    states := Extended(states, SLook(EVENT), Looking(setting, At(EVENT, 2, false), {}));
  }

  lemma Looked(setting: Setting) returns (states: seq<State>)
    ensures Run(states) && Now(states) == Looking(setting, At(EVENT, 5, true), {})
  {
    hide ExecutorStep, StorageStep, UploadStep, RestartStep, Init, Follows;
    states := HalfLooked(setting);
    states := Extended(states, SLook(EVENT), Looking(setting, At(EVENT, 3, true), {}));
    states := Extended(states, SLook(EVENT), Looking(setting, At(EVENT, 4, true), {}));
    states := Extended(states, SLook(EVENT), Looking(setting, At(EVENT, 5, true), {}));
  }

  /** Retention is at the directory; nothing is gone yet. */
  lemma BeingErased(setting: Setting) returns (states: seq<State>)
    ensures Run(states) && Now(states) == Looking(setting, Erasing(EVENT), {EVENT})
  {
    hide ExecutorStep, StorageStep, UploadStep, RestartStep, Init, Follows;
    states := Looked(setting);
    assert {} + {EVENT} == {EVENT};
    states := Extended(states, SCollect, Looking(setting, Off, {EVENT}));
    states := Extended(states, SErase(EVENT), Looking(setting, Erasing(EVENT), {EVENT}));
  }

  // ---- the order of removal ----

  /** Removing the parts of a directory one by one, starting where states ended. */
  function Stripping(setting: Setting, disk: Disk): State
  {
    Scene(setting, disk, Processed.(erased := true), [], Sweeping({EVENT}, Erasing(EVENT), Waiting), map[], Listed([]))
  }

  /** One part less. */
  lemma RemovedOne(setting: Setting, states: seq<State>, disk: Disk, part: Part) returns (longer: seq<State>)
    requires Run(states) && (Now(states) == Stripping(setting, disk)
                             || (disk == Whole(setting.uploads)
                                 && Now(states) == Looking(setting, Erasing(EVENT), {EVENT})))
    requires Present(disk, part) && forall other :: Present(disk, other) ==> setting.rank(part) <= setting.rank(other)
    ensures Run(longer) && Now(longer) == Stripping(setting, Stripped(disk, part))
  {
    hide ExecutorStep, StorageStep, UploadStep, RestartStep, Init, Follows, Present, Stripped;
    longer := Extended(states, SRemove(part), Stripping(setting, Stripped(disk, part)));
  }

  // ---- complete means stored, throughout ----

  ghost predicate AlwaysStored(rank: Ranking)
  {
    forall states, d :: Run(states) && Now(states).rank == rank && d in Now(states).files ==> VouchedFor(Now(states), d)
  }

  /** A .complete finds its rows and its checksum manifest. */
  ghost predicate VouchedFor(s: State, d: Name)
    requires d in s.files
  {
    s.files[d].complete.Some? ==> s.files[d].rows == s.files[d].complete.value && s.files[d].sealed
  }

  /** Whatever is cut short: .complete never outlives what it vouches for exactly when it is removed before
      manifest.csv and before manifest.sha256. */
  lemma StoredExactlyInOrder(rank: Ranking)
    ensures AlwaysStored(rank) <==> KeepsRows(rank) && KeepsManifest(rank)
  {
    if KeepsRows(rank) && KeepsManifest(rank) {
      forall states, d | Run(states) && Now(states).rank == rank && d in Now(states).files
        ensures VouchedFor(Now(states), d)
      {
        if Now(states).files[d].complete.Some? { CompleteMeansStored(states, d); }
      }
    } else {
      var setting := Setting(false, rank);
      var part := if rank(RowsPart) <= rank(ManifestPart) then RowsPart else ManifestPart;
      var states := BeingErased(setting);
      states := RemovedOne(setting, states, Whole(false), part);
      assert !VouchedFor(Now(states), EVENT);
    }
  }

  // ---- upload and retention stay apart, throughout ----

  ghost predicate AlwaysApart(rank: Ranking)
  {
    forall states, d :: Run(states) && Now(states).rank == rank && Wanted(Now(states).uploader, d) ==>
      !Erases(Now(states), d)
  }

  /** Retention never removes what the upload thread holds exactly when .complete is removed before .uploaded. */
  lemma ApartExactlyInOrder(rank: Ranking)
    ensures AlwaysApart(rank) <==> KeepsUploaded(rank)
  {
    if KeepsUploaded(rank) {
      forall states, d | Run(states) && Now(states).rank == rank && Wanted(Now(states).uploader, d)
        ensures !Erases(Now(states), d)
      {
        UploadsAreComplete(states, d);
      }
    } else {
      var setting := Setting(true, rank);
      var states := UploadedAgain(setting);
      assert Wanted(Now(states).uploader, EVENT) && Erases(Now(states), EVENT);
    }
  }

  /** What is left when .uploaded has gone first: complete, as if it had never been uploaded. */
  lemma MarkerGone(setting: Setting) returns (states: seq<State>, disk: Disk)
    requires setting.uploads && !KeepsUploaded(setting.rank)
    ensures Run(states) && Now(states) == Stripping(setting, disk) && Candidate(disk)
  {
    var rank := setting.rank;
    states := BeingErased(setting);
    disk := Whole(true);
    var low := if rank(RowsPart) <= rank(ManifestPart) then RowsPart else ManifestPart;
    var high := if low == RowsPart then ManifestPart else RowsPart;
    if rank(low) < rank(UploadedPart) {
      states := RemovedOne(setting, states, disk, low);
      disk := Stripped(disk, low);
    }
    if rank(high) < rank(UploadedPart) {
      states := RemovedOne(setting, states, disk, high);
      disk := Stripped(disk, high);
    }
    states := RemovedOne(setting, states, disk, UploadedPart);
    disk := Stripped(disk, UploadedPart);
  }

  /** The removal is cut short, and the upload thread takes up the remains while they are still on retention's list. */
  lemma UploadedAgain(setting: Setting) returns (states: seq<State>)
    requires setting.uploads && !KeepsUploaded(setting.rank)
    ensures Run(states) && Now(states).rank == setting.rank
    ensures Wanted(Now(states).uploader, EVENT) && Erases(Now(states), EVENT)
  {
    var disk;
    states, disk := MarkerGone(setting);
    states := CutShort(setting, states, disk);
  }

  lemma CutShort(setting: Setting, states: seq<State>, disk: Disk) returns (longer: seq<State>)
    requires setting.uploads && Run(states) && Now(states) == Stripping(setting, disk) && Candidate(disk)
    ensures Run(longer) && Now(longer).rank == setting.rank
    ensures Wanted(Now(longer).uploader, EVENT) && Erases(Now(longer), EVENT)
  {
    hide ExecutorStep, StorageStep, RestartStep, Init, Follows;
    var left := Scene(setting, disk, Processed.(erased := true), [], Sweeping({EVENT}, Off, Waiting), map[],
                      Listed([]));
    longer := Extended(states, SEraseFailed, left);
    longer := Extended(longer, SScan([EVENT]), left.(uploader := Listed([EVENT])));
  }
}
