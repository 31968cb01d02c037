/**
 When exactly the receiver keeps what it promises: two failures of the file system break it, each with a run of its own,
 and nothing else does.
 */
module UploadConditions {
  import opened Prelude
  import opened ReceiverNames
  import opened Receiver
  import opened ChecksumManifest
  import opened ReceiverSafety
  import opened UploadSender
  import opened UploadCompletion
  import opened UploadProtocol
  import opened UploadRuns
  import opened UploadFaults
  import opened LoneBackup

  /** The failures that are let happen: a BEGIN that takes away part of an unfinished file and then raises, and a swap
      both of whose renames raise over a published copy. */
  datatype Failures = Failures(begin: bool, swap: bool)

  /** A world reached with no other failure of these two kinds than those let happen; any other failure, crash, loss or
      repetition may have happened. */
  ghost predicate Within(w: World, f: Failures)
  {
    (w.beginFailed ==> f.begin) && (w.backupLeft ==> f.swap)
  }

  ghost predicate Reaches(c: Config, worlds: seq<World>, n: nat, f: Failures)
    requires ValidConfig(c)
  {
    Behaviour(c, worlds) && n < |worlds| && worlds[n].up && Within(worlds[n], f)
  }

  /** Whatever a running receiver shows is the whole directory of a sender, or what was there at the start. */
  ghost predicate AlwaysWhole(c: Config, f: Failures)
    requires ValidConfig(c)
  {
    forall worlds: seq<World>, n: nat, event: string ::
      Reaches(c, worlds, n, f) && ValidEventName(event) && FinalName(event) in worlds[n].store.inbox ==>
        WholeOrOld(c, worlds[0].store.inbox, worlds[n], event)
  }

  /** A running receiver shows something for every directory that was marked as uploaded. */
  ghost predicate AlwaysPublished(c: Config, f: Failures)
    requires ValidConfig(c)
  {
    forall worlds: seq<World>, n: nat, key: Key :: Reaches(c, worlds, n, f) && key in worlds[n].uploaded ==>
      FinalName(key.event) in worlds[n].store.inbox
  }

  /** A running receiver shows exactly the directory that its event's only sender marked as uploaded. */
  ghost predicate AlwaysKept(c: Config, f: Failures)
    requires ValidConfig(c)
  {
    forall worlds: seq<World>, n: nat, key: Key ::
      Reaches(c, worlds, n, f) && key in worlds[n].uploaded && OnlySender(c, key) ==>
        key in c.sources && Get(worlds[n].store.inbox, FinalName(key.event)) == Some(c.sources[key])
  }

  ghost predicate OnlySender(c: Config, key: Key) { forall k :: k in c.sources && k.event == key.event ==> k == key }

  // ---- nothing else breaks it ----

  lemma SureWithin(c: Config, worlds: seq<World>, n: nat, f: Failures)
    requires ValidConfig(c) && Reaches(c, worlds, n, f)
    ensures !f.begin ==> worlds[n].doubtful == {}
    ensures !f.swap ==> worlds[n].stranded == {} && worlds[n].lost == {}
  {
    hide Behaviour;
    UndisturbedIsSure(c, worlds, n);
  }

  lemma WholeWithout(c: Config, f: Failures)
    requires ValidConfig(c) && !f.begin && !f.swap
    ensures AlwaysWhole(c, f)
  {
    forall worlds: seq<World>, n: nat, event: string |
      Reaches(c, worlds, n, f) && ValidEventName(event) && FinalName(event) in worlds[n].store.inbox
      ensures WholeOrOld(c, worlds[0].store.inbox, worlds[n], event)
    {
      SureWithin(c, worlds, n, f);
      hide Behaviour, ValidConfig, WholeOrOld, ValidEventName;
      PublishedIsWholeSource(c, worlds, n, event);
    }
  }

  lemma PublishedWithout(c: Config, f: Failures)
    requires ValidConfig(c) && !f.swap
    ensures AlwaysPublished(c, f)
  {
    forall worlds: seq<World>, n: nat, key: Key | Reaches(c, worlds, n, f) && key in worlds[n].uploaded
      ensures FinalName(key.event) in worlds[n].store.inbox
    {
      SureWithin(c, worlds, n, f);
      hide Behaviour, ValidConfig, ValidEventName;
      UploadedIsPublished(c, worlds, n, key);
    }
  }

  lemma KeptWithout(c: Config, f: Failures)
    requires ValidConfig(c) && !f.begin && !f.swap
    ensures AlwaysKept(c, f)
  {
    forall worlds: seq<World>, n: nat, key: Key |
      Reaches(c, worlds, n, f) && key in worlds[n].uploaded && OnlySender(c, key)
      ensures key in c.sources && Get(worlds[n].store.inbox, FinalName(key.event)) == Some(c.sources[key])
    {
      SureWithin(c, worlds, n, f);
      hide Behaviour, ValidConfig, ValidEventName;
      UploadedIsPublished(c, worlds, n, key);
    }
  }

  // ---- both do ----

  /** A running receiver shows something else for a directory that was marked as uploaded. */
  ghost predicate Broken(c: Config, key: Key, worlds: seq<World>)
    requires ValidConfig(c)
  {
    && worlds != [] && ValidEventName(key.event) && OnlySender(c, key) && key in c.sources
    && var w := Last(worlds);
       && key in w.uploaded && FinalName(key.event) in w.store.inbox
       && w.store.inbox[FinalName(key.event)] != c.sources[key]
       && !WholeOrOld(c, worlds[0].store.inbox, w, key.event)
  }

  /** The run with a failed BEGIN, and the one with a lone backup. */
  lemma BadRun(c: Config, key: Key, path: string, f: Failures) returns (worlds: seq<World>)
    requires ValidConfig(c) && Corruptible(c, key, path) && (f.begin || f.swap)
    ensures Broken(c, key, worlds) && Reaches(c, worlds, |worlds| - 1, f)
  {
    OtherFiles(c, key, path);
    hide ReceiverVerdict, BeginRefusal, NormalSource, FoldsApart, Lists, Initial, Next;
    if f.begin { worlds := FailedBeginCorrupts(c, key, path); } else { worlds := LoneBackupCorrupts(c, key, path); }
  }

  /** Published copies are whole in all runs exactly when neither failure happens. */
  lemma WholeExactlyWithoutBoth(c: Config, key: Key, path: string, f: Failures)
    requires ValidConfig(c) && Corruptible(c, key, path)
    ensures AlwaysWhole(c, f) <==> !f.begin && !f.swap
  {
    hide Reaches, Corruptible, WholeOrOld, OnlySender, ValidEventName, ValidConfig, Behaviour;
    if f.begin || f.swap {
      var worlds := BadRun(c, key, path, f);
      assert !AlwaysWhole(c, f);
    } else {
      WholeWithout(c, f);
    }
  }

  /** An uploaded directory is shown in all runs exactly when no swap leaves a lone backup; failing BEGINs do not
      matter. */
  lemma PublishedExactlyWithoutLoneBackups(c: Config, key: Key, f: Failures)
    requires ValidConfig(c) && Takeable(c, key)
    ensures AlwaysPublished(c, f) <==> !f.swap
  {
    if f.swap {
      var worlds, at := LoneBackupHides(c, key);
      hide Takeable;
      assert Reaches(c, worlds, |worlds| - 1, f);
      assert !AlwaysPublished(c, f);
    } else {
      PublishedWithout(c, f);
    }
  }

  /** And it is shown as it is exactly when neither failure happens. */
  lemma KeptExactlyWithoutBoth(c: Config, key: Key, path: string, f: Failures)
    requires ValidConfig(c) && Corruptible(c, key, path)
    ensures AlwaysKept(c, f) <==> !f.begin && !f.swap
  {
    hide Reaches, Corruptible, WholeOrOld, OnlySender, ValidEventName, ValidConfig, Behaviour;
    if f.begin || f.swap {
      var worlds := BadRun(c, key, path, f);
      assert !AlwaysKept(c, f);
    } else {
      KeptWithout(c, f);
    }
  }
}
