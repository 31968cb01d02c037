/** Every step of the event store keeps the invariant. */
module EventStoreSteps {
  import opened Prelude
  import opened EventStore
  import opened EventStoreInvariant

  // ---- tools ----

  lemma OtherwiseTheSame(s: State, t: State, d: Name)
    requires DirOk(s, d) && ViewOf(t, d) == ViewOf(s, d) && t.uploads == s.uploads && t.rank == s.rank
    ensures DirOk(t, d)
  {}

  lemma BornIsLogged(s: State, d: Name)
    requires DirOk(s, d)
    ensures d in s.born ==> d in s.log
    ensures d !in s.born ==>
              d !in s.active && HoldOf(s.executor, s.active, d).Free? && ProgressOf(s.progress, d) == Progress(false, 0)
                             && QueuedFor(s.queue.jobs, d) == [] && WorkOn(s.worker, d).Elsewhere?
  {}

  lemma FirstIsApart(d: Name, rest: seq<Name>, others: set<Name>)
    requires Apart([d] + rest, others)
    ensures d !in rest && d !in others && Apart(rest, others)
  {
    var all := [d] + rest;
    assert forall i :: 0 <= i < |rest| ==> all[i + 1] == rest[i] && all[0] != all[i + 1];
  }

  lemma RunningPhase(s: State)
    requires s.phase.Running?
    ensures PhaseOk(s)
  {}

  lemma {:induction false} QueuedForAppend(jobs: seq<Job>, job: Job, d: Name)
    ensures QueuedFor(jobs + [job], d) == QueuedFor(jobs, d) + if job.dir == d then [job.final] else []
  {
    if jobs == [] {
      assert (jobs + [job])[1..] == [];
    } else {
      QueuedForAppend(jobs[1..], job, d);
      assert (jobs + [job])[1..] == jobs[1..] + [job];
    }
  }

  // ---- executor: taking and giving back a slot ----

  lemma ReserveKeeps(s: State, d: Name, post: bool)
    requires Inv(s) && CanReserve(s, d)
    ensures Inv(Reserve(s, d, post))
  {
    var t := Reserve(s, d, post);
    assert DirOk(s, d);
    BornIsLogged(s, d);
    RunningPhase(t);
    hide ViewOk, PhaseOk;
    forall e ensures DirOk(t, e) { assert DirOk(s, e); OtherwiseTheSame(s, t, e); }
  }

  lemma RefuseKeeps(s: State)
    requires Inv(s) && CanRefuse(s)
    ensures Inv(Refuse(s))
  {
    var t := Refuse(s);
    RunningPhase(t);
    hide ViewOk, PhaseOk;
    forall e ensures DirOk(t, e) { assert DirOk(s, e); OtherwiseTheSame(s, t, e); }
  }

  lemma ReleaseDir(s: State, e: Name)
    requires DirOk(s, e) && CanRelease(s)
    ensures DirOk(Release(s), e)
  {
    hide ViewOk;
    OtherwiseTheSame(s, Release(s), e);
  }

  lemma ReleaseGlobal(s: State)
    requires Global(s) && CanRelease(s)
    ensures Global(Release(s))
  {
    RunningPhase(Release(s));
    hide PhaseOk;
  }

  // ---- executor: beginning an event ----

  lemma BareView(v: View, rank: Ranking, uploads: bool)
    requires ViewOk(v, rank, uploads) && !v.born && v.log.None? && v.disk.None?
    ensures ViewOk(v.(disk := Some(Bare)), rank, uploads)
  {}

  lemma LeaveBareDir(s: State, e: Name)
    requires DirOk(s, e) && CanBegin(s) && s.executor.d !in s.log && s.executor.d !in s.files && s.executor.d !in s.born
    ensures DirOk(LeaveBare(s), e)
  {
    hide ViewOk, QueuedFor, WorkOn, Wanted, DoomOf;
    var t := LeaveBare(s);
    if e != s.executor.d {
      OtherwiseTheSame(s, t, e);
    } else {
      BareView(ViewOf(s, e), s.rank, s.uploads);
      assert ViewOf(t, e) == ViewOf(s, e).(disk := Some(Bare));
    }
  }

  lemma LeaveBareGlobal(s: State)
    requires Global(s) && CanBegin(s)
    ensures Global(LeaveBare(s))
  {
    RunningPhase(LeaveBare(s));
    hide PhaseOk;
  }

  function BegunView(v: View, post: bool): View
  {
    v.(disk := Some(Put(Bare, Pending)), log := Some(Log(post, false, false, [], [])), born := true,
       hold := Fresh(post))
  }

  lemma BeginView(v: View, post: bool, rank: Ranking, uploads: bool)
    requires ViewOk(v, rank, uploads) && !v.born && v.log.None? && v.disk.None?
    ensures ViewOk(BegunView(v, post), rank, uploads)
  {}

  lemma BeginDir(s: State, e: Name)
    requires DirOk(s, e) && CanBegin(s) && s.executor.d !in s.log && s.executor.d !in s.files && s.executor.d !in s.born
    ensures DirOk(Begin(s), e)
  {
    hide ViewOk, QueuedFor, WorkOn, Wanted, DoomOf;
    var t := Begin(s);
    if e != s.executor.d {
      OtherwiseTheSame(s, t, e);
    } else {
      BeginView(ViewOf(s, e), s.executor.post, s.rank, s.uploads);
      assert ViewOf(t, e) == BegunView(ViewOf(s, e), s.executor.post);
    }
  }

  lemma BeginGlobal(s: State)
    requires Global(s) && CanBegin(s) && DirOk(s, s.executor.d)
    ensures Global(Begin(s))
  {
    BornIsLogged(s, s.executor.d);
    RunningPhase(Begin(s));
    hide DirOk, PhaseOk;
  }

  // ---- executor: handing jobs over ----

  function FirstView(v: View, post: bool): View
    requires v.log.Some?
  {
    v.(log := Some(v.log.value.(submitted := v.log.value.submitted + [!post])), hold := if post then Armed else Free,
       queued := v.queued + [!post])
  }

  lemma FirstViewOk(v: View, post: bool, rank: Ranking, uploads: bool)
    requires ViewOk(v, rank, uploads) && v.born && v.log.Some? && v.hold == Fresh(post)
    ensures ViewOk(FirstView(v, post), rank, uploads)
  {
    assert v.log.value.submitted == [] && v.queued == [] && v.work.Elsewhere?;
  }

  lemma EnqueueFirstDir(s: State, e: Name)
    requires DirOk(s, e) && CanEnqueueFirst(s, true) && (s.executor.d in s.active <==> s.executor.post)
    requires s.executor.d in s.born
    ensures DirOk(EnqueueFirst(s), e)
  {
    hide ViewOk, WorkOn, Wanted, DoomOf;
    var t, d, post := EnqueueFirst(s), s.executor.d, s.executor.post;
    QueuedForAppend(s.queue.jobs, Job(d, !post), e);
    if e != d {
      OtherwiseTheSame(s, t, e);
    } else {
      FirstViewOk(ViewOf(s, e), post, s.rank, s.uploads);
      assert ViewOf(t, e) == FirstView(ViewOf(s, e), post);
    }
  }

  lemma EnqueueFirstGlobal(s: State)
    requires Global(s) && CanEnqueueFirst(s, true)
    ensures Global(EnqueueFirst(s))
  {
    RunningPhase(EnqueueFirst(s));
    hide PhaseOk;
  }

  function DroppedView(v: View): View
    requires v.log.Some?
  {
    v.(log := Some(v.log.value.(dropped := true)), hold := Dropping(0))
  }

  lemma DroppedViewOk(v: View, rank: Ranking, uploads: bool)
    requires ViewOk(v, rank, uploads) && v.born && v.log.Some? && v.hold.Fresh?
    ensures ViewOk(DroppedView(v), rank, uploads)
  {
    assert |Finals(v.log.value.done)| <= |v.log.value.submitted| < |Script(v.log.value.post)|;
  }

  lemma RefuseFirstDir(s: State, e: Name)
    requires DirOk(s, e) && CanEnqueueFirst(s, false) && s.executor.d in s.born
    ensures DirOk(RefuseFirst(s), e)
  {
    hide ViewOk, WorkOn, Wanted, DoomOf, QueuedFor;
    var t, d := RefuseFirst(s), s.executor.d;
    if e != d {
      OtherwiseTheSame(s, t, e);
    } else {
      DroppedViewOk(ViewOf(s, e), s.rank, s.uploads);
      assert ViewOf(t, e) == DroppedView(ViewOf(s, e));
    }
  }

  lemma RefuseFirstGlobal(s: State)
    requires Global(s) && CanEnqueueFirst(s, false)
    ensures Global(RefuseFirst(s))
  {
    RunningPhase(RefuseFirst(s));
    hide PhaseOk;
  }

  // ---- executor: failing an event ----

  function FailedView(v: View): View
    requires v.disk.Some? && v.hold.Dropping?
  {
    v.(disk := Some(FailOp(v.disk.value, v.hold.stage)),
       hold := if v.hold.stage >= 2 then Free else Dropping(v.hold.stage + 1))
  }

  lemma FailedViewOk(v: View, rank: Ranking, uploads: bool)
    requires ViewOk(v, rank, uploads) && v.born && v.log.Some? && v.disk.Some? && v.hold.Dropping?
    ensures ViewOk(FailedView(v), rank, uploads)
  {}

  lemma FailOpDir(s: State, e: Name)
    requires DirOk(s, e) && CanFailOp(s) && Apart([s.executor.d] + s.executor.rest, s.active) && s.executor.d in s.born
    requires s.executor.stage <= 2
    ensures DirOk(FailOpDone(s), e)
  {
    FirstIsApart(s.executor.d, s.executor.rest, s.active);
    hide ViewOk, WorkOn, Wanted, DoomOf, QueuedFor, FailOp, Apart;
    var t := FailOpDone(s);
    if e != s.executor.d {
      OtherwiseTheSame(s, t, e);
    } else {
      BornIsLogged(s, e);
      FailedViewOk(ViewOf(s, e), s.rank, s.uploads);
      assert ViewOf(t, e) == FailedView(ViewOf(s, e));
    }
  }

  function SkippedView(v: View, ok: bool): View
    requires v.hold.Dropping?
  {
    v.(hold := if v.hold.stage >= 2 || (v.hold.stage == 0 && !ok) then Free else Dropping(v.hold.stage + 1))
  }

  lemma SkippedViewOk(v: View, ok: bool, rank: Ranking, uploads: bool)
    requires ViewOk(v, rank, uploads) && v.born && v.log.Some? && v.hold.Dropping?
    requires ok ==> v.hold.stage > 0 && v.disk.None?
    ensures ViewOk(SkippedView(v, ok), rank, uploads)
  {}

  lemma FailSkipDir(s: State, ok: bool, e: Name)
    requires DirOk(s, e) && CanFailSkip(s, ok) && Apart([s.executor.d] + s.executor.rest, s.active)
    requires s.executor.d in s.born
    ensures DirOk(FailOpSkipped(s, ok), e)
  {
    FirstIsApart(s.executor.d, s.executor.rest, s.active);
    hide ViewOk, WorkOn, Wanted, DoomOf, QueuedFor, Apart;
    var t := FailOpSkipped(s, ok);
    if e != s.executor.d {
      OtherwiseTheSame(s, t, e);
    } else {
      BornIsLogged(s, e);
      SkippedViewOk(ViewOf(s, e), ok, s.rank, s.uploads);
      assert ViewOf(t, e) == SkippedView(ViewOf(s, e), ok);
    }
  }

  lemma AfterFailOpOk(s: State, ok: bool)
    requires Global(s) && s.phase.Running? && s.executor.Failing?
    ensures Global(s.(executor := AfterFailOp(s.executor, ok)))
  {
    FirstIsApart(s.executor.d, s.executor.rest, s.active);
    RunningPhase(s.(executor := AfterFailOp(s.executor, ok)));
    hide PhaseOk;
  }

  // ---- executor: the post-window batch ----

  lemma HarvestDir(s: State, tasks: seq<Name>, e: Name)
    requires DirOk(s, e) && CanHarvest(s, tasks)
    ensures DirOk(Harvest(s, tasks), e)
  {
    var t, v := Harvest(s, tasks), ViewOf(s, e);
    DueViewOk(v, s.rank, s.uploads);
    hide ViewOk, WorkOn, Wanted, DoomOf, QueuedFor;
    if e in tasks {
      assert ViewOf(t, e) == v.(hold := Due);
    } else {
      OtherwiseTheSame(s, t, e);
    }
  }

  lemma DueViewOk(v: View, rank: Ranking, uploads: bool)
    requires ViewOk(v, rank, uploads)
    ensures v.hold.Armed? ==> ViewOk(v.(hold := Due), rank, uploads)
  {}

  lemma HarvestGlobal(s: State, tasks: seq<Name>)
    requires Global(s) && CanHarvest(s, tasks)
    ensures Global(Harvest(s, tasks))
  {
    RunningPhase(Harvest(s, tasks));
    hide PhaseOk;
    NamesCount(tasks);
    assert Names(tasks) <= s.active;
    assert |s.active - Names(tasks)| == |s.active| - |tasks|;
  }

  function FinalView(v: View): View
    requires v.log.Some?
  {
    v.(log := Some(v.log.value.(submitted := v.log.value.submitted + [true])), hold := Free,
       queued := v.queued + [true])
  }

  lemma FinalViewOk(v: View, rank: Ranking, uploads: bool)
    requires ViewOk(v, rank, uploads) && v.born && v.log.Some? && v.hold.Due?
    ensures ViewOk(FinalView(v), rank, uploads)
  {
    var l := v.log.value;
    assert l.submitted + [true] == Finals(l.done) + Current(v.work) + (v.queued + [true]);
    assert |Finals(l.done)| <= |l.submitted| < |Script(l.post)|;
  }

  lemma EnqueueFinalDir(s: State, e: Name)
    requires DirOk(s, e) && CanEnqueueFinal(s, true) && Apart(s.executor.tasks, s.active)
    requires s.executor.tasks[0] in s.born
    ensures DirOk(EnqueueFinal(s), e)
  {
    var t, tasks := EnqueueFinal(s), s.executor.tasks;
    QueuedForAppend(s.queue.jobs, Job(tasks[0], true), e);
    assert tasks == [tasks[0]] + tasks[1..];
    FirstIsApart(tasks[0], tasks[1..], s.active);
    hide ViewOk, WorkOn, Wanted, DoomOf, Apart, QueuedFor;
    if e != tasks[0] {
      OtherwiseTheSame(s, t, e);
    } else {
      FinalViewOk(ViewOf(s, e), s.rank, s.uploads);
      assert ViewOf(t, e) == FinalView(ViewOf(s, e));
    }
  }

  lemma EnqueueFinalGlobal(s: State)
    requires Global(s) && CanEnqueueFinal(s, true)
    ensures Global(EnqueueFinal(s))
  {
    var tasks := s.executor.tasks;
    assert tasks == [tasks[0]] + tasks[1..];
    FirstIsApart(tasks[0], tasks[1..], s.active);
    RunningPhase(EnqueueFinal(s));
    hide PhaseOk;
  }

  /** A capture's last batch has its own slot, and nobody stops the storage thread during a callback. */
  lemma FinalIsAccepted(s: State)
    requires ExecutorOk(s) && s.executor.Harvesting? && s.executor.tasks != []
    ensures Final(s).1
  {}

  lemma StopKeeps(s: State)
    requires Inv(s) && CanStop(s)
    ensures Inv(Stop(s))
  {
    var t := Stop(s);
    RunningPhase(t);
    hide PhaseOk;
    forall e ensures DirOk(t, e) {
      assert DirOk(s, e);
      assert ViewOf(t, e) == ViewOf(s, e);
    }
  }
}
