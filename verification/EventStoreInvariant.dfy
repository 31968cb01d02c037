/** What every reachable state of the event store satisfies, one directory at a time. */
module EventStoreInvariant {
  import opened Prelude
  import opened EventStore

  // ---- one directory, seen from every thread ----

  /** What the executor still has to do for the event. */
  datatype Hold = Free | Fresh(post: bool) | Armed | Due | Dropping(stage: nat)

  /** What the storage thread is doing for it. */
  datatype Work =
    | Elsewhere
    | Writes(final: bool, persisted: nat, buffered: nat, ok: bool)
    | Seals(n: nat)
    | Completes(n: nat, stage: nat)
    | Rejects(stage: nat)

  /** Where retention stands with it: in its list, looked at so far, or being removed. */
  datatype Doom = Doom(collected: bool, stage: nat, complete: bool, erasing: bool)

  const Spared := Doom(false, 0, false, false)

  datatype View = View(disk: Option<Disk>, log: Option<Log>, born: bool, hold: Hold, queued: seq<bool>, work: Work,
                       progress: Progress, wanted: bool, doom: Doom)

  function HoldOf(executor: Executor, active: set<Name>, d: Name): Hold
  {
    var rest := if d in active then Armed else Free;
    match executor
    case Begun(e, post) => if e == d then Fresh(post) else rest
    case Releasing(refused) => if refused == Some(d) then Dropping(0) else rest
    case Failing(e, stage, tasks) => if e == d then Dropping(stage) else if d in tasks then Due else rest
    case Harvesting(tasks) => if d in tasks then Due else rest
    case _ => rest
  }

  function QueuedFor(jobs: seq<Job>, d: Name): seq<bool>
  {
    if jobs == [] then [] else (if jobs[0].dir == d then [jobs[0].final] else []) + QueuedFor(jobs[1..], d)
  }

  function WorkOn(worker: Worker, d: Name): Work
  {
    match worker
    case Waiting => Elsewhere
    case Writing(job, persisted, buffered, ok) =>
      if job.dir == d then Writes(job.final, persisted, buffered, ok) else Elsewhere
    case Sealing(e, n) => if e == d then Seals(n) else Elsewhere
    case Completing(e, n, stage) => if e == d then Completes(n, stage) else Elsewhere
    case Rejecting(e, stage) => if e == d then Rejects(stage) else Elsewhere
    case Sweeping(_, _, resume) => WorkOn(resume, d)
  }

  /** Waiting for upload, or being uploaded. */
  predicate Wanted(uploader: Uploader, d: Name)
  {
    match uploader
    case Listed(list) => d in list
    case Transferring(e, rest) => d == e || d in rest
    case Leaving(_, rest) => d in rest
  }

  function DoomOf(worker: Worker, d: Name): Doom
  {
    if !worker.Sweeping? then Spared
    else
      match worker.probe
      case Off => Doom(d in worker.collected, 0, false, false)
      case At(e, stage, complete) =>
        if e == d then Doom(d in worker.collected, stage, complete, false)
        else Doom(d in worker.collected, 0, false, false)
      case Erasing(e) => Doom(d in worker.collected, 0, false, e == d)
  }

  function ViewOf(s: State, d: Name): View
  {
    View(Get(s.files, d), Get(s.log, d), d in s.born, HoldOf(s.executor, s.active, d), QueuedFor(s.queue.jobs, d),
         WorkOn(s.worker, d), ProgressOf(s.progress, d), Wanted(s.uploader, d), DoomOf(s.worker, d))
  }

  // ---- the invariant of one directory ----

  function Script(post: bool): seq<bool> { if post then [false, true] else [true] }

  function Finals(done: seq<Done>): seq<bool>
  {
    if done == [] then [] else Finals(done[..|done| - 1]) + [done[|done| - 1].final]
  }

  predicate AllOk(done: seq<Done>) { forall x :: x in done ==> x.ok }

  function Persisted(done: seq<Done>): nat
  {
    if done == [] then 0 else Persisted(done[..|done| - 1]) + done[|done| - 1].persisted
  }

  /** Every job of the event was processed, in order, and all of them well. */
  predicate Succeeded(log: Log, n: nat)
  {
    !log.dropped && Finals(log.done) == Script(log.post) && AllOk(log.done) && Persisted(log.done) == n > 0
  }

  /** The order of removal takes .complete before what it vouches for, or before .uploaded. */
  predicate KeepsRows(rank: Ranking) { rank(CompletePart) < rank(RowsPart) }
  predicate KeepsManifest(rank: Ranking) { rank(CompletePart) < rank(ManifestPart) }
  predicate KeepsUploaded(rank: Ranking) { rank(CompletePart) < rank(UploadedPart) }

  ghost predicate Persistent(disk: Option<Disk>, log: Option<Log>, rank: Ranking)
  {
    && (log.None? ==> disk.None? || disk.value == Bare)
    && (log.Some? && log.value.erased ==> disk.None? || !disk.value.pending)
    && (log.Some? && !log.value.erased ==>
          && disk.Some? && (disk.value.pending || disk.value.complete.Some? || disk.value.failed)
          && (disk.value.uploaded ==> disk.value.complete.Some?))
    && (disk.Some? && disk.value.complete.Some? ==> log.Some? && Stored(disk.value, log.value, rank))
  }

  /** What a .complete on disk stands for. */
  ghost predicate Stored(disk: Disk, log: Log, rank: Ranking)
    requires disk.complete.Some?
  {
    && !disk.failed && Succeeded(log, disk.complete.value)
    && (!log.erased || KeepsRows(rank) ==> disk.rows == disk.complete.value)
    && (!log.erased || KeepsManifest(rank) ==> disk.sealed)
  }

  function Current(work: Work): seq<bool> { if work.Writes? then [work.final] else [] }

  /** Jobs are processed in the order they were handed over, and no others. */
  ghost predicate Accounted(v: View, log: Log)
  {
    log.submitted == Finals(log.done) + Current(v.work) + v.queued && log.submitted <= Script(log.post)
  }

  ghost predicate HoldOk(v: View, log: Log)
  {
    && (match v.hold
        case Free => !log.dropped ==> log.submitted == Script(log.post)
        case Fresh(post) => log.post == post && log.submitted == [] && !log.dropped
        case Armed => log.post && log.submitted == [false] && !log.dropped
        case Due => log.post && log.submitted == [false] && !log.dropped
        case Dropping(stage) =>
          && log.dropped && stage <= 2
          && (stage <= 1 ==> !log.erased && v.disk.Some? && v.disk.value.pending)
          && (stage == 1 ==> v.disk.Some? && v.disk.value.failed))
    && (log.dropped ==> log.submitted == [])
  }

  /** Until its last job is processed an event is pending and its rows are all accounted for. */
  ghost predicate Underway(v: View, log: Log)
  {
    !log.dropped && Finals(log.done) != Script(log.post) ==>
      && !log.erased && v.disk.Some? && v.disk.value.pending && v.disk.value.complete.None? && !v.disk.value.failed
      && v.progress == Progress(!AllOk(log.done), Persisted(log.done))
      && (AllOk(log.done) && v.work.Elsewhere? ==> v.disk.value.rows == Persisted(log.done))
      && (AllOk(log.done) && v.work.Writes? && v.work.ok ==>
            v.disk.value.rows + v.work.buffered == Persisted(log.done) + v.work.persisted)
  }

  ghost predicate WorkOk(v: View, log: Log)
  {
    match v.work
    case Elsewhere => true
    case Writes(_, _, _, _) => true
    case Seals(n) =>
      && Succeeded(log, n) && !log.erased && v.disk.Some? && v.disk.value.rows == n
      && v.disk.value.pending && v.disk.value.complete.None? && !v.disk.value.failed
    case Completes(n, stage) =>
      && Succeeded(log, n) && !log.erased && stage <= 3 && v.disk.Some? && v.disk.value.rows == n && v.disk.value.sealed
      && (if stage == 0 then v.disk.value.pending && v.disk.value.complete.None? && !v.disk.value.failed
          else v.disk.value.complete == Some(n))
    case Rejects(stage) =>
      && !log.dropped && Finals(log.done) == Script(log.post) && !log.erased && stage <= 3
      && v.disk.Some? && v.disk.value.complete.None?
      && (stage == 0 ==> v.disk.value.pending && !v.disk.value.failed)
      && (stage == 1 || stage == 2 ==> v.disk.value.failed)
  }

  ghost predicate Volatile(v: View)
  {
    if v.born then
      && v.log.Some? && Accounted(v, v.log.value) && HoldOk(v, v.log.value) && Underway(v, v.log.value)
      && WorkOk(v, v.log.value)
    else v.hold.Free? && v.queued == [] && v.work.Elsewhere? && v.progress == Progress(false, 0)
  }

  /** What the upload thread holds is a candidate, whatever retention has begun to remove, if .complete goes first. */
  ghost predicate WantedOk(v: View, rank: Ranking, uploads: bool)
  {
    v.wanted ==>
      uploads && v.log.Some? && (!v.log.value.erased || KeepsUploaded(rank) ==> v.disk.Some? && Candidate(v.disk.value))
  }

  /** What retention may remove. */
  ghost predicate Deletable(disk: Disk, uploads: bool)
  {
    !disk.pending && (disk.failed || (disk.complete.Some? && (uploads ==> disk.uploaded)))
  }

  predicate Doomed(doom: Doom) { doom.collected || doom.erasing }

  ghost predicate DoomOk(v: View, rank: Ranking, uploads: bool)
  {
    && (Doomed(v.doom) ==>
          && v.log.Some? && v.disk.Some? && !v.disk.value.pending
          && (!v.log.value.erased ==> Deletable(v.disk.value, uploads))
          && (v.disk.value.complete.Some? && uploads && KeepsUploaded(rank) ==> v.disk.value.uploaded))
    && (v.doom.stage >= 1 ==> v.disk.Some? && !v.disk.value.pending)
    && (v.doom.stage >= 3 && v.doom.complete ==> v.disk.Some? && v.disk.value.complete.Some?)
    && (v.doom.stage >= 4 && !v.doom.complete ==> v.disk.Some? && v.disk.value.failed)
    && (v.doom.stage >= 5 ==> v.disk.Some? && Deletable(v.disk.value, uploads))
  }

  ghost predicate ViewOk(v: View, rank: Ranking, uploads: bool)
  {
    Persistent(v.disk, v.log, rank) && Volatile(v) && WantedOk(v, rank, uploads) && DoomOk(v, rank, uploads)
  }

  ghost predicate DirOk(s: State, d: Name) { ViewOk(ViewOf(s, d), s.rank, s.uploads) }

  // ---- what ties the directories together ----

  /** Queue slots the executor itself holds at this point. */
  function Held(executor: Executor): nat
  {
    match executor
    case Idle => 0
    case Holding(_, _) => 1
    case Begun(_, post) => if post then 0 else 1
    case Releasing(_) => 1
    case Failing(_, _, rest) => |rest|
    case Harvesting(tasks) => |tasks|
  }

  ghost predicate SlotsOk(s: State)
  {
    && s.queue.reserved == |s.active| + Held(s.executor)
    && |s.queue.jobs| + s.queue.reserved <= s.queue.limit
    && |s.active| <= s.maxActive
  }

  ghost predicate Apart(names: seq<Name>, others: set<Name>)
  {
    Distinct(names) && forall d :: d in names ==> d !in others
  }

  ghost predicate ExecutorOk(s: State)
  {
    (s.queue.stopping ==> s.executor.Idle?) &&
    match s.executor
    case Idle => true
    case Holding(d, _) => d !in s.log && d !in s.files && d !in s.born
    case Begun(d, post) => d in s.active <==> post
    case Releasing(refused) => refused.Some? ==> refused.value !in s.active
    case Failing(d, _, rest) => Apart([d] + rest, s.active)
    case Harvesting(tasks) => tasks != [] && Apart(tasks, s.active)
  }

  ghost predicate WorkerOk(s: State)
  {
    s.worker.Sweeping? ==>
      && (s.worker.resume.Waiting? || s.worker.resume.Writing?) && (s.worker.probe.At? ==> s.worker.probe.stage >= 1)
      && (s.worker.probe.Erasing? ==> s.worker.probe.d in s.worker.collected)
  }

  ghost predicate UploaderOk(s: State)
  {
    match s.uploader
    case Listed(list) => Distinct(list)
    case Transferring(d, rest) => Distinct([d] + rest)
    case Leaving(_, rest) => Distinct(rest)
  }

  /** Nothing else runs while the markers are reconciled. */
  ghost predicate PhaseOk(s: State)
  {
    s.phase.Reconciling? ==>
      && s.born == {} && s.queue.jobs == [] && !s.queue.stopping && s.active == {} && s.executor == Idle
      && s.worker == Waiting
      && s.progress == map[] && s.uploader == Listed([]) && s.phase.todo <= s.files.Keys
      && (s.phase.at.Some? ==>
            && s.phase.stage <= 2 && s.phase.at.value in s.files && s.phase.at.value !in s.phase.todo
            && var disk := s.files[s.phase.at.value];
               && disk.complete.None?
               && (if s.phase.stage == 0 then disk.pending && !disk.failed else disk.failed)
               && (s.phase.stage == 2 && s.phase.clean ==> !disk.pending))
      && (s.phase.clean ==>
          forall d :: d in s.files && d !in s.phase.todo && s.phase.at != Some(d) ==> !s.files[d].pending)
  }

  ghost predicate Global(s: State) { SlotsOk(s) && ExecutorOk(s) && WorkerOk(s) && UploaderOk(s) && PhaseOk(s) }

  ghost predicate Inv(s: State) { Global(s) && forall d :: DirOk(s, d) }

  lemma InitHolds(s: State)
    requires Init(s)
    ensures Inv(s)
  {
    forall d ensures DirOk(s, d) {}
  }
}
