/**
 How an event directory comes to be complete, include/event_monitor.hpp:89-247, raw_storage_worker.hpp:70-110 and
 291-499, event_state.hpp, and what else works on it meanwhile: the uploader (upload_worker.hpp:103-163) and
 retention (disk_space_manager.hpp:70-158). One executor thread, one storage thread and one upload thread take
 turns lock by lock and file operation by file operation - a directory's removal included -; the process can die
 between any two of them.
 */
module EventStore {
  import opened Prelude

  type Name = string

  // ---- the storage queue ----

  datatype Job = Job(dir: Name, final: bool)

  datatype Queue = Queue(jobs: seq<Job>, reserved: nat, limit: nat, stopping: bool)

  function Enqueued(q: Queue, job: Job, reserved: bool): (Queue, bool)
  {
    var slots := if reserved && q.reserved > 0 then q.reserved - 1 else q.reserved;
    if q.stopping || (!reserved && |q.jobs| + q.reserved >= q.limit) then (q.(reserved := slots), false)
    else (q.(jobs := q.jobs + [job], reserved := slots), true)
  }

  function Reserved(q: Queue): (Queue, bool)
  {
    if q.stopping || |q.jobs| + q.reserved >= q.limit then (q, false) else (q.(reserved := q.reserved + 1), true)
  }

  function Released(q: Queue): Queue
  {
    if q.reserved > 0 then q.(reserved := q.reserved - 1) else q
  }

  // ---- an event directory on disk ----

  /** Its marker files (complete holds N of "records=N"), the data rows of manifest.csv, and whether manifest.sha256
      has been written. */
  datatype Disk = Disk(pending: bool, complete: Option<nat>, failed: bool, uploading: bool, uploaded: bool, rows: nat,
                       sealed: bool)

  const Bare := Disk(false, None, false, false, false, 0, false)

  /** What really happened to an event, whatever is left on disk; erased: retention has removed something of it. */
  datatype Log = Log(post: bool, dropped: bool, erased: bool, submitted: seq<bool>, done: seq<Done>)

  /** A processed job: the last one of its event or not, whether all went well, the rows it counted. */
  datatype Done = Done(final: bool, ok: bool, persisted: nat)

  datatype Marker = Pending | Complete(n: nat) | Failed | Uploading | Uploaded

  function Put(disk: Disk, m: Marker): Disk
  {
    match m
    case Pending => disk.(pending := true)
    case Complete(n) => disk.(complete := Some(n))
    case Failed => disk.(failed := true)
    case Uploading => disk.(uploading := true)
    case Uploaded => disk.(uploaded := true)
  }

  function Removed(disk: Disk, m: Marker): Disk
  {
    match m
    case Pending => disk.(pending := false)
    case Complete(_) => disk.(complete := None)
    case Failed => disk.(failed := false)
    case Uploading => disk.(uploading := false)
    case Uploaded => disk.(uploaded := false)
  }

  function DiskOf(files: map<Name, Disk>, d: Name): Disk { if d in files then files[d] else Bare }

  /** What a directory's removal takes away piece by piece. */
  datatype Part = PendingPart | CompletePart | FailedPart | UploadingPart | UploadedPart | RowsPart | ManifestPart

  /** The order in which the file system yields a directory's entries for removal: lower ranks first, equal ranks in any
      order. */
  type Ranking = Part -> nat

  predicate Present(disk: Disk, part: Part)
  {
    match part
    case PendingPart => disk.pending
    case CompletePart => disk.complete.Some?
    case FailedPart => disk.failed
    case UploadingPart => disk.uploading
    case UploadedPart => disk.uploaded
    case RowsPart => disk.rows > 0
    case ManifestPart => disk.sealed
  }

  function Stripped(disk: Disk, part: Part): Disk
  {
    match part
    case PendingPart => Removed(disk, Pending)
    case CompletePart => Removed(disk, Complete(0))
    case FailedPart => Removed(disk, Failed)
    case UploadingPart => Removed(disk, Uploading)
    case UploadedPart => Removed(disk, Uploaded)
    case RowsPart => disk.(rows := 0)
    case ManifestPart => disk.(sealed := false)
  }

  /** event_state::fail: one file operation per stage. */
  function FailOp(disk: Disk, stage: nat): Disk
  {
    if stage == 0 then Put(disk, Failed) else if stage == 1 then Removed(disk, Pending) else Removed(disk, Complete(0))
  }

  /** event_state::complete. */
  function CompleteOp(disk: Disk, n: nat, stage: nat): Disk
  {
    if stage == 0 then Put(disk, Complete(n)) else if stage == 1 then Removed(disk, Pending) else Removed(disk, Failed)
  }

  // ---- threads ----

  datatype Executor =
    | Idle
    | Holding(d: Name, post: bool)
    | Begun(d: Name, post: bool)
    | Releasing(refused: Option<Name>)
    | Failing(d: Name, stage: nat, rest: seq<Name>)
    | Harvesting(tasks: seq<Name>)

  datatype Worker =
    | Waiting
    | Writing(job: Job, persisted: nat, buffered: nat, ok: bool)
    | Sealing(d: Name, n: nat)
    | Completing(d: Name, n: nat, stage: nat)
    | Rejecting(d: Name, stage: nat)
    | Sweeping(collected: set<Name>, probe: Probe, resume: Worker)

  /** How far retention has looked at a directory's markers, or the directory it is removing. */
  datatype Probe = Off | At(d: Name, stage: nat, complete: bool) | Erasing(d: Name)

  datatype Uploader = Listed(list: seq<Name>) | Transferring(d: Name, rest: seq<Name>)
    | Leaving(d: Name, rest: seq<Name>)

  datatype Phase = Running | Reconciling(todo: set<Name>, at: Option<Name>, stage: nat, clean: bool)

  datatype Progress = Progress(failed: bool, persisted: nat)

  /** uploads is the upload_enabled setting: it switches on both the uploader and retention's protection. */
  datatype State = State(files: map<Name, Disk>, log: map<Name, Log>, born: set<Name>, queue: Queue, active: set<Name>,
                         executor: Executor, worker: Worker, progress: map<Name, Progress>, uploader: Uploader,
                         phase: Phase, maxActive: nat, uploads: bool, rank: Ranking)

  ghost predicate Init(s: State)
  {
    && s.files == map[] && s.log == map[] && s.born == {} && s.queue.jobs == [] && s.queue.reserved == 0
    && !s.queue.stopping
    && s.active == {} && s.executor == Idle && s.worker == Waiting && s.progress == map[] && s.uploader == Listed([])
    && s.phase == Running
  }

  function OnDisk(s: State, d: Name, disk: Disk): State { s.(files := s.files[d := disk]) }

  ghost predicate Distinct(names: seq<Name>) { forall i, j :: 0 <= i < j < |names| ==> names[i] != names[j] }

  // ---- executor ----

  /** A directory name is never used twice: it holds a sequence number and a time. */
  ghost predicate CanReserve(s: State, d: Name)
  {
    s.phase.Running? && s.executor.Idle? && d !in s.files && d !in s.log && Reserved(s.queue).1
  }

  function Reserve(s: State, d: Name, post: bool): State
  {
    s.(queue := Reserved(s.queue).0, executor := Holding(d, post))
  }

  ghost predicate CanRefuse(s: State) { s.phase.Running? && s.executor.Holding? }

  /** Too many captures, or .pending cannot be written. */
  function Refuse(s: State): State { s.(executor := Releasing(None)) }

  /** The directory was made but .pending could not be written into it. */
  function LeaveBare(s: State): State
    requires s.executor.Holding?
  {
    OnDisk(s, s.executor.d, Bare).(executor := Releasing(None))
  }

  ghost predicate CanBegin(s: State)
  {
    s.phase.Running? && s.executor.Holding? && (s.executor.post ==> |s.active| < s.maxActive)
  }

  /** event_state::begin, and the capture becomes active when there is a post window. */
  function Begin(s: State): State
    requires s.executor.Holding?
  {
    var Holding(d, post) := s.executor;
    s.(files := s.files[d := Put(Bare, Pending)], log := s.log[d := Log(post, false, false, [], [])],
       born := s.born + {d}, active := if post then s.active + {d} else s.active, executor := Begun(d, post))
  }

  /** The pre-window batch, or the only batch when there is no post window. */
  function First(s: State): (Queue, bool)
    requires s.executor.Begun?
  {
    Enqueued(s.queue, Job(s.executor.d, !s.executor.post), !s.executor.post)
  }

  ghost predicate CanEnqueueFirst(s: State, accepted: bool)
  {
    s.phase.Running? && s.executor.Begun? && s.executor.d in s.log && First(s).1 == accepted
  }

  function EnqueueFirst(s: State): State
    requires CanEnqueueFirst(s, true)
  {
    var d, post := s.executor.d, s.executor.post;
    s.(queue := First(s).0, log := s.log[d := s.log[d].(submitted := s.log[d].submitted + [!post])], executor := Idle)
  }

  function RefuseFirst(s: State): State
    requires CanEnqueueFirst(s, false)
  {
    var d, post := s.executor.d, s.executor.post;
    s.(queue := First(s).0, log := s.log[d := s.log[d].(dropped := true)], active := s.active - {d},
       executor := if post then Releasing(Some(d)) else Failing(d, 0, []))
  }

  ghost predicate CanRelease(s: State) { s.phase.Running? && s.executor.Releasing? }

  function Release(s: State): State
    requires s.executor.Releasing?
  {
    s.(queue := Released(s.queue),
       executor := match s.executor.refused case None => Idle case Some(d) => Failing(d, 0, []))
  }

  function AfterTask(rest: seq<Name>): Executor { if rest == [] then Idle else Harvesting(rest) }

  /** When .failed cannot be written nothing is removed. */
  function AfterFailOp(executor: Executor, ok: bool): Executor
    requires executor.Failing?
  {
    var Failing(d, stage, rest) := executor;
    if stage >= 2 || (stage == 0 && !ok) then AfterTask(rest) else Failing(d, stage + 1, rest)
  }

  ghost predicate CanFailOp(s: State) { s.phase.Running? && s.executor.Failing? && s.executor.d in s.files }

  function FailOpDone(s: State): State
    requires CanFailOp(s)
  {
    var d := s.executor.d;
    s.(files := s.files[d := FailOp(s.files[d], s.executor.stage)], executor := AfterFailOp(s.executor, true))
  }

  /** The operation fails, or there is nothing left to remove. */
  ghost predicate CanFailSkip(s: State, ok: bool)
  {
    s.phase.Running? && s.executor.Failing? && (ok ==> s.executor.stage > 0 && s.executor.d !in s.files)
  }

  function FailOpSkipped(s: State, ok: bool): State
    requires CanFailSkip(s, ok)
  {
    s.(executor := AfterFailOp(s.executor, ok))
  }

  ghost predicate CanHarvest(s: State, tasks: seq<Name>)
  {
    && s.phase.Running? && s.executor.Idle? && !s.queue.stopping && Distinct(tasks) && tasks != []
    && forall d :: d in tasks ==> d in s.active
  }

  function Names(tasks: seq<Name>): set<Name> { set d | d in tasks }

  lemma {:induction false} NamesCount(tasks: seq<Name>)
    requires Distinct(tasks)
    ensures |Names(tasks)| == |tasks|
  {
    if tasks != [] {
      var front, last := tasks[..|tasks| - 1], tasks[|tasks| - 1];
      NamesCount(front);
      assert Names(tasks) == Names(front) + {last};
    }
  }

  function Harvest(s: State, tasks: seq<Name>): State
  {
    s.(active := s.active - Names(tasks), executor := Harvesting(tasks))
  }

  function Final(s: State): (Queue, bool)
    requires s.executor.Harvesting? && s.executor.tasks != []
  {
    Enqueued(s.queue, Job(s.executor.tasks[0], true), true)
  }

  ghost predicate CanEnqueueFinal(s: State, accepted: bool)
  {
    && s.phase.Running? && s.executor.Harvesting? && s.executor.tasks != [] && s.executor.tasks[0] in s.log
    && Final(s).1 == accepted
  }

  function EnqueueFinal(s: State): State
    requires CanEnqueueFinal(s, true)
  {
    var d := s.executor.tasks[0];
    s.(queue := Final(s).0, log := s.log[d := s.log[d].(submitted := s.log[d].submitted + [true])],
       executor := AfterTask(s.executor.tasks[1..]))
  }

  function RefuseFinal(s: State): State
    requires CanEnqueueFinal(s, false)
  {
    var d := s.executor.tasks[0];
    s.(queue := Final(s).0, log := s.log[d := s.log[d].(dropped := true)],
       executor := Failing(d, 0, s.executor.tasks[1..]))
  }

  /** The storage thread is told to stop when the node goes away, after the executor has returned for good. */
  ghost predicate CanStop(s: State) { s.phase.Running? && s.executor.Idle? }

  function Stop(s: State): State { s.(queue := s.queue.(stopping := true)) }

  // ---- storage thread ----

  ghost predicate CanPop(s: State) { s.phase.Running? && s.worker.Waiting? && s.queue.jobs != [] }

  function Pop(s: State): State
    requires s.queue.jobs != []
  {
    s.(queue := s.queue.(jobs := s.queue.jobs[1..]), worker := Writing(s.queue.jobs[0], 0, 0, true))
  }

  ghost predicate CanWrite(s: State) { s.phase.Running? && s.worker.Writing? }

  ghost predicate CanReopen(s: State) { CanWrite(s) && s.worker.job.dir !in s.files }

  /** create_directories brings back a directory that is gone. */
  function Reopen(s: State): State
    requires CanReopen(s)
  {
    OnDisk(s, s.worker.job.dir, Bare)
  }

  /** One record: counted and in the stream's buffer, or not stored. */
  function WriteRecord(s: State, ok: bool): State
    requires s.worker.Writing?
  {
    s.(worker := if ok then s.worker.(persisted := s.worker.persisted + 1, buffered := s.worker.buffered + 1)
                 else s.worker.(ok := false))
  }

  ghost predicate CanSpill(s: State) { CanWrite(s) && s.worker.buffered > 0 && s.worker.job.dir in s.files }

  /** A buffered row reaches the file. */
  function Spill(s: State): State
    requires CanSpill(s)
  {
    var d := s.worker.job.dir;
    s.(files := s.files[d := s.files[d].(rows := s.files[d].rows + 1)],
       worker := s.worker.(buffered := s.worker.buffered - 1))
  }

  function ProgressOf(progress: map<Name, Progress>, d: Name): Progress
  {
    if d in progress then progress[d] else Progress(false, 0)
  }

  /** A flush that succeeds leaves nothing in the buffer. */
  ghost predicate CanFinish(s: State, flushed: bool)
  {
    CanWrite(s) && s.worker.job.dir in s.log && (flushed ==> s.worker.buffered == 0)
  }

  /** What the job counts for; an exception counts no rows. */
  function Outcome(worker: Worker, flushed: bool, threw: bool): Done
    requires worker.Writing?
  {
    Done(worker.job.final, worker.ok && flushed && !threw, if threw then 0 else worker.persisted)
  }

  function Advanced(p: Progress, done: Done): Progress { Progress(p.failed || !done.ok, p.persisted + done.persisted) }

  function AfterJob(job: Job, p: Progress): Worker
  {
    if !job.final then Waiting
    else if p.failed || p.persisted == 0 then Rejecting(job.dir, 0)
    else Sealing(job.dir, p.persisted)
  }

  function Finish(s: State, flushed: bool, threw: bool): State
    requires CanFinish(s, flushed)
  {
    var job, done := s.worker.job, Outcome(s.worker, flushed, threw);
    var p := Advanced(ProgressOf(s.progress, job.dir), done);
    s.(log := s.log[job.dir := s.log[job.dir].(done := s.log[job.dir].done + [done])],
       progress := s.progress[job.dir := p], worker := AfterJob(job, p))
  }

  ghost predicate CanSeal(s: State) { s.phase.Running? && s.worker.Sealing? && s.worker.d in s.files }

  /** writeChecksumManifest. */
  function Seal(s: State): State
    requires CanSeal(s)
  {
    var d := s.worker.d;
    s.(files := s.files[d := s.files[d].(sealed := true)], worker := Completing(d, s.worker.n, 0))
  }

  function SealFailed(s: State): State
    requires CanSeal(s)
  {
    s.(worker := Rejecting(s.worker.d, 0))
  }

  ghost predicate CanCompleteOp(s: State)
  {
    s.phase.Running? && s.worker.Completing? && s.worker.stage <= 2 && s.worker.d in s.files
  }

  function CompleteOpDone(s: State): State
    requires CanCompleteOp(s)
  {
    var d, n, stage := s.worker.d, s.worker.n, s.worker.stage;
    s.(files := s.files[d := CompleteOp(s.files[d], n, stage)], worker := Completing(d, n, stage + 1))
  }

  /** A .complete that cannot be written turns the event into a failed one; a marker may stay. */
  function CompleteOpFailed(s: State): State
    requires CanCompleteOp(s)
  {
    var d, n, stage := s.worker.d, s.worker.n, s.worker.stage;
    s.(worker := if stage == 0 then Rejecting(d, 0) else Completing(d, n, stage + 1))
  }

  ghost predicate CanRejectOp(s: State)
  {
    s.phase.Running? && s.worker.Rejecting? && s.worker.stage <= 2 && s.worker.d in s.files
  }

  function RejectOpDone(s: State): State
    requires CanRejectOp(s)
  {
    var d, stage := s.worker.d, s.worker.stage;
    s.(files := s.files[d := FailOp(s.files[d], stage)], worker := Rejecting(d, stage + 1))
  }

  function RejectOpFailed(s: State): State
    requires CanRejectOp(s)
  {
    s.(worker := Rejecting(s.worker.d, if s.worker.stage == 0 then 3 else s.worker.stage + 1))
  }

  ghost predicate CanClose(s: State)
  {
    s.phase.Running? && (s.worker.Completing? || s.worker.Rejecting?) && s.worker.stage >= 3
  }

  function Close(s: State): State
    requires CanClose(s)
  {
    s.(progress := s.progress - {s.worker.d}, worker := Waiting)
  }

  // ---- retention, on the storage thread ----

  /** After a final job, or before a job writes anything. */
  ghost predicate CanSweep(s: State)
  {
    s.phase.Running? && (s.worker.Waiting? || (s.worker.Writing? && s.worker.persisted == 0 && s.worker.buffered == 0))
  }

  function Sweep(s: State): State { s.(worker := Sweeping({}, Off, s.worker)) }

  ghost predicate CanLook(s: State, d: Name)
  {
    && s.phase.Running? && s.worker.Sweeping? && d in s.files
    && !s.worker.probe.Erasing? && (s.worker.probe.At? ==> s.worker.probe.d == d)
  }

  /** The next reading of d's markers: Off when it rules d out. */
  function NextProbe(probe: Probe, d: Name, disk: Disk, uploads: bool): Probe
    requires !probe.Erasing?
  {
    if probe.Off? then (if disk.pending then Off else At(d, 1, false))
    else if probe.stage == 1 then (if disk.uploading then Off else At(d, 2, false))
    else if probe.stage == 2 then At(d, 3, disk.complete.Some?)
    else if probe.stage == 3 then (if !probe.complete && !disk.failed then Off else At(d, 4, probe.complete))
    else if uploads && probe.complete && !disk.uploaded then Off
    else At(d, 5, probe.complete)
  }

  function Look(s: State, d: Name): State
    requires CanLook(s, d)
  {
    s.(worker := s.worker.(probe := NextProbe(s.worker.probe, d, s.files[d], s.uploads)))
  }

  ghost predicate CanCollect(s: State)
  {
    s.phase.Running? && s.worker.Sweeping? && s.worker.probe.At? && s.worker.probe.stage >= 5
  }

  function Collect(s: State): State
    requires CanCollect(s)
  {
    s.(worker := Sweeping(s.worker.collected + {s.worker.probe.d}, Off, s.worker.resume))
  }

  ghost predicate CanErase(s: State, d: Name)
  {
    s.phase.Running? && s.worker.Sweeping? && s.worker.probe.Off? && d in s.worker.collected
  }

  /** remove_all begins. */
  function Erase(s: State, d: Name): State
    requires CanErase(s, d)
  {
    s.(worker := s.worker.(probe := Erasing(d)))
  }

  /** The next of its files to go. */
  ghost predicate CanRemove(s: State, part: Part)
  {
    && s.phase.Running? && s.worker.Sweeping? && s.worker.probe.Erasing?
    && s.worker.probe.d in s.files && s.worker.probe.d in s.log && Present(s.files[s.worker.probe.d], part)
    && forall other :: Present(s.files[s.worker.probe.d], other) ==> s.rank(part) <= s.rank(other)
  }

  function Remove(s: State, part: Part): State
    requires CanRemove(s, part)
  {
    var d := s.worker.probe.d;
    s.(files := s.files[d := Stripped(s.files[d], part)], log := s.log[d := s.log[d].(erased := true)])
  }

  /** The directory itself goes once it is empty. */
  ghost predicate CanEraseDone(s: State)
  {
    && s.phase.Running? && s.worker.Sweeping? && s.worker.probe.Erasing? && s.worker.probe.d in s.log
    && (s.worker.probe.d in s.files ==> s.files[s.worker.probe.d] == Bare)
  }

  function EraseDone(s: State): State
    requires CanEraseDone(s)
  {
    var d := s.worker.probe.d;
    s.(files := s.files - {d}, log := s.log[d := s.log[d].(erased := true)],
       worker := Sweeping(s.worker.collected - {d}, Off, s.worker.resume))
  }

  /** A removal fails; the capacity pass may try the directory again. */
  ghost predicate CanEraseFailed(s: State) { s.phase.Running? && s.worker.Sweeping? && s.worker.probe.Erasing? }

  function EraseFailed(s: State): State
    requires CanEraseFailed(s)
  {
    s.(worker := s.worker.(probe := Off))
  }

  ghost predicate CanEndSweep(s: State) { s.phase.Running? && s.worker.Sweeping? && s.worker.probe.Off? }

  function EndSweep(s: State): State
    requires s.worker.Sweeping?
  {
    s.(worker := s.worker.resume)
  }

  // ---- upload thread ----

  predicate Candidate(disk: Disk) { disk.complete.Some? && !disk.uploaded }

  ghost predicate CanScan(s: State, list: seq<Name>)
  {
    && s.phase.Running? && s.uploads && s.uploader == Listed([]) && Distinct(list)
    && forall d :: d in list ==> d in s.files && Candidate(s.files[d])
  }

  function Scan(s: State, list: seq<Name>): State { s.(uploader := Listed(list)) }

  ghost predicate CanLease(s: State)
  {
    s.phase.Running? && s.uploader.Listed? && s.uploader.list != []
  }

  /** Writing a marker makes the directory if it is gone. */
  function Lease(s: State): State
    requires CanLease(s)
  {
    var d := s.uploader.list[0];
    s.(files := s.files[d := Put(DiskOf(s.files, d), Uploading)], uploader := Transferring(d, s.uploader.list[1..]))
  }

  /** Another lease is active, or .uploading cannot be written. */
  function LeaseFailed(s: State): State
    requires CanLease(s)
  {
    s.(uploader := Listed(s.uploader.list[1..]))
  }

  ghost predicate CanFinishTransfer(s: State) { s.phase.Running? && s.uploader.Transferring? }

  function MarkUploaded(s: State): State
    requires CanFinishTransfer(s)
  {
    var d := s.uploader.d;
    s.(files := s.files[d := Put(DiskOf(s.files, d), Uploaded)], uploader := Leaving(d, s.uploader.rest))
  }

  function TransferFailed(s: State): State
    requires CanFinishTransfer(s)
  {
    s.(uploader := Leaving(s.uploader.d, s.uploader.rest))
  }

  ghost predicate CanLeave(s: State) { s.phase.Running? && s.uploader.Leaving? }

  function Leave(s: State): State
    requires s.uploader.Leaving?
  {
    s.(uploader := Listed(s.uploader.rest))
  }

  /** The lease just used, or an expired one, goes away. */
  ghost predicate CanUnlease(s: State, d: Name) { s.phase.Running? && !s.uploader.Transferring? && d in s.files }

  function Unlease(s: State, d: Name): State
    requires d in s.files
  {
    OnDisk(s, d, Removed(s.files[d], Uploading))
  }

  // ---- the process dies and starts again ----

  /** The next process may have another upload_enabled setting. */
  function Crash(s: State, uploads: bool): State
  {
    s.(born := {}, queue := Queue([], 0, s.queue.limit, false), active := {}, executor := Idle, worker := Waiting,
       progress := map[], uploader := Listed([]), phase := Reconciling(s.files.Keys, None, 0, true), uploads := uploads)
  }

  ghost predicate CanVisit(s: State, d: Name)
  {
    s.phase.Reconciling? && s.phase.at.None? && d in s.phase.todo && d in s.files
  }

  predicate Decided(disk: Disk) { disk.complete.Some? || disk.failed }

  /** Nothing pending, or .pending beside a decision could not be removed. */
  function VisitPast(s: State, d: Name): State
    requires CanVisit(s, d)
  {
    s.(phase := s.phase.(todo := s.phase.todo - {d}, clean := s.phase.clean && !s.files[d].pending))
  }

  function VisitDecided(s: State, d: Name): State
    requires CanVisit(s, d)
  {
    s.(files := s.files[d := Removed(s.files[d], Pending)], phase := s.phase.(todo := s.phase.todo - {d}))
  }

  function VisitUndecided(s: State, d: Name): State
    requires CanVisit(s, d)
  {
    s.(phase := s.phase.(todo := s.phase.todo - {d}, at := Some(d), stage := 0))
  }

  ghost predicate CanRepair(s: State)
  {
    s.phase.Reconciling? && s.phase.at.Some? && s.phase.at.value in s.files
  }

  function AfterRepair(phase: Phase, ok: bool): Phase
    requires phase.Reconciling?
  {
    phase.(at := if phase.stage >= 2 || (phase.stage == 0 && !ok) then None else phase.at, stage := phase.stage + 1,
           clean := phase.clean && ok)
  }

  function Repair(s: State): State
    requires CanRepair(s)
  {
    var d := s.phase.at.value;
    s.(files := s.files[d := FailOp(s.files[d], s.phase.stage)], phase := AfterRepair(s.phase, true))
  }

  function RepairFailed(s: State): State
    requires CanRepair(s)
  {
    s.(phase := AfterRepair(s.phase, false))
  }

  ghost predicate CanStart(s: State) { s.phase.Reconciling? && s.phase.at.None? && s.phase.todo == {} }

  function Start(s: State): State { s.(phase := Running) }

  // ---- runs ----

  datatype Step =
    | SReserve(d: Name, post: bool) | SRefuse | SLeaveBare | SBegin | SEnqueueFirst | SRefuseFirst | SRelease
    | SFailOp | SFailOpSkipped(ok: bool) | SHarvest(names: seq<Name>) | SEnqueueFinal | SRefuseFinal | SStop
    | SPop | SReopen | SWriteRecord(ok: bool) | SSpill | SFinish(flushed: bool, threw: bool) | SSeal | SSealFailed
    | SCompleteOp | SCompleteOpFailed | SRejectOp | SRejectOpFailed | SClose
    | SSweep | SLook(d: Name) | SCollect | SErase(d: Name) | SRemove(part: Part) | SEraseDone | SEraseFailed | SEndSweep
    | SScan(names: seq<Name>) | SLease | SLeaseFailed | SMarkUploaded | STransferFailed | SLeave | SUnlease(d: Name)
    | SCrash(uploads: bool) | SVisitPast(d: Name) | SVisitDecided(d: Name) | SVisitUndecided(d: Name) | SRepair
      | SRepairFailed | SStart

  ghost predicate Taken(s: State, step: Step, t: State)
  {
    ExecutorStep(s, step, t) || StorageStep(s, step, t) || RetentionStep(s, step, t) || UploadStep(s, step, t)
      || RestartStep(s, step, t)
  }

  ghost predicate ExecutorStep(s: State, step: Step, t: State)
  {
    match step
    case SReserve(d, post) => CanReserve(s, d) && t == Reserve(s, d, post)
    case SRefuse => CanRefuse(s) && t == Refuse(s)
    case SLeaveBare => CanBegin(s) && t == LeaveBare(s)
    case SBegin => CanBegin(s) && t == Begin(s)
    case SEnqueueFirst => CanEnqueueFirst(s, true) && t == EnqueueFirst(s)
    case SRefuseFirst => CanEnqueueFirst(s, false) && t == RefuseFirst(s)
    case SRelease => CanRelease(s) && t == Release(s)
    case SFailOp => CanFailOp(s) && t == FailOpDone(s)
    case SFailOpSkipped(ok) => CanFailSkip(s, ok) && t == FailOpSkipped(s, ok)
    case SHarvest(names) => CanHarvest(s, names) && t == Harvest(s, names)
    case SEnqueueFinal => CanEnqueueFinal(s, true) && t == EnqueueFinal(s)
    case SRefuseFinal => CanEnqueueFinal(s, false) && t == RefuseFinal(s)
    case SStop => CanStop(s) && t == Stop(s)
    case _ => false
  }

  ghost predicate StorageStep(s: State, step: Step, t: State)
  {
    match step
    case SPop => CanPop(s) && t == Pop(s)
    case SReopen => CanReopen(s) && t == Reopen(s)
    case SWriteRecord(ok) => CanWrite(s) && t == WriteRecord(s, ok)
    case SSpill => CanSpill(s) && t == Spill(s)
    case SFinish(flushed, threw) => CanFinish(s, flushed) && t == Finish(s, flushed, threw)
    case SSeal => CanSeal(s) && t == Seal(s)
    case SSealFailed => CanSeal(s) && t == SealFailed(s)
    case SCompleteOp => CanCompleteOp(s) && t == CompleteOpDone(s)
    case SCompleteOpFailed => CanCompleteOp(s) && t == CompleteOpFailed(s)
    case SRejectOp => CanRejectOp(s) && t == RejectOpDone(s)
    case SRejectOpFailed => CanRejectOp(s) && t == RejectOpFailed(s)
    case SClose => CanClose(s) && t == Close(s)
    case _ => false
  }

  ghost predicate RetentionStep(s: State, step: Step, t: State)
  {
    match step
    case SSweep => CanSweep(s) && t == Sweep(s)
    case SLook(d) => CanLook(s, d) && t == Look(s, d)
    case SCollect => CanCollect(s) && t == Collect(s)
    case SErase(d) => CanErase(s, d) && t == Erase(s, d)
    case SRemove(part) => CanRemove(s, part) && t == Remove(s, part)
    case SEraseDone => CanEraseDone(s) && t == EraseDone(s)
    case SEraseFailed => CanEraseFailed(s) && t == EraseFailed(s)
    case SEndSweep => CanEndSweep(s) && t == EndSweep(s)
    case _ => false
  }

  ghost predicate UploadStep(s: State, step: Step, t: State)
  {
    match step
    case SScan(names) => CanScan(s, names) && t == Scan(s, names)
    case SLease => CanLease(s) && t == Lease(s)
    case SLeaseFailed => CanLease(s) && t == LeaseFailed(s)
    case SMarkUploaded => CanFinishTransfer(s) && t == MarkUploaded(s)
    case STransferFailed => CanFinishTransfer(s) && t == TransferFailed(s)
    case SLeave => CanLeave(s) && t == Leave(s)
    case SUnlease(d) => CanUnlease(s, d) && t == Unlease(s, d)
    case _ => false
  }

  ghost predicate RestartStep(s: State, step: Step, t: State)
  {
    match step
    case SCrash(uploads) => t == Crash(s, uploads)
    case SVisitPast(d) => CanVisit(s, d) && (s.files[d].pending ==> Decided(s.files[d])) && t == VisitPast(s, d)
    case SVisitDecided(d) => CanVisit(s, d) && s.files[d].pending && Decided(s.files[d]) && t == VisitDecided(s, d)
    case SVisitUndecided(d) => CanVisit(s, d) && s.files[d].pending && !Decided(s.files[d]) && t == VisitUndecided(s, d)
    case SRepair => CanRepair(s) && t == Repair(s)
    case SRepairFailed => CanRepair(s) && t == RepairFailed(s)
    case SStart => CanStart(s) && t == Start(s)
    case _ => false
  }

  ghost predicate Next(s: State, t: State) { exists step :: Taken(s, step, t) }

  ghost predicate Run(states: seq<State>)
  {
    && states != [] && Init(states[0])
    && forall i {:trigger Follows(states, i)} :: 0 < i < |states| ==> Follows(states, i)
  }

  ghost predicate Follows(states: seq<State>, i: int)
  {
    0 < i < |states| && Next(states[i - 1], states[i])
  }
}
