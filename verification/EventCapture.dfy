/**
 The objects behind the event store: the storage queue with its reserved slots (include/raw_storage_worker.hpp:70-110),
 the marker files (include/event_state.hpp:77-140) and the event monitor that accepts and harvests captures
 (include/event_monitor.hpp:134-247). That their calls are sequences of the event store's steps is proved in
 EventStoreCalls.
 */
module EventCapture {
  import opened Prelude
  import opened EventStore

  // ---- the queue ----

  class StorageQueue {
    var jobs: seq<Job>
    var reservedJobs: nat
    var stopping: bool
    const maxPendingJobs: nat

    ghost function Contents(): Queue
      reads this
    {
      Queue(jobs, reservedJobs, maxPendingJobs, stopping)
    }

    constructor (maxPendingJobs: nat)
      ensures Contents() == Queue([], 0, maxPendingJobs, false)
    {
      jobs, reservedJobs, stopping := [], 0, false;
      this.maxPendingJobs := maxPendingJobs;
    }

    method Enqueue(job: Job, reserved: bool) returns (ok: bool)
      modifies this
      ensures (Contents(), ok) == Enqueued(old(Contents()), job, reserved)
    {
      if stopping || (!reserved && |jobs| + reservedJobs >= maxPendingJobs) {
        if reserved && reservedJobs > 0 {
          reservedJobs := reservedJobs - 1;
        }
        return false;
      }
      jobs := jobs + [job];
      if reserved && reservedJobs > 0 {
        reservedJobs := reservedJobs - 1;
      }
      return true;
    }

    method ReserveSlot() returns (ok: bool)
      modifies this
      ensures (Contents(), ok) == Reserved(old(Contents()))
    {
      if stopping || |jobs| + reservedJobs >= maxPendingJobs {
        return false;
      }
      reservedJobs := reservedJobs + 1;
      return true;
    }

    method ReleaseReservation()
      modifies this
      ensures Contents() == Released(old(Contents()))
    {
      if reservedJobs > 0 {
        reservedJobs := reservedJobs - 1;
      }
    }

    /** The storage thread takes up to n jobs off the front while another thread is between two calls. */
    method Drain(n: nat)
      modifies this
      ensures Contents() == old(Contents()).(jobs := jobs)
      ensures jobs == if n <= |old(jobs)| then old(jobs)[n..] else []
    {
      jobs := if n <= |jobs| then jobs[n..] else [];
    }
  }

  // ---- the marker files ----

  /** Which file operations of one call work. */
  datatype Works = Works(written: bool, removed1: bool, removed2: bool)

  function Tried(disk: Disk, works: bool, m: Marker): Disk { if works then Removed(disk, m) else disk }

  /** event_state::fail as a whole. */
  function FailedDisk(disk: Disk, w: Works): Disk
  {
    if !w.written then disk else Tried(Tried(Put(disk, Failed), w.removed1, Pending), w.removed2, Complete(0))
  }

  function CompletedDisk(disk: Disk, n: nat, w: Works): Disk
  {
    if !w.written then disk else Tried(Tried(Put(disk, Complete(n)), w.removed1, Pending), w.removed2, Failed)
  }

  function ReconciledDisk(disk: Disk, w: Works): Disk
  {
    if !disk.pending then disk
    else if Decided(disk) then Tried(disk, w.removed1, Pending)
    else FailedDisk(disk, w)
  }

  class RecordStore {
    var files: map<Name, Disk>

    constructor ()
      ensures files == map[]
    {
      files := map[];
    }

    /** writeAtomically makes the directory first; then the marker appears or does not. */
    method WriteMarker(d: Name, m: Marker, made: bool, written: bool)
      requires written ==> made
      modifies this
      ensures files == if written then old(files)[d := Put(DiskOf(old(files), d), m)]
                       else if made then old(files)[d := DiskOf(old(files), d)] else old(files)
    {
      if made && d !in files {
        files := files[d := Bare];
      }
      if written {
        files := files[d := Put(files[d], m)];
      }
    }

    method RemoveMarker(d: Name, m: Marker, works: bool)
      modifies this
      ensures files == if works && d in old(files) then old(files)[d := Removed(old(files)[d], m)] else old(files)
    {
      if works && d in files {
        files := files[d := Removed(files[d], m)];
      }
    }

    /** writeChecksumManifest on a directory that is there. */
    method WriteChecksums(d: Name, works: bool)
      requires d in files
      modifies this
      ensures files == if works then old(files)[d := old(files)[d].(sealed := true)] else old(files)
    {
      if works {
        files := files[d := files[d].(sealed := true)];
      }
    }

    method FailDirectory(d: Name, made: bool, w: Works) returns (written: bool)
      requires w.written ==> made
      modifies this
      ensures files == if made then old(files)[d := FailedDisk(DiskOf(old(files), d), w)] else old(files)
      ensures written == w.written
    {
      WriteMarker(d, Failed, made, w.written);
      if w.written {
        RemoveMarker(d, Pending, w.removed1);
        RemoveMarker(d, Complete(0), w.removed2);
      }
      return w.written;
    }

    method CompleteDirectory(d: Name, n: nat, made: bool, w: Works) returns (written: bool)
      requires w.written ==> made
      modifies this
      ensures files == if made then old(files)[d := CompletedDisk(DiskOf(old(files), d), n, w)] else old(files)
      ensures written == w.written
    {
      WriteMarker(d, Complete(n), made, w.written);
      if w.written {
        RemoveMarker(d, Pending, w.removed1);
        RemoveMarker(d, Failed, w.removed2);
      }
      return w.written;
    }

    /** order is how the directory iterator lists the record root; works says what succeeds where. */
    method Reconcile(order: seq<Name>, works: map<Name, Works>) returns (recoveredFailures: nat, clearedPending: nat)
      requires Distinct(order) && forall d :: d in order ==> d in files && d in works
      modifies this
      ensures ReconciledAll(order, old(files), files, works)
      ensures files.Keys == old(files).Keys
      ensures forall d :: d in files ==> if d in order then Settled(old(files)[d], files[d], works[d])
                                         else files[d] == old(files)[d]
      ensures recoveredFailures == Count(order, old(files), works, true)
      ensures clearedPending == Count(order, old(files), works, false)
    {
      recoveredFailures, clearedPending := 0, 0;
      ghost var before := files;
      for i := 0 to |order|
        invariant ReconciledAll(order[..i], before, files, works)
        invariant recoveredFailures == Count(order[..i], before, works, true)
        invariant clearedPending == Count(order[..i], before, works, false)
      {
        var d := order[i];
        var disk := files[d];
        ghost var now := files;
        NextReconciled(order, i, before, now, works);
        hide ReconciledAll, Count, FailedDisk, Distinct;
        if disk.pending {
          if disk.complete.Some? || disk.failed {
            RemoveMarker(d, Pending, works[d].removed1);
            clearedPending := clearedPending + 1;
          } else {
            var written := FailDirectory(d, true, works[d]);
            if written {
              recoveredFailures := recoveredFailures + 1;
            }
          }
        }
        assert files == now || files == now[d := ReconciledDisk(disk, works[d])];
      }
      assert order[..|order|] == order;
      hide Settled;
      ReconciledSettles(order, before, files, works);
    }
  }

  /** What a restart makes of a directory: what is not pending stays as it is; a decision that was made stands, and only
      .pending may go; without one, the event has failed wherever that can be written. */
  predicate Settled(before: Disk, after: Disk, w: Works)
  {
    if !before.pending then after == before
    else if before.complete.Some? || before.failed then after == before.(pending := !w.removed1)
    else after == before.(failed := w.written, pending := !(w.written && w.removed1))
  }

  lemma ReconciledSettles(order: seq<Name>, before: map<Name, Disk>, after: map<Name, Disk>, works: map<Name, Works>)
    requires ReconciledAll(order, before, after, works)
    ensures after.Keys == before.Keys
    ensures forall d :: d in after ==> if d in order then d in works && Settled(before[d], after[d], works[d])
                                       else after[d] == before[d]
  {
  }

  /** The listed directories are reconciled, the others left alone. */
  ghost predicate ReconciledAll(order: seq<Name>, before: map<Name, Disk>, after: map<Name, Disk>,
                                works: map<Name, Works>)
  {
    && after.Keys == before.Keys && (forall d :: d in order ==> d in works)
    && forall d :: d in after ==> after[d] == if d in order then ReconciledDisk(before[d], works[d]) else before[d]
  }

  lemma NextReconciled(order: seq<Name>, i: nat, before: map<Name, Disk>, now: map<Name, Disk>, works: map<Name, Works>)
    requires i < |order| && Distinct(order) && (forall d :: d in order ==> d in before && d in works)
    requires ReconciledAll(order[..i], before, now, works)
    ensures order[i] in now && now[order[i]] == before[order[i]]
    ensures ReconciledAll(order[..i + 1], before, now[order[i] := ReconciledDisk(before[order[i]], works[order[i]])],
                          works)
    ensures ReconciledDisk(before[order[i]], works[order[i]]) == before[order[i]] ==>
              ReconciledAll(order[..i + 1], before, now, works)
    ensures forall recovered :: Count(order[..i + 1], before, works, recovered)
              == Count(order[..i], before, works, recovered) + Tallied(before[order[i]], works[order[i]], recovered)
  {
    assert order[..i + 1] == order[..i] + [order[i]] && order[i] !in order[..i];
    assert order[..i + 1][..i] == order[..i];
  }

  function Tallied(disk: Disk, w: Works, recovered: bool): nat
  {
    if disk.pending && (if recovered then !Decided(disk) && w.written else Decided(disk)) then 1 else 0
  }

  /** Directories whose crash was recorded as a failure, or whose .pending was cleared. */
  function Count(order: seq<Name>, files: map<Name, Disk>, works: map<Name, Works>, recovered: bool): nat
    requires forall d :: d in order ==> d in files && d in works
  {
    if order == [] then 0
    else
      var d := order[|order| - 1];
      Count(order[..|order| - 1], files, works, recovered) + Tallied(files[d], works[d], recovered)
  }

  // ---- the monitor ----

  /** A capture waits for sensor time to reach endTime, or for the wall clock to reach the deadline. */
  datatype Task = Task(endTime: int, wallDeadline: int)

  predicate Due(task: Task, sensorNow: Option<int>, steadyNow: int)
  {
    (sensorNow.Some? && sensorNow.value >= task.endTime) || steadyNow >= task.wallDeadline
  }

  function DueOnes(order: seq<Name>, tasks: map<Name, Task>, sensorNow: Option<int>, steadyNow: int): seq<Name>
    requires forall d :: d in order ==> d in tasks
  {
    if order == [] then []
    else
      var d := order[|order| - 1];
      DueOnes(order[..|order| - 1], tasks, sensorNow, steadyNow)
      + if Due(tasks[d], sensorNow, steadyNow) then [d] else []
  }

  function LastJobs(names: seq<Name>): (jobs: seq<Job>)
    ensures |jobs| == |names|
  {
    seq(|names|, i requires 0 <= i < |names| => Job(names[i], true))
  }

  // ---- what the monitor's calls do ----

  /** What the monitor shares with the storage thread, and its captures. */
  datatype Shared = Shared(queue: Queue, captures: set<Name>, maxActive: nat, files: map<Name, Disk>)

  /** The storage thread has taken up to n jobs off the front. */
  function Drained(q: Queue, n: nat): Queue { q.(jobs := if n <= |q.jobs| then q.jobs[n..] else []) }

  /** There is a slot, and room for one more capture if there is a post window. */
  predicate Admits(s: Shared, post: bool) { Reserved(s.queue).1 && (post ==> |s.captures| < s.maxActive) }

  /** recordDataAroundEventDetailed from the reservation on; the storage thread takes `drained` jobs before the first
      batch is handed over, made and written say how .pending fares, w how a .failed does. */
  ghost predicate Recorded(s: Shared, t: Shared, accepted: bool, d: Name, post: bool, drained: nat, made: bool,
                           written: bool, w: Works)
  {
    var q := Drained(s.queue, drained);
    && (accepted <==> Admits(s, post) && written && (post ==> |q.jobs| + q.reserved + 1 < q.limit))
    && t.maxActive == s.maxActive
    && t.captures == (if accepted && post then s.captures + {d} else s.captures)
    && t.queue == (if accepted then q.(jobs := q.jobs + [Job(d, !post)], reserved := q.reserved + if post then 1 else 0)
                   else if Admits(s, post) && written then q else s.queue)
    && t.files == (if !Admits(s, post) || !made then s.files
                   else if !written then s.files[d := Bare]
                   else if accepted then s.files[d := Put(Bare, Pending)]
                   else s.files[d := FailedDisk(Put(Bare, Pending), w)])
  }

  /** The first batch, for an event that is begun and holds a slot: handed over, or the event is given up. */
  ghost predicate FirstSubmitted(s: Shared, t: Shared, accepted: bool, d: Name, post: bool, w: Works)
  {
    && s.queue.reserved > 0 && (accepted <==> (post ==> |s.queue.jobs| + s.queue.reserved < s.queue.limit))
    && t.maxActive == s.maxActive && d in s.files
    && t.captures == (if accepted && post then s.captures + {d} else s.captures)
    && t.queue == s.queue.(jobs := if accepted then s.queue.jobs + [Job(d, !post)] else s.queue.jobs,
                           reserved := if accepted && post then s.queue.reserved else s.queue.reserved - 1)
    && t.files == if accepted then s.files else s.files[d := FailedDisk(s.files[d], w)]
  }

  /** The calls that end before .pending is there. */
  lemma EarlyRecorded(s: Shared, d: Name, post: bool, drained: nat, made: bool, w: Works)
    ensures !Admits(s, post) ==> forall written :: Recorded(s, s, false, d, post, drained, made, written, w)
    ensures Admits(s, post) && !made ==> Recorded(s, s, false, d, post, drained, made, false, w)
    ensures Admits(s, post) && made ==>
              Recorded(s, s.(files := s.files[d := Bare]), false, d, post, drained, made, false, w)
  {
  }

  lemma FirstRecorded(s: Shared, u: Shared, t: Shared, accepted: bool, d: Name, post: bool, drained: nat, w: Works)
    requires Admits(s, post) && FirstSubmitted(u, t, accepted, d, post, w)
    requires u == s.(queue := Drained(s.queue, drained).(reserved := s.queue.reserved + 1),
                     files := s.files[d := Put(Bare, Pending)])
    ensures Recorded(s, t, accepted, d, post, drained, true, true, w)
  {
    UpdateTwice(s.files, d, Put(Bare, Pending), FailedDisk(Put(Bare, Pending), w));
    hide FailedDisk;
  }

  /** processExpiredCaptures for the captures that are due: every last job goes to the queue in order; when the queue is
      stopping none does, and the refused events are marked failed. */
  ghost predicate Harvested(s: Shared, t: Shared, due: seq<Name>, refused: seq<Name>, works: map<Name, Works>)
  {
    && t.maxActive == s.maxActive && t.captures == s.captures - Names(due)
    && HandedOver(due, s.queue, t.queue, refused) && FailedIn(refused, s.files, t.files, works)
  }

  lemma HarvestedParts(s: Shared, t: Shared, due: seq<Name>, refused: seq<Name>, works: map<Name, Works>)
    requires t.maxActive == s.maxActive && t.captures == s.captures - Names(due)
    requires HandedOver(due, s.queue, t.queue, refused) && FailedIn(refused, s.files, t.files, works)
    ensures Harvested(s, t, due, refused, works)
  {
  }

  /** Each capture that ends has its last job queued - or, when the storage thread is stopping, its event has failed
      where that can be written. */
  lemma EachIsHandedOver(s: Shared, t: Shared, due: seq<Name>, refused: seq<Name>, works: map<Name, Works>)
    requires Harvested(s, t, due, refused, works) && Workable(due, s.files, works)
    ensures forall d :: d in due ==>
              && d in t.files
              && if s.queue.stopping then t.files[d].failed == (s.files[d].failed || works[d].written)
                 else Job(d, true) in t.queue.jobs && t.files[d] == s.files[d]
  {
    forall d | d in due && !s.queue.stopping ensures Job(d, true) in t.queue.jobs {
      var i :| 0 <= i < |due| && due[i] == d;
      assert LastJobs(due)[i] == Job(d, true) && LastJobs(due)[i] in LastJobs(due);
    }
  }

  class EventMonitor {
    const queue: StorageQueue
    const store: RecordStore
    var active: map<Name, Task>
    const maxActive: nat

    ghost function View(): Shared
      reads this, queue, store
    {
      Shared(queue.Contents(), active.Keys, maxActive, store.files)
    }

    /** Between callbacks each reserved slot belongs to one active capture, and the queue is within its limit. */
    ghost predicate Valid()
      reads this, queue
    {
      && queue.reservedJobs == |active| && |active| <= maxActive
      && |queue.jobs| + queue.reservedJobs <= queue.maxPendingJobs
    }

    constructor (queue: StorageQueue, store: RecordStore, maxActive: nat)
      requires queue.jobs == [] && queue.reservedJobs == 0
      ensures Valid() && this.queue == queue && this.store == store && active == map[]
    {
      this.queue, this.store, this.maxActive := queue, store, maxActive;
      active := map[];
    }

    method RecordEvent(d: Name, post: bool, task: Task, drained: nat, made: bool, written: bool, w: Works)
      returns (accepted: bool)
      requires Valid() && d !in active && d !in store.files && (written ==> made)
      modifies this, queue, store
      ensures Valid() && Recorded(old(View()), View(), accepted, d, post, drained, made, written, w)
      ensures active == if accepted && post then old(active)[d := task] else old(active)
    {
      hide FailedDisk, Recorded, FirstSubmitted;
      ghost var before := View();
      EarlyRecorded(before, d, post, drained, made, w);
      var slot := queue.ReserveSlot();
      if !slot {
        return false;
      }
      if post && |active| >= maxActive {
        queue.ReleaseReservation();
        return false;
      }
      store.WriteMarker(d, Pending, made, written);
      if !written {
        queue.ReleaseReservation();
        return false;
      }
      queue.Drain(drained);
      ghost var begun := View();
      accepted := SubmitFirst(d, post, task, w);
      FirstRecorded(before, begun, View(), accepted, d, post, drained, w);
    }

    /** The first batch; when it is refused the capture, the slot and the event are given up. */
    method SubmitFirst(d: Name, post: bool, task: Task, w: Works) returns (accepted: bool)
      requires d !in active && d in store.files && (post ==> |active| < maxActive) && |active| <= maxActive
      requires queue.reservedJobs == |active| + 1 && |queue.jobs| + queue.reservedJobs <= queue.maxPendingJobs
      requires !queue.stopping
      modifies this, queue, store
      ensures Valid() && FirstSubmitted(old(View()), View(), accepted, d, post, w)
      ensures active == if accepted && post then old(active)[d := task] else old(active)
    {
      hide FailedDisk;
      if post {
        active := active[d := task];
      }
      accepted := queue.Enqueue(Job(d, !post), !post);
      if accepted {
        assert active.Keys == if post then old(active).Keys + {d} else old(active).Keys;
        return;
      }
      if post {
        active := active - {d};
        assert active == old(active);
        queue.ReleaseReservation();
      }
      var _ := store.FailDirectory(d, true, w);
    }

    /** processExpiredCaptures; order is how the table of captures is walked. */
    method ProcessExpired(order: seq<Name>, sensorNow: Option<int>, steadyNow: int, works: map<Name, Works>)
      returns (refused: seq<Name>)
      requires Valid() && Distinct(order) && (forall d :: d in order <==> d in active)
      requires Workable(order, store.files, works)
      modifies this, queue, store
      ensures Valid() && active == old(active) - Names(DueOnes(order, old(active), sensorNow, steadyNow))
      ensures active == StillOpen(old(active), sensorNow, steadyNow)
      ensures Harvested(old(View()), View(), DueOnes(order, old(active), sensorNow, steadyNow), refused, works)
      ensures forall d :: d in old(active) && d !in active ==> d in works && d in old(store.files) && d in store.files
      ensures forall d :: d in old(active) && d !in active ==>
                if old(queue.stopping) then store.files[d].failed == (old(store.files)[d].failed || works[d].written)
                else Job(d, true) in queue.jobs && store.files[d] == old(store.files)[d]
    {
      hide Harvested;
      var expired := TakeExpired(order, sensorNow, steadyNow);
      refused := SubmitLast(expired, works);
      HarvestedParts(old(View()), View(), expired, refused, works);
      EachIsHandedOver(old(View()), View(), expired, refused, works);
    }

    /** The loop that moves expired captures out of the table. */
    method TakeExpired(order: seq<Name>, sensorNow: Option<int>, steadyNow: int) returns (expired: seq<Name>)
      requires Distinct(order) && (forall d :: d in order <==> d in active)
      modifies this`active
      ensures expired == DueOnes(order, old(active), sensorNow, steadyNow) && Distinct(expired)
      ensures active == StillOpen(old(active), sensorNow, steadyNow)
      ensures active == old(active) - Names(expired) && |active| + |expired| == |old(active)|
      ensures forall d :: d in expired ==> d in order
    {
      expired := [];
      ghost var all := active;
      assert all - Names([]) == all && TakenOut(order[..0], all, sensorNow, steadyNow, []);
      hide Names, DueOnes, TakenOut, Due, Distinct;
      for i := 0 to |order|
        invariant TakenOut(order[..i], all, sensorNow, steadyNow, expired)
        invariant active == all - Names(expired)
      {
        var d := order[i];
        NextTaken(order, i, all, sensorNow, steadyNow, expired);
        if Due(active[d], sensorNow, steadyNow) {
          OneLess(all, expired, d);
          active := active - {d};
          expired := expired + [d];
        }
      }
      AllTaken(order, all, sensorNow, steadyNow, expired);
      DueAreGone(order, all, sensorNow, steadyNow);
      CountLeft(all, expired);
    }

    /** The loop that hands each expired capture's last batch over. */
    method SubmitLast(expired: seq<Name>, works: map<Name, Works>) returns (refused: seq<Name>)
      requires queue.reservedJobs == |active| + |expired| && |queue.jobs| + queue.reservedJobs <= queue.maxPendingJobs
      requires Distinct(expired) && Workable(expired, store.files, works)
      modifies queue, store
      ensures queue.reservedJobs == |active| && |queue.jobs| + queue.reservedJobs <= queue.maxPendingJobs
      ensures HandedOver(expired, old(queue.Contents()), queue.Contents(), refused)
      ensures FailedIn(refused, old(store.files), store.files, works)
    {
      refused := [];
      ghost var before := queue.Contents();
      for i := 0 to |expired|
        invariant queue.reservedJobs == |active| + |expired| - i
        invariant |queue.jobs| + queue.reservedJobs <= queue.maxPendingJobs
        invariant HandedOver(expired[..i], before, queue.Contents(), refused)
        invariant store.files.Keys == old(store.files).Keys && FailedIn(refused, old(store.files), store.files, works)
      {
        assert expired[..i + 1] == expired[..i] + [expired[i]] && expired[i] !in expired[..i];
        LastJobsStep(expired[..i], expired[i]);
        var ok := queue.Enqueue(Job(expired[i], true), true);
        if !ok {
          ghost var files := store.files;
          var _ := store.FailDirectory(expired[i], true, works[expired[i]]);
          OneMoreFailed(refused, old(store.files), files, expired[i], works);
          refused := refused + [expired[i]];
        }
      }
      assert expired[..|expired|] == expired;
    }
  }

  ghost predicate Workable(names: seq<Name>, files: map<Name, Disk>, works: map<Name, Works>)
  {
    forall d :: d in names ==> d in works && d in files
  }

  /** Every last job goes to the queue in order, into a slot of its own; when the queue is stopping, none does. */
  ghost predicate HandedOver(names: seq<Name>, before: Queue, after: Queue, refused: seq<Name>)
  {
    && after.stopping == before.stopping && after.limit == before.limit && after.reserved == before.reserved - |names|
    && after.jobs == (if before.stopping then before.jobs else before.jobs + LastJobs(names))
    && refused == if before.stopping then names else []
  }

  /** The refused ones are marked failed, the others left alone. */
  ghost predicate FailedIn(refused: seq<Name>, before: map<Name, Disk>, after: map<Name, Disk>, works: map<Name, Works>)
  {
    && Workable(refused, before, works) && after.Keys == before.Keys
    && forall d :: d in after ==> after[d] == if d in refused then FailedDisk(before[d], works[d]) else before[d]
  }

  ghost predicate TakenOut(order: seq<Name>, tasks: map<Name, Task>, sensorNow: Option<int>, steadyNow: int,
                           expired: seq<Name>)
  {
    && (forall d :: d in order ==> d in tasks) && expired == DueOnes(order, tasks, sensorNow, steadyNow)
    && Distinct(expired) && forall d :: d in expired ==> d in order
  }

  lemma NextTaken(order: seq<Name>, i: nat, tasks: map<Name, Task>, sensorNow: Option<int>, steadyNow: int,
                  expired: seq<Name>)
    requires i < |order| && Distinct(order) && order[i] in tasks
    requires TakenOut(order[..i], tasks, sensorNow, steadyNow, expired)
    ensures order[i] in tasks - Names(expired) && (tasks - Names(expired))[order[i]] == tasks[order[i]]
    ensures TakenOut(order[..i + 1], tasks, sensorNow, steadyNow,
                     if Due(tasks[order[i]], sensorNow, steadyNow) then expired + [order[i]] else expired)
  {
    assert order[..i + 1] == order[..i] + [order[i]] && order[i] !in order[..i];
    assert (order[..i] + [order[i]])[..i] == order[..i] && expired + [] == expired;
  }

  lemma AllTaken(order: seq<Name>, tasks: map<Name, Task>, sensorNow: Option<int>, steadyNow: int, expired: seq<Name>)
    requires TakenOut(order[..|order|], tasks, sensorNow, steadyNow, expired)
    ensures (forall d :: d in order ==> d in tasks) && expired == DueOnes(order, tasks, sensorNow, steadyNow)
    ensures Distinct(expired) && forall d :: d in expired ==> d in order
  {
    assert order[..|order|] == order;
  }

  lemma OneLess(all: map<Name, Task>, expired: seq<Name>, d: Name)
    ensures all - Names(expired + [d]) == (all - Names(expired)) - {d}
  {
    assert Names(expired + [d]) == Names(expired) + {d};
  }

  lemma CountLeft(all: map<Name, Task>, expired: seq<Name>)
    requires Distinct(expired) && forall d :: d in expired ==> d in all
    ensures |all - Names(expired)| + |expired| == |all|
  {
    NamesCount(expired);
    var left := all - Names(expired);
    assert left.Keys == all.Keys - Names(expired) && Names(expired) <= all.Keys;
    assert |left| == |left.Keys| && |all| == |all.Keys|;
  }

  lemma LastJobsStep(names: seq<Name>, d: Name)
    ensures LastJobs(names + [d]) == LastJobs(names) + [Job(d, true)]
  {}

  lemma OneMoreFailed(refused: seq<Name>, before: map<Name, Disk>, now: map<Name, Disk>, d: Name,
                      works: map<Name, Works>)
    requires FailedIn(refused, before, now, works) && d in before && d in works && d !in refused
    ensures FailedIn(refused + [d], before, now[d := FailedDisk(now[d], works[d])], works)
  {}

  // ---- when captures end ----

  /** The captures whose sensor time has not come, and whose deadline has not passed. */
  function StillOpen(active: map<Name, Task>, sensorNow: Option<int>, steadyNow: int): map<Name, Task>
  {
    map d | d in active && !(sensorNow.Some? && sensorNow.value >= active[d].endTime)
            && steadyNow < active[d].wallDeadline :: active[d]
  }

  lemma {:induction false} DueOnesAre(order: seq<Name>, tasks: map<Name, Task>, sensorNow: Option<int>, steadyNow: int,
                                      d: Name)
    requires forall e :: e in order ==> e in tasks
    ensures d in DueOnes(order, tasks, sensorNow, steadyNow)
            <==> d in order && (steadyNow >= tasks[d].wallDeadline
                                || (sensorNow.Some? && sensorNow.value >= tasks[d].endTime))
  {
    if order != [] {
      var front, last := order[..|order| - 1], order[|order| - 1];
      DueOnesAre(front, tasks, sensorNow, steadyNow, d);
      assert order == front + [last];
    }
  }

  lemma DueAreGone(order: seq<Name>, tasks: map<Name, Task>, sensorNow: Option<int>, steadyNow: int)
    requires forall d :: d in order <==> d in tasks
    ensures tasks - Names(DueOnes(order, tasks, sensorNow, steadyNow)) == StillOpen(tasks, sensorNow, steadyNow)
  {
    forall d { DueOnesAre(order, tasks, sensorNow, steadyNow, d); }
    hide DueOnes;
  }

  /** What happens to the table of captures: an event is accepted with a post window, or expired captures are looked
      for. */
  datatype Turn = Starts(d: Name, task: Task) | Expires(sensorNow: Option<int>, steadyNow: int)

  function ActiveAfter(turns: seq<Turn>): map<Name, Task>
  {
    if turns == [] then map[]
    else
      var before := ActiveAfter(turns[..|turns| - 1]);
      match turns[|turns| - 1]
      case Starts(d, task) => before[d := task]
      case Expires(sensorNow, steadyNow) => StillOpen(before, sensorNow, steadyNow)
  }

  /** Turn j has come at or after the capture's time. */
  predicate Ends(turn: Turn, task: Task)
  {
    turn.Expires? && (turn.steadyNow >= task.wallDeadline
                      || (turn.sensorNow.Some? && turn.sensorNow.value >= task.endTime))
  }

  /** Over any history in which its name is not used again, a capture is active exactly until the first look at or after
      its sensor time or its deadline. So none leaves early, and none outlives its deadline whatever the sensors do. */
  lemma {:induction false} CapturesEndInTime(turns: seq<Turn>, i: nat)
    requires i < |turns| && turns[i].Starts?
    requires forall j :: i < j < |turns| && turns[j].Starts? ==> turns[j].d != turns[i].d
    ensures Get(ActiveAfter(turns), turns[i].d)
            == if exists j :: i < j < |turns| && Ends(turns[j], turns[i].task) then None else Some(turns[i].task)
  {
    var front, last := turns[..|turns| - 1], turns[|turns| - 1];
    if i < |front| {
      CapturesEndInTime(front, i);
      assert forall j :: 0 <= j < |front| ==> front[j] == turns[j];
    }
  }
}
