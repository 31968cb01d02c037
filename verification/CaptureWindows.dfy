/**
 Which frames an event records, include/event_monitor.hpp:103-120, 183-185 and 201-246: the buffer's frames before
 the trigger, and at the harvest those after it.
 */
module CaptureWindows {
  import opened Prelude
  import opened Synchronizer
  import opened SensorBuffer

  function FramesWithin(b: Buffer, start: int, end: int): seq<Message>
    requires Laned(b)
  {
    InRange(b.lanes[Camera].queue, start, end) + InRange(b.lanes[Lidar].queue, start, end)
  }

  /** The trigger's time: the newest sensor stamp, or the node's clock before any data. */
  function EventTime(b: Buffer, wallNow: int): int { if b.latest.Some? then b.latest.value else wallNow }

  /** The closed window [start, eventTime], taken at the trigger. */
  function PreBatch(b: Buffer, eventTime: int, preSeconds: nat): seq<Message>
    requires Laned(b)
  {
    FramesWithin(b, eventTime - preSeconds * 1_000_000_000, eventTime)
  }

  function Except(frames: seq<Message>, stamp: int): seq<Message>
  {
    if frames == [] then []
    else
      var last := frames[|frames| - 1];
      Except(frames[..|frames| - 1], stamp) + if last.stamp == stamp then [] else [last]
  }

  /** [eventTime, endTime] without the frames stamped eventTime itself, taken at the harvest. */
  function PostBatch(b: Buffer, eventTime: int, endTime: int): seq<Message>
    requires Laned(b)
  {
    Except(FramesWithin(b, eventTime, endTime), eventTime)
  }

  method RemoveBoundary(frames: seq<Message>, eventTime: int) returns (kept: seq<Message>)
    ensures kept == Except(frames, eventTime)
  {
    kept := [];
    for i := 0 to |frames|
      invariant kept == Except(frames[..i], eventTime)
    {
      assert frames[..i + 1][..i] == frames[..i];
      if frames[i].stamp != eventTime {
        kept := kept + [frames[i]];
      }
    }
    assert frames[..|frames|] == frames;
  }

  lemma {:induction false} InRangeIs(queue: seq<Message>, start: int, end: int, m: Message)
    ensures m in InRange(queue, start, end) <==> m in queue && start <= m.stamp <= end
  {
    if queue != [] {
      var front, last := queue[..|queue| - 1], queue[|queue| - 1];
      InRangeIs(front, start, end, m);
      assert queue == front + [last];
    }
  }

  lemma {:induction false} ExceptIs(frames: seq<Message>, stamp: int, m: Message)
    ensures m in Except(frames, stamp) <==> m in frames && m.stamp != stamp
  {
    if frames != [] {
      var front, last := frames[..|frames| - 1], frames[|frames| - 1];
      ExceptIs(front, stamp, m);
      assert frames == front + [last];
    }
  }

  ghost predicate Holding(b: Buffer, m: Message)
    requires Laned(b)
  {
    exists s: Sensor :: m in b.lanes[s].queue
  }

  lemma FramesWithinIs(b: Buffer, start: int, end: int, m: Message)
    requires Laned(b)
    ensures m in FramesWithin(b, start, end) <==> Holding(b, m) && start <= m.stamp <= end
  {
    InRangeIs(b.lanes[Camera].queue, start, end, m);
    InRangeIs(b.lanes[Lidar].queue, start, end, m);
    if Holding(b, m) {
      var s: Sensor :| m in b.lanes[s].queue;
      assert s == Camera || s == Lidar;
    }
  }

  // ---- what the buffer holds has arrived ----

  lemma {:induction false} TrimmedKeepsFrames(l: Lane, limits: Limits, m: Message)
    requires Counted(l) && m in Trimmed(l, limits).queue
    ensures m in l.queue
    decreases |l.queue|
  {
    if Over(l, limits) { TrimmedKeepsFrames(Popped(l), limits, m); }
  }

  lemma {:induction false} EvictedKeepsFrames(l: Lane, oldest: int, m: Message)
    requires Counted(l) && m in Evicted(l, oldest).queue
    ensures m in l.queue
    decreases |l.queue|
  {
    if l.queue != [] && l.queue[0].stamp < oldest { EvictedKeepsFrames(Popped(l), oldest, m); }
  }

  lemma AcceptedKeepsFrames(l: Lane, frame: Message, limits: Limits, m: Message)
    requires Counted(l) && m in Accepted(l, frame, limits).queue
    ensures m == frame || m in l.queue
  {
    PayloadInserted(l.queue, frame);
    TrimmedKeepsFrames(Lane(Inserted(l.queue, frame), SaturatingSum(l.bytes, frame.bytes)), limits, m);
  }

  lemma AddedFrames(b: Buffer, a: Arrival, limits: Limits, s: Sensor, m: Message)
    requires Laned(b) && m in Added(b, a, limits).lanes[s].queue
    ensures m in b.lanes[s].queue || a == Arrival(s, m)
  {
    var w := Watermark(b.latest, a.frame.stamp);
    if limits.maxSize > 0 && !TooOld(a.frame.stamp, w, limits) {
      var taken := if s == a.sensor then Accepted(b.lanes[s], a.frame, limits) else b.lanes[s];
      if limits.maxAge > 0 { EvictedKeepsFrames(taken, w - limits.maxAge, m); }
      if s == a.sensor { AcceptedKeepsFrames(b.lanes[s], a.frame, limits, m); }
    }
  }

  lemma EmptyHoldsNothing(s: Sensor)
    ensures s in Empty.lanes && Empty.lanes[s].queue == []
  {
    if s == Camera {} else { assert s == Lidar; }
  }

  lemma {:induction false} HeldFramesArrived(arrivals: seq<Arrival>, limits: Limits, s: Sensor, m: Message)
    requires m in AfterArrivals(arrivals, limits).lanes[s].queue
    ensures Arrival(s, m) in arrivals
  {
    EmptyHoldsNothing(s);
    if arrivals != [] {
      var front, a := arrivals[..|arrivals| - 1], arrivals[|arrivals| - 1];
      AddedFrames(AfterArrivals(front, limits), a, limits, s, m);
      assert arrivals == front + [a];
      if m in AfterArrivals(front, limits).lanes[s].queue { HeldFramesArrived(front, limits, s, m); }
    }
  }

  // ---- the partition ----

  /** Whatever happens between trigger and harvest, the two batches share no frame and stay within the window. */
  lemma BatchesAreDisjoint(atTrigger: Buffer, atHarvest: Buffer, eventTime: int, preSeconds: nat, endTime: int,
                           m: Message)
    requires Laned(atTrigger) && Laned(atHarvest)
    ensures m in PreBatch(atTrigger, eventTime, preSeconds) ==>
              eventTime - preSeconds * 1_000_000_000 <= m.stamp <= eventTime
    ensures m in PostBatch(atHarvest, eventTime, endTime) ==> eventTime < m.stamp <= endTime
    ensures !(m in PreBatch(atTrigger, eventTime, preSeconds) && m in PostBatch(atHarvest, eventTime, endTime))
  {
    FramesWithinIs(atTrigger, eventTime - preSeconds * 1_000_000_000, eventTime, m);
    FramesWithinIs(atHarvest, eventTime, endTime, m);
    ExceptIs(FramesWithin(atHarvest, eventTime, endTime), eventTime, m);
  }

  ghost predicate NonDecreasing(arrivals: seq<Arrival>)
  {
    forall i, j :: 0 <= i < j < |arrivals| ==> arrivals[i].frame.stamp <= arrivals[j].frame.stamp
  }

  /** No frame from start on has been given up. */
  ghost predicate Retained(arrivals: seq<Arrival>, limits: Limits, start: int)
  {
    forall a :: a in arrivals && a.frame.stamp >= start ==>
      a.frame in AfterArrivals(arrivals, limits).lanes[a.sensor].queue
  }

  lemma {:induction false} NewestIsLast(arrivals: seq<Arrival>)
    requires arrivals != [] && NonDecreasing(arrivals)
    ensures Newest(arrivals) == Some(arrivals[|arrivals| - 1].frame.stamp)
  {
    if |arrivals| > 1 { NewestIsLast(arrivals[..|arrivals| - 1]); }
  }

  ghost predicate Arrived(arrivals: seq<Arrival>, n: nat, m: Message)
    requires n <= |arrivals|
  {
    exists i :: 0 <= i < n && arrivals[i].frame == m
  }

  lemma HeldIsArrived(arrivals: seq<Arrival>, n: nat, limits: Limits, start: int, m: Message)
    requires n <= |arrivals| && Retained(arrivals[..n], limits, start) && m.stamp >= start
    ensures Holding(AfterArrivals(arrivals[..n], limits), m) <==> Arrived(arrivals, n, m)
  {
    var early := arrivals[..n];
    hide AfterArrivals;
    if i :| 0 <= i < n && arrivals[i].frame == m {
      assert early[i] == arrivals[i] && arrivals[i] in early;
      assert m in AfterArrivals(early, limits).lanes[arrivals[i].sensor].queue;
    }
    if Holding(AfterArrivals(early, limits), m) {
      var s: Sensor :| m in AfterArrivals(early, limits).lanes[s].queue;
      HeldFramesArrived(early, limits, s, m);
      var i :| 0 <= i < n && early[i] == Arrival(s, m);
      assert arrivals[i].frame == m;
    }
  }

  lemma EarlierIsBefore(arrivals: seq<Arrival>, k: nat, n: nat)
    requires NonDecreasing(arrivals) && 0 < n <= |arrivals| && k < |arrivals|
    requires arrivals[k].frame.stamp < arrivals[n - 1].frame.stamp
    ensures Arrived(arrivals, n, arrivals[k].frame)
  {
    assert k < n;
  }

  /** Frames arrive in time order, those of the window are retained until they are taken - up to the trigger's own time
      at the trigger, the later ones at the harvest -, and the harvest waits for sensor time: then a frame stamped
      within [start, endTime) is recorded exactly when it is not one stamped eventTime that first arrived after the
      trigger. */
  lemma WindowIsRecorded(arrivals: seq<Arrival>, trigger: nat, harvest: nat, k: nat, limits: Limits, preSeconds: nat,
                         endTime: int)
    requires NonDecreasing(arrivals) && 0 < trigger <= harvest <= |arrivals| && k < |arrivals|
    requires var eventTime := arrivals[trigger - 1].frame.stamp;
             var start := eventTime - preSeconds * 1_000_000_000;
             && Retained(arrivals[..trigger], limits, start) && Retained(arrivals[..harvest], limits, eventTime + 1)
             && start <= arrivals[k].frame.stamp < endTime <= arrivals[harvest - 1].frame.stamp
    ensures var eventTime := arrivals[trigger - 1].frame.stamp;
            var m := arrivals[k].frame;
            (m in PreBatch(AfterArrivals(arrivals[..trigger], limits), eventTime, preSeconds)
             || m in PostBatch(AfterArrivals(arrivals[..harvest], limits), eventTime, endTime))
            <==> !(m.stamp == eventTime && !Arrived(arrivals, trigger, m))
  {
    var eventTime, m := arrivals[trigger - 1].frame.stamp, arrivals[k].frame;
    EarlierIsBefore(arrivals, k, harvest);
    if m.stamp < eventTime { EarlierIsBefore(arrivals, k, trigger); }
    var early, late := AfterArrivals(arrivals[..trigger], limits), AfterArrivals(arrivals[..harvest], limits);
    BatchesAreDisjoint(early, late, eventTime, preSeconds, endTime, m);
    hide AfterArrivals, Retained, Arrived, NonDecreasing, PreBatch, PostBatch;
    RecordedBefore(arrivals, trigger, limits, preSeconds, m);
    if m.stamp > eventTime { RecordedAfter(arrivals, harvest, limits, eventTime, endTime, m); }
  }

  /** Without byte and age limits a frame that is not older than the others goes to the back. */
  lemma TakenToTheBack(b: Buffer, a: Arrival, limits: Limits)
    requires Laned(b) && limits.maxAge == 0 && limits.maxBytes == 0 && |b.lanes[a.sensor].queue| < limits.maxSize
    requires forall m :: m in b.lanes[a.sensor].queue ==> m.stamp <= a.frame.stamp
    ensures Added(b, a, limits).lanes[a.sensor].queue == b.lanes[a.sensor].queue + [a.frame]
  {
    var queue := b.lanes[a.sensor].queue;
    assert UpperBound(queue, a.frame.stamp) == |queue|;
    assert queue[..|queue|] == queue && queue[|queue|..] == [];
  }

  lemma OneMoreTaken(front: seq<Arrival>, a: Arrival, limits: Limits)
    requires limits.maxAge == 0 && limits.maxBytes == 0
    requires var queue := AfterArrivals(front, limits).lanes[a.sensor].queue;
             |queue| < limits.maxSize && forall m :: m in queue ==> m.stamp <= a.frame.stamp
    ensures AfterArrivals(front + [a], limits).lanes[a.sensor].queue
         == AfterArrivals(front, limits).lanes[a.sensor].queue + [a.frame]
  {
    assert (front + [a])[..|front|] == front;
    assert AfterArrivals(front + [a], limits) == Added(AfterArrivals(front, limits), a, limits);
    hide AfterArrivals, Added;
    TakenToTheBack(AfterArrivals(front, limits), a, limits);
  }

  lemma ThreeAreHeld(x: Message, y: Message, z: Message, limits: Limits)
    requires x.stamp <= y.stamp <= z.stamp && limits.maxAge == 0 && limits.maxBytes == 0 && limits.maxSize >= 3
    ensures AfterArrivals([Arrival(Camera, x), Arrival(Camera, y), Arrival(Camera, z)], limits).lanes[Camera].queue
            == [x, y, z]
  {
    var a, b, d := Arrival(Camera, x), Arrival(Camera, y), Arrival(Camera, z);
    assert [] + [a] == [a] && [a] + [b] == [a, b] && [a, b] + [d] == [a, b, d];
    EmptyHoldsNothing(Camera);
    assert AfterArrivals([], limits) == Empty;
    hide AfterArrivals, Laned, Added;
    OneMoreTaken([], a, limits);
    OneMoreTaken([a], b, limits);
    OneMoreTaken([a, b], d, limits);
  }

  /** A second frame with the stamp of the trigger, which arrives after it, is held at the harvest and recorded by
      neither batch. */
  lemma BoundaryFrameIsLost()
    ensures var arrivals := [Arrival(Camera, Message(10, 0, 1)), Arrival(Camera, Message(10, 1, 1)),
                             Arrival(Camera, Message(3_000_000_000, 2, 1))];
            var limits, second := Limits(10, 0, 0), arrivals[1].frame;
            var atTrigger, atHarvest := AfterArrivals(arrivals[..1], limits), AfterArrivals(arrivals, limits);
            && NonDecreasing(arrivals) && EventTime(atTrigger, 0) == 10 && Holding(atHarvest, second)
            && second !in PreBatch(atTrigger, 10, 5) && second !in PostBatch(atHarvest, 10, 2_000_000_010)
  {
    hide Added, AfterArrivals, PreBatch, PostBatch;
    var x, y, z := Message(10, 0, 1), Message(10, 1, 1), Message(3_000_000_000, 2, 1);
    var arrivals, limits := [Arrival(Camera, x), Arrival(Camera, y), Arrival(Camera, z)], Limits(10, 0, 0);
    ThreeAreHeld(x, y, z, limits);
    TriggerIsNewest(arrivals, 1, limits, 0);
    BoundaryNotBefore(arrivals[..1], limits, x, y);
    BatchesAreDisjoint(AfterArrivals(arrivals[..1], limits), AfterArrivals(arrivals, limits), 10, 5, 2_000_000_010, y);
  }

  lemma BoundaryNotBefore(one: seq<Arrival>, limits: Limits, x: Message, y: Message)
    requires one == [Arrival(Camera, x)] && x != y
    ensures y !in PreBatch(AfterArrivals(one, limits), 10, 5)
  {
    var atTrigger := AfterArrivals(one, limits);
    FramesWithinIs(atTrigger, 10 - 5_000_000_000, 10, y);
    if s: Sensor :| y in atTrigger.lanes[s].queue { HeldFramesArrived(one, limits, s, y); }
  }

  lemma RecordedBefore(arrivals: seq<Arrival>, trigger: nat, limits: Limits, preSeconds: nat, m: Message)
    requires 0 < trigger <= |arrivals|
    requires var eventTime := arrivals[trigger - 1].frame.stamp;
             var start := eventTime - preSeconds * 1_000_000_000;
             Retained(arrivals[..trigger], limits, start) && start <= m.stamp
    ensures var eventTime := arrivals[trigger - 1].frame.stamp;
            m in PreBatch(AfterArrivals(arrivals[..trigger], limits), eventTime, preSeconds)
            <==> m.stamp <= eventTime && Arrived(arrivals, trigger, m)
  {
    hide AfterArrivals, Retained, Arrived, Holding, FramesWithin;
    var eventTime := arrivals[trigger - 1].frame.stamp;
    var start := eventTime - preSeconds * 1_000_000_000;
    HeldIsArrived(arrivals, trigger, limits, start, m);
    FramesWithinIs(AfterArrivals(arrivals[..trigger], limits), start, eventTime, m);
  }

  lemma RecordedAfter(arrivals: seq<Arrival>, harvest: nat, limits: Limits, eventTime: int, endTime: int, m: Message)
    requires harvest <= |arrivals| && Arrived(arrivals, harvest, m) && m.stamp < endTime
    requires exists start :: start <= m.stamp && Retained(arrivals[..harvest], limits, start)
    ensures m in PostBatch(AfterArrivals(arrivals[..harvest], limits), eventTime, endTime) <==> eventTime < m.stamp
  {
    hide AfterArrivals, Retained, Arrived, Holding, FramesWithin, Except;
    var start :| start <= m.stamp && Retained(arrivals[..harvest], limits, start);
    var late := AfterArrivals(arrivals[..harvest], limits);
    HeldIsArrived(arrivals, harvest, limits, start, m);
    FramesWithinIs(late, eventTime, endTime, m);
    ExceptIs(FramesWithin(late, eventTime, endTime), eventTime, m);
  }

  /** The stamp of the trigger is the newest one before it. */
  lemma TriggerIsNewest(arrivals: seq<Arrival>, trigger: nat, limits: Limits, wallNow: int)
    requires NonDecreasing(arrivals) && 0 < trigger <= |arrivals| && limits.maxSize > 0
    ensures EventTime(AfterArrivals(arrivals[..trigger], limits), wallNow) == arrivals[trigger - 1].frame.stamp
  {
    LatestIsNewest(arrivals[..trigger], limits);
    NewestIsLast(arrivals[..trigger]);
  }

  lemma {:induction false} LatestIsNewest(arrivals: seq<Arrival>, limits: Limits)
    requires limits.maxSize > 0
    ensures AfterArrivals(arrivals, limits).latest == Newest(arrivals)
  {
    if arrivals != [] { LatestIsNewest(arrivals[..|arrivals| - 1], limits); }
  }
}
