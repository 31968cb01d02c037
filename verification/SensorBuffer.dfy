/**
 The sensor ring buffer, include/databuffer.hpp: per sensor a time-ordered queue under three limits at once - number
 of frames, payload bytes, and age against the newest stamp of any sensor.
 */
module SensorBuffer {
  import opened Prelude
  import opened Synchronizer

  /** Nanoseconds and bytes; an age or byte limit of 0 (or an age below 0) is switched off. */
  datatype Limits = Limits(maxSize: nat, maxAge: int, maxBytes: nat)

  /** A queue and its byte counter. */
  datatype Lane = Lane(queue: seq<Message>, bytes: nat)

  datatype Buffer = Buffer(lanes: map<Sensor, Lane>, latest: Option<int>)

  datatype Arrival = Arrival(sensor: Sensor, frame: Message)

  const MAX_SIZE_T: nat := 0xFFFF_FFFF_FFFF_FFFF

  const Empty := Buffer(map[Camera := Lane([], 0), Lidar := Lane([], 0)], None)

  function Payload(queue: seq<Message>): nat
  {
    if queue == [] then 0 else queue[0].bytes + Payload(queue[1..])
  }

  /** The counter may have lost bytes by saturating, it never has too many. */
  ghost predicate Counted(l: Lane) { l.bytes <= Payload(l.queue) && l.bytes <= MAX_SIZE_T }

  ghost predicate Laned(b: Buffer) { forall s: Sensor :: s in b.lanes && Counted(b.lanes[s]) }

  function Popped(l: Lane): (r: Lane)
    requires l.queue != []
  {
    Lane(l.queue[1..], if l.queue[0].bytes > l.bytes then 0 else l.bytes - l.queue[0].bytes)
  }

  predicate Over(l: Lane, limits: Limits)
  {
    |l.queue| > limits.maxSize || (limits.maxBytes > 0 && l.bytes > limits.maxBytes)
  }

  /** The eviction loop; because the counter is never too high it ends before the queue is empty. */
  function Trimmed(l: Lane, limits: Limits): (r: Lane)
    requires Counted(l)
    ensures Counted(r) && !Over(r, limits)
    decreases |l.queue|
  {
    if Over(l, limits) then Trimmed(Popped(l), limits) else l
  }

  function Evicted(l: Lane, oldest: int): (r: Lane)
    requires Counted(l)
    ensures Counted(r)
    decreases |l.queue|
  {
    if l.queue != [] && l.queue[0].stamp < oldest then Evicted(Popped(l), oldest) else l
  }

  function SaturatingSum(a: nat, b: nat): nat
    requires a <= MAX_SIZE_T
  {
    if b > MAX_SIZE_T - a then MAX_SIZE_T else a + b
  }

  function Watermark(latest: Option<int>, stamp: int): int
  {
    if latest.None? || stamp > latest.value then stamp else latest.value
  }

  predicate TooOld(stamp: int, watermark: int, limits: Limits)
  {
    limits.maxAge > 0 && stamp < watermark - limits.maxAge
  }

  lemma {:induction false} PayloadAppend(a: seq<Message>, b: seq<Message>)
    ensures Payload(a + b) == Payload(a) + Payload(b)
  {
    if a == [] {
      assert a + b == b;
    } else {
      PayloadAppend(a[1..], b);
      assert (a + b)[1..] == a[1..] + b;
    }
  }

  lemma PayloadInserted(queue: seq<Message>, m: Message)
    ensures Payload(Inserted(queue, m)) == Payload(queue) + m.bytes
  {
    var i := UpperBound(queue, m.stamp);
    var front, back := queue[..i], queue[i..];
    assert queue == front + back && Inserted(queue, m) == front + ([m] + back);
    PayloadAppend(front, back);
    PayloadAppend(front, [m] + back);
    PayloadAppend([m], back);
  }

  /** The lane takes the frame in, then gives up frames at the front. */
  function Accepted(l: Lane, m: Message, limits: Limits): (r: Lane)
    requires Counted(l)
    ensures Counted(r)
  {
    PayloadInserted(l.queue, m);
    Trimmed(Lane(Inserted(l.queue, m), SaturatingSum(l.bytes, m.bytes)), limits)
  }

  function Expired(l: Lane, watermark: int, limits: Limits): (r: Lane)
    requires Counted(l)
    ensures Counted(r)
  {
    if limits.maxAge > 0 then Evicted(l, watermark - limits.maxAge) else l
  }

  function AllExpired(lanes: map<Sensor, Lane>, watermark: int, limits: Limits): map<Sensor, Lane>
    requires forall s :: s in lanes ==> Counted(lanes[s])
  {
    map s | s in lanes :: Expired(lanes[s], watermark, limits)
  }

  function Added(b: Buffer, a: Arrival, limits: Limits): (r: Buffer)
    requires Laned(b)
    ensures Laned(r)
  {
    if limits.maxSize == 0 then b
    else
      var watermark := Watermark(b.latest, a.frame.stamp);
      if TooOld(a.frame.stamp, watermark, limits) then b.(latest := Some(watermark))
      else
        var lanes := b.lanes[a.sensor := Accepted(b.lanes[a.sensor], a.frame, limits)];
        Buffer(AllExpired(lanes, watermark, limits), Some(watermark))
  }

  lemma EmptyIsLaned()
    ensures Laned(Empty)
  {
    forall s: Sensor ensures s in Empty.lanes && Counted(Empty.lanes[s]) {
      if s == Camera {} else { assert s == Lidar; }
    }
  }

  function AfterArrivals(arrivals: seq<Arrival>, limits: Limits): (b: Buffer)
    ensures Laned(b)
  {
    EmptyIsLaned();
    if arrivals == [] then Empty
    else Added(AfterArrivals(arrivals[..|arrivals| - 1], limits), arrivals[|arrivals| - 1], limits)
  }

  // ---- the reference ----

  /** A sensor's arrivals, in arrival order. */
  function From(arrivals: seq<Arrival>, sensor: Sensor): seq<Message>
  {
    if arrivals == [] then []
    else
      var last := arrivals[|arrivals| - 1];
      From(arrivals[..|arrivals| - 1], sensor) + if last.sensor == sensor then [last.frame] else []
  }

  /** The arrivals in time order, equal stamps in arrival order. */
  function StableSort(frames: seq<Message>): seq<Message>
  {
    if frames == [] then [] else Inserted(StableSort(frames[..|frames| - 1]), frames[|frames| - 1])
  }

  function WithStamp(frames: seq<Message>, stamp: int): seq<Message>
  {
    if frames == [] then []
    else if frames[0].stamp == stamp then [frames[0]] + WithStamp(frames[1..], stamp)
    else WithStamp(frames[1..], stamp)
  }

  lemma {:induction false} WithStampAppend(a: seq<Message>, b: seq<Message>, stamp: int)
    ensures WithStamp(a + b, stamp) == WithStamp(a, stamp) + WithStamp(b, stamp)
  {
    if a == [] {
      assert a + b == b;
    } else {
      WithStampAppend(a[1..], b, stamp);
      assert (a + b)[1..] == a[1..] + b && (a + b)[0] == a[0];
      if a[0].stamp == stamp {
        assert WithStamp(a + b, stamp) == [a[0]] + (WithStamp(a[1..], stamp) + WithStamp(b, stamp));
      }
    }
  }

  lemma {:induction false} NoneAbove(frames: seq<Message>, stamp: int)
    requires forall i :: 0 <= i < |frames| ==> frames[i].stamp > stamp
    ensures WithStamp(frames, stamp) == []
  {
    if frames != [] { NoneAbove(frames[1..], stamp); }
  }

  /** Moving a frame past later ones does not disturb those with any one stamp. */
  lemma MovedPast(m: Message, back: seq<Message>, stamp: int)
    requires forall i :: 0 <= i < |back| ==> back[i].stamp > m.stamp
    ensures WithStamp([m] + back, stamp) == WithStamp(back + [m], stamp)
  {
    WithStampAppend([m], back, stamp);
    WithStampAppend(back, [m], stamp);
    if stamp == m.stamp {
      NoneAbove(back, stamp);
    } else {
      assert WithStamp([m], stamp) == [];
    }
  }

  lemma InsertedWithStamp(queue: seq<Message>, m: Message, stamp: int)
    requires Sorted(queue)
    ensures WithStamp(Inserted(queue, m), stamp) == WithStamp(queue + [m], stamp)
  {
    var i := UpperBound(queue, m.stamp);
    var front, back := queue[..i], queue[i..];
    assert queue + [m] == front + (back + [m]) && Inserted(queue, m) == front + ([m] + back);
    MovedPast(m, back, stamp);
    hide WithStamp, UpperBound, Inserted;
    WithStampAppend(front, back + [m], stamp);
    WithStampAppend(front, [m] + back, stamp);
  }

  /** It is the stable sort: in order, and for every stamp exactly the arrivals with it, in arrival order. */
  lemma {:induction false} StableSortIsStable(frames: seq<Message>, stamp: int)
    ensures Sorted(StableSort(frames)) && |StableSort(frames)| == |frames|
    ensures WithStamp(StableSort(frames), stamp) == WithStamp(frames, stamp)
  {
    if frames != [] {
      var front, last := frames[..|frames| - 1], frames[|frames| - 1];
      StableSortIsStable(front, stamp);
      InsertedKeepsSorted(StableSort(front), last);
      assert |Inserted(StableSort(front), last)| == |StableSort(front)| + 1;
      assert front + [last] == frames && StableSort(frames) == Inserted(StableSort(front), last);
      hide WithStamp, Inserted, StableSort;
      InsertedWithStamp(StableSort(front), last, stamp);
      WithStampAppend(front, [last], stamp);
      WithStampAppend(StableSort(front), [last], stamp);
    }
  }

  /** Newest stamp of any sensor. */
  function Newest(arrivals: seq<Arrival>): Option<int>
  {
    if arrivals == [] then None
    else Some(Watermark(Newest(arrivals[..|arrivals| - 1]), arrivals[|arrivals| - 1].frame.stamp))
  }

  /** Within all three limits; what meets them still does without its front. */
  predicate Meets(q: seq<Message>, newest: Option<int>, limits: Limits)
  {
    && |q| <= limits.maxSize && (limits.maxBytes > 0 ==> Payload(q) <= limits.maxBytes)
    && (newest.Some? ==> forall m :: m in q ==> !TooOld(m.stamp, newest.value, limits))
  }

  /** The longest suffix within the limits. */
  function Kept(sorted: seq<Message>, newest: Option<int>, limits: Limits): (q: seq<Message>)
    ensures Meets(q, newest, limits) && |q| <= |sorted|
  {
    if Meets(sorted, newest, limits) then sorted
    else assert sorted != []; Kept(sorted[1..], newest, limits)
  }

  lemma {:induction false} LongerNeverMeets(a: seq<Message>, q: seq<Message>, newest: Option<int>, limits: Limits)
    requires !Meets(q, newest, limits)
    ensures !Meets(a + q, newest, limits)
  {
    PayloadAppend(a, q);
  }

  /** The arrivals given up and those kept: with the last one given up the kept ones would not meet the limits. */
  lemma {:induction false} GoneAndKept(sorted: seq<Message>, newest: Option<int>, limits: Limits)
    returns (gone: seq<Message>, q: seq<Message>)
    ensures sorted == gone + q && q == Kept(sorted, newest, limits)
    ensures gone != [] ==> !Meets([gone[|gone| - 1]] + q, newest, limits)
  {
    if Meets(sorted, newest, limits) {
      gone, q := [], sorted;
    } else {
      hide Meets;
      var front;
      front, q := GoneAndKept(sorted[1..], newest, limits);
      gone := [sorted[0]] + front;
      assert gone + q == [sorted[0]] + sorted[1..] == sorted;
      assert gone[|gone| - 1] == if front == [] then sorted[0] else front[|front| - 1];
      if front == [] { assert [sorted[0]] + q == sorted; }
    }
  }

  /** Every longer suffix breaks a limit. */
  lemma KeptIsLongest(sorted: seq<Message>, newest: Option<int>, limits: Limits, n: nat)
    requires |Kept(sorted, newest, limits)| < n <= |sorted|
    ensures !Meets(sorted[|sorted| - n..], newest, limits)
  {
    var gone, q := GoneAndKept(sorted, newest, limits);
    var skipped := |sorted| - n;
    hide Meets, Kept;
    LongerNeverMeets(gone[skipped..|gone| - 1], [gone[|gone| - 1]] + q, newest, limits);
    assert sorted[skipped..] == gone[skipped..|gone| - 1] + ([gone[|gone| - 1]] + q);
  }

  /** Frames in front of a suffix that is already too long change nothing. */
  lemma {:induction false} KeptOfSuffix(a: seq<Message>, q: seq<Message>, newest: Option<int>, limits: Limits)
    requires a != [] ==> !Meets([a[|a| - 1]] + q, newest, limits)
    ensures Kept(a + q, newest, limits) == Kept(q, newest, limits)
  {
    if a == [] {
      assert a + q == q;
    } else {
      assert a + q == a[..|a| - 1] + ([a[|a| - 1]] + q);
      LongerNeverMeets(a[..|a| - 1], [a[|a| - 1]] + q, newest, limits);
      assert (a + q)[1..] == a[1..] + q;
      KeptOfSuffix(a[1..], q, newest, limits);
    }
  }

  // ---- one arrival against the reference ----

  lemma {:induction false} TrimmedIsKept(l: Lane, limits: Limits)
    requires Counted(l) && (limits.maxBytes > 0 ==> l.bytes == Payload(l.queue))
    ensures var r := Trimmed(l, limits);
            r.queue == Kept(l.queue, None, limits) && (l.bytes == Payload(l.queue) ==> r.bytes == Payload(r.queue))
    decreases |l.queue|
  {
    if Over(l, limits) { TrimmedIsKept(Popped(l), limits); }
  }

  lemma {:induction false} ExpiredIsKept(l: Lane, watermark: int, limits: Limits)
    requires Counted(l) && Sorted(l.queue) && Meets(l.queue, None, limits)
    ensures var r := Expired(l, watermark, limits);
            && r.queue == Kept(l.queue, Some(watermark), limits)
            && (l.bytes == Payload(l.queue) ==> r.bytes == Payload(r.queue))
    decreases |l.queue|
  {
    if limits.maxAge > 0 && l.queue != [] && l.queue[0].stamp < watermark - limits.maxAge {
      assert l.queue[0] in l.queue;
      ExpiredIsKept(Popped(l), watermark, limits);
    } else {
      assert forall m :: m in l.queue ==> !TooOld(m.stamp, watermark, limits);
    }
  }

  ghost predicate Later(before: Option<int>, after: Option<int>)
  {
    before.Some? ==> after.Some? && before.value <= after.value
  }

  /** Keeping in two rounds, the second with a later watermark, is keeping once. */
  lemma {:induction false} KeptTwice(sorted: seq<Message>, before: Option<int>, after: Option<int>, limits: Limits)
    requires Later(before, after)
    ensures Kept(Kept(sorted, before, limits), after, limits) == Kept(sorted, after, limits)
  {
    if !Meets(sorted, before, limits) {
      assert !Meets(sorted, after, limits);
      KeptTwice(sorted[1..], before, after, limits);
    }
  }

  /** A late frame older than one already given up, for which there is nevertheless room. */
  predicate SlipsBack(sorted: seq<Message>, m: Message, before: Option<int>, after: int, limits: Limits)
  {
    var q := Kept(sorted, before, limits);
    UpperBound(sorted, m.stamp) < |sorted| - |q| && Meets([m] + q, Some(after), limits)
  }

  /** Inserting into what was kept and keeping again is the same as inserting into all arrivals, exactly when the
      frame does not slip back. */
  lemma InsertedIsKept(sorted: seq<Message>, m: Message, before: Option<int>, after: int, limits: Limits)
    requires Sorted(sorted) && Later(before, Some(after))
    ensures Kept(Inserted(Kept(sorted, before, limits), m), Some(after), limits)
            == Kept(Inserted(sorted, m), Some(after), limits)
            <==> !SlipsBack(sorted, m, before, after, limits)
  {
    var gone, q := GoneAndKept(sorted, before, limits);
    hide Meets, Sorted, UpperBound, Inserted;
    if UpperBound(sorted, m.stamp) >= |gone| {
      LandsInside(gone, q, m, before, after, limits);
    } else {
      LandsBefore(gone, q, m, before, after, limits);
    }
  }

  lemma LandsInside(gone: seq<Message>, q: seq<Message>, m: Message, before: Option<int>, after: int, limits: Limits)
    requires Later(before, Some(after)) && UpperBound(gone + q, m.stamp) >= |gone|
    requires gone != [] ==> !Meets([gone[|gone| - 1]] + q, before, limits)
    ensures Kept(Inserted(q, m), Some(after), limits) == Kept(Inserted(gone + q, m), Some(after), limits)
  {
    hide Kept, Meets, UpperBound, Inserted;
    InsertedAfter(gone, q, m);
    if gone != [] { InsertedStillTooLong(gone[|gone| - 1], q, m, before, after, limits); }
    KeptOfSuffix(gone, Inserted(q, m), Some(after), limits);
  }

  lemma LandsBefore(gone: seq<Message>, q: seq<Message>, m: Message, before: Option<int>, after: int, limits: Limits)
    requires Later(before, Some(after)) && Sorted(gone + q) && UpperBound(gone + q, m.stamp) < |gone|
    requires !Meets([gone[|gone| - 1]] + q, before, limits)
    ensures Kept(Inserted(q, m), Some(after), limits) == Kept(Inserted(gone + q, m), Some(after), limits)
            <==> !Meets([m] + q, Some(after), limits)
  {
    InsertedBefore(gone, q, m);
    hide Kept, Meets, UpperBound, Inserted, Sorted;
    StillTooLong([gone[|gone| - 1]] + q, before, Some(after), limits);
    SlippedFront(gone, q, m, after, limits);
  }

  lemma InsertedTail(queue: seq<Message>, m: Message)
    requires queue != [] && queue[0].stamp <= m.stamp
    ensures Inserted(queue, m) == [queue[0]] + Inserted(queue[1..], m)
  {
    var i := UpperBound(queue[1..], m.stamp);
    assert queue[..i + 1] == [queue[0]] + queue[1..][..i] && queue[i + 1..] == queue[1..][i..];
  }

  lemma {:induction false} InsertedAfter(gone: seq<Message>, q: seq<Message>, m: Message)
    requires UpperBound(gone + q, m.stamp) >= |gone|
    ensures Inserted(gone + q, m) == gone + Inserted(q, m)
  {
    hide Inserted;
    if gone == [] {
      assert gone + q == q;
    } else {
      assert (gone + q)[1..] == gone[1..] + q;
      InsertedTail(gone + q, m);
      InsertedAfter(gone[1..], q, m);
    }
  }

  lemma UpperBoundSplits(gone: seq<Message>, q: seq<Message>, stamp: int)
    requires Sorted(gone + q) && UpperBound(gone + q, stamp) < |gone|
    ensures UpperBound(gone, stamp) == UpperBound(gone + q, stamp) && UpperBound(q, stamp) == 0
  {
    var all, i := gone + q, UpperBound(gone + q, stamp);
    assert all[i] == gone[i] && forall k :: 0 <= k < i ==> gone[k] == all[k];
    UpperBoundIs(gone, stamp, i);
    if q != [] { assert q[0] == all[|gone|] && all[i].stamp <= all[|gone|].stamp; }
    UpperBoundIs(q, stamp, 0);
  }

  lemma Spliced(gone: seq<Message>, q: seq<Message>, m: Message, i: nat)
    requires i < |gone|
    ensures (gone + q)[..i] + [m] + (gone + q)[i..] == (gone[..i] + [m] + gone[i..]) + q
    ensures (gone[..i] + [m] + gone[i..])[|gone|] == gone[|gone| - 1]
  {
    assert (gone + q)[..i] == gone[..i] && (gone + q)[i..] == gone[i..] + q;
  }

  lemma InsertedBefore(gone: seq<Message>, q: seq<Message>, m: Message)
    requires Sorted(gone + q) && UpperBound(gone + q, m.stamp) < |gone|
    ensures Inserted(q, m) == [m] + q && Inserted(gone + q, m) == Inserted(gone, m) + q
    ensures |Inserted(gone, m)| == |gone| + 1 && Inserted(gone, m)[|gone|] == gone[|gone| - 1]
  {
    UpperBoundSplits(gone, q, m.stamp);
    hide UpperBound, Sorted;
    Spliced(gone, q, m, UpperBound(gone + q, m.stamp));
    assert q[..0] + [m] + q[0..] == [m] + q;
  }

  lemma {:induction false} UpperBoundIs(queue: seq<Message>, stamp: int, i: nat)
    requires i <= |queue| && (forall k :: 0 <= k < i ==> queue[k].stamp <= stamp)
    requires i < |queue| ==> queue[i].stamp > stamp
    ensures UpperBound(queue, stamp) == i
  {
    if i > 0 { UpperBoundIs(queue[1..], stamp, i - 1); }
  }

  lemma StillTooLong(q: seq<Message>, before: Option<int>, after: Option<int>, limits: Limits)
    requires !Meets(q, before, limits) && Later(before, after)
    ensures !Meets(q, after, limits)
  {}

  lemma InsertedMembers(q: seq<Message>, m: Message)
    ensures forall x :: x in q ==> x in Inserted(q, m)
  {
    var i := UpperBound(q, m.stamp);
    assert q == q[..i] + q[i..];
  }

  lemma InsertedStillTooLong(e: Message, q: seq<Message>, m: Message, before: Option<int>, after: int, limits: Limits)
    requires !Meets([e] + q, before, limits) && Later(before, Some(after))
    ensures !Meets([e] + Inserted(q, m), Some(after), limits)
  {
    PayloadInserted(q, m);
    PayloadAppend([e], q);
    PayloadAppend([e], Inserted(q, m));
    InsertedMembers(q, m);
    assert |Inserted(q, m)| == |q| + 1;
    hide Inserted, Payload;
    assert forall x :: x in [e] + q ==> x in [e] + Inserted(q, m);
  }

  lemma SlippedFront(gone: seq<Message>, q: seq<Message>, m: Message, after: int, limits: Limits)
    requires gone != [] && |Inserted(gone, m)| == |gone| + 1 && Inserted(gone, m)[|gone|] == gone[|gone| - 1]
    requires !Meets([gone[|gone| - 1]] + q, Some(after), limits)
    ensures Kept(Inserted(gone, m) + q, Some(after), limits) == Kept(q, Some(after), limits)
    ensures Kept([m] + q, Some(after), limits) == Kept(q, Some(after), limits) <==> !Meets([m] + q, Some(after), limits)
  {
    hide Meets, Inserted;
    KeptOfSuffix(Inserted(gone, m), q, Some(after), limits);
    assert ([m] + q)[1..] == q;
  }

  // ---- whole histories ----

  ghost predicate Refines(b: Buffer, arrivals: seq<Arrival>, limits: Limits)
  {
    && Laned(b) && (limits.maxSize > 0 ==> b.latest == Newest(arrivals))
    && forall s: Sensor :: LaneRefines(b, arrivals, limits, s)
  }

  ghost predicate LaneRefines(b: Buffer, arrivals: seq<Arrival>, limits: Limits, s: Sensor)
    requires Laned(b)
  {
    b.lanes[s].queue == Kept(StableSort(From(arrivals, s)), Newest(arrivals), limits)
  }

  /** Every counter is the true number of bytes. */
  ghost predicate Exact(b: Buffer)
    requires Laned(b)
  {
    forall s: Sensor :: b.lanes[s].bytes == Payload(b.lanes[s].queue)
  }

  /** The counter cannot hold the new frame. */
  ghost predicate Saturates(b: Buffer, a: Arrival)
    requires Laned(b)
  {
    b.lanes[a.sensor].bytes + a.frame.bytes > MAX_SIZE_T
  }

  ghost predicate Countable(b: Buffer, a: Arrival, limits: Limits)
    requires Laned(b)
  {
    limits.maxBytes > 0 ==> Exact(b) && !Saturates(b, a)
  }

  lemma ExactEvictions(l: Lane, watermark: int, limits: Limits)
    requires Counted(l) && l.bytes == Payload(l.queue)
    ensures var t := Trimmed(l, limits); t.bytes == Payload(t.queue)
    ensures var e := Expired(l, watermark, limits); e.bytes == Payload(e.queue)
    decreases |l.queue|
  {
    if l.queue != [] { ExactEvictions(Popped(l), watermark, limits); }
  }

  /** Without saturation the counters stay exact. */
  lemma AddedStaysExact(b: Buffer, a: Arrival, limits: Limits)
    requires Laned(b) && Exact(b) && !Saturates(b, a)
    ensures Exact(Added(b, a, limits))
  {
    var l := b.lanes[a.sensor];
    PayloadInserted(l.queue, a.frame);
    var w := Watermark(b.latest, a.frame.stamp);
    forall s: Sensor ensures Added(b, a, limits).lanes[s].bytes == Payload(Added(b, a, limits).lanes[s].queue) {
      ExactEvictions(Lane(Inserted(l.queue, a.frame), SaturatingSum(l.bytes, a.frame.bytes)), w, limits);
      ExactEvictions(Accepted(l, a.frame, limits), w, limits);
      ExactEvictions(b.lanes[s], w, limits);
    }
  }

  /** The frame's own lane: reference and queue agree after the arrival exactly when the frame does not slip back. */
  lemma OwnLane(l: Lane, sorted: seq<Message>, m: Message, before: Option<int>, after: int, limits: Limits)
    requires Counted(l) && Sorted(sorted) && l.queue == Kept(sorted, before, limits) && Later(before, Some(after))
    requires limits.maxBytes > 0 ==> l.bytes == Payload(l.queue) && l.bytes + m.bytes <= MAX_SIZE_T
    ensures Expired(Accepted(l, m, limits), after, limits).queue == Kept(Inserted(sorted, m), Some(after), limits)
            <==> !SlipsBack(sorted, m, before, after, limits)
  {
    KeptIsSorted(sorted, before, limits);
    InsertedKeepsSorted(l.queue, m);
    PayloadInserted(l.queue, m);
    var taken := Lane(Inserted(l.queue, m), SaturatingSum(l.bytes, m.bytes));
    TrimmedIsKept(taken, limits);
    KeptIsSorted(taken.queue, None, limits);
    ExpiredIsKept(Trimmed(taken, limits), after, limits);
    KeptTwice(taken.queue, None, Some(after), limits);
    InsertedIsKept(sorted, m, before, after, limits);
  }

  lemma KeptIsSorted(sorted: seq<Message>, newest: Option<int>, limits: Limits)
    requires Sorted(sorted)
    ensures Sorted(Kept(sorted, newest, limits))
  {
    var gone, q := GoneAndKept(sorted, newest, limits);
    assert forall k :: 0 <= k < |q| ==> q[k] == sorted[|gone| + k];
  }

  lemma OtherLane(l: Lane, sorted: seq<Message>, before: Option<int>, after: int, limits: Limits)
    requires Counted(l) && Sorted(sorted) && l.queue == Kept(sorted, before, limits) && Later(before, Some(after))
    ensures Expired(l, after, limits).queue == Kept(sorted, Some(after), limits)
  {
    KeptIsSorted(sorted, before, limits);
    ExpiredIsKept(l, after, limits);
    KeptTwice(sorted, before, Some(after), limits);
  }

  /** A frame that is too old on arrival would not have been kept. */
  lemma RejectedLane(sorted: seq<Message>, m: Message, newest: int, limits: Limits)
    requires Sorted(sorted) && TooOld(m.stamp, newest, limits)
    ensures Kept(Inserted(sorted, m), Some(newest), limits) == Kept(sorted, Some(newest), limits)
    ensures !SlipsBack(sorted, m, Some(newest), newest, limits)
  {
    var q := Kept(sorted, Some(newest), limits);
    assert ([m] + q)[0] == m && m in [m] + q;
    RejectedFront(q, m, newest, limits);
    hide Kept, Meets, Inserted, UpperBound;
    InsertedIsKept(sorted, m, Some(newest), newest, limits);
  }

  lemma RejectedFront(q: seq<Message>, m: Message, newest: int, limits: Limits)
    requires Meets(q, Some(newest), limits) && TooOld(m.stamp, newest, limits)
    ensures Kept(Inserted(q, m), Some(newest), limits) == q
  {
    if q != [] { assert q[0] in q; }
    UpperBoundIs(q, m.stamp, 0);
    assert q[..0] + [m] + q[0..] == [m] + q;
    assert ([m] + q)[0] == m && m in [m] + q && ([m] + q)[1..] == q;
  }

  /** How the next arrival of the history could slip back. */
  ghost predicate SlipsBackNext(arrivals: seq<Arrival>, a: Arrival, limits: Limits)
  {
    SlipsBack(StableSort(From(arrivals, a.sensor)), a.frame, Newest(arrivals),
              Watermark(Newest(arrivals), a.frame.stamp), limits)
  }

  lemma OneMoreArrival(front: seq<Arrival>, a: Arrival, s: Sensor)
    ensures Newest(front + [a]) == Some(Watermark(Newest(front), a.frame.stamp))
    ensures From(front + [a], s) == if s == a.sensor then From(front, s) + [a.frame] else From(front, s)
    ensures StableSort(From(front + [a], a.sensor)) == Inserted(StableSort(From(front, a.sensor)), a.frame)
    ensures Sorted(StableSort(From(front, s)))
  {
    assert (front + [a])[..|front|] == front;
    assert From(front, s) + [] == From(front, s);
    SortedAppend(From(front, a.sensor), a.frame);
    StableSortIsStable(From(front, s), 0);
  }

  lemma LaneStep(b: Buffer, front: seq<Arrival>, a: Arrival, limits: Limits, s: Sensor)
    requires Laned(b) && b.latest == Newest(front) && limits.maxSize > 0
    requires LaneRefines(b, front, limits, s) && Countable(b, a, limits)
    ensures LaneRefines(Added(b, a, limits), front + [a], limits, s)
            <==> !(s == a.sensor && SlipsBackNext(front, a, limits))
  {
    var w := Watermark(Newest(front), a.frame.stamp);
    OneMoreArrival(front, a, s);
    hide Kept, StableSort, From, Newest, Inserted, Sorted, Accepted, Expired, SlipsBack;
    var sorted := StableSort(From(front, s));
    if TooOld(a.frame.stamp, w, limits) {
      assert Newest(front) == Some(w);
      if s == a.sensor { RejectedLane(sorted, a.frame, w, limits); }
    } else if s == a.sensor {
      OwnLane(b.lanes[s], sorted, a.frame, Newest(front), w, limits);
    } else {
      OtherLane(b.lanes[s], sorted, Newest(front), w, limits);
    }
  }

  lemma NoRoomRefines(b: Buffer, front: seq<Arrival>, a: Arrival, limits: Limits)
    requires Refines(b, front, limits) && limits.maxSize == 0
    ensures Refines(Added(b, a, limits), front + [a], limits) && !SlipsBackNext(front, a, limits)
  {
    NothingKept(front, front + [a], a, limits);
    hide Kept, StableSort, From, Newest, SlipsBackNext;
    forall s: Sensor ensures LaneRefines(b, front + [a], limits, s) { assert LaneRefines(b, front, limits, s); }
  }

  lemma StepRefines(b: Buffer, front: seq<Arrival>, a: Arrival, limits: Limits)
    requires Refines(b, front, limits) && Countable(b, a, limits)
    ensures Refines(Added(b, a, limits), front + [a], limits) <==> !SlipsBackNext(front, a, limits)
  {
    if limits.maxSize == 0 {
      NoRoomRefines(b, front, a, limits);
    } else {
      OneMoreArrival(front, a, a.sensor);
      hide LaneRefines, SlipsBackNext, Newest, Countable;
      forall s: Sensor
        ensures LaneRefines(Added(b, a, limits), front + [a], limits, s)
                <==> !(s == a.sensor && SlipsBackNext(front, a, limits))
      {
        assert LaneRefines(b, front, limits, s);
        LaneStep(b, front, a, limits, s);
      }
      assert LaneRefines(Added(b, a, limits), front + [a], limits, a.sensor) <==> !SlipsBackNext(front, a, limits);
    }
  }

  lemma SortedAppend(frames: seq<Message>, m: Message)
    ensures StableSort(frames + [m]) == Inserted(StableSort(frames), m)
  {
    assert (frames + [m])[..|frames|] == frames;
  }

  lemma NothingKept(front: seq<Arrival>, all: seq<Arrival>, a: Arrival, limits: Limits)
    requires limits.maxSize == 0
    ensures forall sorted, newest :: Kept(sorted, newest, limits) == []
    ensures !SlipsBackNext(front, a, limits)
  {}

  /** No arrival of the history slips back. */
  ghost predicate Smooth(arrivals: seq<Arrival>, limits: Limits)
  {
    arrivals != [] ==>
      var front, last := arrivals[..|arrivals| - 1], arrivals[|arrivals| - 1];
      Smooth(front, limits) && !SlipsBackNext(front, last, limits)
  }

  ghost predicate NeverSaturates(arrivals: seq<Arrival>, limits: Limits)
  {
    arrivals != [] ==>
      var front, last := arrivals[..|arrivals| - 1], arrivals[|arrivals| - 1];
      NeverSaturates(front, limits) && !Saturates(AfterArrivals(front, limits), last)
  }

  lemma {:induction false} CountersStayExact(arrivals: seq<Arrival>, limits: Limits)
    requires NeverSaturates(arrivals, limits)
    ensures Exact(AfterArrivals(arrivals, limits))
  {
    if arrivals == [] {
      EmptyIsExact();
    } else {
      CountersStayExact(arrivals[..|arrivals| - 1], limits);
      AddedStaysExact(AfterArrivals(arrivals[..|arrivals| - 1], limits), arrivals[|arrivals| - 1], limits);
    }
  }

  lemma EmptyIsExact()
    ensures Laned(Empty) && Exact(Empty)
  {
    EmptyIsLaned();
    forall s: Sensor ensures Empty.lanes[s] == Lane([], 0) {
      if s == Camera {} else { assert s == Lidar; }
    }
  }

  lemma EmptyRefines(limits: Limits)
    ensures Refines(Empty, [], limits)
  {
    EmptyIsLaned();
    forall s: Sensor ensures LaneRefines(Empty, [], limits, s) {
      if s == Camera {} else { assert s == Lidar; }
    }
  }

  /** After every single arrival each queue is the reference. */
  ghost predicate AlwaysRefines(arrivals: seq<Arrival>, limits: Limits)
  {
    && (arrivals != [] ==> AlwaysRefines(arrivals[..|arrivals| - 1], limits))
    && Refines(AfterArrivals(arrivals, limits), arrivals, limits)
  }

  /** The buffer holds, for each sensor and after every arrival, the longest suffix of its sorted arrivals within the
      three limits, exactly when no arrival slips back; a byte limit needs counters that never saturate. */
  lemma {:induction false} BufferIsReference(arrivals: seq<Arrival>, limits: Limits)
    requires limits.maxBytes > 0 ==> NeverSaturates(arrivals, limits)
    ensures Smooth(arrivals, limits) <==> AlwaysRefines(arrivals, limits)
  {
    if arrivals == [] {
      EmptyRefines(limits);
    } else {
      var front, last := arrivals[..|arrivals| - 1], arrivals[|arrivals| - 1];
      if limits.maxBytes > 0 { CountersStayExact(front, limits); }
      BufferIsReference(front, limits);
      assert front + [last] == arrivals
        && AfterArrivals(arrivals, limits) == Added(AfterArrivals(front, limits), last, limits);
      hide Refines, SlipsBackNext, Added, Exact, Saturates, AfterArrivals;
      if AlwaysRefines(front, limits) { StepRefines(AfterArrivals(front, limits), front, last, limits); }
    }
  }

  // ---- which histories are smooth ----

  /** Without a byte limit every history is, in whatever order frames arrive. */
  lemma {:induction false} NoByteLimitIsSmooth(arrivals: seq<Arrival>, limits: Limits)
    requires limits.maxBytes == 0
    ensures Smooth(arrivals, limits)
  {
    if arrivals != [] {
      var front, a := arrivals[..|arrivals| - 1], arrivals[|arrivals| - 1];
      NoByteLimitIsSmooth(front, limits);
      StableSortIsStable(From(front, a.sensor), 0);
      CannotSlipBack(StableSort(From(front, a.sensor)), a.frame, Newest(front), Watermark(Newest(front), a.frame.stamp),
                     limits);
    }
  }

  lemma CannotSlipBack(sorted: seq<Message>, m: Message, before: Option<int>, after: int, limits: Limits)
    requires limits.maxBytes == 0 && Sorted(sorted) && Later(before, Some(after))
    ensures !SlipsBack(sorted, m, before, after, limits)
  {
    var gone, q := GoneAndKept(sorted, before, limits);
    var i := UpperBound(sorted, m.stamp);
    if i < |gone| {
      assert sorted[i].stamp <= sorted[|gone| - 1].stamp && sorted[|gone| - 1] == gone[|gone| - 1];
      hide Meets, Kept, UpperBound, Sorted;
      NoRoomBelow(gone[|gone| - 1], q, m, before, after, limits);
    }
  }

  /** Given up by count there is no room for m, given up by age m is too old as well. */
  lemma NoRoomBelow(e: Message, q: seq<Message>, m: Message, before: Option<int>, after: int, limits: Limits)
    requires limits.maxBytes == 0 && Later(before, Some(after)) && m.stamp <= e.stamp
    requires Meets(q, before, limits) && !Meets([e] + q, before, limits)
    ensures !Meets([m] + q, Some(after), limits)
  {
    assert ([m] + q)[0] == m && m in [m] + q;
    assert forall x :: x in [e] + q ==> x == e || x in q;
  }

  /** A sensor whose frames arrive in order never slips back, and its sorted arrivals are its arrivals. */
  lemma {:induction false} InOrderIsSorted(frames: seq<Message>)
    requires Sorted(frames)
    ensures StableSort(frames) == frames
  {
    if frames != [] {
      var front, last := frames[..|frames| - 1], frames[|frames| - 1];
      InOrderIsSorted(front);
      InsertedKeepsSorted(front, last);
      assert front + [last] == frames;
    }
  }

  lemma {:induction false} InOrderIsSmooth(arrivals: seq<Arrival>, limits: Limits)
    requires forall s: Sensor :: Sorted(From(arrivals, s))
    ensures Smooth(arrivals, limits)
  {
    if arrivals != [] {
      var front, a := arrivals[..|arrivals| - 1], arrivals[|arrivals| - 1];
      forall s: Sensor ensures Sorted(From(front, s)) {
        assert Sorted(From(arrivals, s));
        assert forall k :: 0 <= k < |From(front, s)| ==> From(arrivals, s)[k] == From(front, s)[k];
      }
      InOrderIsSmooth(front, limits);
      var frames := From(front, a.sensor);
      assert From(arrivals, a.sensor) == frames + [a.frame];
      InOrderIsSorted(frames);
      forall k | 0 <= k < |frames| ensures frames[k].stamp <= a.frame.stamp {
        assert frames[k] == From(arrivals, a.sensor)[k] && a.frame == From(arrivals, a.sensor)[|frames|];
      }
      UpperBoundIs(frames, a.frame.stamp, |frames|);
    }
  }

  /** With a byte limit, frames that leave the counter room beyond the limit never saturate it. */
  lemma {:induction false} SmallFramesNeverSaturate(arrivals: seq<Arrival>, limits: Limits)
    requires limits.maxBytes > 0 && forall a :: a in arrivals ==> limits.maxBytes + a.frame.bytes <= MAX_SIZE_T
    ensures NeverSaturates(arrivals, limits)
  {
    if arrivals != [] {
      SmallFramesNeverSaturate(arrivals[..|arrivals| - 1], limits);
      CountersWithinLimit(arrivals[..|arrivals| - 1], limits);
    }
  }

  lemma {:induction false} CountersWithinLimit(arrivals: seq<Arrival>, limits: Limits)
    requires limits.maxBytes > 0
    ensures forall s: Sensor :: AfterArrivals(arrivals, limits).lanes[s].bytes <= limits.maxBytes
  {
    if arrivals == [] {
      EmptyIsExact();
    } else {
      var front, a := arrivals[..|arrivals| - 1], arrivals[|arrivals| - 1];
      CountersWithinLimit(front, limits);
      var b := AfterArrivals(front, limits);
      assert AfterArrivals(arrivals, limits) == Added(b, a, limits);
      forall s: Sensor ensures Added(b, a, limits).lanes[s].bytes <= limits.maxBytes {
        AddedWithinLimit(b, a, limits, s);
      }
    }
  }

  lemma AddedWithinLimit(b: Buffer, a: Arrival, limits: Limits, s: Sensor)
    requires Laned(b) && limits.maxBytes > 0 && b.lanes[s].bytes <= limits.maxBytes
    ensures Added(b, a, limits).lanes[s].bytes <= limits.maxBytes
  {
    var w := Watermark(b.latest, a.frame.stamp);
    EvictionOnlyLowers(b.lanes[s], w, limits);
    var taken := Accepted(b.lanes[a.sensor], a.frame, limits);
    EvictionOnlyLowers(taken, w, limits);
    assert taken.bytes <= limits.maxBytes;
    hide Expired, Accepted;
  }

  lemma {:induction false} EvictionOnlyLowers(l: Lane, watermark: int, limits: Limits)
    requires Counted(l)
    ensures Expired(l, watermark, limits).bytes <= l.bytes
    decreases |l.queue|
  {
    if l.queue != [] { EvictionOnlyLowers(Popped(l), watermark, limits); }
  }

  function Last(frames: seq<Message>, n: nat): seq<Message> { if |frames| <= n then frames else frames[|frames| - n..] }

  /** Frames not below the stamp, given they are in time order. */
  function NotBefore(sorted: seq<Message>, stamp: int): seq<Message>
  {
    if sorted != [] && sorted[0].stamp < stamp then NotBefore(sorted[1..], stamp) else sorted
  }

  lemma LastOfTail(frames: seq<Message>, n: nat)
    requires |frames| > n
    ensures Last(frames, n) == Last(frames[1..], n)
  {
    assert frames[1..][|frames| - 1 - n..] == frames[|frames| - n..];
  }

  /** Without a byte limit: the last maxSize of the sorted arrivals, restricted to the newest stamp minus the age. */
  lemma {:induction false} KeptByCountAndAge(sorted: seq<Message>, newest: int, limits: Limits)
    requires limits.maxBytes == 0 && Sorted(sorted)
    ensures Kept(sorted, Some(newest), limits)
            == if limits.maxAge > 0 then NotBefore(Last(sorted, limits.maxSize), newest - limits.maxAge)
               else Last(sorted, limits.maxSize)
  {
    if |sorted| > limits.maxSize {
      KeptByCountAndAge(sorted[1..], newest, limits);
      LastOfTail(sorted, limits.maxSize);
    } else if sorted != [] && TooOld(sorted[0].stamp, newest, limits) {
      assert sorted[0] in sorted;
      KeptByCountAndAge(sorted[1..], newest, limits);
    }
  }

  /** The gap: under a byte limit a late frame older than one given up for bytes is kept when it fits. */
  lemma LateSmallFrameSlipsBack()
    ensures var x, y, z := Message(5, 0, 9), Message(7, 1, 8), Message(4, 2, 1);
            !Smooth([Arrival(Camera, x), Arrival(Camera, y), Arrival(Camera, z)], Limits(100, 0, 10))
  {
    var x, y, z := Message(5, 0, 9), Message(7, 1, 8), Message(4, 2, 1);
    var two := [Arrival(Camera, x), Arrival(Camera, y)];
    var three := [Arrival(Camera, x), Arrival(Camera, y), Arrival(Camera, z)];
    assert three[..2] == two;
    hide SlipsBack, StableSort, From, Newest;
    TwoInOrder(x, y);
    SlipsBackExample(x, y, z);
    assert SlipsBackNext(two, three[2], Limits(100, 0, 10));
  }

  lemma TwoInOrder(x: Message, y: Message)
    requires x.stamp < y.stamp
    ensures var two := [Arrival(Camera, x), Arrival(Camera, y)];
            StableSort(From(two, Camera)) == [x, y] && Newest(two) == Some(y.stamp)
  {
    hide StableSort, From, Newest;
    var a, b := Arrival(Camera, x), Arrival(Camera, y);
    NoArrivals();
    OneMoreArrival([], a, Camera);
    assert [] + [a] == [a] && [] + [x] == [x];
    OneMoreArrival([a], b, Camera);
    assert [a] + [b] == [a, b] && [x] + [y] == [x, y];
    InOrderIsSorted([x, y]);
  }

  lemma NoArrivals()
    ensures From([], Camera) == [] && Newest([]) == None
  {
  }

  lemma SlipsBackExample(x: Message, y: Message, z: Message)
    requires x.stamp == 5 && x.bytes == 9 && y.stamp == 7 && y.bytes == 8 && z.stamp == 4 && z.bytes == 1
    ensures SlipsBack([x, y], z, Some(7), 7, Limits(100, 0, 10))
  {
    var limits := Limits(100, 0, 10);
    PairPayload(x, y);
    PairPayload(z, y);
    assert Meets([y], Some(7), limits) && Kept([y], Some(7), limits) == [y];
    assert !Meets([x, y], Some(7), limits) && [x, y][1..] == [y];
    assert Kept([x, y], Some(7), limits) == [y];
    assert [z] + [y] == [z, y] && Meets([z, y], Some(7), limits);
    assert UpperBound([x, y], z.stamp) == 0;
  }

  lemma PairPayload(x: Message, y: Message)
    ensures Payload([x, y]) == x.bytes + y.bytes && Payload([y]) == y.bytes
  {
    assert Payload([y]) == y.bytes + Payload([]) by { assert [y][1..] == []; }
    assert [x, y][1..] == [y];
  }

  // ---- the buffer ----

  function InRange(queue: seq<Message>, start: int, end: int): seq<Message>
  {
    if queue == [] then []
    else
      var last := queue[|queue| - 1];
      InRange(queue[..|queue| - 1], start, end) + if start <= last.stamp <= end then [last] else []
  }

  /** The frames from i on up to j are those not before start and not after end. */
  ghost predicate Stretch(queue: seq<Message>, start: int, end: int, i: nat, j: nat)
  {
    && i <= j <= |queue| && (forall k :: 0 <= k < i ==> queue[k].stamp < start)
    && (forall k :: i <= k < j ==> start <= queue[k].stamp <= end)
    && forall k :: j <= k < |queue| ==> queue[k].stamp > end
  }

  /** Of an ordered queue the frames of a closed range are the stretch between those before and those after it. */
  lemma {:induction false} InRangeExactly(queue: seq<Message>, start: int, end: int) returns (i: nat, j: nat)
    requires Sorted(queue) && start <= end
    ensures Stretch(queue, start, end, i, j) && InRange(queue, start, end) == queue[i..j]
  {
    if queue == [] {
      i, j := 0, 0;
    } else {
      var front, last := queue[..|queue| - 1], queue[|queue| - 1];
      i, j := InRangeExactly(front, start, end);
      StretchGrows(queue, start, end, i, j);
      hide Stretch, Sorted;
      CutAnother(front, last, i, j);
      assert queue == front + [last] && InRange(front, start, end) + [] == InRange(front, start, end);
      if last.stamp < start {
        i, j := |queue|, |queue|;
      } else if last.stamp <= end {
        j := |queue|;
      }
    }
  }

  lemma CutAnother(front: seq<Message>, last: Message, i: nat, j: nat)
    requires i <= j <= |front|
    ensures (front + [last])[i..j] == front[i..j]
    ensures j == |front| ==> (front + [last])[i..|front| + 1] == front[i..j] + [last]
  {
  }

  lemma StretchGrows(queue: seq<Message>, start: int, end: int, i: nat, j: nat)
    requires Sorted(queue) && queue != [] && Stretch(queue[..|queue| - 1], start, end, i, j)
    ensures i <= j <= |queue| - 1
    ensures var n, last := |queue|, queue[|queue| - 1];
            if last.stamp < start then i == j && Stretch(queue, start, end, n, n)
            else if last.stamp <= end then j == n - 1 && Stretch(queue, start, end, i, n)
            else Stretch(queue, start, end, i, j)
  {
    var front, n := queue[..|queue| - 1], |queue|;
    forall k | 0 <= k < n - 1 ensures front[k] == queue[k] && queue[k].stamp <= queue[n - 1].stamp {}
    if i < j { assert front[i].stamp >= start; }
    if j < n - 1 { assert front[j].stamp > end; }
  }

  class DataBuffer {
    /** queues_ and queueBytes_, side by side. */
    var lanes: map<Sensor, Lane>
    var latest: Option<int>
    const limits: Limits

    ghost function Contents(): Buffer
      reads this
    {
      Buffer(lanes, latest)
    }

    ghost predicate Valid()
      reads this
    {
      Laned(Contents()) && forall s: Sensor :: Sorted(lanes[s].queue)
    }

    constructor (limits: Limits)
      ensures Valid() && Contents() == Empty && this.limits == limits
    {
      lanes, latest := Empty.lanes, None;
      this.limits := limits;
      new;
      EmptyIsExact();
      assert forall s: Sensor :: lanes[s].queue == [] by {
        forall s: Sensor ensures Empty.lanes[s].queue == [] { if s == Camera {} else { assert s == Lidar; } }
      }
    }

    method AddData(a: Arrival)
      requires Valid()
      modifies this
      ensures Valid() && Contents() == Added(old(Contents()), a, limits)
    {
      if limits.maxSize == 0 {
        return;
      }
      var timestamp := a.frame.stamp;
      if latest.None? || timestamp > latest.value {
        latest := Some(timestamp);
      }
      if limits.maxAge > 0 && timestamp < latest.value - limits.maxAge {
        return;
      }
      var lane := TakeIn(lanes[a.sensor], a.frame);
      hide Accepted;
      lanes := lanes[a.sensor := lane];
      EvictExpired();
    }

    method TakeIn(l: Lane, m: Message) returns (lane: Lane)
      requires Counted(l) && Sorted(l.queue)
      ensures lane == Accepted(l, m, limits) && Sorted(lane.queue)
    {
      PayloadInserted(l.queue, m);
      InsertedKeepsSorted(l.queue, m);
      var queue := InsertOrdered(l.queue, m);
      var bytes := if m.bytes > MAX_SIZE_T - l.bytes then MAX_SIZE_T else l.bytes + m.bytes;
      lane := Lane(queue, bytes);
      ghost var full := lane;
      while |lane.queue| > limits.maxSize || (limits.maxBytes > 0 && lane.bytes > limits.maxBytes)
        invariant Counted(lane) && Sorted(lane.queue) && Trimmed(lane, limits) == Trimmed(full, limits)
        decreases |lane.queue|
      {
        lane := PopFront(lane);
      }
    }

    method EvictExpired()
      requires Valid() && latest.Some?
      modifies this`lanes
      ensures Valid() && lanes == AllExpired(old(lanes), latest.value, limits)
    {
      if limits.maxAge <= 0 {
        return;
      }
      var oldestAllowed := latest.value - limits.maxAge;
      var camera := EvictLane(lanes[Camera], oldestAllowed);
      var lidar := EvictLane(lanes[Lidar], oldestAllowed);
      lanes := lanes[Camera := camera][Lidar := lidar];
      forall s: Sensor
        ensures s in lanes && lanes[s] == Expired(old(lanes[s]), latest.value, limits) && Sorted(lanes[s].queue)
      {
        if s == Camera {} else { assert s == Lidar; }
      }
    }

    method EvictLane(l: Lane, oldestAllowed: int) returns (lane: Lane)
      requires Counted(l) && Sorted(l.queue)
      ensures lane == Evicted(l, oldestAllowed) && Sorted(lane.queue)
    {
      lane := l;
      while lane.queue != [] && lane.queue[0].stamp < oldestAllowed
        invariant Counted(lane) && Sorted(lane.queue) && Evicted(lane, oldestAllowed) == Evicted(l, oldestAllowed)
        decreases |lane.queue|
      {
        lane := PopFront(lane);
      }
    }

    method PopFront(l: Lane) returns (lane: Lane)
      requires l.queue != []
      ensures lane == Popped(l)
    {
      var removed := l.queue[0].bytes;
      lane := Lane(l.queue[1..], if removed > l.bytes then 0 else l.bytes - removed);
    }

    method DataWithinTimeRange(start: int, end: int) returns (result: seq<Message>)
      requires Valid()
      ensures result == InRange(lanes[Camera].queue, start, end) + InRange(lanes[Lidar].queue, start, end)
    {
      var camera := Select(lanes[Camera].queue, start, end);
      var lidar := Select(lanes[Lidar].queue, start, end);
      result := camera + lidar;
    }

    method Select(queue: seq<Message>, start: int, end: int) returns (result: seq<Message>)
      ensures result == InRange(queue, start, end)
    {
      result := [];
      for i := 0 to |queue|
        invariant result == InRange(queue[..i], start, end)
      {
        assert queue[..i + 1][..i] == queue[..i];
        if queue[i].stamp >= start && queue[i].stamp <= end {
          result := result + [queue[i]];
        }
      }
      assert queue[..|queue|] == queue;
    }

    method LatestSensorTimestamp() returns (stamp: Option<int>)
      ensures stamp == latest
    {
      stamp := latest;
    }
  }
}
