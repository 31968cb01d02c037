/**
 The pair ledger, include/pair_index.hpp, and what the synchronizer writes into it: whatever the arrival order
 of the messages, every one of them ends in exactly one record.
 */
module PairLedger {
  import opened Prelude
  import opened Synchronizer

  // ---- conservation of messages ----

  /** How many messages carry the stamp. */
  function Stamped(queue: seq<Message>, x: int): nat
  {
    if queue == [] then 0 else (if queue[0].stamp == x then 1 else 0) + Stamped(queue[1..], x)
  }

  function Side(m: Match, sensor: Sensor): Message { if sensor == Camera then m.image else m.cloud }

  function MatchStamped(matches: seq<Match>, sensor: Sensor, x: int): nat
  {
    if matches == [] then 0
    else (if Side(matches[0], sensor).stamp == x then 1 else 0) + MatchStamped(matches[1..], sensor, x)
  }

  function DropStamped(drops: seq<Drop>, sensor: Sensor, x: int): nat
  {
    if drops == [] then 0
    else (if drops[0].sensor == sensor && drops[0].stamp == x then 1 else 0) + DropStamped(drops[1..], sensor, x)
  }

  /** How often a call reported the sensor's stamp, matched or dropped. */
  function Spent(r: Results, sensor: Sensor, x: int): nat
  {
    MatchStamped(r.matches, sensor, x) + DropStamped(r.drops, sensor, x)
  }

  function Queue(s: State, sensor: Sensor): seq<Message> { if sensor == Camera then s.images else s.clouds }

  function Dropped(s: State, sensor: Sensor): nat { if sensor == Camera then s.droppedImages else s.droppedClouds }

  /** The sensor's drops carry the running counts low + 1 to high, in order. */
  ghost predicate Numbered(drops: seq<Drop>, sensor: Sensor, low: nat, high: nat)
  {
    if drops == [] then low == high
    else if drops[0].sensor == sensor then drops[0].count == low + 1 && Numbered(drops[1..], sensor, low + 1, high)
    else Numbered(drops[1..], sensor, low, high)
  }

  /** A true match: the distance is exact and within tolerance. */
  ghost predicate Faithful(m: Match, tolerance: int)
  {
    && (m.difference == m.image.stamp - m.cloud.stamp || m.difference == m.cloud.stamp - m.image.stamp)
    && m.difference <= tolerance
  }

  /** Going from s to t, every message that left a queue is in r exactly once, and the counters kept pace. */
  ghost predicate Balanced(s: State, r: Results, t: State, tolerance: int)
  {
    && (forall sensor, x :: Spent(r, sensor, x) + Stamped(Queue(t, sensor), x) == Stamped(Queue(s, sensor), x))
    && (forall sensor :: Numbered(r.drops, sensor, Dropped(s, sensor), Dropped(t, sensor)))
    && forall m :: m in r.matches ==> Faithful(m, tolerance)
  }

  lemma {:induction false} MatchStampedAppend(a: seq<Match>, b: seq<Match>, sensor: Sensor, x: int)
    ensures MatchStamped(a + b, sensor, x) == MatchStamped(a, sensor, x) + MatchStamped(b, sensor, x)
  {
    if a == [] {
      assert a + b == b;
    } else {
      MatchStampedAppend(a[1..], b, sensor, x);
      assert (a + b)[1..] == a[1..] + b;
    }
  }

  lemma {:induction false} DropStampedAppend(a: seq<Drop>, b: seq<Drop>, sensor: Sensor, x: int)
    ensures DropStamped(a + b, sensor, x) == DropStamped(a, sensor, x) + DropStamped(b, sensor, x)
  {
    if a == [] {
      assert a + b == b;
    } else {
      DropStampedAppend(a[1..], b, sensor, x);
      assert (a + b)[1..] == a[1..] + b;
    }
  }

  lemma {:induction false} NumberedAppend(a: seq<Drop>, b: seq<Drop>, sensor: Sensor, low: nat, mid: nat, high: nat)
    requires Numbered(a, sensor, low, mid) && Numbered(b, sensor, mid, high)
    ensures Numbered(a + b, sensor, low, high)
  {
    if a == [] {
      assert a + b == b;
    } else {
      NumberedAppend(a[1..], b, sensor, if a[0].sensor == sensor then low + 1 else low, mid, high);
      assert (a + b)[1..] == a[1..] + b;
    }
  }

  lemma SpentThen(a: Results, b: Results, sensor: Sensor, x: int)
    ensures Spent(Then(a, b), sensor, x) == Spent(a, sensor, x) + Spent(b, sensor, x)
  {
    MatchStampedAppend(a.matches, b.matches, sensor, x);
    DropStampedAppend(a.drops, b.drops, sensor, x);
  }

  lemma BalancedThen(s: State, a: Results, t: State, b: Results, u: State, tolerance: int)
    requires Balanced(s, a, t, tolerance) && Balanced(t, b, u, tolerance)
    ensures Balanced(s, Then(a, b), u, tolerance)
  {
    hide Spent, Stamped, Queue, Dropped, Numbered, Faithful;
    forall sensor, x
      ensures Spent(Then(a, b), sensor, x) + Stamped(Queue(u, sensor), x) == Stamped(Queue(s, sensor), x)
    {
      SpentThen(a, b, sensor, x);
    }
    forall sensor ensures Numbered(Then(a, b).drops, sensor, Dropped(s, sensor), Dropped(u, sensor)) {
      NumberedAppend(a.drops, b.drops, sensor, Dropped(s, sensor), Dropped(t, sensor), Dropped(u, sensor));
    }
  }

  lemma NothingBalances(s: State, tolerance: int)
    ensures Balanced(s, Nothing, s, tolerance)
  {}

  lemma OneDrop(d: Drop, sensor: Sensor, x: int, low: nat)
    ensures Spent(Results([], [d]), sensor, x) == if d.sensor == sensor && d.stamp == x then 1 else 0
    ensures Numbered([d], sensor, low, if d.sensor == sensor then low + 1 else low)
            <==> (d.sensor == sensor ==> d.count == low + 1)
  {
    var drops := [d];
    assert drops[1..] == [];
    assert DropStamped(drops[1..], sensor, x) == 0 && MatchStamped([], sensor, x) == 0;
  }

  lemma DropImageBalances(s: State, reason: Reason, tolerance: int)
    requires s.images != []
    ensures var (t, d) := DropImage(s, reason); Balanced(s, Results([], [d]), t, tolerance)
  {
    var (t, d) := DropImage(s, reason);
    forall sensor, x
      ensures Spent(Results([], [d]), sensor, x) + Stamped(Queue(t, sensor), x) == Stamped(Queue(s, sensor), x)
      ensures Numbered([d], sensor, Dropped(s, sensor), Dropped(t, sensor))
    {
      OneDrop(d, sensor, x, Dropped(s, sensor));
    }
  }

  lemma DropCloudBalances(s: State, reason: Reason, tolerance: int)
    requires s.clouds != []
    ensures var (t, d) := DropCloud(s, reason); Balanced(s, Results([], [d]), t, tolerance)
  {
    var (t, d) := DropCloud(s, reason);
    forall sensor, x
      ensures Spent(Results([], [d]), sensor, x) + Stamped(Queue(t, sensor), x) == Stamped(Queue(s, sensor), x)
      ensures Numbered([d], sensor, Dropped(s, sensor), Dropped(t, sensor))
    {
      OneDrop(d, sensor, x, Dropped(s, sensor));
    }
  }

  lemma PairFrontBalances(s: State, tolerance: int)
    requires s.images != [] && s.clouds != []
    ensures var (t, r) := PairFront(s, tolerance); Balanced(s, r, t, tolerance)
  {
    if WithinTolerance(s.images[0], s.clouds[0], tolerance) {
      var m := Matched(s.images[0], s.clouds[0]);
      assert [m][1..] == [];
      assert forall sensor, x ::
        MatchStamped([m], sensor, x) == (if Side(m, sensor).stamp == x then 1 else 0) + MatchStamped([], sensor, x);
    } else if s.images[0].stamp < s.clouds[0].stamp {
      DropImageBalances(s, OutsideTolerance, tolerance);
    } else {
      DropCloudBalances(s, OutsideTolerance, tolerance);
    }
  }

  lemma {:induction false} PairedBalances(s: State, tolerance: int)
    ensures var (t, r) := Paired(s, tolerance); Balanced(s, r, t, tolerance)
    decreases |s.images| + |s.clouds|
  {
    hide Balanced;
    if s.images == [] || s.clouds == [] {
      NothingBalances(s, tolerance);
    } else {
      var (t, first) := PairFront(s, tolerance);
      PairFrontBalances(s, tolerance);
      PairedBalances(t, tolerance);
      BalancedThen(s, first, t, Paired(t, tolerance).1, Paired(t, tolerance).0, tolerance);
    }
  }

  lemma {:induction false} TrimmedImagesBalances(s: State, size: nat, tolerance: int)
    ensures var (t, r) := TrimmedImages(s, size); Balanced(s, r, t, tolerance)
    decreases |s.images|
  {
    hide Balanced;
    NothingBalances(s, tolerance);
    if |s.images| > size {
      DropImageBalances(s, QueueFull, tolerance);
      var (t, d) := DropImage(s, QueueFull);
      TrimmedImagesBalances(t, size, tolerance);
      BalancedThen(s, Results([], [d]), t, TrimmedImages(t, size).1, TrimmedImages(t, size).0, tolerance);
    }
  }

  lemma {:induction false} TrimmedCloudsBalances(s: State, size: nat, tolerance: int)
    ensures var (t, r) := TrimmedClouds(s, size); Balanced(s, r, t, tolerance)
    decreases |s.clouds|
  {
    hide Balanced;
    NothingBalances(s, tolerance);
    if |s.clouds| > size {
      DropCloudBalances(s, QueueFull, tolerance);
      var (t, d) := DropCloud(s, QueueFull);
      TrimmedCloudsBalances(t, size, tolerance);
      BalancedThen(s, Results([], [d]), t, TrimmedClouds(t, size).1, TrimmedClouds(t, size).0, tolerance);
    }
  }

  lemma {:induction false} FlushBalances(s: State, reason: string, tolerance: int)
    ensures var (t, r) := FlushedAll(s, reason); Balanced(s, r, t, tolerance)
    decreases |s.images| + |s.clouds|
  {
    hide Balanced;
    NothingBalances(s, tolerance);
    if s.images != [] {
      var (t, d) := DropImage(s, Flushed(reason));
      DropImageBalances(s, Flushed(reason), tolerance);
      FlushBalances(t, reason, tolerance);
      BalancedThen(s, Results([], [d]), t, FlushedAll(t, reason).1, FlushedAll(t, reason).0, tolerance);
    } else if s.clouds != [] {
      var (t, d) := DropCloud(s, Flushed(reason));
      DropCloudBalances(s, Flushed(reason), tolerance);
      FlushBalances(t, reason, tolerance);
      BalancedThen(s, Results([], [d]), t, FlushedAll(t, reason).1, FlushedAll(t, reason).0, tolerance);
    }
  }

  /** The state after the arrival, before anything is trimmed or paired. */
  function Arrived(s: State, op: Op): State
  {
    match op
    case AddImage(m) => s.(images := Inserted(s.images, m))
    case AddCloud(m) => s.(clouds := Inserted(s.clouds, m))
    case Flush(_) => s
  }

  lemma StepBalances(s: State, op: Op, size: nat, tolerance: int)
    ensures var (t, r) := Stepped(s, op, size, tolerance); Balanced(Arrived(s, op), r, t, tolerance)
  {
    hide Balanced, Inserted;
    var added := Arrived(s, op);
    match op
    case AddImage(m) =>
      var (t, full) := TrimmedImages(added, size);
      TrimmedImagesBalances(added, size, tolerance);
      PairedBalances(t, tolerance);
      BalancedThen(added, full, t, Paired(t, tolerance).1, Paired(t, tolerance).0, tolerance);
    case AddCloud(m) =>
      var (t, full) := TrimmedClouds(added, size);
      TrimmedCloudsBalances(added, size, tolerance);
      PairedBalances(t, tolerance);
      BalancedThen(added, full, t, Paired(t, tolerance).1, Paired(t, tolerance).0, tolerance);
    case Flush(reason) =>
      FlushBalances(s, reason, tolerance);
  }

  lemma {:induction false} StampedAppend(a: seq<Message>, b: seq<Message>, x: int)
    ensures Stamped(a + b, x) == Stamped(a, x) + Stamped(b, x)
  {
    if a == [] {
      assert a + b == b;
    } else {
      StampedAppend(a[1..], b, x);
      assert (a + b)[1..] == a[1..] + b;
    }
  }

  lemma StampedInserted(queue: seq<Message>, m: Message, x: int)
    ensures Stamped(Inserted(queue, m), x) == Stamped(queue + [m], x)
  {
    var i := UpperBound(queue, m.stamp);
    var front, back := queue[..i], queue[i..];
    hide Stamped;
    assert queue == front + back;
    StampedAppend(front, back, x);
    StampedAppend(front + [m], back, x);
    StampedAppend(front, [m], x);
    StampedAppend(queue, [m], x);
  }

  /** Everything of a sensor that ever arrived. */
  function Stream(ops: seq<Op>, sensor: Sensor): seq<Message> { if sensor == Camera then Images(ops) else Clouds(ops) }

  lemma ArrivalAdds(ops: seq<Op>, s: State, sensor: Sensor, x: int)
    requires ops != []
    ensures var front, last := ops[..|ops| - 1], ops[|ops| - 1];
            Stamped(Queue(Arrived(s, last), sensor), x) + Stamped(Stream(front, sensor), x)
            == Stamped(Queue(s, sensor), x) + Stamped(Stream(ops, sensor), x)
  {
    var front, last := ops[..|ops| - 1], ops[|ops| - 1];
    if last.Flush? || (sensor == Camera) != last.AddImage? {
      assert Stream(front, sensor) + [] == Stream(front, sensor);
    } else {
      hide Stamped;
      StampedInserted(Queue(s, sensor), last.m, x);
      StampedAppend(Queue(s, sensor), [last.m], x);
      StampedAppend(Stream(front, sensor), [last.m], x);
    }
  }

  /** Over any history: what was reported and what still waits is what arrived; each counter is the number of
      that sensor's drops, which carry consecutive counts; every match is within tolerance. */
  ghost predicate Conserved(ops: seq<Op>, s: State, r: Results, tolerance: int)
  {
    && (forall sensor, x :: Spent(r, sensor, x) + Stamped(Queue(s, sensor), x) == Stamped(Stream(ops, sensor), x))
    && (forall sensor :: Numbered(r.drops, sensor, 0, Dropped(s, sensor)))
    && forall m :: m in r.matches ==> Faithful(m, tolerance)
  }

  lemma StepConserves(ops: seq<Op>, s: State, before: Results, t: State, r: Results, tolerance: int)
    requires ops != [] && Conserved(ops[..|ops| - 1], s, before, tolerance)
    requires Balanced(Arrived(s, ops[|ops| - 1]), r, t, tolerance)
    ensures Conserved(ops, t, Then(before, r), tolerance)
  {
    var front, last := ops[..|ops| - 1], ops[|ops| - 1];
    assert Dropped(Arrived(s, last), Camera) == Dropped(s, Camera)
      && Dropped(Arrived(s, last), Lidar) == Dropped(s, Lidar);
    hide Spent, Stamped, Queue, Dropped, Numbered, Faithful, Arrived, Stream;
    forall sensor, x
      ensures Spent(Then(before, r), sensor, x) + Stamped(Queue(t, sensor), x) == Stamped(Stream(ops, sensor), x)
    {
      ArrivalAdds(ops, s, sensor, x);
      SpentThen(before, r, sensor, x);
    }
    forall sensor ensures Numbered(Then(before, r).drops, sensor, 0, Dropped(t, sensor)) {
      NumberedAppend(before.drops, r.drops, sensor, 0, Dropped(s, sensor), Dropped(t, sensor));
    }
  }

  lemma {:induction false} HistoryConserves(ops: seq<Op>, size: nat, tolerance: int)
    ensures var (s, results) := History(ops, size, tolerance); Conserved(ops, s, Total(results), tolerance)
  {
    if ops != [] {
      hide Conserved, Balanced, Stepped, Arrived;
      var front, last := ops[..|ops| - 1], ops[|ops| - 1];
      HistoryConserves(front, size, tolerance);
      var (s, results) := History(front, size, tolerance);
      var (t, r) := Stepped(s, last, size, tolerance);
      assert (results + [r])[..|results|] == results;
      StepBalances(s, last, size, tolerance);
      StepConserves(ops, s, Total(results), t, r, tolerance);
    }
  }

  /** A full queue costs its oldest message only while nothing waits on the other side, and then nothing else
      happens in that call. */
  lemma FullOnlyWhenOtherSideIsEmpty(s: State, op: Op, size: nat, tolerance: int, d: Drop)
    requires size >= 1 && Settled(s, size)
    requires d in Stepped(s, op, size, tolerance).1.drops && d.reason == QueueFull
    ensures !op.Flush? && d.sensor == (if op.AddImage? then Camera else Lidar)
    ensures Queue(s, if op.AddImage? then Lidar else Camera) == [] && |Queue(s, d.sensor)| == size
    ensures Stepped(s, op, size, tolerance).1 == Results([], [d])
    ensures var queue := Inserted(Queue(s, d.sensor), op.m);
            && Queue(Stepped(s, op, size, tolerance).0, d.sensor) == queue[1..] && d.stamp == queue[0].stamp
            && forall x :: x in queue ==> d.stamp <= x.stamp
  {
    match op
    case AddImage(m) => FullImages(s, m, size, tolerance, d);
    case AddCloud(m) => FullClouds(s, m, size, tolerance, d);
    case Flush(reason) => FlushIsNotFull(s, reason);
  }

  lemma FullImages(s: State, m: Message, size: nat, tolerance: int, d: Drop)
    requires size >= 1 && Settled(s, size)
    requires d in Stepped(s, AddImage(m), size, tolerance).1.drops && d.reason == QueueFull
    ensures d.sensor == Camera && s.clouds == [] && |s.images| == size
    ensures Stepped(s, AddImage(m), size, tolerance).1 == Results([], [d])
    ensures var queue := Inserted(s.images, m);
            && Stepped(s, AddImage(m), size, tolerance).0.images == queue[1..] && d.stamp == queue[0].stamp
            && forall x :: x in queue ==> d.stamp <= x.stamp
  {
    InsertedKeepsSorted(s.images, m);
    var added := s.(images := Inserted(s.images, m));
    var (t, full) := TrimmedImages(added, size);
    PairedIsNotFull(t, tolerance);
    assert full.drops != [] ==> |added.images| == size + 1;
    var one := DropImage(added, QueueFull);
    assert |added.images| == size + 1 ==> TrimmedImages(one.0, size) == (one.0, Nothing);
  }

  lemma FullClouds(s: State, m: Message, size: nat, tolerance: int, d: Drop)
    requires size >= 1 && Settled(s, size)
    requires d in Stepped(s, AddCloud(m), size, tolerance).1.drops && d.reason == QueueFull
    ensures d.sensor == Lidar && s.images == [] && |s.clouds| == size
    ensures Stepped(s, AddCloud(m), size, tolerance).1 == Results([], [d])
    ensures var queue := Inserted(s.clouds, m);
            && Stepped(s, AddCloud(m), size, tolerance).0.clouds == queue[1..] && d.stamp == queue[0].stamp
            && forall x :: x in queue ==> d.stamp <= x.stamp
  {
    InsertedKeepsSorted(s.clouds, m);
    var added := s.(clouds := Inserted(s.clouds, m));
    var (t, full) := TrimmedClouds(added, size);
    PairedIsNotFull(t, tolerance);
    assert full.drops != [] ==> |added.clouds| == size + 1;
    var one := DropCloud(added, QueueFull);
    assert |added.clouds| == size + 1 ==> TrimmedClouds(one.0, size) == (one.0, Nothing);
  }

  lemma {:induction false} PairedIsNotFull(s: State, tolerance: int)
    ensures forall d :: d in Paired(s, tolerance).1.drops ==> d.reason != QueueFull
    decreases |s.images| + |s.clouds|
  {
    if s.images != [] && s.clouds != [] { PairedIsNotFull(PairFront(s, tolerance).0, tolerance); }
  }

  lemma {:induction false} FlushIsNotFull(s: State, reason: string)
    ensures forall d :: d in FlushedAll(s, reason).1.drops ==> d.reason != QueueFull
    decreases |s.images| + |s.clouds|
  {
    if s.images != [] {
      FlushIsNotFull(DropImage(s, Flushed(reason)).0, reason);
    } else if s.clouds != [] {
      FlushIsNotFull(DropCloud(s, Flushed(reason)).0, reason);
    }
  }

  // ---- the ledger ----

  /** A missing side has stamp 0, as a default rclcpp::Time does. */
  datatype Record = Record(id: nat, hasCamera: bool, hasLidar: bool, cameraStamp: int, lidarStamp: int, difference: nat,
                           status: string, reason: string)

  const MAX_RECORDS: nat := 100000

  function ReasonText(reason: Reason): string
  {
    match reason
    case QueueFull => "synchronizer queue full"
    case OutsideTolerance => "outside synchronization tolerance"
    case Flushed(text) => text
  }

  function MatchedRecord(id: nat, m: Match): Record
  {
    Record(id, true, true, m.image.stamp, m.cloud.stamp, m.difference, "matched", "")
  }

  function SingleRecord(id: nat, sensor: Sensor, stamp: int, reason: string): Record
  {
    var camera := sensor == Camera;
    Record(id, camera, !camera, if camera then stamp else 0, if camera then 0 else stamp, 0,
           if camera then "camera_only" else "lidar_only", reason)
  }

  function MatchedRecords(matches: seq<Match>, id: nat): (records: seq<Record>)
    ensures |records| == |matches| && forall k :: 0 <= k < |records| ==> records[k].id == id + k
  {
    seq(|matches|, k requires 0 <= k < |matches| => MatchedRecord(id + k, matches[k]))
  }

  function SingleRecords(drops: seq<Drop>, id: nat): (records: seq<Record>)
    ensures |records| == |drops| && forall k :: 0 <= k < |records| ==> records[k].id == id + k
  {
    seq(|drops|,
        k requires 0 <= k < |drops| => SingleRecord(id + k, drops[k].sensor, drops[k].stamp,
                                                    ReasonText(drops[k].reason)))
  }

  /** The records one call adds: its matches, then its drops, numbered on from the given id. */
  function Entries(r: Results, id: nat): (records: seq<Record>)
    ensures |records| == |r.matches| + |r.drops| && forall k :: 0 <= k < |records| ==> records[k].id == id + k
  {
    MatchedRecords(r.matches, id) + SingleRecords(r.drops, id + |r.matches|)
  }

  /** Everything a sequence of calls writes. */
  function Written(results: seq<Results>): seq<Record>
  {
    if results == [] then []
    else
      var front := Written(results[..|results| - 1]);
      front + Entries(results[|results| - 1], |front| + 1)
  }

  function Bears(r: Record, sensor: Sensor, x: int): bool
  {
    if sensor == Camera then r.hasCamera && r.cameraStamp == x else r.hasLidar && r.lidarStamp == x
  }

  /** How many records bear the sensor's stamp. */
  function Recorded(records: seq<Record>, sensor: Sensor, x: int): nat
  {
    if records == [] then 0
    else (if Bears(records[0], sensor, x) then 1 else 0) + Recorded(records[1..], sensor, x)
  }

  lemma {:induction false} RecordedAppend(a: seq<Record>, b: seq<Record>, sensor: Sensor, x: int)
    ensures Recorded(a + b, sensor, x) == Recorded(a, sensor, x) + Recorded(b, sensor, x)
  {
    if a == [] {
      assert a + b == b;
    } else {
      RecordedAppend(a[1..], b, sensor, x);
      assert (a + b)[1..] == a[1..] + b;
    }
  }

  lemma {:induction false} MatchesRecorded(matches: seq<Match>, id: nat, sensor: Sensor, x: int)
    ensures Recorded(MatchedRecords(matches, id), sensor, x) == MatchStamped(matches, sensor, x)
  {
    if matches != [] {
      MatchesRecorded(matches[1..], id + 1, sensor, x);
      assert MatchedRecords(matches, id)[1..] == MatchedRecords(matches[1..], id + 1);
    }
  }

  lemma {:induction false} DropsRecorded(drops: seq<Drop>, id: nat, sensor: Sensor, x: int)
    ensures Recorded(SingleRecords(drops, id), sensor, x) == DropStamped(drops, sensor, x)
  {
    if drops != [] {
      DropsRecorded(drops[1..], id + 1, sensor, x);
      assert SingleRecords(drops, id)[1..] == SingleRecords(drops[1..], id + 1);
    }
  }

  lemma EntriesRecordSpent(r: Results, id: nat, sensor: Sensor, x: int)
    ensures Recorded(Entries(r, id), sensor, x) == Spent(r, sensor, x)
  {
    hide Recorded, MatchedRecords, SingleRecords;
    MatchesRecorded(r.matches, id, sensor, x);
    DropsRecorded(r.drops, id + |r.matches|, sensor, x);
    RecordedAppend(MatchedRecords(r.matches, id), SingleRecords(r.drops, id + |r.matches|), sensor, x);
  }

  lemma {:induction false} WrittenAreNumbered(results: seq<Results>)
    ensures forall k :: 0 <= k < |Written(results)| ==> Written(results)[k].id == k + 1
  {
    if results != [] { WrittenAreNumbered(results[..|results| - 1]); }
  }

  lemma WrittenMore(results: seq<Results>)
    requires results != []
    ensures var front, last := results[..|results| - 1], results[|results| - 1];
            && Written(results) == Written(front) + Entries(last, |Written(front)| + 1)
            && Total(results) == Then(Total(front), last)
  {
  }

  lemma {:induction false} WrittenRecordsSpent(results: seq<Results>, sensor: Sensor, x: int)
    ensures Recorded(Written(results), sensor, x) == Spent(Total(results), sensor, x)
  {
    if results != [] {
      var front, last := results[..|results| - 1], results[|results| - 1];
      WrittenRecordsSpent(front, sensor, x);
      WrittenMore(results);
      hide Spent, Recorded, Written, Total, Entries, Then;
      var id := |Written(front)| + 1;
      EntriesRecordSpent(last, id, sensor, x);
      RecordedAppend(Written(front), Entries(last, id), sensor, x);
      SpentThen(Total(front), last, sensor, x);
    }
  }

  /** After a flush every message that ever arrived, in whatever order, is in exactly one record: as many records
      bear a sensor's stamp as messages arrived with it. The records are numbered 1, 2, 3, ... */
  lemma EveryMessageRecordedOnce(ops: seq<Op>, reason: string, size: nat, tolerance: int, sensor: Sensor, x: int)
    ensures var ledger := Written(History(ops + [Flush(reason)], size, tolerance).1);
            && Recorded(ledger, sensor, x) == Stamped(Stream(ops, sensor), x)
            && forall k :: 0 <= k < |ledger| ==> ledger[k].id == k + 1
  {
    var all := ops + [Flush(reason)];
    var (s, results) := History(all, size, tolerance);
    assert all[..|all| - 1] == ops;
    FlushedIsEmpty(History(ops, size, tolerance).0, reason);
    assert s.images == s.clouds == [];
    assert Stream(all, sensor) == Stream(ops, sensor) by { assert Stream(ops, sensor) + [] == Stream(ops, sensor); }
    HistoryConserves(all, size, tolerance);
    WrittenRecordsSpent(results, sensor, x);
    WrittenAreNumbered(results);
    hide History, Spent, Recorded, Total, Written, Stream;
    assert Stamped(Queue(s, sensor), x) == 0;
  }

  /** A record of both sensors is a match and says how far apart they are; one of a single sensor says which. */
  predicate Tells(r: Record, tolerance: int)
  {
    if r.hasCamera && r.hasLidar then
      && r.status == "matched" && r.reason == "" && r.difference <= tolerance
      && (r.difference == r.cameraStamp - r.lidarStamp || r.difference == r.lidarStamp - r.cameraStamp)
    else
      && r.difference == 0
      && ((r.status == "camera_only" && r.hasCamera && r.lidarStamp == 0)
          || (r.status == "lidar_only" && r.hasLidar && r.cameraStamp == 0))
  }

  lemma EntriesTell(results: Results, id: nat, tolerance: int)
    requires forall m :: m in results.matches ==> Faithful(m, tolerance)
    ensures forall r :: r in Entries(results, id) ==> Tells(r, tolerance)
  {
    var matched, single := MatchedRecords(results.matches, id), SingleRecords(results.drops, id + |results.matches|);
    forall k | 0 <= k < |matched| ensures Tells(matched[k], tolerance) {
      assert results.matches[k] in results.matches && matched[k] == MatchedRecord(id + k, results.matches[k]);
    }
    forall k | 0 <= k < |single| ensures Tells(single[k], tolerance) {}
    hide Tells, Faithful;
  }

  lemma {:induction false} WrittenTell(results: seq<Results>, tolerance: int)
    requires forall m :: m in Total(results).matches ==> Faithful(m, tolerance)
    ensures forall r :: r in Written(results) ==> Tells(r, tolerance)
  {
    if results != [] {
      WrittenTell(results[..|results| - 1], tolerance);
      EntriesTell(results[|results| - 1], |Written(results[..|results| - 1])| + 1, tolerance);
      hide Tells, Entries, Faithful;
    }
  }

  /** So does every record of any history. */
  lemma EveryRecordTells(ops: seq<Op>, size: nat, tolerance: int)
    ensures forall r :: r in Written(History(ops, size, tolerance).1) ==> Tells(r, tolerance)
  {
    HistoryConserves(ops, size, tolerance);
    WrittenTell(History(ops, size, tolerance).1, tolerance);
    hide Written, History, Faithful;
  }

  function Last(records: seq<Record>, n: nat): seq<Record>
  {
    if |records| <= n then records else records[|records| - n..]
  }

  /** The time the ledger files a record under. */
  function FiledAt(r: Record): int { if r.hasCamera then r.cameraStamp else r.lidarStamp }

  function Within(records: seq<Record>, start: int, end: int): seq<Record>
  {
    if records == [] then []
    else
      var last := records[|records| - 1];
      Within(records[..|records| - 1], start, end) + if start <= FiledAt(last) <= end then [last] else []
  }

  ghost predicate InOrder(records: seq<Record>)
  {
    forall i, j :: 0 <= i < j < |records| ==> records[i].id < records[j].id
  }

  /** The records of a range are exactly those filed in it - under the camera's stamp if there is one -, in the order of
      their numbers. */
  lemma {:induction false} WithinExactly(records: seq<Record>, start: int, end: int)
    requires InOrder(records)
    ensures InOrder(Within(records, start, end))
    ensures forall r :: r in Within(records, start, end)
                        <==> r in records && start <= (if r.hasCamera then r.cameraStamp else r.lidarStamp) <= end
  {
    if records != [] {
      var front, last := records[..|records| - 1], records[|records| - 1];
      WithinExactly(front, start, end);
      LastIsNewest(records);
      hide InOrder;
      AppendInOrder(Within(front, start, end), last);
      assert Within(front, start, end) + [] == Within(front, start, end);
    }
  }

  lemma LastIsNewest(records: seq<Record>)
    requires records != [] && InOrder(records)
    ensures var front, last := records[..|records| - 1], records[|records| - 1];
            records == front + [last] && forall r :: r in front ==> r.id < last.id
  {
    var front, last := records[..|records| - 1], records[|records| - 1];
    forall r | r in front ensures r.id < last.id {
      var i :| 0 <= i < |front| && front[i] == r;
      assert records[i].id < records[|front|].id;
    }
  }

  lemma AppendInOrder(records: seq<Record>, last: Record)
    requires InOrder(records)
    ensures (forall r :: r in records ==> r.id < last.id) ==> InOrder(records + [last])
  {
  }

  ghost predicate Tail(tail: seq<Record>, all: seq<Record>)
  {
    |tail| <= |all| && tail == all[|all| - |tail|..]
  }

  lemma ShorterTail(tail: seq<Record>, all: seq<Record>)
    requires Tail(tail, all) && tail != []
    ensures Tail(tail[1..], all)
  {}

  lemma TailIsLast(tail: seq<Record>, all: seq<Record>, n: nat)
    requires Tail(tail, all) && |tail| <= n && (|tail| == |all| || |tail| >= n)
    ensures tail == Last(all, n)
  {}

  class PairIndex {
    var records: seq<Record>
    var nextId: nat
    /** Every record ever written, trimmed or not. */
    ghost var written: seq<Record>

    ghost predicate Valid()
      reads this
    {
      && records == Last(written, 100000) && nextId == |written| + 1
      && forall k :: 0 <= k < |written| ==> written[k].id == k + 1
    }

    constructor ()
      ensures Valid() && written == []
    {
      records, nextId, written := [], 1, [];
    }

    method Append(r: Record)
      requires Valid() && r.id == nextId
      modifies this
      ensures Valid() && written == old(written) + [r]
    {
      ghost var skipped := |written| - |records|;
      records := records + [r];
      nextId := nextId + 1;
      written := written + [r];
      assert records == written[skipped..];
      assert Tail(records, written);
      Trim();
    }

    /** The oldest records give way. */
    method Trim()
      requires Tail(records, written) && (|records| == |written| || |records| >= MAX_RECORDS)
      modifies this`records
      ensures records == Last(written, 100000)
    {
      hide Tail, Last;
      while |records| > MAX_RECORDS
        invariant Tail(records, written) && (|records| == |written| || |records| >= MAX_RECORDS)
        decreases |records|
      {
        ShorterTail(records, written);
        records := records[1..];
      }
      TailIsLast(records, written, MAX_RECORDS);
    }

    method AddMatched(m: Match)
      requires Valid()
      modifies this
      ensures Valid() && written == old(written) + [MatchedRecord(old(nextId), m)]
    {
      Append(Record(nextId, true, true, m.image.stamp, m.cloud.stamp, m.difference, "matched", ""));
    }

    method AddSingle(sensor: Sensor, stamp: int, reason: string)
      requires Valid()
      modifies this
      ensures Valid() && written == old(written) + [SingleRecord(old(nextId), sensor, stamp, reason)]
    {
      var camera := sensor == Camera;
      Append(Record(nextId, camera, !camera, if camera then stamp else 0, if camera then 0 else stamp, 0,
                    if camera then "camera_only" else "lidar_only", reason));
    }

    method DataWithinTimeRange(start: int, end: int) returns (result: seq<Record>)
      ensures result == Within(records, start, end)
    {
      result := [];
      for i := 0 to |records|
        invariant result == Within(records[..i], start, end)
      {
        assert records[..i + 1][..i] == records[..i];
        if FiledAt(records[i]) >= start && FiledAt(records[i]) <= end {
          result := result + [records[i]];
        }
      }
      assert records[..|records|] == records;
    }
  }

  /** The synchronizer's two callbacks, called for each match and then for each drop. */
  method Dispatch(results: Results, index: PairIndex)
    requires index.Valid()
    modifies index
    ensures index.Valid() && index.written == old(index.written) + Entries(results, old(index.nextId))
  {
    DispatchMatches(results.matches, index);
    DispatchDrops(results.drops, index);
  }

  method DispatchMatches(matches: seq<Match>, index: PairIndex)
    requires index.Valid()
    modifies index
    ensures index.Valid() && index.written == old(index.written) + MatchedRecords(matches, old(index.nextId))
  {
    ghost var entries := MatchedRecords(matches, index.nextId);
    for i := 0 to |matches|
      invariant index.Valid() && index.written == old(index.written) + entries[..i]
    {
      assert entries[i] == MatchedRecord(index.nextId, matches[i]);
      GrowByOne(old(index.written), entries, i);
      hide MatchedRecords;
      index.AddMatched(matches[i]);
    }
    assert entries[..|entries|] == entries;
  }

  method DispatchDrops(drops: seq<Drop>, index: PairIndex)
    requires index.Valid()
    modifies index
    ensures index.Valid() && index.written == old(index.written) + SingleRecords(drops, old(index.nextId))
  {
    ghost var entries := SingleRecords(drops, index.nextId);
    for i := 0 to |drops|
      invariant index.Valid() && index.written == old(index.written) + entries[..i]
    {
      var d := drops[i];
      assert entries[i] == SingleRecord(index.nextId, d.sensor, d.stamp, ReasonText(d.reason));
      GrowByOne(old(index.written), entries, i);
      hide SingleRecords, SingleRecord;
      index.AddSingle(d.sensor, d.stamp, ReasonText(d.reason));
    }
    assert entries[..|entries|] == entries;
  }

  lemma GrowByOne(start: seq<Record>, entries: seq<Record>, i: nat)
    requires i < |entries|
    ensures start + entries[..i] + [entries[i]] == start + entries[..i + 1]
  {}
}
