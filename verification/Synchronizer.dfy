/** Front-greedy pairing of two timestamp-ordered queues, include/approximate_synchronizer.hpp. */
module Synchronizer {
  import opened Prelude

  /** A sensor message: header stamp in nanoseconds, an identity and the size of its payload. */
  datatype Message = Message(stamp: int, id: nat, bytes: nat)

  datatype Sensor = Camera | Lidar

  datatype Reason = QueueFull | OutsideTolerance | Flushed(text: string)

  datatype Match = Match(image: Message, cloud: Message, difference: nat)

  /** count is the sensor's running total of drops. */
  datatype Drop = Drop(sensor: Sensor, stamp: int, count: nat, reason: Reason)

  datatype Results = Results(matches: seq<Match>, drops: seq<Drop>)

  datatype State = State(images: seq<Message>, clouds: seq<Message>, droppedImages: nat, droppedClouds: nat)

  function Then(a: Results, b: Results): Results { Results(a.matches + b.matches, a.drops + b.drops) }

  const Nothing := Results([], [])

  // ---- the steps ----

  predicate Sorted(queue: seq<Message>)
  {
    forall i, j :: 0 <= i < j < |queue| ==> queue[i].stamp <= queue[j].stamp
  }

  /** Index of the first message later than the stamp. */
  function UpperBound(queue: seq<Message>, stamp: int): (i: nat)
    ensures i <= |queue|
    ensures forall k :: 0 <= k < i ==> queue[k].stamp <= stamp
    ensures i < |queue| ==> stamp < queue[i].stamp
  {
    if queue == [] || stamp < queue[0].stamp then 0 else 1 + UpperBound(queue[1..], stamp)
  }

  function Inserted(queue: seq<Message>, m: Message): seq<Message>
  {
    var i := UpperBound(queue, m.stamp);
    queue[..i] + [m] + queue[i..]
  }

  predicate WithinTolerance(image: Message, cloud: Message, tolerance: int)
  {
    -tolerance <= image.stamp - cloud.stamp <= tolerance
  }

  function Matched(image: Message, cloud: Message): Match
  {
    var d := image.stamp - cloud.stamp;
    Match(image, cloud, if d < 0 then -d else d)
  }

  /** The camera's oldest message leaves as a drop. */
  function DropImage(s: State, reason: Reason): (State, Drop)
    requires s.images != []
  {
    (s.(images := s.images[1..], droppedImages := s.droppedImages + 1),
     Drop(Camera, s.images[0].stamp, s.droppedImages + 1, reason))
  }

  function DropCloud(s: State, reason: Reason): (State, Drop)
    requires s.clouds != []
  {
    (s.(clouds := s.clouds[1..], droppedClouds := s.droppedClouds + 1),
     Drop(Lidar, s.clouds[0].stamp, s.droppedClouds + 1, reason))
  }

  /** One turn of the pairing loop. */
  function PairFront(s: State, tolerance: int): (r: (State, Results))
    requires s.images != [] && s.clouds != []
    ensures |r.0.images| + |r.0.clouds| < |s.images| + |s.clouds|
  {
    if WithinTolerance(s.images[0], s.clouds[0], tolerance) then
      (s.(images := s.images[1..], clouds := s.clouds[1..]), Results([Matched(s.images[0], s.clouds[0])], []))
    else if s.images[0].stamp < s.clouds[0].stamp then
      var (t, d) := DropImage(s, OutsideTolerance); (t, Results([], [d]))
    else
      var (t, d) := DropCloud(s, OutsideTolerance); (t, Results([], [d]))
  }

  /** tryMatchLocked: pair until one queue is empty. */
  function Paired(s: State, tolerance: int): (State, Results)
    decreases |s.images| + |s.clouds|
  {
    if s.images == [] || s.clouds == [] then (s, Nothing)
    else
      var (t, first) := PairFront(s, tolerance);
      var (u, rest) := Paired(t, tolerance);
      (u, Then(first, rest))
  }

  datatype Op = AddImage(m: Message) | AddCloud(m: Message) | Flush(reason: string)

  function TrimmedImages(s: State, size: nat): (State, Results)
    decreases |s.images|
  {
    if |s.images| <= size then (s, Nothing)
    else
      var (t, d) := DropImage(s, QueueFull);
      var (u, rest) := TrimmedImages(t, size);
      (u, Then(Results([], [d]), rest))
  }

  function TrimmedClouds(s: State, size: nat): (State, Results)
    decreases |s.clouds|
  {
    if |s.clouds| <= size then (s, Nothing)
    else
      var (t, d) := DropCloud(s, QueueFull);
      var (u, rest) := TrimmedClouds(t, size);
      (u, Then(Results([], [d]), rest))
  }

  function FlushedAll(s: State, reason: string): (State, Results)
    decreases |s.images| + |s.clouds|
  {
    if s.images != [] then
      var (t, d) := DropImage(s, Flushed(reason));
      var (u, rest) := FlushedAll(t, reason);
      (u, Then(Results([], [d]), rest))
    else if s.clouds != [] then
      var (t, d) := DropCloud(s, Flushed(reason));
      var (u, rest) := FlushedAll(t, reason);
      (u, Then(Results([], [d]), rest))
    else (s, Nothing)
  }

  function Stepped(s: State, op: Op, size: nat, tolerance: int): (State, Results)
  {
    match op
    case AddImage(m) =>
      var (t, full) := TrimmedImages(s.(images := Inserted(s.images, m)), size);
      var (u, paired) := Paired(t, tolerance);
      (u, Then(full, paired))
    case AddCloud(m) =>
      var (t, full) := TrimmedClouds(s.(clouds := Inserted(s.clouds, m)), size);
      var (u, paired) := Paired(t, tolerance);
      (u, Then(full, paired))
    case Flush(reason) => FlushedAll(s, reason)
  }

  // ---- whole histories ----

  const Fresh := State([], [], 0, 0)

  /** State and per-call results after a sequence of calls. */
  function History(ops: seq<Op>, size: nat, tolerance: int): (h: (State, seq<Results>))
    ensures |h.1| == |ops|
  {
    if ops == [] then (Fresh, [])
    else
      var (s, results) := History(ops[..|ops| - 1], size, tolerance);
      var (t, r) := Stepped(s, ops[|ops| - 1], size, tolerance);
      (t, results + [r])
  }

  function Total(results: seq<Results>): Results
  {
    if results == [] then Nothing else Then(Total(results[..|results| - 1]), results[|results| - 1])
  }

  function Images(ops: seq<Op>): seq<Message>
  {
    if ops == [] then []
    else
      var last := ops[|ops| - 1];
      Images(ops[..|ops| - 1]) + if last.AddImage? then [last.m] else []
  }

  function Clouds(ops: seq<Op>): seq<Message>
  {
    if ops == [] then []
    else
      var last := ops[|ops| - 1];
      Clouds(ops[..|ops| - 1]) + if last.AddCloud? then [last.m] else []
  }

  // ---- sortedness ----

  ghost predicate Ordered(s: State) { Sorted(s.images) && Sorted(s.clouds) }

  lemma InsertedKeepsSorted(queue: seq<Message>, m: Message)
    requires Sorted(queue)
    ensures Sorted(Inserted(queue, m))
    ensures queue == [] || queue[|queue| - 1].stamp <= m.stamp ==> Inserted(queue, m) == queue + [m]
  {
    var i, r := UpperBound(queue, m.stamp), Inserted(queue, m);
    forall a, b | 0 <= a < b < |r| ensures r[a].stamp <= r[b].stamp {
      assert r[a] == if a < i then queue[a] else if a == i then m else queue[a - 1];
      assert r[b] == if b < i then queue[b] else if b == i then m else queue[b - 1];
    }
  }

  lemma {:induction false} PairedKeepsOrder(s: State, tolerance: int)
    requires Ordered(s)
    ensures var u := Paired(s, tolerance).0;
            Ordered(u) && (u.images == [] || u.clouds == []) && |u.images| <= |s.images| && |u.clouds| <= |s.clouds|
    decreases |s.images| + |s.clouds|
  {
    if s.images != [] && s.clouds != [] {
      PairedKeepsOrder(PairFront(s, tolerance).0, tolerance);
    }
  }

  lemma {:induction false} TrimmedKeepsOrder(s: State, size: nat)
    requires Ordered(s)
    ensures var u := TrimmedImages(s, size).0; Ordered(u) && |u.images| <= size && u.clouds == s.clouds
    ensures var u := TrimmedClouds(s, size).0; Ordered(u) && |u.clouds| <= size && u.images == s.images
    decreases |s.images| + |s.clouds|
  {
    if |s.images| > size { TrimmedKeepsOrder(DropImage(s, QueueFull).0, size); }
    if |s.clouds| > size { TrimmedKeepsOrder(DropCloud(s, QueueFull).0, size); }
  }

  lemma {:induction false} FlushedIsEmpty(s: State, reason: string)
    ensures var u := FlushedAll(s, reason).0; u.images == [] && u.clouds == []
    decreases |s.images| + |s.clouds|
  {
    if s.images != [] {
      FlushedIsEmpty(DropImage(s, Flushed(reason)).0, reason);
    } else if s.clouds != [] {
      FlushedIsEmpty(DropCloud(s, Flushed(reason)).0, reason);
    }
  }

  /** What holds between calls: sorted, bounded queues, one of them empty. */
  ghost predicate Settled(s: State, size: nat)
  {
    Ordered(s) && |s.images| <= size && |s.clouds| <= size && (s.images == [] || s.clouds == [])
  }

  lemma StepSettles(s: State, op: Op, size: nat, tolerance: int)
    requires Settled(s, size)
    ensures Settled(Stepped(s, op, size, tolerance).0, size)
  {
    match op
    case AddImage(m) =>
      var added := s.(images := Inserted(s.images, m));
      InsertedKeepsSorted(s.images, m);
      TrimmedKeepsOrder(added, size);
      PairedKeepsOrder(TrimmedImages(added, size).0, tolerance);
    case AddCloud(m) =>
      var added := s.(clouds := Inserted(s.clouds, m));
      InsertedKeepsSorted(s.clouds, m);
      TrimmedKeepsOrder(added, size);
      PairedKeepsOrder(TrimmedClouds(added, size).0, tolerance);
    case Flush(reason) =>
      FlushedIsEmpty(s, reason);
  }

  // ---- the synchronizer ----

  /** A computation is what has been emitted so far followed by the rest of the computation. */
  ghost predicate Continues(whole: (State, Results), emitted: Results, rest: (State, Results))
  {
    whole.0 == rest.0 && whole.1 == Then(emitted, rest.1)
  }

  lemma Emit(whole: (State, Results), emitted: Results, first: Results, rest: (State, Results))
    requires Continues(whole, emitted, (rest.0, Then(first, rest.1)))
    ensures Continues(whole, Then(emitted, first), rest)
  {
    var a, b, c := emitted, first, rest.1;
    assert a.matches + (b.matches + c.matches) == (a.matches + b.matches) + c.matches;
    assert a.drops + (b.drops + c.drops) == (a.drops + b.drops) + c.drops;
  }

  lemma EmitNothing(whole: (State, Results))
    ensures Continues(whole, Nothing, whole)
    ensures Then(whole.1, Nothing) == whole.1
  {
    assert whole.1.matches + [] == whole.1.matches && whole.1.drops + [] == whole.1.drops;
    assert [] + whole.1.matches == whole.1.matches && [] + whole.1.drops == whole.1.drops;
  }

  lemma Done(whole: (State, Results), emitted: Results, s: State)
    requires Continues(whole, emitted, (s, Nothing))
    ensures whole == (s, emitted)
  {
    EmitNothing((s, emitted));
  }

  lemma FlushTurn(s: State, reason: string)
    ensures s.images != [] ==>
              var (t, d) := DropImage(s, Flushed(reason));
              var (u, rest) := FlushedAll(t, reason);
              FlushedAll(s, reason) == (u, Then(Results([], [d]), rest))
    ensures s.images == [] && s.clouds != [] ==>
              var (t, d) := DropCloud(s, Flushed(reason));
              var (u, rest) := FlushedAll(t, reason);
              FlushedAll(s, reason) == (u, Then(Results([], [d]), rest))
    ensures s.images == s.clouds == [] ==> FlushedAll(s, reason) == (s, Nothing)
  {}

  class ApproximateSynchronizer {
    var images: seq<Message>
    var clouds: seq<Message>
    var droppedImages: nat
    var droppedClouds: nat
    const queueSize: nat
    const tolerance: int

    ghost function Contents(): State
      reads this
    {
      State(images, clouds, droppedImages, droppedClouds)
    }

    ghost predicate Valid()
      reads this
    {
      queueSize >= 1 && Settled(Contents(), queueSize)
    }

    constructor (queueSize: nat, tolerance: int)
      ensures Valid() && Contents() == Fresh && this.tolerance == tolerance
      ensures this.queueSize == if queueSize < 1 then 1 else queueSize
    {
      images, clouds, droppedImages, droppedClouds := [], [], 0, 0;
      this.queueSize := if queueSize < 1 then 1 else queueSize;
      this.tolerance := tolerance;
    }

    method AddImageMessage(m: Message) returns (results: Results)
      requires Valid()
      modifies this
      ensures Valid() && (Contents(), results) == Stepped(old(Contents()), AddImage(m), queueSize, tolerance)
    {
      StepSettles(Contents(), AddImage(m), queueSize, tolerance);
      images := InsertOrdered(images, m);
      ghost var whole := TrimmedImages(Contents(), queueSize);
      hide Settled;
      results := Nothing;
      EmitNothing(whole);
      while |images| > queueSize
        invariant Continues(whole, results, TrimmedImages(Contents(), queueSize)) && clouds == old(clouds)
        decreases |images|
      {
        ghost var (rest, drop) := DropImage(Contents(), QueueFull);
        Emit(whole, results, Results([], [drop]), TrimmedImages(rest, queueSize));
        droppedImages := droppedImages + 1;
        results := Then(results, Results([], [Drop(Camera, images[0].stamp, droppedImages, QueueFull)]));
        images := images[1..];
      }
      Done(whole, results, Contents());
      var paired := TryMatch();
      results := Then(results, paired);
    }

    method AddPointCloudMessage(m: Message) returns (results: Results)
      requires Valid()
      modifies this
      ensures Valid() && (Contents(), results) == Stepped(old(Contents()), AddCloud(m), queueSize, tolerance)
    {
      StepSettles(Contents(), AddCloud(m), queueSize, tolerance);
      clouds := InsertOrdered(clouds, m);
      ghost var whole := TrimmedClouds(Contents(), queueSize);
      hide Settled;
      results := Nothing;
      EmitNothing(whole);
      while |clouds| > queueSize
        invariant Continues(whole, results, TrimmedClouds(Contents(), queueSize)) && images == old(images)
        decreases |clouds|
      {
        ghost var (rest, drop) := DropCloud(Contents(), QueueFull);
        Emit(whole, results, Results([], [drop]), TrimmedClouds(rest, queueSize));
        droppedClouds := droppedClouds + 1;
        results := Then(results, Results([], [Drop(Lidar, clouds[0].stamp, droppedClouds, QueueFull)]));
        clouds := clouds[1..];
      }
      Done(whole, results, Contents());
      var paired := TryMatch();
      results := Then(results, paired);
    }

    method FlushUnmatched(reason: string) returns (results: Results)
      requires Valid()
      modifies this
      ensures Valid() && (Contents(), results) == Stepped(old(Contents()), Flush(reason), queueSize, tolerance)
    {
      StepSettles(Contents(), Flush(reason), queueSize, tolerance);
      ghost var whole := FlushedAll(Contents(), reason);
      hide Settled, FlushedAll, Then;
      results := Nothing;
      EmitNothing(whole);
      while images != []
        invariant Continues(whole, results, FlushedAll(Contents(), reason))
        decreases |images|
      {
        FlushTurn(Contents(), reason);
        ghost var (rest, drop) := DropImage(Contents(), Flushed(reason));
        Emit(whole, results, Results([], [drop]), FlushedAll(rest, reason));
        droppedImages := droppedImages + 1;
        results := Then(results, Results([], [Drop(Camera, images[0].stamp, droppedImages, Flushed(reason))]));
        images := images[1..];
      }
      while clouds != []
        invariant images == [] && Continues(whole, results, FlushedAll(Contents(), reason))
        decreases |clouds|
      {
        FlushTurn(Contents(), reason);
        ghost var (rest, drop) := DropCloud(Contents(), Flushed(reason));
        Emit(whole, results, Results([], [drop]), FlushedAll(rest, reason));
        droppedClouds := droppedClouds + 1;
        results := Then(results, Results([], [Drop(Lidar, clouds[0].stamp, droppedClouds, Flushed(reason))]));
        clouds := clouds[1..];
      }
      FlushTurn(Contents(), reason);
      Done(whole, results, Contents());
    }

    method TryMatch() returns (results: Results)
      modifies this
      ensures (Contents(), results) == Paired(old(Contents()), tolerance)
    {
      ghost var whole := Paired(Contents(), tolerance);
      results := Nothing;
      EmitNothing(whole);
      while images != [] && clouds != []
        invariant Continues(whole, results, Paired(Contents(), tolerance))
        decreases |images| + |clouds|
      {
        ghost var (rest, first) := PairFront(Contents(), tolerance);
        Emit(whole, results, first, Paired(rest, tolerance));
        var difference := images[0].stamp - clouds[0].stamp;
        if difference >= -tolerance && difference <= tolerance {
          results := Then(results, Results([Matched(images[0], clouds[0])], []));
          images, clouds := images[1..], clouds[1..];
        } else if difference < 0 {
          droppedImages := droppedImages + 1;
          results := Then(results, Results([], [Drop(Camera, images[0].stamp, droppedImages, OutsideTolerance)]));
          images := images[1..];
        } else {
          droppedClouds := droppedClouds + 1;
          results := Then(results, Results([], [Drop(Lidar, clouds[0].stamp, droppedClouds, OutsideTolerance)]));
          clouds := clouds[1..];
        }
      }
      Done(whole, results, Contents());
    }
  }

  method InsertOrdered(queue: seq<Message>, m: Message) returns (r: seq<Message>)
    requires Sorted(queue)
    ensures r == Inserted(queue, m)
  {
    if queue == [] || m.stamp >= queue[|queue| - 1].stamp {
      assert UpperBound(queue, m.stamp) == |queue|;
      return queue + [m];
    }
    var i := UpperBound(queue, m.stamp);
    return queue[..i] + [m] + queue[i..];
  }
}
