/**
 Why front-greedy pairing is right: it does not depend on how the two streams interleave, it makes as many
 matches as any pairing could, and what it drops could not have matched anything still to come.
 */
module GreedyMatching {
  import opened Prelude
  import opened Synchronizer

  // ---- interleaving independence ----

  lemma ThenAssociates(a: Results, b: Results, c: Results)
    ensures Then(a, Then(b, c)) == Then(Then(a, b), c)
    ensures Then(Nothing, a) == a == Then(a, Nothing)
  {
    assert a.matches + (b.matches + c.matches) == (a.matches + b.matches) + c.matches;
    assert a.drops + (b.drops + c.drops) == (a.drops + b.drops) + c.drops;
    assert [] + a.matches == a.matches == a.matches + [] && [] + a.drops == a.drops == a.drops + [];
  }

  function WithImage(s: State, m: Message): State { s.(images := s.images + [m]) }

  function WithCloud(s: State, m: Message): State { s.(clouds := s.clouds + [m]) }

  /** A message that arrives later is paired as if it had been there from the start. */
  lemma {:induction false} LateImage(s: State, m: Message, tolerance: int)
    ensures var (u, r) := Paired(s, tolerance);
            var (v, q) := Paired(WithImage(u, m), tolerance);
            Paired(WithImage(s, m), tolerance) == (v, Then(r, q))
    decreases |s.images| + |s.clouds|
  {
    var q := Paired(WithImage(s, m), tolerance);
    if s.images == [] || s.clouds == [] {
      ThenAssociates(q.1, q.1, q.1);
    } else {
      var (t, first) := PairFront(s, tolerance);
      assert (s.images + [m])[1..] == s.images[1..] + [m];
      assert PairFront(WithImage(s, m), tolerance) == (WithImage(t, m), first);
      LateImage(t, m, tolerance);
      var (u, r) := Paired(t, tolerance);
      ThenAssociates(first, r, Paired(WithImage(u, m), tolerance).1);
    }
  }

  lemma {:induction false} LateCloud(s: State, m: Message, tolerance: int)
    ensures var (u, r) := Paired(s, tolerance);
            var (v, q) := Paired(WithCloud(u, m), tolerance);
            Paired(WithCloud(s, m), tolerance) == (v, Then(r, q))
    decreases |s.images| + |s.clouds|
  {
    var q := Paired(WithCloud(s, m), tolerance);
    if s.images == [] || s.clouds == [] {
      ThenAssociates(q.1, q.1, q.1);
    } else {
      var (t, first) := PairFront(s, tolerance);
      assert (s.clouds + [m])[1..] == s.clouds[1..] + [m];
      assert PairFront(WithCloud(s, m), tolerance) == (WithCloud(t, m), first);
      LateCloud(t, m, tolerance);
      var (u, r) := Paired(t, tolerance);
      ThenAssociates(first, r, Paired(WithCloud(u, m), tolerance).1);
    }
  }

  lemma {:induction false} PairedLeavesSuffixes(s: State, tolerance: int)
    ensures var u := Paired(s, tolerance).0;
            && |u.images| <= |s.images| && u.images == s.images[|s.images| - |u.images|..]
            && |u.clouds| <= |s.clouds| && u.clouds == s.clouds[|s.clouds| - |u.clouds|..]
    decreases |s.images| + |s.clouds|
  {
    if s.images != [] && s.clouds != [] {
      PairedLeavesSuffixes(PairFront(s, tolerance).0, tolerance);
    }
  }

  /** No call but the two adds, each stream in its own time order, and no queue ever full. */
  ghost predicate Regular(ops: seq<Op>, size: nat, tolerance: int)
  {
    && (forall op :: op in ops ==> !op.Flush?)
    && Sorted(Images(ops)) && Sorted(Clouds(ops))
    && forall r, d :: r in History(ops, size, tolerance).1 && d in r.drops ==> d.reason != QueueFull
  }

  lemma RegularFront(ops: seq<Op>, size: nat, tolerance: int)
    requires ops != [] && Regular(ops, size, tolerance)
    ensures Regular(ops[..|ops| - 1], size, tolerance)
  {
    var front, last := ops[..|ops| - 1], ops[|ops| - 1];
    assert Images(front) <= Images(ops) && Clouds(front) <= Clouds(ops);
    assert forall r :: r in History(front, size, tolerance).1 ==> r in History(ops, size, tolerance).1;
  }

  /** One pairing run over both whole streams. */
  function Batch(images: seq<Message>, clouds: seq<Message>, tolerance: int): (State, Results)
  {
    Paired(State(images, clouds, 0, 0), tolerance)
  }

  /** Queues, counters, matches and drops of any regular history are those of one batch run. */
  lemma {:induction false} HistoryIsBatch(ops: seq<Op>, size: nat, tolerance: int)
    requires Regular(ops, size, tolerance)
    ensures var (s, results) := History(ops, size, tolerance);
            (s, Total(results)) == Batch(Images(ops), Clouds(ops), tolerance)
  {
    if ops != [] {
      var front, last := ops[..|ops| - 1], ops[|ops| - 1];
      RegularFront(ops, size, tolerance);
      HistoryIsBatch(front, size, tolerance);
      var (s, results) := History(front, size, tolerance);
      var r := Stepped(s, last, size, tolerance).1;
      assert r in History(ops, size, tolerance).1;
      var start := State(Images(front), Clouds(front), 0, 0);
      StepIsLateArrival(start, s, last, ops, size, tolerance);
      assert (results + [r])[..|results|] == results;
    }
  }

  lemma StepIsLateArrival(start: State, s: State, op: Op, ops: seq<Op>, size: nat, tolerance: int)
    requires ops != [] && op == ops[|ops| - 1] && !op.Flush? && Sorted(Images(ops)) && Sorted(Clouds(ops))
    requires start == State(Images(ops[..|ops| - 1]), Clouds(ops[..|ops| - 1]), 0, 0)
    requires s == Paired(start, tolerance).0
    requires forall d :: d in Stepped(s, op, size, tolerance).1.drops ==> d.reason != QueueFull
    ensures var (t, r) := Stepped(s, op, size, tolerance);
            (t, Then(Paired(start, tolerance).1, r)) == Batch(Images(ops), Clouds(ops), tolerance)
  {
    if op.AddImage? {
      ImageStepIsLate(start, s, op.m, size, tolerance);
      assert start.clouds + [] == start.clouds;
    } else {
      CloudStepIsLate(start, s, op.m, size, tolerance);
      assert start.images + [] == start.images;
    }
  }

  lemma ImageStepIsLate(start: State, s: State, m: Message, size: nat, tolerance: int)
    requires s == Paired(start, tolerance).0 && Sorted(start.images + [m])
    requires forall d :: d in Stepped(s, AddImage(m), size, tolerance).1.drops ==> d.reason != QueueFull
    ensures var (t, r) := Stepped(s, AddImage(m), size, tolerance);
            (t, Then(Paired(start, tolerance).1, r)) == Paired(WithImage(start, m), tolerance)
  {
    PairedLeavesSuffixes(start, tolerance);
    InsertedIsAppended(s.images, start.images, m);
    LateImage(start, m, tolerance);
    hide Paired, Inserted;
    var added := WithImage(s, m);
    FullIsReported(added, size, Paired(TrimmedImages(added, size).0, tolerance).1);
    var r := Paired(added, tolerance).1;
    ThenAssociates(r, r, r);
  }

  lemma CloudStepIsLate(start: State, s: State, m: Message, size: nat, tolerance: int)
    requires s == Paired(start, tolerance).0 && Sorted(start.clouds + [m])
    requires forall d :: d in Stepped(s, AddCloud(m), size, tolerance).1.drops ==> d.reason != QueueFull
    ensures var (t, r) := Stepped(s, AddCloud(m), size, tolerance);
            (t, Then(Paired(start, tolerance).1, r)) == Paired(WithCloud(start, m), tolerance)
  {
    PairedLeavesSuffixes(start, tolerance);
    InsertedIsAppended(s.clouds, start.clouds, m);
    LateCloud(start, m, tolerance);
    hide Paired, Inserted;
    var added := WithCloud(s, m);
    FullIsReported(added, size, Paired(TrimmedClouds(added, size).0, tolerance).1);
    var r := Paired(added, tolerance).1;
    ThenAssociates(r, r, r);
  }

  lemma InsertedIsAppended(queue: seq<Message>, stream: seq<Message>, m: Message)
    requires |queue| <= |stream| && queue == stream[|stream| - |queue|..] && Sorted(stream + [m])
    ensures Inserted(queue, m) == queue + [m]
  {
    var whole, skipped := stream + [m], |stream| - |queue|;
    assert forall i :: 0 <= i < |queue| ==> queue[i] == whole[skipped + i];
    assert m == whole[|stream|];
    InsertedKeepsSorted(queue, m);
  }

  lemma FullIsReported(s: State, size: nat, rest: Results)
    ensures |s.images| > size ==> exists d :: d in Then(TrimmedImages(s, size).1, rest).drops && d.reason == QueueFull
    ensures |s.clouds| > size ==> exists d :: d in Then(TrimmedClouds(s, size).1, rest).drops && d.reason == QueueFull
  {
    if |s.images| > size {
      var full := TrimmedImages(s, size).1;
      assert Then(full, rest).drops[0].reason == QueueFull;
    }
    if |s.clouds| > size {
      var full := TrimmedClouds(s, size).1;
      assert Then(full, rest).drops[0].reason == QueueFull;
    }
  }

  /** Two interleavings of the same two streams give the same queues, counters, matches and drops. */
  lemma InterleavingIndependent(ops1: seq<Op>, ops2: seq<Op>, size1: nat, size2: nat, tolerance: int)
    requires Regular(ops1, size1, tolerance) && Regular(ops2, size2, tolerance)
    requires Images(ops1) == Images(ops2) && Clouds(ops1) == Clouds(ops2)
    ensures var (s1, r1) := History(ops1, size1, tolerance);
            var (s2, r2) := History(ops2, size2, tolerance);
            s1 == s2 && Total(r1) == Total(r2)
  {
    HistoryIsBatch(ops1, size1, tolerance);
    HistoryIsBatch(ops2, size2, tolerance);
  }

  // ---- hopeless drops ----

  /** A message on the other side is already too late for every dropped one. */
  ghost predicate Overtaken(d: Drop, images: seq<Message>, clouds: seq<Message>, tolerance: int)
  {
    match d.sensor
    case Camera => exists c :: c in clouds && c.stamp - d.stamp > tolerance
    case Lidar => exists m :: m in images && m.stamp - d.stamp > tolerance
  }

  lemma {:induction false} DropsAreOvertaken(s: State, tolerance: int)
    ensures forall d :: d in Paired(s, tolerance).1.drops ==> Overtaken(d, s.images, s.clouds, tolerance)
    decreases |s.images| + |s.clouds|
  {
    if s.images != [] && s.clouds != [] {
      var (t, first) := PairFront(s, tolerance);
      DropsAreOvertaken(t, tolerance);
      assert s.images[0] in s.images && s.clouds[0] in s.clouds;
      forall d | d in Paired(s, tolerance).1.drops ensures Overtaken(d, s.images, s.clouds, tolerance) {
        if d in Paired(t, tolerance).1.drops { assert Overtaken(d, t.images, t.clouds, tolerance); }
      }
    }
  }

  /** In a regular history no dropped message is within tolerance of any message that arrives after the drop. */
  lemma DroppedMatchNothingLater(ops: seq<Op>, n: nat, size: nat, tolerance: int, d: Drop, k: nat)
    requires n <= |ops| && Regular(ops[..n], size, tolerance) && Sorted(Images(ops)) && Sorted(Clouds(ops))
    requires d in Total(History(ops[..n], size, tolerance).1).drops
    ensures d.sensor == Camera && |Clouds(ops[..n])| <= k < |Clouds(ops)| ==> Clouds(ops)[k].stamp - d.stamp > tolerance
    ensures d.sensor == Lidar && |Images(ops[..n])| <= k < |Images(ops)| ==> Images(ops)[k].stamp - d.stamp > tolerance
  {
    var images, clouds := Images(ops[..n]), Clouds(ops[..n]);
    HistoryIsBatch(ops[..n], size, tolerance);
    DropsAreOvertaken(State(images, clouds, 0, 0), tolerance);
    StreamsGrow(ops, n);
    hide Regular, History, Total, Paired, Images, Clouds;
    assert Overtaken(d, images, clouds, tolerance);
    if d.sensor == Camera && |clouds| <= k < |Clouds(ops)| {
      var i :| 0 <= i < |clouds| && clouds[i].stamp - d.stamp > tolerance;
      assert Clouds(ops)[i] == clouds[i];
    }
    if d.sensor == Lidar && |images| <= k < |Images(ops)| {
      var i :| 0 <= i < |images| && images[i].stamp - d.stamp > tolerance;
      assert Images(ops)[i] == images[i];
    }
  }

  lemma {:induction false} StreamsGrow(ops: seq<Op>, n: nat)
    requires n <= |ops|
    ensures Images(ops[..n]) <= Images(ops) && Clouds(ops[..n]) <= Clouds(ops)
  {
    if n == |ops| {
      assert ops[..n] == ops;
    } else {
      StreamsGrow(ops[..|ops| - 1], n);
      assert ops[..|ops| - 1][..n] == ops[..n];
    }
  }

  // ---- optimality ----

  /** A one-to-one pairing of positions, every pair within tolerance. */
  ghost predicate Pairing(pairs: set<(nat, nat)>, images: seq<Message>, clouds: seq<Message>, tolerance: int)
  {
    && (forall p :: p in pairs ==>
        p.0 < |images| && p.1 < |clouds| && -tolerance <= images[p.0].stamp - clouds[p.1].stamp <= tolerance)
    && forall p, q :: p in pairs && q in pairs && (p.0 == q.0 || p.1 == q.1) ==> p == q
  }

  ghost predicate From(pairs: set<(nat, nat)>, i: nat, j: nat)
  {
    forall p :: p in pairs ==> p.0 >= i && p.1 >= j
  }

  /** The positions greedy pairing matches, starting at positions i and j. */
  ghost function GreedyPairs(images: seq<Message>, clouds: seq<Message>, i: nat, j: nat,
                             tolerance: int): seq<(nat, nat)>
    requires i <= |images| && j <= |clouds|
    decreases |images| - i + |clouds| - j
  {
    if i == |images| || j == |clouds| then []
    else if WithinTolerance(images[i], clouds[j], tolerance) then
      [(i, j)] + GreedyPairs(images, clouds, i + 1, j + 1, tolerance)
    else if images[i].stamp < clouds[j].stamp then GreedyPairs(images, clouds, i + 1, j, tolerance)
    else GreedyPairs(images, clouds, i, j + 1, tolerance)
  }

  /** The matches, in order, are those of the positions. */
  ghost predicate At(matches: seq<Match>, pairs: seq<(nat, nat)>, images: seq<Message>, clouds: seq<Message>)
  {
    && |pairs| == |matches|
    && forall k :: 0 <= k < |pairs| ==>
         pairs[k].0 < |images| && pairs[k].1 < |clouds| && matches[k] == Matched(images[pairs[k].0], clouds[pairs[k].1])
  }

  lemma OneMore(i: nat, j: nat, matches: seq<Match>, pairs: seq<(nat, nat)>, images: seq<Message>, clouds: seq<Message>)
    requires At(matches, pairs, images, clouds) && i < |images| && j < |clouds|
    ensures At([Matched(images[i], clouds[j])] + matches, [(i, j)] + pairs, images, clouds)
  {
    var p := [(i, j)] + pairs;
    assert forall k :: 0 < k < |p| ==> p[k] == pairs[k - 1];
  }

  lemma Turn(s: State, tolerance: int)
    requires s.images != [] && s.clouds != []
    ensures var (t, first) := PairFront(s, tolerance); Paired(s, tolerance).1 == Then(first, Paired(t, tolerance).1)
  {}

  lemma MatchesTurn(images: seq<Message>, clouds: seq<Message>, a: nat, b: nat, tolerance: int)
    requires images != [] && clouds != []
    ensures var all := Paired(State(images, clouds, a, b), tolerance).1.matches;
            all == if WithinTolerance(images[0], clouds[0], tolerance) then
                     [Matched(images[0], clouds[0])]
                       + Paired(State(images[1..], clouds[1..], a, b), tolerance).1.matches
                   else if images[0].stamp < clouds[0].stamp then
                     Paired(State(images[1..], clouds, a + 1, b), tolerance).1.matches
                   else Paired(State(images, clouds[1..], a, b + 1), tolerance).1.matches
  {
    var s := State(images, clouds, a, b);
    Turn(s, tolerance);
    hide Paired, WithinTolerance, Matched;
    var all := Paired(s, tolerance).1.matches;
    assert PairFront(s, tolerance).1.matches == [] ==> all == Paired(PairFront(s, tolerance).0, tolerance).1.matches;
  }

  lemma {:induction false} GreedyPairsAreMatches(images: seq<Message>, clouds: seq<Message>, i: nat, j: nat,
                                                 a: nat, b: nat, tolerance: int)
    requires i <= |images| && j <= |clouds|
    ensures At(Paired(State(images[i..], clouds[j..], a, b), tolerance).1.matches,
               GreedyPairs(images, clouds, i, j, tolerance), images, clouds)
    decreases |images| - i + |clouds| - j
  {
    if i < |images| && j < |clouds| {
      hide At, Paired, Matched;
      assert images[i..][1..] == images[i + 1..] && clouds[j..][1..] == clouds[j + 1..];
      MatchesTurn(images[i..], clouds[j..], a, b, tolerance);
      if WithinTolerance(images[i], clouds[j], tolerance) {
        GreedyPairsAreMatches(images, clouds, i + 1, j + 1, a, b, tolerance);
        OneMore(i, j, Paired(State(images[i + 1..], clouds[j + 1..], a, b), tolerance).1.matches,
                GreedyPairs(images, clouds, i + 1, j + 1, tolerance), images, clouds);
      } else if images[i].stamp < clouds[j].stamp {
        GreedyPairsAreMatches(images, clouds, i + 1, j, a + 1, b, tolerance);
      } else {
        GreedyPairsAreMatches(images, clouds, i, j + 1, a, b + 1, tolerance);
      }
    }
  }

  /** Greedy's own pairs are a pairing. */
  lemma {:induction false} GreedyIsPairing(images: seq<Message>, clouds: seq<Message>, i: nat, j: nat, tolerance: int)
    requires i <= |images| && j <= |clouds|
    ensures var g := GreedyPairs(images, clouds, i, j, tolerance);
            var pairs := set p | p in g;
            Pairing(pairs, images, clouds, tolerance) && From(pairs, i, j) && |pairs| == |g|
    decreases |images| - i + |clouds| - j
  {
    var g := GreedyPairs(images, clouds, i, j, tolerance);
    if i < |images| && j < |clouds| {
      if WithinTolerance(images[i], clouds[j], tolerance) {
        GreedyIsPairing(images, clouds, i + 1, j + 1, tolerance);
        var rest := set p | p in g[1..];
        assert (i, j) !in rest;
        assert (set p | p in g) == rest + {(i, j)};
      } else if images[i].stamp < clouds[j].stamp {
        GreedyIsPairing(images, clouds, i + 1, j, tolerance);
      } else {
        GreedyIsPairing(images, clouds, i, j + 1, tolerance);
      }
    }
  }

  /** Without the pair that uses the first image, or the first cloud, a pairing is at most one smaller. */
  lemma WithoutFront(pairs: set<(nat, nat)>, images: seq<Message>, clouds: seq<Message>, i: nat, j: nat, tolerance: int)
    returns (rest: set<(nat, nat)>, used: set<(nat, nat)>)
    requires Pairing(pairs, images, clouds, tolerance) && From(pairs, i, j)
    ensures rest <= pairs && From(rest, i + 1, j) && pairs == rest + used && |pairs| == |rest| + |used| && |used| <= 1
    ensures forall p :: p in used ==> p in pairs && p.0 == i
  {
    if b: nat :| (i, b) in pairs {
      rest, used := pairs - {(i, b)}, {(i, b)};
      assert forall p :: p in rest ==> p.0 != i;
    } else {
      rest, used := pairs, {};
      assert forall p :: p in rest ==> p == (p.0, p.1);
    }
  }

  /** Exchange: a pairing can be made to contain the two fronts when they are within tolerance, leaving a
      pairing of the rest at most one smaller. */
  lemma ExchangeFronts(pairs: set<(nat, nat)>, images: seq<Message>, clouds: seq<Message>, i: nat, j: nat,
                       tolerance: int)
    returns (rest: set<(nat, nat)>)
    requires Sorted(images) && Sorted(clouds) && i < |images| && j < |clouds|
    requires Pairing(pairs, images, clouds, tolerance) && From(pairs, i, j)
    requires WithinTolerance(images[i], clouds[j], tolerance)
    ensures Pairing(rest, images, clouds, tolerance) && From(rest, i + 1, j + 1)
    ensures |pairs| <= |rest| + 1
  {
    var others, used := WithoutFront(pairs, images, clouds, i, j, tolerance);
    if a: nat :| (a, j) in others {
      rest := others - {(a, j)};
      assert From(rest, i + 1, j + 1);
      if b: nat :| (i, b) in used {
        Recombine(pairs, rest, images, clouds, i, j, a, b, tolerance);
        rest := rest + {(a, b)};
      } else {
        assert used == {} by { assert forall p :: p in used ==> p == (i, p.1); }
      }
    } else {
      rest := others;
      assert forall p :: p in rest ==> p == (p.0, p.1);
    }
  }

  /** The partners of the two fronts are within tolerance of each other and still free. */
  lemma Recombine(pairs: set<(nat, nat)>, rest: set<(nat, nat)>, images: seq<Message>, clouds: seq<Message>, i: nat,
                  j: nat, a: nat, b: nat, tolerance: int)
    requires Sorted(images) && Sorted(clouds) && i < |images| && j < |clouds|
    requires Pairing(pairs, images, clouds, tolerance) && From(pairs, i, j)
    requires WithinTolerance(images[i], clouds[j], tolerance)
    requires (i, b) in pairs && (a, j) in pairs && a > i && rest <= pairs - {(i, b), (a, j)} && From(rest, i + 1, j + 1)
    ensures (a, b) !in rest && Pairing(rest + {(a, b)}, images, clouds, tolerance)
    ensures From(rest + {(a, b)}, i + 1, j + 1)
  {
    assert (i, b) != (a, j) && b > j;
    assert WithinTolerance(images[i], clouds[b], tolerance) && WithinTolerance(images[a], clouds[j], tolerance);
    assert images[i].stamp <= images[a].stamp && clouds[j].stamp <= clouds[b].stamp;
    assert WithinTolerance(images[a], clouds[b], tolerance);
    assert forall p :: p in rest ==> p in pairs && p != (a, j) && p != (i, b) && p.0 != a && p.1 != b;
  }

  /** No pairing of the rest of two ordered streams beats greedy from there. */
  lemma {:induction false} GreedyFromHereIsMaximum(pairs: set<(nat, nat)>, images: seq<Message>, clouds: seq<Message>,
                                                   i: nat, j: nat, tolerance: int)
    requires Sorted(images) && Sorted(clouds) && i <= |images| && j <= |clouds|
    requires Pairing(pairs, images, clouds, tolerance) && From(pairs, i, j)
    ensures |pairs| <= |GreedyPairs(images, clouds, i, j, tolerance)|
    decreases |images| - i + |clouds| - j
  {
    if i == |images| || j == |clouds| {
      assert pairs == {};
    } else if WithinTolerance(images[i], clouds[j], tolerance) {
      var rest := ExchangeFronts(pairs, images, clouds, i, j, tolerance);
      GreedyFromHereIsMaximum(rest, images, clouds, i + 1, j + 1, tolerance);
    } else if images[i].stamp < clouds[j].stamp {
      assert From(pairs, i + 1, j);
      GreedyFromHereIsMaximum(pairs, images, clouds, i + 1, j, tolerance);
    } else {
      assert From(pairs, i, j + 1);
      GreedyFromHereIsMaximum(pairs, images, clouds, i, j + 1, tolerance);
    }
  }

  /** A regular history makes a maximum number of matches: the matches, one by one, are those of the positions of a
      one-to-one pairing of the two streams, and no other pairing within tolerance has more. */
  lemma HistoryIsMaximum(ops: seq<Op>, size: nat, tolerance: int, pairs: set<(nat, nat)>)
    requires Regular(ops, size, tolerance) && Pairing(pairs, Images(ops), Clouds(ops), tolerance)
    ensures var matches := Total(History(ops, size, tolerance).1).matches;
            && |pairs| <= |matches|
            && exists own: seq<(nat, nat)> ::
                 && At(matches, own, Images(ops), Clouds(ops))
                 && Pairing((set p | p in own), Images(ops), Clouds(ops), tolerance) && |set p | p in own| == |own|
  {
    var images, clouds := Images(ops), Clouds(ops);
    HistoryIsBatch(ops, size, tolerance);
    GreedyPairsAreMatches(images, clouds, 0, 0, 0, 0, tolerance);
    assert images[0..] == images && clouds[0..] == clouds;
    GreedyFromHereIsMaximum(pairs, images, clouds, 0, 0, tolerance);
    GreedyIsPairing(images, clouds, 0, 0, tolerance);
    assert At(Total(History(ops, size, tolerance).1).matches, GreedyPairs(images, clouds, 0, 0, tolerance), images,
              clouds);
  }
}
