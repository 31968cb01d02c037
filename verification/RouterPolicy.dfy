/**
 The event router's dedupe and cooldown policy, include/event_router_policy.hpp: three maps against what they are
 for, a statement about the history of calls.
 */
module RouterPolicy {
  import opened Prelude

  type Name = string

  datatype Decision = Accept | Duplicate | CoolingDown

  /** Durations in nanoseconds. */
  datatype Policy = Policy(ttl: int, cooldown: int)

  /** seen holds the time at which a trigger is forgotten, accepted what its Accept was for. */
  datatype State = State(seen: map<Name, int>, last: map<Name, int>, accepted: map<Name, (Name, int)>)

  datatype Call = Evaluate(event: Name, trigger: Name, now: int) | Release(trigger: Name)

  const Fresh := State(map[], map[], map[])

  function Expired(seen: map<Name, int>, now: int): set<Name> { set t | t in seen && seen[t] <= now }

  function Pruned(s: State, now: int): State
  {
    s.(seen := s.seen - Expired(s.seen, now), accepted := s.accepted - Expired(s.seen, now))
  }

  function Evaluated(s: State, event: Name, trigger: Name, now: int, policy: Policy): (State, Decision)
  {
    var p := Pruned(s, now);
    if trigger in p.seen then (p, Duplicate)
    else if event in p.last && now - p.last[event] < policy.cooldown then (p, CoolingDown)
    else (State(p.seen[trigger := now + policy.ttl], p.last[event := now], p.accepted[trigger := (event, now)]), Accept)
  }

  function Released(s: State, trigger: Name): State
  {
    if trigger !in s.accepted then s.(seen := s.seen - {trigger})
    else
      var (event, time) := s.accepted[trigger];
      State(s.seen - {trigger}, if event in s.last && s.last[event] == time then s.last - {event} else s.last,
            s.accepted - {trigger})
  }

  /** The state after the calls, and what each evaluation decided. */
  function After(calls: seq<Call>, policy: Policy): (r: (State, seq<Option<Decision>>))
    ensures |r.1| == |calls|
  {
    if calls == [] then (Fresh, [])
    else
      var (s, decisions) := After(calls[..|calls| - 1], policy);
      match calls[|calls| - 1]
      case Evaluate(event, trigger, now) =>
        var (t, d) := Evaluated(s, event, trigger, now, policy);
        (t, decisions + [Some(d)])
      case Release(trigger) => (Released(s, trigger), decisions + [None])
  }

  // ---- what the history says ----

  /** The evaluations' times never run backwards. */
  ghost predicate Monotone(calls: seq<Call>)
  {
    forall i, j :: 0 <= i < j < |calls| && calls[i].Evaluate? && calls[j].Evaluate? ==> calls[i].now <= calls[j].now
  }

  ghost predicate AcceptedAt(calls: seq<Call>, policy: Policy, i: int)
  {
    0 <= i < |calls| && calls[i].Evaluate? && After(calls, policy).1[i] == Some(Accept)
  }

  /** Every evaluation after call i, up to call j, came before the trigger of call i was forgotten. */
  ghost predicate StillSeen(calls: seq<Call>, policy: Policy, i: int, j: int)
    requires 0 <= i < j <= |calls| && calls[i].Evaluate?
  {
    forall k :: i < k < j && calls[k].Evaluate? ==> calls[k].now < calls[i].now + policy.ttl
  }

  /** A release undoes the Accept of call i: its trigger is named while it is still remembered. */
  ghost predicate UndoneAt(calls: seq<Call>, policy: Policy, i: int, j: int)
    requires 0 <= i < |calls| && calls[i].Evaluate?
  {
    i < j < |calls| && calls[j] == Release(calls[i].trigger) && StillSeen(calls, policy, i, j)
  }

  ghost predicate Stands(calls: seq<Call>, policy: Policy, i: int)
  {
    AcceptedAt(calls, policy, i) && forall j :: i < j < |calls| ==> !UndoneAt(calls, policy, i, j)
  }

  /** The Accept of call i is remembered: not released, and its time not yet over at any later evaluation. */
  ghost predicate Live(calls: seq<Call>, policy: Policy, i: int)
  {
    && AcceptedAt(calls, policy, i) && StillSeen(calls, policy, i, |calls|)
    && forall j :: i < j < |calls| ==> calls[j] != Release(calls[i].trigger)
  }

  ghost predicate ClockReached(calls: seq<Call>, time: int)
  {
    exists k :: 0 <= k < |calls| && calls[k].Evaluate? && calls[k].now >= time
  }

  // ---- one more call ----

  lemma DecisionsGrow(calls: seq<Call>, policy: Policy, i: int)
    requires 0 <= i < |calls| - 1
    ensures AcceptedAt(calls, policy, i) <==> AcceptedAt(calls[..|calls| - 1], policy, i)
  {
  }

  lemma LiveGrows(calls: seq<Call>, policy: Policy, i: int)
    requires 0 <= i < |calls| - 1
    ensures var front, last := calls[..|calls| - 1], calls[|calls| - 1];
            Live(calls, policy, i) <==> Live(front, policy, i) && last != Release(calls[i].trigger)
                                        && (last.Evaluate? ==> last.now < calls[i].now + policy.ttl)
  {
    DecisionsGrow(calls, policy, i);
    var front, last := calls[..|calls| - 1], calls[|calls| - 1];
    hide AcceptedAt;
    if AcceptedAt(calls, policy, i) && StillSeen(front, policy, i, |front|) {
      assert StillSeen(calls, policy, i, |calls|) <==> (last.Evaluate? ==> last.now < calls[i].now + policy.ttl);
    }
    assert forall j :: i < j < |front| ==> calls[j] == front[j];
    assert Live(calls, policy, i) ==> Live(front, policy, i) && last == calls[|calls| - 1];
  }

  lemma StandsGrows(calls: seq<Call>, policy: Policy, i: int)
    requires 0 <= i < |calls| - 1
    ensures var front, last := calls[..|calls| - 1], calls[|calls| - 1];
            Stands(calls, policy, i)
            <==> Stands(front, policy, i) && !(last == Release(calls[i].trigger) && Live(front, policy, i))
  {
    DecisionsGrow(calls, policy, i);
    var front, last, n := calls[..|calls| - 1], calls[|calls| - 1], |calls| - 1;
    hide AcceptedAt;
    if AcceptedAt(front, policy, i) {
      assert forall j :: i < j < n ==> calls[j] == front[j];
      forall j | i < j <= n ensures StillSeen(calls, policy, i, j) <==> StillSeen(front, policy, i, j) {}
      forall j | i < j < n ensures UndoneAt(calls, policy, i, j) <==> UndoneAt(front, policy, i, j) {}
      if Stands(front, policy, i) && last == Release(calls[i].trigger) && StillSeen(front, policy, i, n) {
        assert forall j :: i < j < n && front[j] == Release(front[i].trigger) ==> UndoneAt(front, policy, i, j);
      }
      assert UndoneAt(calls, policy, i, n) <==> last == Release(calls[i].trigger) && StillSeen(front, policy, i, n);
    }
  }

  // ---- the maps are the history ----

  /** A remembered trigger, its time and what it was accepted for are those of one live Accept. */
  ghost predicate SeenIsLive(s: State, calls: seq<Call>, policy: Policy)
  {
    && s.seen.Keys == s.accepted.Keys
    && (forall t :: t in s.seen ==> exists i :: SeenFrom(s, calls, policy, t, i))
    && forall i :: Live(calls, policy, i) ==> SeenFrom(s, calls, policy, calls[i].trigger, i)
  }

  ghost predicate SeenFrom(s: State, calls: seq<Call>, policy: Policy, t: Name, i: int)
  {
    && Live(calls, policy, i) && calls[i].trigger == t && t in s.seen && t in s.accepted
    && s.seen[t] == calls[i].now + policy.ttl && s.accepted[t] == (calls[i].event, calls[i].now)
  }

  /** The time kept for an event is that of an Accept that stands; every other Accept that stands is older, or old
      enough. */
  ghost predicate LastStands(s: State, calls: seq<Call>, policy: Policy)
  {
    && (forall e :: e in s.last ==> exists i :: LastFrom(s, calls, policy, e, i))
    && forall i :: Stands(calls, policy, i) ==> Covered(s, calls, policy, i)
  }

  ghost predicate LastFrom(s: State, calls: seq<Call>, policy: Policy, e: Name, i: int)
  {
    Stands(calls, policy, i) && calls[i].event == e && e in s.last && s.last[e] == calls[i].now
  }

  ghost predicate Covered(s: State, calls: seq<Call>, policy: Policy, i: int)
  {
    && 0 <= i < |calls| && calls[i].Evaluate?
    && (|| (calls[i].event in s.last && s.last[calls[i].event] >= calls[i].now)
        || ClockReached(calls, calls[i].now + policy.cooldown))
  }

  lemma ClockOnlyAdvances(calls: seq<Call>, time: int)
    requires calls != []
    ensures ClockReached(calls[..|calls| - 1], time) ==> ClockReached(calls, time)
    ensures calls[|calls| - 1].Evaluate? && calls[|calls| - 1].now >= time ==> ClockReached(calls, time)
  {
    var front := calls[..|calls| - 1];
    if k :| 0 <= k < |front| && front[k].Evaluate? && front[k].now >= time { assert calls[k] == front[k]; }
  }

  lemma LiveIsACall(calls: seq<Call>, policy: Policy, i: int)
    requires Live(calls, policy, i)
    ensures 0 <= i < |calls| && calls[i].Evaluate? && AcceptedAt(calls, policy, i) && Stands(calls, policy, i)
  {}

  lemma ReleaseIsNoAccept(calls: seq<Call>, policy: Policy, i: int)
    requires calls != [] && calls[|calls| - 1].Release? && AcceptedAt(calls, policy, i)
    ensures 0 <= i < |calls| - 1
  {}

  /** What was remembered for another trigger still is after a release. */
  lemma SeenThroughRelease(s: State, calls: seq<Call>, policy: Policy, t: Name, i: int)
    requires calls != [] && calls[|calls| - 1].Release? && SeenFrom(s, calls[..|calls| - 1], policy, t, i)
    requires t != calls[|calls| - 1].trigger
    ensures SeenFrom(Released(s, calls[|calls| - 1].trigger), calls, policy, t, i)
  {
    LiveIsACall(calls[..|calls| - 1], policy, i);
    LiveGrows(calls, policy, i);
    hide Live;
  }

  lemma LiveThroughRelease(calls: seq<Call>, policy: Policy, i: int)
    requires calls != [] && calls[|calls| - 1].Release? && Live(calls, policy, i)
    ensures 0 <= i < |calls| - 1 && Live(calls[..|calls| - 1], policy, i)
    ensures calls[i].trigger != calls[|calls| - 1].trigger
  {
    LiveIsACall(calls, policy, i);
    ReleaseIsNoAccept(calls, policy, i);
    LiveGrows(calls, policy, i);
  }

  lemma ReleaseKeepsSeen(s: State, calls: seq<Call>, policy: Policy)
    requires calls != [] && calls[|calls| - 1].Release? && SeenIsLive(s, calls[..|calls| - 1], policy)
    ensures SeenIsLive(Released(s, calls[|calls| - 1].trigger), calls, policy)
  {
    var front, trigger := calls[..|calls| - 1], calls[|calls| - 1].trigger;
    var r := Released(s, trigger);
    assert r.seen.Keys == s.seen.Keys - {trigger} && r.accepted.Keys == s.accepted.Keys - {trigger};
    hide Live, SeenFrom, Released, AcceptedAt;
    forall t | t in r.seen ensures exists i :: SeenFrom(r, calls, policy, t, i) {
      assert t in s.seen;
      var i :| SeenFrom(s, front, policy, t, i);
      SeenThroughRelease(s, calls, policy, t, i);
    }
    forall i | Live(calls, policy, i) ensures SeenFrom(r, calls, policy, calls[i].trigger, i) {
      LiveThroughRelease(calls, policy, i);
      assert SeenFrom(s, front, policy, front[i].trigger, i);
      SeenThroughRelease(s, calls, policy, front[i].trigger, i);
    }
  }

  /** Accepts of one event are a cooldown apart as long as the earlier one stands. */
  ghost predicate Spaced(calls: seq<Call>, policy: Policy)
  {
    forall i, j ::
      0 <= i < j < |calls| && Stands(calls, policy, i) && AcceptedAt(calls, policy, j)
      && calls[i].event == calls[j].event
      ==> calls[j].now >= calls[i].now + policy.cooldown
  }

  ghost predicate Inv(s: State, calls: seq<Call>, policy: Policy)
  {
    SeenIsLive(s, calls, policy) && LastStands(s, calls, policy) && Spaced(calls, policy)
  }

  lemma StandsShrinks(calls: seq<Call>, policy: Policy, i: int)
    requires 0 <= i < |calls| - 1 && Stands(calls, policy, i)
    ensures Stands(calls[..|calls| - 1], policy, i)
  {
    StandsGrows(calls, policy, i);
  }

  // ---- a release ----

  lemma LastThroughRelease(s: State, calls: seq<Call>, policy: Policy, e: Name, i: int)
    requires calls != [] && calls[|calls| - 1].Release? && SeenIsLive(s, calls[..|calls| - 1], policy)
    requires LastFrom(s, calls[..|calls| - 1], policy, e, i) && e in Released(s, calls[|calls| - 1].trigger).last
    ensures LastFrom(Released(s, calls[|calls| - 1].trigger), calls, policy, e, i)
  {
    var front := calls[..|calls| - 1];
    StandsGrows(calls, policy, i);
    if Live(front, policy, i) { assert SeenFrom(s, front, policy, front[i].trigger, i); }
    hide Stands, Live, AcceptedAt;
  }

  /** A release that takes away the time of an event undoes a live Accept of that event and time. */
  lemma TakenAway(s: State, calls: seq<Call>, policy: Policy, trigger: Name, e: Name) returns (j: int)
    requires SeenIsLive(s, calls, policy) && e in s.last && e !in Released(s, trigger).last
    ensures Live(calls, policy, j) && 0 <= j < |calls| && calls[j].Evaluate? && Stands(calls, policy, j)
    ensures calls[j].trigger == trigger && calls[j].event == e && calls[j].now == s.last[e]
  {
    assert trigger in s.seen;
    j :| SeenFrom(s, calls, policy, trigger, j);
    LiveIsACall(calls, policy, j);
    hide Live, Stands, AcceptedAt;
  }

  /** It takes it away only when every other Accept that stands is old enough. */
  lemma CoveredThroughRelease(s: State, calls: seq<Call>, policy: Policy, i: int)
    requires calls != [] && calls[|calls| - 1].Release? && Monotone(calls[..|calls| - 1])
    requires Inv(s, calls[..|calls| - 1], policy)
    requires Stands(calls, policy, i)
    ensures Covered(Released(s, calls[|calls| - 1].trigger), calls, policy, i)
  {
    var front, trigger := calls[..|calls| - 1], calls[|calls| - 1].trigger;
    ReleaseIsNoAccept(calls, policy, i);
    StandsShrinks(calls, policy, i);
    assert Covered(s, front, policy, i);
    hide Live, Stands, AcceptedAt, SeenIsLive, Spaced, Monotone, ClockReached;
    ClockOnlyAdvances(calls, calls[i].now + policy.cooldown);
    if calls[i].event in s.last && calls[i].event !in Released(s, trigger).last {
      var j := TakenAway(s, front, policy, trigger, calls[i].event);
      StandsGrows(calls, policy, j);
      if j == i { assert false; }
      if s.last[calls[i].event] >= calls[i].now { SpacedClock(front, policy, i, j); }
    }
  }

  lemma SpacedClock(calls: seq<Call>, policy: Policy, i: int, j: int)
    requires Spaced(calls, policy) && Monotone(calls) && i != j && Stands(calls, policy, i) && Stands(calls, policy, j)
    requires calls[i].event == calls[j].event && calls[j].now >= calls[i].now
    ensures ClockReached(calls, calls[i].now + policy.cooldown)
  {
    if i < j {
      assert calls[j].now >= calls[i].now + policy.cooldown;
    } else {
      assert calls[i].now >= calls[j].now + policy.cooldown;
    }
  }

  lemma ReleaseKeeps(s: State, calls: seq<Call>, policy: Policy)
    requires calls != [] && calls[|calls| - 1].Release? && Monotone(calls[..|calls| - 1])
    requires Inv(s, calls[..|calls| - 1], policy)
    ensures Inv(Released(s, calls[|calls| - 1].trigger), calls, policy)
  {
    var front, r := calls[..|calls| - 1], Released(s, calls[|calls| - 1].trigger);
    ReleaseKeepsSeen(s, calls, policy);
    assert forall e :: e in r.last ==> e in s.last;
    hide Released, Live, Stands, AcceptedAt, SeenIsLive, LastFrom, Covered;
    forall e | e in r.last ensures exists i :: LastFrom(r, calls, policy, e, i) {
      var i :| LastFrom(s, front, policy, e, i);
      LastThroughRelease(s, calls, policy, e, i);
    }
    forall i | Stands(calls, policy, i) ensures Covered(r, calls, policy, i) {
      CoveredThroughRelease(s, calls, policy, i);
    }
    forall i, j | 0 <= i < j < |calls| && Stands(calls, policy, i) && AcceptedAt(calls, policy, j)
      && calls[i].event == calls[j].event
      ensures calls[j].now >= calls[i].now + policy.cooldown
    {
      ReleaseIsNoAccept(calls, policy, j);
      StandsShrinks(calls, policy, i);
      DecisionsGrow(calls, policy, j);
    }
  }

  // ---- an evaluation ----

  /** Another remembered trigger survives an evaluation before its time is over. */
  lemma SeenThroughEvaluation(s: State, calls: seq<Call>, policy: Policy, t: Name, i: int)
    requires calls != [] && calls[|calls| - 1].Evaluate? && SeenFrom(s, calls[..|calls| - 1], policy, t, i)
    requires var Evaluate(event, trigger, now) := calls[|calls| - 1];
             now < calls[i].now + policy.ttl && (Evaluated(s, event, trigger, now, policy).1 == Accept ==> t != trigger)
    ensures var Evaluate(event, trigger, now) := calls[|calls| - 1];
            SeenFrom(Evaluated(s, event, trigger, now, policy).0, calls, policy, t, i)
  {
    LiveIsACall(calls[..|calls| - 1], policy, i);
    LiveGrows(calls, policy, i);
    hide Live;
  }

  /** The decision of the last call. */
  lemma LastDecision(calls: seq<Call>, policy: Policy)
    requires calls != [] && calls[|calls| - 1].Evaluate?
    ensures var Evaluate(event, trigger, now) := calls[|calls| - 1];
            var (t, d) := Evaluated(After(calls[..|calls| - 1], policy).0, event, trigger, now, policy);
            After(calls, policy).0 == t && (AcceptedAt(calls, policy, |calls| - 1) <==> d == Accept)
  {}

  lemma NewAcceptIsLive(calls: seq<Call>, policy: Policy)
    requires AcceptedAt(calls, policy, |calls| - 1)
    ensures Live(calls, policy, |calls| - 1) && Stands(calls, policy, |calls| - 1)
  {}

  lemma SeenAfterEvaluation(calls: seq<Call>, policy: Policy, t: Name)
    requires calls != [] && calls[|calls| - 1].Evaluate?
    requires SeenIsLive(After(calls[..|calls| - 1], policy).0, calls[..|calls| - 1], policy)
    requires t in After(calls, policy).0.seen
    ensures exists i :: SeenFrom(After(calls, policy).0, calls, policy, t, i)
  {
    var front, last := calls[..|calls| - 1], calls[|calls| - 1];
    var s, r := After(front, policy).0, After(calls, policy).0;
    LastDecision(calls, policy);
    if AcceptedAt(calls, policy, |calls| - 1) && t == last.trigger {
      NewAcceptIsLive(calls, policy);
      hide After, Live;
      assert SeenFrom(r, calls, policy, t, |calls| - 1);
    } else {
      hide After, Live, SeenFrom, AcceptedAt;
      assert t in s.seen && last.now < s.seen[t];
      var i :| SeenFrom(s, front, policy, t, i);
      SeenIsTimed(s, front, policy, t, i);
      SeenThroughEvaluation(s, calls, policy, t, i);
    }
  }

  lemma SeenIsTimed(s: State, calls: seq<Call>, policy: Policy, t: Name, i: int)
    requires SeenFrom(s, calls, policy, t, i)
    ensures 0 <= i < |calls| && calls[i].Evaluate? && t in s.seen && s.seen[t] == calls[i].now + policy.ttl
    ensures calls[i].trigger == t
  {
    LiveIsACall(calls, policy, i);
  }

  lemma LiveAfterEvaluation(calls: seq<Call>, policy: Policy, i: int)
    requires calls != [] && calls[|calls| - 1].Evaluate?
    requires SeenIsLive(After(calls[..|calls| - 1], policy).0, calls[..|calls| - 1], policy) && Live(calls, policy, i)
    ensures SeenFrom(After(calls, policy).0, calls, policy, calls[i].trigger, i)
  {
    var front := calls[..|calls| - 1];
    LastDecision(calls, policy);
    LiveIsACall(calls, policy, i);
    if i < |calls| - 1 {
      LiveGrows(calls, policy, i);
      assert SeenFrom(After(front, policy).0, front, policy, front[i].trigger, i);
      SeenThroughEvaluation(After(front, policy).0, calls, policy, front[i].trigger, i);
    } else {
      hide Live;
    }
  }

  lemma EvaluationKeepsSeen(calls: seq<Call>, policy: Policy)
    requires calls != [] && calls[|calls| - 1].Evaluate?
    requires SeenIsLive(After(calls[..|calls| - 1], policy).0, calls[..|calls| - 1], policy)
    ensures SeenIsLive(After(calls, policy).0, calls, policy)
  {
    LastDecision(calls, policy);
    hide Live, AcceptedAt, After, SeenFrom;
    forall t | t in After(calls, policy).0.seen
      ensures exists i :: SeenFrom(After(calls, policy).0, calls, policy, t, i)
    {
      SeenAfterEvaluation(calls, policy, t);
    }
    forall i | Live(calls, policy, i) ensures SeenFrom(After(calls, policy).0, calls, policy, calls[i].trigger, i) {
      LiveAfterEvaluation(calls, policy, i);
    }
  }

  lemma LastThroughEvaluation(calls: seq<Call>, policy: Policy, e: Name, i: int)
    requires calls != [] && calls[|calls| - 1].Evaluate?
    requires LastFrom(After(calls[..|calls| - 1], policy).0, calls[..|calls| - 1], policy, e, i)
    requires AcceptedAt(calls, policy, |calls| - 1) ==> e != calls[|calls| - 1].event
    ensures LastFrom(After(calls, policy).0, calls, policy, e, i)
  {
    LastDecision(calls, policy);
    StandsGrows(calls, policy, i);
    hide Stands, Live, AcceptedAt, After;
  }

  lemma CoveredThroughEvaluation(calls: seq<Call>, policy: Policy, i: int)
    requires calls != [] && calls[|calls| - 1].Evaluate? && Monotone(calls)
    requires LastStands(After(calls[..|calls| - 1], policy).0, calls[..|calls| - 1], policy) && Stands(calls, policy, i)
    ensures Covered(After(calls, policy).0, calls, policy, i)
    ensures i < |calls| - 1 && AcceptedAt(calls, policy, |calls| - 1) && calls[i].event == calls[|calls| - 1].event
            ==> calls[|calls| - 1].now >= calls[i].now + policy.cooldown
  {
    var front, last := calls[..|calls| - 1], calls[|calls| - 1];
    LastDecision(calls, policy);
    if i < |calls| - 1 {
      StandsShrinks(calls, policy, i);
      assert Covered(After(front, policy).0, front, policy, i);
      ClockOnlyAdvances(calls, calls[i].now + policy.cooldown);
      assert calls[i].now <= last.now;
      if ClockReached(front, calls[i].now + policy.cooldown) {
        var k :| 0 <= k < |front| && front[k].Evaluate? && front[k].now >= calls[i].now + policy.cooldown;
        assert calls[k].now <= last.now;
      }
      hide Stands, AcceptedAt, After, LastStands, Monotone, ClockReached;
    }
  }

  lemma LastAfterEvaluation(calls: seq<Call>, policy: Policy, e: Name)
    requires calls != [] && calls[|calls| - 1].Evaluate?
    requires LastStands(After(calls[..|calls| - 1], policy).0, calls[..|calls| - 1], policy)
    requires e in After(calls, policy).0.last
    ensures exists i :: LastFrom(After(calls, policy).0, calls, policy, e, i)
  {
    var n := |calls| - 1;
    LastDecision(calls, policy);
    if AcceptedAt(calls, policy, n) && e == calls[n].event {
      NewAcceptIsLive(calls, policy);
      hide Stands, After;
      assert LastFrom(After(calls, policy).0, calls, policy, e, n);
    } else {
      hide Stands, AcceptedAt, After, LastFrom;
      var i :| LastFrom(After(calls[..n], policy).0, calls[..n], policy, e, i);
      LastThroughEvaluation(calls, policy, e, i);
    }
  }

  lemma SpacedAfterEvaluation(calls: seq<Call>, policy: Policy, i: int, j: int)
    requires calls != [] && calls[|calls| - 1].Evaluate? && Monotone(calls)
    requires Inv(After(calls[..|calls| - 1], policy).0, calls[..|calls| - 1], policy)
    requires 0 <= i < j < |calls| && Stands(calls, policy, i) && AcceptedAt(calls, policy, j)
    requires calls[i].event == calls[j].event
    ensures calls[j].now >= calls[i].now + policy.cooldown
  {
    if j == |calls| - 1 {
      CoveredThroughEvaluation(calls, policy, i);
    } else {
      StandsShrinks(calls, policy, i);
      DecisionsGrow(calls, policy, j);
      hide Stands, After, SeenIsLive, LastStands, AcceptedAt;
    }
  }

  lemma EvaluationKeeps(calls: seq<Call>, policy: Policy)
    requires calls != [] && calls[|calls| - 1].Evaluate? && Monotone(calls)
    requires Inv(After(calls[..|calls| - 1], policy).0, calls[..|calls| - 1], policy)
    ensures Inv(After(calls, policy).0, calls, policy)
  {
    EvaluationKeepsSeen(calls, policy);
    hide Stands, AcceptedAt, After, SeenIsLive, Monotone, Covered, LastFrom;
    forall e | e in After(calls, policy).0.last
      ensures exists i :: LastFrom(After(calls, policy).0, calls, policy, e, i)
    {
      LastAfterEvaluation(calls, policy, e);
    }
    forall i | Stands(calls, policy, i) ensures Covered(After(calls, policy).0, calls, policy, i) {
      CoveredThroughEvaluation(calls, policy, i);
    }
    forall i, j | 0 <= i < j < |calls| && Stands(calls, policy, i) && AcceptedAt(calls, policy, j)
      ensures calls[i].event == calls[j].event ==> calls[j].now >= calls[i].now + policy.cooldown
    {
      StandsIsACall(calls, policy, i);
      if calls[i].event == calls[j].event { SpacedAfterEvaluation(calls, policy, i, j); }
    }
  }

  lemma StandsIsACall(calls: seq<Call>, policy: Policy, i: int)
    requires Stands(calls, policy, i)
    ensures 0 <= i < |calls| && calls[i].Evaluate?
  {}

  lemma {:induction false} InvHolds(calls: seq<Call>, policy: Policy)
    requires Monotone(calls)
    ensures Inv(After(calls, policy).0, calls, policy)
  {
    if calls != [] {
      InvHolds(calls[..|calls| - 1], policy);
      hide Inv, Released, Evaluated;
      if calls[|calls| - 1].Evaluate? {
        EvaluationKeeps(calls, policy);
      } else {
        ReleaseKeeps(After(calls[..|calls| - 1], policy).0, calls, policy);
      }
    }
  }

  // ---- what the decisions mean ----

  /** Call i accepted the trigger, nothing released it since, and its time is not over. */
  ghost predicate Remembers(calls: seq<Call>, policy: Policy, i: int, trigger: Name, now: int)
  {
    && AcceptedAt(calls, policy, i) && calls[i].trigger == trigger && now < calls[i].now + policy.ttl
    && forall j :: i < j < |calls| ==> calls[j] != Release(trigger)
  }

  /** Call i accepted the event, still stands, and is less than a cooldown ago. */
  ghost predicate Cools(calls: seq<Call>, policy: Policy, i: int, event: Name, now: int)
  {
    Stands(calls, policy, i) && calls[i].event == event && now < calls[i].now + policy.cooldown
  }

  /** An evaluation answers Duplicate exactly when the trigger is remembered, otherwise CoolingDown exactly when an
      Accept of the event that stands is too recent, otherwise Accept; and both maps know the same triggers. */
  lemma DecisionsAreTheHistory(calls: seq<Call>, event: Name, trigger: Name, now: int, policy: Policy)
    requires Monotone(calls + [Evaluate(event, trigger, now)])
    ensures var d := Evaluated(After(calls, policy).0, event, trigger, now, policy).1;
            && (d == Duplicate <==> exists i :: Remembers(calls, policy, i, trigger, now))
            && (d == CoolingDown <==> d != Duplicate && exists i :: Cools(calls, policy, i, event, now))
    ensures After(calls, policy).0.seen.Keys == After(calls, policy).0.accepted.Keys
  {
    var all := calls + [Evaluate(event, trigger, now)];
    assert forall k :: 0 <= k < |calls| && calls[k].Evaluate? ==> all[k].now <= all[|calls|].now;
    assert forall i, j :: 0 <= i < j < |calls| ==> all[i] == calls[i] && all[j] == calls[j];
    InvHolds(calls, policy);
    hide AcceptedAt, Stands, After, Remembers, Monotone, SeenIsLive, LastStands, Cools;
    assert all[..|all| - 1] == calls;
    DuplicateIffRemembered(all, policy, trigger, now);
    CoolingIsRecent(After(calls, policy).0, calls, policy, event, now);
    SameKeys(After(calls, policy).0, calls, policy);
  }

  lemma SameKeys(s: State, calls: seq<Call>, policy: Policy)
    requires SeenIsLive(s, calls, policy)
    ensures s.seen.Keys == s.accepted.Keys
  {}

  lemma DuplicateIffRemembered(all: seq<Call>, policy: Policy, trigger: Name, now: int)
    requires all != [] && all[|all| - 1].Evaluate? && all[|all| - 1].now == now && Monotone(all)
    requires SeenIsLive(After(all[..|all| - 1], policy).0, all[..|all| - 1], policy)
    ensures var calls := all[..|all| - 1];
            var s := After(calls, policy).0;
            (trigger in s.seen && now < s.seen[trigger]) <==> exists i :: Remembers(calls, policy, i, trigger, now)
  {
    var calls := all[..|all| - 1];
    forall i ensures Remembers(calls, policy, i, trigger, now)
                     <==> Live(calls, policy, i) && calls[i].trigger == trigger && now < calls[i].now + policy.ttl {
      RememberedIsLive(all, policy, i, trigger, now);
    }
    DuplicateIsRemembered(After(calls, policy).0, calls, policy, trigger, now);
    hide AcceptedAt, After, Remembers, Live, SeenIsLive, Monotone;
  }

  lemma RememberedIsLive(all: seq<Call>, policy: Policy, i: int, trigger: Name, now: int)
    requires all != [] && all[|all| - 1].Evaluate? && all[|all| - 1].now == now && Monotone(all)
    ensures var calls := all[..|all| - 1];
            Remembers(calls, policy, i, trigger, now)
            <==> Live(calls, policy, i) && calls[i].trigger == trigger && now < calls[i].now + policy.ttl
  {
    var calls := all[..|all| - 1];
    if 0 <= i < |calls| && AcceptedAt(calls, policy, i) && now < calls[i].now + policy.ttl {
      hide AcceptedAt;
      forall k | i < k < |calls| && calls[k].Evaluate? ensures calls[k].now < calls[i].now + policy.ttl {
        assert all[k].now <= all[|all| - 1].now;
      }
    }
  }

  lemma DuplicateIsRemembered(s: State, calls: seq<Call>, policy: Policy, trigger: Name, now: int)
    requires SeenIsLive(s, calls, policy)
    ensures (trigger in s.seen && now < s.seen[trigger])
            <==> exists i :: Live(calls, policy, i) && calls[i].trigger == trigger && now < calls[i].now + policy.ttl
  {
    hide StillSeen, After;
    if trigger in s.seen && now < s.seen[trigger] {
      var i :| SeenFrom(s, calls, policy, trigger, i);
      SeenIsTimed(s, calls, policy, trigger, i);
      assert Live(calls, policy, i);
    }
    if i :| Live(calls, policy, i) && calls[i].trigger == trigger && now < calls[i].now + policy.ttl {
      assert SeenFrom(s, calls, policy, calls[i].trigger, i);
    }
  }

  lemma CoolingIsRecent(s: State, calls: seq<Call>, policy: Policy, event: Name, now: int)
    requires LastStands(s, calls, policy)
    requires forall k :: 0 <= k < |calls| && calls[k].Evaluate? ==> calls[k].now <= now
    ensures (event in s.last && now - s.last[event] < policy.cooldown)
            <==> exists i :: Cools(calls, policy, i, event, now)
  {
    if event in s.last && now - s.last[event] < policy.cooldown {
      var i :| LastFrom(s, calls, policy, event, i);
      assert Cools(calls, policy, i, event, now);
    }
    if i :| Cools(calls, policy, i, event, now) {
      assert Covered(s, calls, policy, i) && !ClockReached(calls, calls[i].now + policy.cooldown);
    }
  }

  // ---- spacing ----

  lemma {:induction false} DecisionsKeep(calls: seq<Call>, policy: Policy, i: int, n: nat)
    requires 0 <= i < n <= |calls|
    ensures AcceptedAt(calls, policy, i) <==> AcceptedAt(calls[..n], policy, i)
  {
    if n == |calls| {
      assert calls[..n] == calls;
    } else {
      DecisionsGrow(calls, policy, i);
      DecisionsKeep(calls[..|calls| - 1], policy, i, n);
      assert calls[..|calls| - 1][..n] == calls[..n];
    }
  }

  lemma AcceptDecides(calls: seq<Call>, policy: Policy, j: int)
    requires Monotone(calls) && AcceptedAt(calls, policy, j)
    ensures forall i :: !Remembers(calls[..j], policy, i, calls[j].trigger, calls[j].now)
    ensures forall i :: !Cools(calls[..j], policy, i, calls[j].event, calls[j].now)
  {
    var upTo := calls[..j + 1];
    DecisionsKeep(calls, policy, j, j + 1);
    assert upTo[..j] == calls[..j] && upTo == calls[..j] + [calls[j]];
    LastDecision(upTo, policy);
    hide AcceptedAt, After, Evaluated, Remembers, Cools;
    DecisionsAreTheHistory(calls[..j], calls[j].event, calls[j].trigger, calls[j].now, policy);
  }

  /** Two Accepts of one event are a cooldown apart unless a release has undone the earlier one in between. */
  lemma EventsAreACooldownApart(calls: seq<Call>, policy: Policy, i: int, j: int)
    requires Monotone(calls) && i < j && AcceptedAt(calls, policy, i) && AcceptedAt(calls, policy, j)
    requires calls[i].event == calls[j].event && forall k :: i < k < j ==> !UndoneAt(calls[..j], policy, i, k)
    ensures calls[j].now - calls[i].now >= policy.cooldown
  {
    DecisionsKeep(calls, policy, i, j);
    AcceptDecides(calls, policy, j);
    assert !Cools(calls[..j], policy, i, calls[j].event, calls[j].now);
  }

  /** Two Accepts of one trigger with no release between are the dedupe time apart. */
  lemma TriggersAreATtlApart(calls: seq<Call>, policy: Policy, i: int, j: int)
    requires Monotone(calls) && i < j && AcceptedAt(calls, policy, i) && AcceptedAt(calls, policy, j)
    requires calls[i].trigger == calls[j].trigger && forall k :: i < k < j ==> calls[k] != Release(calls[i].trigger)
    ensures calls[j].now - calls[i].now >= policy.ttl
  {
    DecisionsKeep(calls, policy, i, j);
    AcceptDecides(calls, policy, j);
    assert !Remembers(calls[..j], policy, i, calls[j].trigger, calls[j].now);
  }

  // ---- the policy object ----

  class EventRouterPolicy {
    var seenTriggers: map<Name, int>
    var lastAccepted: map<Name, int>
    var acceptedByTrigger: map<Name, (Name, int)>
    const policy: Policy

    ghost function Contents(): State
      reads this
    {
      State(seenTriggers, lastAccepted, acceptedByTrigger)
    }

    constructor (policy: Policy)
      ensures Contents() == Fresh && this.policy == policy
    {
      seenTriggers, lastAccepted, acceptedByTrigger := map[], map[], map[];
      this.policy := policy;
    }

    method EvaluateTrigger(event: Name, trigger: Name, now: int) returns (d: Decision)
      modifies this
      ensures (Contents(), d) == Evaluated(old(Contents()), event, trigger, now, policy)
    {
      ghost var s := Contents();
      Prune(now);
      if trigger in seenTriggers {
        return Duplicate;
      }
      ghost var seen := seenTriggers;
      seenTriggers := seenTriggers[trigger := now + policy.ttl];
      if event in lastAccepted && now - lastAccepted[event] < policy.cooldown {
        seenTriggers := seenTriggers - {trigger};
        assert seenTriggers == seen;
        return CoolingDown;
      }
      lastAccepted := lastAccepted[event := now];
      acceptedByTrigger := acceptedByTrigger[trigger := (event, now)];
      return Accept;
    }

    method ReleaseTrigger(trigger: Name)
      modifies this
      ensures Contents() == Released(old(Contents()), trigger)
    {
      seenTriggers := seenTriggers - {trigger};
      if trigger !in acceptedByTrigger {
        return;
      }
      var (event, time) := acceptedByTrigger[trigger];
      if event in lastAccepted && lastAccepted[event] == time {
        lastAccepted := lastAccepted - {event};
      }
      acceptedByTrigger := acceptedByTrigger - {trigger};
    }

    /** The remembered triggers in whatever order the table yields them. */
    method Prune(now: int)
      modifies this`seenTriggers, this`acceptedByTrigger
      ensures Contents() == Pruned(old(Contents()), now)
    {
      var todo := seenTriggers.Keys;
      ghost var gone: set<Name> := {};
      ghost var seen, accepted := seenTriggers, acceptedByTrigger;
      while todo != {}
        invariant todo <= seen.Keys && gone == Expired(seen, now) - todo
        invariant seenTriggers == seen - gone && acceptedByTrigger == accepted - gone
        decreases todo
      {
        var trigger :| trigger in todo;
        todo := todo - {trigger};
        if seenTriggers[trigger] <= now {
          acceptedByTrigger := acceptedByTrigger - {trigger};
          seenTriggers := seenTriggers - {trigger};
          gone := gone + {trigger};
        }
      }
    }
  }
}
