/** Tools for runs of the upload protocol, and a run in which everything but END has been sent and answered. */
module UploadRuns {
  import opened Prelude
  import opened ReceiverNames
  import opened ChecksumManifest
  import opened Receiver
  import opened UploadSender
  import opened ReceiverSafety
  import opened PublishSwap
  import opened UploadProtocol
  import opened UploadCompletion

  /** The one sender of an event has a directory that an empty receiver takes. */
  ghost predicate Takeable(c: Config, key: Key)
  {
    && key in c.sources && key in c.orders && (forall k :: k in c.sources && k.event == key.event ==> k == key)
    && Acceptable(key, c.orders[key], c.sources[key], c.lib)
    && BeginRefusal(Store(map[], map[]),
                    BeginRequest(key, |c.orders[key]|, SizeOf(c.orders[key], c.sources[key]))).None?
  }

  // ---- extending a run ----

  function Last(worlds: seq<World>): World
    requires worlds != []
  {
    worlds[|worlds| - 1]
  }

  lemma Extend(c: Config, worlds: seq<World>, w': World, step: Step) returns (longer: seq<World>)
    requires ValidConfig(c) && Behaviour(c, worlds) && NextStep(c, Last(worlds), w', step)
    ensures Behaviour(c, longer) && Last(longer) == w' && longer[0] == worlds[0]
  {
    hide NextStep, Initial;
    longer := worlds + [w'];
    assert Next(c, Last(worlds), w');
    forall i | 0 < i < |longer| ensures Next(c, longer[i - 1], longer[i]) {
      assert longer[i - 1] == if i < |worlds| then worlds[i - 1] else Last(worlds);
    }
  }

  /** The only attempt there is. */
  ghost predicate Sole(w: World, at: Attempt) { w.up && w.attempts == [at] }

  /** The world after request r was delivered and answered. */
  ghost function After(c: Config, w: World, i: nat, r: Request, faults: Faults): World
    requires Handled(w.store, r, 0, faults, c.lib).Some?
  {
    var h, pruned := Handled(w.store, r, 0, faults, c.lib).value, Pruned(w.store, 0, faults.remains);
    w.(store := h.0, replies := w.replies + {Reply(0, i, h.1)}, spoiled := SpoiledAfter(w.spoiled, pruned, r, faults),
       beginFailed := w.beginFailed || Spoils(pruned, r, faults))
  }

  lemma DeliveredWith(c: Config, worlds: seq<World>, at: Attempt, i: nat, faults: Faults) returns (longer: seq<World>)
    requires ValidConfig(c) && Behaviour(c, worlds) && Sole(Last(worlds), at)
    requires i <= at.next && i < |ScriptOf(c, at)|
    requires Handled(Last(worlds).store, ScriptOf(c, at)[i], 0, faults, c.lib).Some?
    ensures Behaviour(c, longer) && longer[0] == worlds[0]
    ensures Last(longer) == After(c, Last(worlds), i, ScriptOf(c, at)[i], faults)
  {
    var w, r := Last(worlds), ScriptOf(c, at)[i];
    var w' := After(c, w, i, r, faults);
    hide Handled, ScriptOf, ValidConfig, Pruned, SpoiledAfter, Behaviour, Spoils;
    assert Deliver(c, w, w', 0, i, 0, faults);
    longer := Extend(c, worlds, w', DeliverStep(0, i, 0, faults));
  }

  lemma NothingSpoils(p: Store, r: Request)
    ensures !Spoils(p, r, NoFaults) && SpoiledAfter({}, p, r, NoFaults) == {}
  {
    assert !MkdirRaises(p, r.key, NoFaults);
  }

  /** Only the receiver's store and the answers under way have changed. */
  ghost predicate Onward(w: World, w': World, store: Store) { w' == w.(store := store, replies := w'.replies) }

  /** A request of the script is delivered. */
  lemma Delivered(c: Config, worlds: seq<World>, at: Attempt, i: nat) returns (longer: seq<World>)
    requires ValidConfig(c) && Behaviour(c, worlds) && Sole(Last(worlds), at) && Last(worlds).spoiled == {}
    requires i <= at.next && i < |ScriptOf(c, at)|
    requires Handled(Last(worlds).store, ScriptOf(c, at)[i], 0, NoFaults, c.lib).Some?
    ensures Behaviour(c, longer) && longer[0] == worlds[0]
    ensures var h := Handled(Last(worlds).store, ScriptOf(c, at)[i], 0, NoFaults, c.lib).value;
            Onward(Last(worlds), Last(longer), h.0) && Reply(0, i, h.1) in Last(longer).replies
  {
    NothingSpoils(Pruned(Last(worlds).store, 0, NoFaults.remains), ScriptOf(c, at)[i]);
    longer := DeliveredWith(c, worlds, at, i, NoFaults);
    hide Handled, ScriptOf, ValidConfig, Pruned, SpoiledAfter, Next, Spoils;
  }

  /** A success moves the sender on. */
  lemma MovedOn(c: Config, worlds: seq<World>, at: Attempt, response: Response) returns (longer: seq<World>)
    requires ValidConfig(c) && Behaviour(c, worlds) && Sole(Last(worlds), at)
    requires at.status == Waiting && at.next + 1 < |ScriptOf(c, at)| && response.success
    requires Reply(0, at.next, response) in Last(worlds).replies
    ensures Behaviour(c, longer) && longer[0] == worlds[0]
    ensures Last(longer) == Last(worlds).(attempts := [at.(next := at.next + 1)])
  {
    var w := Last(worlds);
    hide ScriptOf, ValidConfig, Behaviour;
    var w' := w.(attempts := w.attempts[0 := at.(next := at.next + 1)]);
    assert Resume(c, w, w', 0, response);
    longer := Extend(c, worlds, w', ResumeStep(0, response));
  }

  function Still(): nat -> int { (i: nat) => 0 }

  /** A request is sent and answered with success. */
  lemma OneSent(c: Config, worlds: seq<World>, at: Attempt) returns (longer: seq<World>)
    requires ValidConfig(c) && Behaviour(c, worlds) && Sole(Last(worlds), at) && Last(worlds).spoiled == {}
    requires at.status == Waiting && at.next + 1 < |ScriptOf(c, at)|
    requires var h := Handled(Last(worlds).store, ScriptOf(c, at)[at.next], 0, NoFaults, c.lib);
             h.Some? && h.value.1.success
    ensures Behaviour(c, longer) && longer[0] == worlds[0]
    ensures Onward(Last(worlds).(attempts := [at.(next := at.next + 1)]), Last(longer),
                   Handled(Last(worlds).store, ScriptOf(c, at)[at.next], 0, NoFaults, c.lib).value.0)
  {
    hide ScriptOf, ValidConfig, Next, Handled;
    longer := Delivered(c, worlds, at, at.next);
    longer := MovedOn(c, longer, at,
                      Handled(Last(worlds).store, ScriptOf(c, at)[at.next], 0, NoFaults, c.lib).value.1);
  }

  /** Everything before END is sent and answered. */
  lemma {:induction false} AllSent(c: Config, worlds: seq<World>, at: Attempt, n: nat, s': Store)
    returns (longer: seq<World>)
    requires ValidConfig(c) && Behaviour(c, worlds) && Sole(Last(worlds), at) && Last(worlds).spoiled == {}
    requires at.status == Waiting && at.next <= n < |ScriptOf(c, at)|
    requires RunFrom(Last(worlds).store, ScriptOf(c, at)[at.next..n], at.next, Still(), c.lib) == Some(s')
    ensures Behaviour(c, longer) && longer[0] == worlds[0]
    ensures Onward(Last(worlds).(attempts := [at.(next := n)]), Last(longer), s')
    decreases n - at.next
  {
    longer := worlds;
    if at.next < n {
      var script, later := ScriptOf(c, at), at.(next := at.next + 1);
      assert script[at.next..n][0] == script[at.next] && script[at.next..n][1..] == script[at.next + 1..n];
      ScriptOfNext(c, at);
      assert Still()(at.next) == 0;
      hide ScriptOf, ValidConfig, Next, Handled;
      longer := OneSent(c, worlds, at);
      hide Behaviour;
      longer := AllSent(c, longer, later, n, s');
    }
  }

  /** Once everything was sent, the network may deliver any of it again, in any order. */
  lemma {:induction false} Redelivered(c: Config, worlds: seq<World>, at: Attempt, requests: seq<Request>, i: nat,
                                       s': Store)
    returns (longer: seq<World>)
    requires ValidConfig(c) && Behaviour(c, worlds) && Sole(Last(worlds), at) && Last(worlds).spoiled == {}
    requires at.next + 1 == |ScriptOf(c, at)| && forall r :: r in requests ==> r in ScriptOf(c, at)
    requires RunFrom(Last(worlds).store, requests, i, Still(), c.lib) == Some(s')
    ensures Behaviour(c, longer) && longer[0] == worlds[0] && Onward(Last(worlds), Last(longer), s')
    decreases |requests|
  {
    longer := worlds;
    if requests != [] {
      assert requests[0] in ScriptOf(c, at);
      var j :| 0 <= j < |ScriptOf(c, at)| && ScriptOf(c, at)[j] == requests[0];
      hide ScriptOf, ValidConfig, Next, Handled;
      longer := Delivered(c, worlds, at, j);
      longer := Redelivered(c, longer, at, requests[1..], i + 1, s');
    }
  }

  // ---- the requests ----

  lemma {:induction false} RequestsOfFiles(key: Key, order: seq<string>, files: Tree, chunk: nat, p: string, r: Request)
    requires chunk > 0 && (forall q :: q in order ==> q in files) && p in order
    requires r in FileRequests(key, p, files[p], chunk)
    ensures r in AllFileRequests(key, order, files, chunk)
  {
    var n := |order| - 1;
    if order[n] != p { RequestsOfFiles(key, order[..n], files, chunk, p, r); }
  }

  lemma {:induction false} FilesOfRequests(key: Key, order: seq<string>, files: Tree, chunk: nat, r: Request)
    returns (p: string)
    requires chunk > 0 && (forall q :: q in order ==> q in files) && r in AllFileRequests(key, order, files, chunk)
    ensures p in order && r in FileRequests(key, p, files[p], chunk)
  {
    var n := |order| - 1;
    if r in FileRequests(key, order[n], files[order[n]], chunk) {
      p := order[n];
    } else {
      p := FilesOfRequests(key, order[..n], files, chunk, r);
    }
  }

  /** Sending some of the files in another order sends the same requests. */
  lemma SameRequests(key: Key, order: seq<string>, some: seq<string>, files: Tree, chunk: nat)
    requires chunk > 0 && (forall q :: q in order ==> q in files) && forall q :: q in some ==> q in order
    ensures forall r :: r in AllFileRequests(key, some, files, chunk) ==> r in AllFileRequests(key, order, files, chunk)
  {
    forall r | r in AllFileRequests(key, some, files, chunk) ensures r in AllFileRequests(key, order, files, chunk) {
      var p := FilesOfRequests(key, some, files, chunk, r);
      RequestsOfFiles(key, order, files, chunk, p, r);
    }
  }

  // ---- a first attempt ----

  const NowhereYet := World(Store(map[], map[]), false, [], {}, {}, {}, map[], {}, {}, {}, {}, false, false)

  /** A receiver with an empty inbox and one sender. */
  function FirstTry(at: Attempt): World { NowhereYet.(up := true, attempts := [at]) }

  lemma FirstStart(c: Config, key: Key, chunk: nat) returns (worlds: seq<World>)
    requires ValidConfig(c) && key in c.sources && chunk > 0
    ensures Behaviour(c, worlds) && worlds[0] == NowhereYet && Last(worlds) == FirstTry(Attempt(key, chunk, 0, Waiting))
  {
    hide ValidConfig;
    worlds := [NowhereYet];
    var w1 := NowhereYet.(up := true);
    assert Restart(NowhereYet, w1);
    worlds := Extend(c, worlds, w1, RestartStep);
    var w2 := w1.(attempts := [Attempt(key, chunk, 0, Waiting)]);
    assert Start(c, w1, w2, key, chunk) by { assert w1.attempts + [Attempt(key, chunk, 0, Waiting)] == w2.attempts; }
    worlds := Extend(c, worlds, w2, StartStep(key, chunk));
  }

  /** The attempt is about to send END, or has sent it. */
  ghost predicate AtEnd(c: Config, key: Key, chunk: nat, at: Attempt)
    requires ValidConfig(c)
  {
    && at.key == key && at.chunk == chunk && at.next + 1 == |ScriptOf(c, at)|
    && ScriptOf(c, at)[at.next] == EndRequest(key)
  }

  /** Everything but END was sent and answered. */
  lemma SentOnce(c: Config, key: Key, chunk: nat) returns (worlds: seq<World>, at: Attempt, s: Store)
    requires ValidConfig(c) && Takeable(c, key) && chunk > 0
    ensures Behaviour(c, worlds) && worlds[0] == NowhereYet && AtEnd(c, key, chunk, at) && at.status == Waiting
    ensures Onward(FirstTry(at), Last(worlds), s) && Holding(s, key, c.sources[key], c.sources[key].Keys, 0, c.lib)
  {
    var order, files := c.orders[key], c.sources[key];
    worlds := FirstStart(c, key, chunk);
    var first := Attempt(key, chunk, 0, Waiting);
    var script := Script(key, order, files, chunk);
    assert ScriptOf(c, first) == script;
    assert Steady(Still());
    var n := |script| - 1;
    EmptyAdmits(BeginRequest(key, |order|, SizeOf(order, files)), map[]);
    s := LosslessScriptHolds(Store(map[], map[]), key, order, files, chunk, Still(), c.lib);
    hide Script, Acceptable, BeginRefusal, RunFrom, ValidConfig, Next, SizeOf, Holding;
    assert script[first.next..n] == script[..n];
    worlds := AllSent(c, worlds, first, n, s);
    at := first.(next := n);
    assert ScriptOf(c, at) == ScriptOf(c, first);
  }

  /** The receiver dies and is started again. */
  lemma StartedAgain(c: Config, worlds: seq<World>) returns (longer: seq<World>)
    requires ValidConfig(c) && Behaviour(c, worlds) && Last(worlds).up && Last(worlds).stranded == {}
    ensures Behaviour(c, longer) && longer[0] == worlds[0]
    ensures Last(longer) == Last(worlds).(store := Store(Last(worlds).store.inbox, map[]))
  {
    Reachable(c, worlds, |worlds| - 1);
    var w := Last(worlds);
    hide ValidConfig, Behaviour, BackupGuarded, TransfersOk, HistoryOk, AttemptsOk, CopyOk, ValidEventName;
    var down := w.(up := false, store := Store(w.store.inbox, map[]));
    longer := Extend(c, worlds, down, CrashStep);
    assert Recovered(w.store.inbox);
    assert Restart(down, down.(up := true));
    longer := Extend(c, longer, down.(up := true), RestartStep);
  }

  /** A receiver without transactions admits what an empty one admits. */
  lemma EmptyAdmits(r: Request, inbox: Inbox)
    requires BeginRefusal(Store(map[], map[]), r).None?
    ensures Admitted(Store(inbox, map[]), r, 0)
  {
  }

  // ---- publication ----

  /** A swap into an inbox that holds nothing of the event. */
  lemma SwapsIn(inbox: Inbox, key: Key) returns (run: seq<Swap>)
    requires ValidKey(key) && StagingOf(key) in inbox && Copy(inbox, key.event) == None
    ensures run != [] && SwapRun(key.event, StagingOf(key), true, run) && run[0].inbox == inbox
    ensures run[|run| - 1] == Swap(Published, Replaced(inbox, StagingOf(key), FinalName(key.event)))
    ensures BackupGuarded(run[|run| - 1].inbox, key.event)
  {
    InboxNamesDisjoint(key.event, key.event, key.id);
    var event, staging := key.event, StagingOf(key);
    hide FinalName, BackupName, StagingName;
    var after := Replaced(inbox, staging, FinalName(event));
    assert inbox - {BackupName(event)} == inbox && after - {BackupName(event)} == after;
    run := [Swap(ClearingBackup, inbox), Swap(MovingAside, inbox), Swap(MovingIn, inbox), Swap(DroppingBackup, after),
            Swap(Published, after)];
    assert SwapStep(event, staging, true, run[0], run[1]) && SwapStep(event, staging, true, run[1], run[2]);
    assert SwapStep(event, staging, true, run[2], run[3]) && SwapStep(event, staging, true, run[3], run[4]);
  }

  /** The world after a first publication of key that the sender heard of. */
  ghost function Confirmation(w: World, at: Attempt, store: Store): World
  {
    var key := at.key;
    w.(store := store, attempts := [at.(status := Confirmed)], uploaded := w.uploaded + {key},
       placed := w.placed + {key}, latest := w.latest[key.event := key],
       doubtful := if key in w.spoiled then w.doubtful + {key.event} else w.doubtful - {key.event},
       lost := w.lost - {key.event}, stranded := w.stranded - {key.event})
  }

  /** END is handled, the swap runs to its end, the answer arrives and the sender writes .uploaded. */
  lemma PublishedAndConfirmed(c: Config, worlds: seq<World>, at: Attempt, t: Store) returns (longer: seq<World>)
    requires ValidConfig(c) && Behaviour(c, worlds) && Sole(Last(worlds), at)
    requires at.status == Waiting && at.next + 1 == |ScriptOf(c, at)| && ValidKey(at.key) && at.key in c.sources
    requires Handled(Last(worlds).store, ScriptOf(c, at)[at.next], 0, NoFaults, c.lib) == None
    requires t == SwapStart(Last(worlds), at.key, 0, NoFaults) && at.key in t.transfers && StagingOf(at.key) in t.inbox
    requires Copy(t.inbox, at.key.event) == None && ReceivedBytes(t.transfers[at.key]) == TreeBytes(c.sources[at.key])
    ensures Behaviour(c, longer) && longer[0] == worlds[0]
    ensures Onward(Confirmation(Last(worlds), at, t), Last(longer), Last(longer).store)
    ensures Last(longer).store.inbox == Replaced(t.inbox, StagingOf(at.key), FinalName(at.key.event))
  {
    hide Next, Handled, SwapRun, SwapStart, ScriptOf, ReceivedBytes, TreeBytes, ValidEventName, StagingName,
         ValidConfig, Copy, BackupGuarded;
    var w, key := Last(worlds), at.key;
    var run := SwapsIn(t.inbox, key);
    var end := run[|run| - 1];
    var answer := Response(true, Complete, ReceivedBytes(t.transfers[key]));
    var w2 := Confirmation(w, at,
                           Store(end.inbox, t.transfers - {key})).(replies := w.replies + {Reply(0, at.next, answer)});
    var w1 := w2.(attempts := w.attempts, uploaded := w.uploaded);
    assert Publish(c, w, w1, 0, at.next, 0, NoFaults, run);
    longer := Extend(c, worlds, w1, PublishStep(0, at.next, 0, NoFaults, run));
    assert w1.attempts[0 := at.(status := Confirmed)] == [at.(status := Confirmed)];
    assert Resume(c, w1, w2, 0, answer);
    longer := Extend(c, longer, w2, ResumeStep(0, answer));
  }

  /** Nothing of the event has been published, and the event has no other transaction. */
  lemma NothingYet(c: Config, worlds: seq<World>, key: Key)
    requires ValidConfig(c) && Behaviour(c, worlds) && worlds[0] == NowhereYet && Last(worlds).up
    requires (forall k :: k in c.sources && k.event == key.event ==> k == key) && ValidEventName(key.event)
    ensures OnlyOf(Last(worlds).store, key)
    ensures key.event !in Last(worlds).latest && key.event !in Last(worlds).doubtful + Last(worlds).lost ==>
              Copy(Last(worlds).store.inbox, key.event) == None
  {
    Reachable(c, worlds, |worlds| - 1);
    var w := Last(worlds);
    hide Next, ValidConfig, GuardedExcept, HistoryOk, AttemptsOk, TransferTracks, ValidEventName;
    forall k | k in w.store.transfers && k.event == key.event ensures k == key {
      assert TransferOk(c, w.spoiled, w.store, k);
    }
    assert CopyOk(c, map[], w, key.event);
  }

  ghost predicate OnlyOf(s: Store, key: Key) { forall k :: k in s.transfers && k.event == key.event ==> k == key }

  /** Pruning changes no copy. */
  lemma NoCopyAtSwap(c: Config, worlds: seq<World>, key: Key)
    requires ValidConfig(c) && Behaviour(c, worlds) && Last(worlds).up && ValidEventName(key.event)
    ensures Copy(SwapStart(Last(worlds), key, 0, NoFaults).inbox, key.event)
            == Copy(Last(worlds).store.inbox, key.event)
  {
    var w := Last(worlds);
    Reachable(c, worlds, |worlds| - 1);
    PruneOk(c, w.spoiled, w.store, 0, NoFaults.remains);
    hide Next, ValidConfig, TransfersOk, HistoryOk, AttemptsOk, CopyOk, GuardedExcept, Pruned, ValidEventName, Copy,
         BackupGuarded;
  }
}
