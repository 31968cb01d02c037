/**
 Senders, receiver and a network that loses, delays, reorders and repeats requests and responses: many
 attempts of many event directories, over receiver crashes between any two operations of the swap.
 */
module UploadProtocol {
  import opened Prelude
  import opened ReceiverNames
  import opened ChecksumManifest
  import opened Receiver
  import opened UploadSender
  import opened ReceiverSafety
  import opened PublishSwap

  // ---- the world ----

  /** What never changes: the complete directories, by event name and persisted transfer id. */
  datatype Config = Config(sources: map<Key, Tree>, orders: map<Key, seq<string>>, lib: Library)

  datatype Status = Waiting | GaveUp | Confirmed

  /** One run of transferDirectory; requests 0..next of its script have been sent. */
  datatype Attempt = Attempt(key: Key, chunk: nat, next: nat, status: Status)

  /** An answer belongs to one request of one attempt. */
  datatype Reply = Reply(attempt: nat, index: nat, response: Response)

  /** placed and latest record which transactions a swap has put in place, and the last one per event; spoiled are the
      ones that lost part of their files to a BEGIN that failed, doubtful the events whose last copy came from one;
      stranded are the events of which a swap has left the backup standing alone, lost the ones on which a swap began
      in that state and did not get the new copy into place. beginFailed and backupLeft: anything was ever spoiled, or
      stranded. */
  datatype World = World(store: Store, up: bool, attempts: seq<Attempt>, replies: set<Reply>, uploaded: set<Key>,
                         placed: set<Key>, latest: map<string, Key>, spoiled: set<Key>, doubtful: set<string>,
                         stranded: set<string>, lost: set<string>, beginFailed: bool, backupLeft: bool)

  ghost predicate ValidConfig(c: Config)
  {
    forall k :: k in c.sources ==>
      k in c.orders && Lists(c.orders[k], c.sources[k].Keys) && NormalSource(c.sources[k]) && PlainId(k.id)
  }

  ghost predicate ValidAttempt(c: Config, a: Attempt)
    requires ValidConfig(c)
  {
    a.key in c.sources && a.chunk > 0 && a.next < |ScriptOf(c, a)|
  }

  ghost function ScriptOf(c: Config, a: Attempt): seq<Request>
    requires ValidConfig(c)
  {
    if a.key in c.sources && a.chunk > 0 then
      (assert forall p :: p in c.orders[a.key] ==> p in c.sources[a.key];
       Script(a.key, c.orders[a.key], c.sources[a.key], a.chunk))
    else []
  }

  // ---- steps ----

  ghost predicate Start(c: Config, w: World, w': World, key: Key, chunk: nat)
  {
    key in c.sources && chunk > 0 && w' == w.(attempts := w.attempts + [Attempt(key, chunk, 0, Waiting)])
  }

  /** The sender reads the answer to its outstanding request. */
  ghost predicate Resume(c: Config, w: World, w': World, a: nat, response: Response)
    requires ValidConfig(c)
  {
    && a < |w.attempts| && w.attempts[a].status == Waiting
    && Reply(a, w.attempts[a].next, response) in w.replies
    && var at := w.attempts[a];
       if !response.success then w' == w.(attempts := w.attempts[a := at.(status := GaveUp)])
       else if at.next + 1 < |ScriptOf(c, at)| then w' == w.(attempts := w.attempts[a := at.(next := at.next + 1)])
       else if at.key in c.sources && response.receivedBytes == TreeBytes(c.sources[at.key]) then
         w' == w.(attempts := w.attempts[a := at.(status := Confirmed)], uploaded := w.uploaded + {at.key})
       else w' == w.(attempts := w.attempts[a := at.(status := GaveUp)])
  }

  /** A time-out, a stop or a sender crash. */
  ghost predicate GiveUp(w: World, w': World, a: nat)
  {
    a < |w.attempts| && w' == w.(attempts := w.attempts[a := w.attempts[a].(status := GaveUp)])
  }

  /** Whether a BEGIN fails on a live transaction after taking away what was received of an unfinished file. */
  ghost predicate Spoils(p: Store, r: Request, faults: Faults)
  {
    && r.opcode == Begin && ValidKey(r.key) && BeginRefusal(p, r).None? && MkdirRaises(p, r.key, faults)
    && r.key in p.transfers
    && PartLost(p.transfers[r.key], StagedOf(p, r.key), StagedOf(Begun(p, r, 0, faults).0, r.key))
  }

  /** A BEGIN that succeeds starts over. */
  ghost function SpoiledAfter(spoiled: set<Key>, p: Store, r: Request, faults: Faults): set<Key>
  {
    if Spoils(p, r, faults) then spoiled + {r.key}
    else if r.opcode == Begin && ValidKey(r.key) && BeginRefusal(p, r).None? && !MkdirRaises(p, r.key, faults) then
      spoiled - {r.key}
    else spoiled
  }

  /** The receiver handles request i of attempt a, which was sent at some time, without reaching the swap. */
  ghost predicate Deliver(c: Config, w: World, w': World, a: nat, i: nat, now: int, faults: Faults)
    requires ValidConfig(c)
  {
    && w.up && a < |w.attempts| && i <= w.attempts[a].next && i < |ScriptOf(c, w.attempts[a])|
    && var r := ScriptOf(c, w.attempts[a])[i];
       var handled := Handled(w.store, r, now, faults, c.lib);
       var pruned := Pruned(w.store, now, faults.remains);
       handled.Some? && w' == w.(store := handled.value.0, replies := w.replies + {Reply(a, i, handled.value.1)},
                                 spoiled := SpoiledAfter(w.spoiled, pruned, r, faults),
                                 beginFailed := w.beginFailed || Spoils(pruned, r, faults))
  }

  /** The receiver handles a chunk that a failing read cut short; its sender gives up whatever the answer. */
  ghost predicate DeliverShort(c: Config, w: World, w': World, r: Request, now: int, faults: Faults)
  {
    && w.up && r.opcode == FileChunk && r.key in c.sources && Genuine(r, r.key, c.sources[r.key])
    && var handled := Handled(w.store, r, now, faults, c.lib);
       handled.Some? && w' == w.(store := handled.value.0)
  }

  /** The store a swap starts from. */
  ghost function SwapStart(w: World, key: Key, now: int, faults: Faults): Store
  {
    var p := Pruned(w.store, now, faults.remains);
    if key in p.transfers then Touched(p, key, now) else p
  }

  /** What a swap that stopped at `end` leaves: a swap that did not come to its end is a crash, which loses the
      transfers; one whose last sync raised has published, but keeps its transaction. */
  ghost predicate SwapEffect(w: World, w': World, key: Key, t: Store, end: Swap)
  {
    var moved, event := Moved(end.pc), key.event;
    && w'.store.inbox == end.inbox && w'.uploaded == w.uploaded && w'.spoiled == w.spoiled
    && w'.doubtful
      == (if !moved then w.doubtful else if key in w.spoiled then w.doubtful + {event} else w.doubtful - {event})
    && w'.lost == (if moved then w.lost - {event} else if event in w.stranded then w.lost + {event} else w.lost)
    && w'.stranded == (if !Over(end.pc) then w.stranded
                       else if BackupGuarded(end.inbox, event) then w.stranded - {event} else w.stranded + {event})
    && w'.beginFailed == w.beginFailed
    && w'.backupLeft == (w.backupLeft || (Over(end.pc) && !BackupGuarded(end.inbox, event)))
    && w'.placed == (if moved then w.placed + {key} else w.placed)
    && w'.latest == (if moved then w.latest[event := key] else w.latest)
    && w'.up == Over(end.pc)
    && w'.store.transfers
       == if end.pc == Published then t.transfers - {key} else if Over(end.pc) then t.transfers else map[]
  }

  ghost function SwapAnswer(t: Store, key: Key, end: Swap): Option<Response>
  {
    if end.pc == Published && key in t.transfers then Some(Response(true, Complete, ReceivedBytes(t.transfers[key])))
    else if Over(end.pc) then Some(Failure(Raised))
    else None
  }

  /** The receiver handles an END that reaches the swap, which stops after run. */
  ghost predicate Publish(c: Config, w: World, w': World, a: nat, i: nat, now: int, faults: Faults, run: seq<Swap>)
    requires ValidConfig(c)
  {
    && w.up && a < |w.attempts| && i <= w.attempts[a].next && i < |ScriptOf(c, w.attempts[a])|
    && Handled(w.store, ScriptOf(c, w.attempts[a])[i], now, faults, c.lib).None?
    && var key := w.attempts[a].key;
       var t := SwapStart(w, key, now, faults);
       && SwapRun(key.event, StagingOf(key), true, run) && run[0].inbox == t.inbox
       && var end := run[|run| - 1];
          var answer := SwapAnswer(t, key, end);
          && SwapEffect(w, w', key, t, end) && w'.attempts == w.attempts
          && w'.replies == if answer.Some? then w.replies + {Reply(a, i, answer.value)} else w.replies
  }

  ghost predicate Crash(w: World, w': World)
  {
    w' == w.(up := false, store := Store(w.store.inbox, map[]))
  }

  ghost predicate Recover(w: World, w': World, event: string)
  {
    && !w.up && RecoverStep(event, w.store.inbox, w'.store.inbox)
    && w' == w.(store := Store(w'.store.inbox, map[]))
  }

  ghost predicate Restart(w: World, w': World)
  {
    !w.up && Recovered(w.store.inbox) && w' == w.(up := true, store := Store(w.store.inbox, map[]), stranded := {})
  }

  datatype Step =
    | StartStep(key: Key, chunk: nat) | ResumeStep(a: nat, response: Response) | GiveUpStep(a: nat)
    | DeliverStep(a: nat, i: nat, now: int, faults: Faults) | DeliverShortStep(r: Request, now: int, faults: Faults)
    | PublishStep(a: nat, i: nat, now: int, faults: Faults, run: seq<Swap>)
    | CrashStep | RecoverStepOf(event: string) | RestartStep

  ghost predicate NextStep(c: Config, w: World, w': World, step: Step)
    requires ValidConfig(c)
  {
    match step
    case StartStep(key, chunk) => Start(c, w, w', key, chunk)
    case ResumeStep(a, response) => Resume(c, w, w', a, response)
    case GiveUpStep(a) => GiveUp(w, w', a)
    case DeliverStep(a, i, now, faults) => Deliver(c, w, w', a, i, now, faults)
    case DeliverShortStep(r, now, faults) => DeliverShort(c, w, w', r, now, faults)
    case PublishStep(a, i, now, faults, run) => Publish(c, w, w', a, i, now, faults, run)
    case CrashStep => Crash(w, w')
    case RecoverStepOf(event) => Recover(w, w', event)
    case RestartStep => Restart(w, w')
  }

  ghost predicate Next(c: Config, w: World, w': World)
    requires ValidConfig(c)
  {
    exists step :: NextStep(c, w, w', step)
  }

  /** The receiver is down over any inbox; nobody has sent anything. */
  ghost predicate Initial(w: World)
  {
    !w.up && w.store.transfers == map[] && w.attempts == [] && w.replies == {} && w.uploaded == {}
    && w.placed == {} && w.latest == map[] && w.spoiled == {} && w.doubtful == {}
    && w.stranded == {} && w.lost == {} && !w.beginFailed && !w.backupLeft
  }

  ghost predicate Behaviour(c: Config, worlds: seq<World>)
    requires ValidConfig(c)
  {
    && worlds != [] && Initial(worlds[0])
    && forall i :: 0 < i < |worlds| ==> Next(c, worlds[i - 1], worlds[i])
  }

  // ---- invariant ----

  ghost predicate TransferOk(c: Config, spoiled: set<Key>, s: Store, k: Key)
    requires k in s.transfers
  {
    k in c.sources && ValidKey(k) && (k !in spoiled ==> TransferTracks(s.transfers[k], StagedOf(s, k), c.sources[k]))
  }

  ghost predicate TransfersOk(c: Config, spoiled: set<Key>, s: Store)
  {
    forall k :: k in s.transfers ==> TransferOk(c, spoiled, s, k)
  }

  /** Every event's copy is the source last put in place, or what was there at the start, unless it is in doubt or
      lost. */
  ghost predicate CopyOk(c: Config, start: Inbox, w: World, event: string)
  {
    if event in w.lost then true
    else if event in w.doubtful then Copy(w.store.inbox, event).Some?
    else Copy(w.store.inbox, event) == Expected(c, start, w, event)
  }

  ghost function Expected(c: Config, start: Inbox, w: World, event: string): Option<Tree>
  {
    if event in w.latest && w.latest[event] in c.sources then Some(c.sources[w.latest[event]]) else Copy(start, event)
  }

  /** No backup stands alone but those a swap has left so. */
  ghost predicate GuardedExcept(inbox: Inbox, stranded: set<string>)
  {
    forall e :: ValidEventName(e) && e !in stranded ==> BackupGuarded(inbox, e)
  }

  ghost predicate HistoryOk(c: Config, w: World)
  {
    && w.uploaded <= w.placed
    && (forall k :: k in w.placed ==> k in c.sources && ValidKey(k) && k.event in w.latest)
    && (forall e :: e in w.latest ==> w.latest[e] in w.placed && w.latest[e].event == e)
    && (forall e :: e in w.doubtful ==> e in w.latest)
  }

  ghost predicate AttemptsOk(c: Config, w: World)
    requires ValidConfig(c)
  {
    && (forall a :: 0 <= a < |w.attempts| ==> ValidAttempt(c, w.attempts[a]))
    && (forall x :: x in w.replies ==> x.attempt < |w.attempts| && ReplyOk(c, w, x))
  }

  /** A success for END means the swap put that key's source in place. */
  ghost predicate ReplyOk(c: Config, w: World, x: Reply)
    requires ValidConfig(c) && x.attempt < |w.attempts|
  {
    var at := w.attempts[x.attempt];
    x.response.success && x.index + 1 == |ScriptOf(c, at)| ==> at.key in w.placed
  }

  ghost predicate Invariant(c: Config, start: Inbox, w: World)
    requires ValidConfig(c)
  {
    && TransfersOk(c, w.spoiled, w.store) && HistoryOk(c, w) && AttemptsOk(c, w)
    && (forall e :: ValidEventName(e) ==> CopyOk(c, start, w, e))
    && (w.up ==> GuardedExcept(w.store.inbox, w.stranded))
    && (!w.up ==> w.store.transfers == map[])
  }

  // ---- framing ----

  /** The published directory and the backup of every valid event are as before. */
  ghost predicate SameCopies(a: Inbox, b: Inbox)
  {
    forall e :: ValidEventName(e) ==> Copy(b, e) == Copy(a, e) && (BackupGuarded(a, e) ==> BackupGuarded(b, e))
  }

  lemma RemovedNamesKeepCopies(a: Inbox, b: Inbox, names: set<string>)
    requires a - names == b - names
    requires forall n :: n in names ==> exists k: Key :: n == StagingOf(k)
    ensures SameCopies(a, b)
  {
    forall e | ValidEventName(e) ensures Copy(b, e) == Copy(a, e) && (BackupGuarded(a, e) ==> BackupGuarded(b, e)) {
      forall k: Key ensures FinalName(e) != StagingOf(k) && BackupName(e) != StagingOf(k) {
        InboxNamesDisjoint(e, k.event, k.id);
      }
      hide FinalName, BackupName, StagingName;
      assert FinalName(e) !in names && BackupName(e) !in names;
      assert Get(a, FinalName(e)) == Get(a - names, FinalName(e)) == Get(b, FinalName(e));
      assert Get(a, BackupName(e)) == Get(a - names, BackupName(e)) == Get(b, BackupName(e));
    }
  }

  lemma OtherTransferOk(c: Config, spoiled: set<Key>, s: Store, s': Store, names: set<string>, k: Key)
    requires k in s.transfers && TransferOk(c, spoiled, s, k)
    requires k in s'.transfers && s'.transfers[k] == s.transfers[k]
    requires s.inbox - names == s'.inbox - names && StagingOf(k) !in names
    ensures TransferOk(c, spoiled, s', k)
  {
    assert Get(s.inbox, StagingOf(k)) == Get(s.inbox - names, StagingOf(k)) == Get(s'.inbox, StagingOf(k));
  }

  /** A change to one transaction and its own staging directory disturbs nothing else. */
  lemma OneTransferChanged(c: Config, spoiled: set<Key>, spoiled': set<Key>, s: Store, s': Store, key: Key)
    requires ValidConfig(c) && TransfersOk(c, spoiled, s) && PlainId(key.id)
    requires s'.inbox - {StagingOf(key)} == s.inbox - {StagingOf(key)}
    requires s'.transfers - {key} == s.transfers - {key} && spoiled' - {key} == spoiled - {key}
    requires key in s'.transfers ==> TransferOk(c, spoiled', s', key)
    ensures TransfersOk(c, spoiled', s') && SameCopies(s.inbox, s'.inbox)
  {
    forall k | k in s'.transfers && k != key ensures TransferOk(c, spoiled', s', k) {
      assert k in s'.transfers - {key};
      assert k in s.transfers && s.transfers[k] == s'.transfers[k];
      assert TransferOk(c, spoiled, s, k);
      assert k in spoiled' <==> k in spoiled' - {key};
      assert k in spoiled <==> k in spoiled - {key};
      if StagingOf(k) == StagingOf(key) { StagingNameInjective(k.event, k.id, key.event, key.id); }
      OtherTransferOk(c, spoiled, s, s', {StagingOf(key)}, k);
    }
    RemovedNamesKeepCopies(s.inbox, s'.inbox, {StagingOf(key)});
  }

  /** Clearing entries leaves all others alone. */
  lemma ClearedElsewhere(inbox: Inbox, names: set<string>, remains: map<string, set<string>>)
    ensures Cleared(inbox, names, remains) - names == inbox - names
  {
  }

  lemma PruneOk(c: Config, spoiled: set<Key>, s: Store, now: int, remains: map<string, set<string>>)
    requires ValidConfig(c) && TransfersOk(c, spoiled, s)
    ensures var p := Pruned(s, now, remains); TransfersOk(c, spoiled, p) && SameCopies(s.inbox, p.inbox)
  {
    var p, names := Pruned(s, now, remains), IdleNames(s, now);
    ClearedElsewhere(s.inbox, names, remains);
    hide Cleared;
    forall k | k in p.transfers ensures TransferOk(c, spoiled, p, k) {
      assert TransferOk(c, spoiled, s, k);
      forall j | j in s.transfers && Idle(s.transfers[j], now) ensures StagingOf(j) != StagingOf(k) {
        assert TransferOk(c, spoiled, s, j);
        if StagingOf(j) == StagingOf(k) { StagingNameInjective(j.event, j.id, k.event, k.id); }
      }
      OtherTransferOk(c, spoiled, s, p, names, k);
    }
    RemovedNamesKeepCopies(s.inbox, p.inbox, names);
  }

  lemma TouchOk(c: Config, spoiled: set<Key>, s: Store, key: Key, now: int)
    requires ValidConfig(c) && TransfersOk(c, spoiled, s) && key in s.transfers
    ensures TransfersOk(c, spoiled, Touched(s, key, now)) && Touched(s, key, now).inbox == s.inbox
    ensures Touched(s, key, now).transfers.Keys == s.transfers.Keys
  {
    hide StagingName, ValidEventName, TreeBytes, FileTracks, NormalSource, Copy, BackupGuarded;
    var s' := Touched(s, key, now);
    assert TransferOk(c, spoiled, s, key);
    assert TransferOk(c, spoiled, s', key);
    forall k | k in s'.transfers ensures TransferOk(c, spoiled, s', k) {
      assert TransferOk(c, spoiled, s, k);
    }
  }

  // ---- each kind of step ----

  lemma BegunOk(c: Config, spoiled: set<Key>, s: Store, r: Request, now: int, faults: Faults)
    requires ValidConfig(c) && TransfersOk(c, spoiled, s)
    requires r.opcode == Begin && ValidKey(r.key) && r.key in c.sources && Genuine(r, r.key, c.sources[r.key])
    ensures TransfersOk(c, SpoiledAfter(spoiled, s, r, faults), Begun(s, r, now, faults).0)
    ensures SameCopies(s.inbox, Begun(s, r, now, faults).0.inbox)
  {
    ClearedElsewhere(s.inbox, {StagingOf(r.key)}, faults.remains);
    if BeginRefusal(s, r).Some? {
      assert Begun(s, r, now, faults).0 == s;
    } else if MkdirRaises(s, r.key, faults) {
      BeginFailedOk(c, spoiled, s, r, now, faults);
    } else {
      NewTransferTracks(r, now, c.sources[r.key]);
      BegunTransferOk(c, spoiled, s, r, NewTransfer(r, now), faults.remains);
    }
  }

  lemma BegunTransferOk(c: Config, spoiled: set<Key>, s: Store, r: Request, t: TransferState,
                        remains: map<string, set<string>>)
    requires ValidConfig(c) && TransfersOk(c, spoiled, s)
    requires ValidKey(r.key) && r.key in c.sources && TransferTracks(t, map[], c.sources[r.key])
    ensures var s' :=
              Store(Cleared(s.inbox, {StagingOf(r.key)}, remains)[StagingOf(r.key) := map[]], s.transfers[r.key := t]);
            TransfersOk(c, spoiled - {r.key}, s') && SameCopies(s.inbox, s'.inbox)
  {
    var cleared := Cleared(s.inbox, {StagingOf(r.key)}, remains);
    var s' := Store(cleared[StagingOf(r.key) := map[]], s.transfers[r.key := t]);
    assert PlainId(r.key.id);
    ClearedElsewhere(s.inbox, {StagingOf(r.key)}, remains);
    hide StagingName, TransferTracks, NormalSource, ValidConfig, TransfersOk, PlainId, Cleared;
    assert TransferOk(c, spoiled - {r.key}, s', r.key);
    hide TransferOk, ValidKey, SameCopies;
    UpdateElsewhere(cleared, StagingOf(r.key), map[]);
    UpdateElsewhere(s.transfers, r.key, t);
    OneTransferChanged(c, spoiled, spoiled - {r.key}, s, s', r.key);
  }

  /** A BEGIN that fails after clearing the staging directory leaves the transaction in order or spoiled. */
  lemma BeginFailedOk(c: Config, spoiled: set<Key>, s: Store, r: Request, now: int, faults: Faults)
    requires ValidConfig(c) && TransfersOk(c, spoiled, s) && ValidKey(r.key) && r.key in c.sources
    requires r.opcode == Begin && BeginRefusal(s, r).None? && MkdirRaises(s, r.key, faults)
    ensures TransfersOk(c, SpoiledAfter(spoiled, s, r, faults), Begun(s, r, now, faults).0)
    ensures SameCopies(s.inbox, Begun(s, r, now, faults).0.inbox)
  {
    var s', spoiled' := Begun(s, r, now, faults).0, SpoiledAfter(spoiled, s, r, faults);
    assert PlainId(r.key.id);
    ClearedElsewhere(s.inbox, {StagingOf(r.key)}, faults.remains);
    assert s'.transfers == s.transfers && StagedOf(Begun(s, r, 0, faults).0, r.key) == StagedOf(s', r.key);
    if r.key in s.transfers {
      assert TransferOk(c, spoiled, s, r.key);
      if r.key !in spoiled' {
        RemovalTracks(s.transfers[r.key], StagedOf(s, r.key), StagedOf(s', r.key), c.sources[r.key]);
      }
      assert TransferOk(c, spoiled', s', r.key);
    }
    hide StagingName, Cleared, TransferTracks, NormalSource, ValidConfig, TransfersOk, PlainId, TransferOk, ValidKey,
         SameCopies;
    OneTransferChanged(c, spoiled, spoiled', s, s', r.key);
  }

  lemma ChunkedOk(c: Config, spoiled: set<Key>, s: Store, r: Request, io: Io)
    requires ValidConfig(c) && TransfersOk(c, spoiled, s)
    requires r.opcode == FileChunk && r.key in s.transfers
    requires r.key in c.sources && Genuine(r, r.key, c.sources[r.key])
    ensures TransfersOk(c, spoiled, Chunked(s, r, io, c.lib).0) && SameCopies(s.inbox, Chunked(s, r, io, c.lib).0.inbox)
  {
    hide StagingName, ChunkStored, TransferTracks, Copy, BackupGuarded, ValidEventName, PlainId, Lists, NormalSource;
    assert TransferOk(c, spoiled, s, r.key);
    assert PlainId(r.key.id) && NormalSource(c.sources[r.key]);
    hide ValidConfig, TransfersOk;
    var staged := Get(s.inbox, StagingOf(r.key));
    if r.key !in spoiled { ChunkTracks(s.transfers[r.key], staged, r, io, c.lib, c.sources[r.key]); }
    var s' := Chunked(s, r, io, c.lib).0;
    var (t', staged', _) := ChunkStored(s.transfers[r.key], staged, r, io, c.lib);
    ChunkKeepsStaging(s.transfers[r.key], staged, r, io, c.lib);
    assert StagedOf(s', r.key) == FilesIn(staged');
    assert TransferOk(c, spoiled, s', r.key);
    if staged'.Some? { UpdateElsewhere(s.inbox, StagingOf(r.key), staged'.value); }
    UpdateElsewhere(s.transfers, r.key, s'.transfers[r.key]);
    hide TransferOk, Chunked, SameCopies;
    OneTransferChanged(c, spoiled, spoiled, s, s', r.key);
  }

  lemma SameCopiesTransitive(a: Inbox, b: Inbox, d: Inbox)
    requires SameCopies(a, b) && SameCopies(b, d)
    ensures SameCopies(a, d)
  {
    hide Copy, BackupGuarded, ValidEventName;
  }

  /** Handling any request of a sender keeps every transaction that is not spoiled, and every copy. */
  lemma HandledOk(c: Config, spoiled: set<Key>, s: Store, r: Request, now: int, faults: Faults)
    requires ValidConfig(c) && TransfersOk(c, spoiled, s)
    requires r.key in c.sources && Genuine(r, r.key, c.sources[r.key])
    requires Handled(s, r, now, faults, c.lib).Some?
    ensures var h := Handled(s, r, now, faults, c.lib).value;
            && TransfersOk(c, SpoiledAfter(spoiled, Pruned(s, now, faults.remains), r, faults), h.0)
            && SameCopies(s.inbox, h.0.inbox) && (r.opcode == End ==> !h.1.success)
  {
    PruneOk(c, spoiled, s, now, faults.remains);
    var p := Pruned(s, now, faults.remains);
    hide Pruned, StagingName, SpoiledAfter;
    HandledOpenOk(c, spoiled, p, r, now, faults);
    hide HandledOpen, SameCopies;
    SameCopiesTransitive(s.inbox, p.inbox, Handled(s, r, now, faults, c.lib).value.0.inbox);
  }

  lemma HandledOpenOk(c: Config, spoiled: set<Key>, p: Store, r: Request, now: int, faults: Faults)
    requires ValidConfig(c) && TransfersOk(c, spoiled, p)
    requires r.key in c.sources && Genuine(r, r.key, c.sources[r.key])
    requires HandledOpen(p, r, now, faults, c.lib).Some?
    ensures var h := HandledOpen(p, r, now, faults, c.lib).value;
            && TransfersOk(c, SpoiledAfter(spoiled, p, r, faults), h.0) && SameCopies(p.inbox, h.0.inbox)
            && (r.opcode == End ==> !h.1.success)
  {
    if r.opcode != Begin || !ValidKey(r.key) { assert SpoiledAfter(spoiled, p, r, faults) == spoiled; }
    hide ValidKey, StagingName, TransferOk, Genuine, EndRefusal, ReceivedBytes, Begun, Chunked, Touched, SpoiledAfter;
    if ValidKey(r.key) && r.opcode == Begin {
      BegunOk(c, spoiled, p, r, now, faults);
    } else if r.key in p.transfers {
      TouchOk(c, spoiled, p, r.key, now);
      if r.opcode == FileChunk { ChunkedOk(c, spoiled, Touched(p, r.key, now), r, faults.io); }
    }
  }

  /** Only an END whose checks passed reaches the swap. */
  lemma UnhandledOk(c: Config, spoiled: set<Key>, s: Store, r: Request, now: int, faults: Faults)
    requires ValidConfig(c) && TransfersOk(c, spoiled, s)
    requires r.key in c.sources && Genuine(r, r.key, c.sources[r.key])
    requires Handled(s, r, now, faults, c.lib).None?
    ensures r.opcode == End && r.key in Pruned(s, now, faults.remains).transfers && ValidKey(r.key)
    ensures var t := Touched(Pruned(s, now, faults.remains), r.key, now);
            && TransfersOk(c, spoiled, t) && SameCopies(s.inbox, t.inbox) && TransferOk(c, spoiled, t, r.key)
            && EndRefusal(t.transfers[r.key], StagedOf(t, r.key), c.lib) == None
  {
    PruneOk(c, spoiled, s, now, faults.remains);
    hide ValidKey, Pruned, StagingName, TransferOk, Genuine, EndRefusal, ReceivedBytes, BeginRefusal, StagedOf;
    hide ValidConfig, SameCopies, Begun, Chunked;
    TouchOk(c, spoiled, Pruned(s, now, faults.remains), r.key, now);
  }

  // ---- the swap ----

  ghost function SwapNames(key: Key): set<string>
  {
    {FinalName(key.event), BackupName(key.event), StagingOf(key)}
  }

  lemma OtherEventCopies(key: Key, a: Inbox, b: Inbox, e: string)
    requires ValidEventName(key.event) && ValidEventName(e) && e != key.event
    requires b - SwapNames(key) == a - SwapNames(key)
    ensures Copy(b, e) == Copy(a, e) && (BackupGuarded(a, e) ==> BackupGuarded(b, e))
  {
    InboxNamesDisjoint(e, key.event, key.id);
    InboxNamesDisjoint(key.event, e, key.id);
    assert FinalName(e) !in SwapNames(key) && BackupName(e) !in SwapNames(key);
    hide BackupName, FinalName, StagingName;
    assert Get(b, FinalName(e)) == Get(b - SwapNames(key), FinalName(e)) == Get(a, FinalName(e));
    assert Get(b, BackupName(e)) == Get(b - SwapNames(key), BackupName(e)) == Get(a, BackupName(e));
  }

  lemma OtherTransfersSurviveSwap(c: Config, spoiled: set<Key>, s: Store, s': Store, key: Key)
    requires ValidConfig(c) && TransfersOk(c, spoiled, s) && key in c.sources && ValidKey(key)
    requires s'.inbox - SwapNames(key) == s.inbox - SwapNames(key)
    requires s'.transfers == s.transfers - {key}
    ensures TransfersOk(c, spoiled, s')
  {
    forall k | k in s'.transfers ensures TransferOk(c, spoiled, s', k) {
      assert TransferOk(c, spoiled, s, k);
      InboxNamesDisjoint(key.event, k.event, k.id);
      if StagingOf(k) == StagingOf(key) { StagingNameInjective(k.event, k.id, key.event, key.id); }
      OtherTransferOk(c, spoiled, s, s', SwapNames(key), k);
    }
  }

  lemma PassedIsSource(c: Config, spoiled: set<Key>, s: Store, key: Key)
    requires TransfersOk(c, spoiled, s) && key in s.transfers
    requires EndRefusal(s.transfers[key], StagedOf(s, key), c.lib) == None
    ensures ValidKey(key) && TransferOk(c, spoiled, s, key) && StagingOf(key) in s.inbox
    ensures key !in spoiled ==> s.inbox[StagingOf(key)] == c.sources[key]
  {
    assert TransferOk(c, spoiled, s, key);
    PassedIsStaged(s.transfers[key], StagedOf(s, key), c.lib);
    hide EndRefusal, TransferTracks, StagingName;
    if key !in spoiled { CheckedStagingIsSource(s.transfers[key], StagedOf(s, key), c.sources[key], c.lib); }
  }

  /** How a swap that started in s stands when it stopped at `end`. */
  lemma SwapOutcome(c: Config, spoiled: set<Key>, s: Store, key: Key, run: seq<Swap>)
    requires ValidConfig(c) && TransfersOk(c, spoiled, s) && key in s.transfers
    requires EndRefusal(s.transfers[key], StagedOf(s, key), c.lib) == None
    requires SwapRun(key.event, StagingOf(key), true, run) && run[0].inbox == s.inbox
    ensures var end := run[|run| - 1];
            && ValidKey(key) && TransferOk(c, spoiled, s, key) && StagingOf(key) in s.inbox
            && end.inbox - SwapNames(key) == s.inbox - SwapNames(key)
            && SwapFrame(key.event, StagingOf(key), s.inbox, end)
            && (BackupGuarded(s.inbox, key.event) ==> SwapInvariant(key.event, StagingOf(key), true, s.inbox, end))
            && (key !in spoiled ==> s.inbox[StagingOf(key)] == c.sources[key])
  {
    PassedIsSource(c, spoiled, s, key);
    InboxNamesDisjoint(key.event, key.event, key.id);
    hide BackupName, FinalName, StagingName, EndRefusal, TransfersOk, TransferOk, ValidConfig, SwapInvariant;
    FrameRunKeeps(key.event, StagingOf(key), true, run, |run| - 1);
    if BackupGuarded(s.inbox, key.event) { SwapRunKeeps(key.event, StagingOf(key), true, run, |run| - 1); }
  }

  lemma MovedIn(s: Store, key: Key, end: Swap)
    requires ValidKey(key) && StagingOf(key) in s.inbox && Moved(end.pc)
    requires SwapFrame(key.event, StagingOf(key), s.inbox, end)
    ensures Copy(end.inbox, key.event) == Some(s.inbox[StagingOf(key)]) && BackupGuarded(end.inbox, key.event)
  {
    hide BackupName, FinalName, StagingName;
  }

  lemma NotMovedIn(s: Store, key: Key, end: Swap)
    requires ValidKey(key) && StagingOf(key) in s.inbox && !Moved(end.pc)
    requires BackupGuarded(s.inbox, key.event)
    requires SwapInvariant(key.event, StagingOf(key), true, s.inbox, end)
    ensures Copy(end.inbox, key.event) == Copy(s.inbox, key.event)
  {
    InboxNamesDisjoint(key.event, key.event, key.id);
    hide BackupName, FinalName, StagingName;
  }

  // ---- the invariant is kept ----

  lemma RequestIsGenuine(c: Config, a: Attempt, i: nat)
    requires ValidConfig(c) && ValidAttempt(c, a) && i < |ScriptOf(c, a)|
    ensures var r := ScriptOf(c, a)[i];
            && r.key == a.key && Genuine(r, a.key, c.sources[a.key])
            && (r.opcode == End <==> i + 1 == |ScriptOf(c, a)|)
  {
    ScriptIsGenuine(a.key, c.orders[a.key], c.sources[a.key], a.chunk);
  }

  lemma AttemptChanged(c: Config, w: World, w': World, a: nat, at: Attempt)
    requires ValidConfig(c) && AttemptsOk(c, w) && a < |w.attempts| && ValidAttempt(c, at)
    requires at.key == w.attempts[a].key && at.chunk == w.attempts[a].chunk
    requires w'.attempts == w.attempts[a := at] && w'.replies == w.replies && w'.placed == w.placed
    ensures AttemptsOk(c, w')
  {
    hide Script;
    forall x | x in w'.replies ensures x.attempt < |w'.attempts| && ReplyOk(c, w', x) {
      assert ReplyOk(c, w, x);
    }
  }

  lemma StartKeeps(c: Config, start: Inbox, w: World, w': World, key: Key, chunk: nat)
    requires ValidConfig(c) && Invariant(c, start, w) && Start(c, w, w', key, chunk)
    ensures Invariant(c, start, w')
  {
    hide TransfersOk, CopyOk, GuardedExcept, ValidEventName, Script;
    CopyFrame(c, start, w, w');
    assert ValidAttempt(c, Attempt(key, chunk, 0, Waiting));
    forall x | x in w'.replies ensures x.attempt < |w'.attempts| && ReplyOk(c, w', x) {
      assert ReplyOk(c, w, x);
    }
  }

  lemma GiveUpKeeps(c: Config, start: Inbox, w: World, w': World, a: nat)
    requires ValidConfig(c) && Invariant(c, start, w) && GiveUp(w, w', a)
    ensures Invariant(c, start, w')
  {
    hide TransfersOk, CopyOk, GuardedExcept, ValidEventName, ScriptOf;
    CopyFrame(c, start, w, w');
    assert ValidAttempt(c, w.attempts[a]);
    ScriptOfNext(c, w.attempts[a]);
    AttemptChanged(c, w, w', a, w'.attempts[a]);
  }

  lemma ResumeKeeps(c: Config, start: Inbox, w: World, w': World, a: nat, response: Response)
    requires ValidConfig(c) && Invariant(c, start, w) && Resume(c, w, w', a, response)
    ensures Invariant(c, start, w')
  {
    hide TransfersOk, CopyOk, GuardedExcept, ValidEventName, ScriptOf, TreeBytes;
    CopyFrame(c, start, w, w');
    var at := w.attempts[a];
    assert ValidAttempt(c, at) && ReplyOk(c, w, Reply(a, at.next, response));
    ScriptOfNext(c, at);
    AttemptChanged(c, w, w', a, w'.attempts[a]);
  }

  lemma ScriptOfNext(c: Config, at: Attempt)
    requires ValidConfig(c)
    ensures ScriptOf(c, at.(next := at.next + 1)) == ScriptOf(c, at)
    ensures ScriptOf(c, at.(status := GaveUp)) == ScriptOf(c, at) == ScriptOf(c, at.(status := Confirmed))
  {
  }

  lemma CopyFrame(c: Config, start: Inbox, w: World, w': World)
    requires w'.store == w.store && w'.latest == w.latest && w'.doubtful == w.doubtful && w'.lost == w.lost
    ensures forall e :: CopyOk(c, start, w, e) ==> CopyOk(c, start, w', e)
  {
  }

  lemma CopiesFrame(c: Config, start: Inbox, w: World, w': World)
    requires SameCopies(w.store.inbox, w'.store.inbox)
    requires w'.latest == w.latest && w'.doubtful == w.doubtful && w'.lost == w.lost
    requires forall e :: ValidEventName(e) ==> CopyOk(c, start, w, e)
    ensures forall e :: ValidEventName(e) ==> CopyOk(c, start, w', e)
    ensures forall stranded :: GuardedExcept(w.store.inbox, stranded) ==> GuardedExcept(w'.store.inbox, stranded)
  {
    hide Copy, BackupGuarded, ValidEventName;
  }

  lemma AttemptsFrame(c: Config, w: World, w': World)
    requires ValidConfig(c) && AttemptsOk(c, w)
    requires w'.attempts == w.attempts && w'.replies == w.replies && w.placed <= w'.placed
    ensures AttemptsOk(c, w')
  {
    hide ScriptOf, ValidConfig, ValidAttempt;
    forall x | x in w'.replies ensures ReplyOk(c, w', x) { assert ReplyOk(c, w, x); }
  }

  lemma ReplyKeeps(c: Config, w: World, w': World, x: Reply)
    requires ValidConfig(c) && AttemptsOk(c, w)
    requires w'.attempts == w.attempts && w.placed <= w'.placed
    requires w'.replies == w.replies + {x} && x.attempt < |w.attempts| && ReplyOk(c, w', x)
    ensures AttemptsOk(c, w')
  {
    hide ScriptOf;
    forall y | y in w'.replies ensures y.attempt < |w'.attempts| && ReplyOk(c, w', y) {
      if y != x { assert y in w.replies && ReplyOk(c, w, y); }
    }
  }

  lemma DeliverKeeps(c: Config, start: Inbox, w: World, w': World, a: nat, i: nat, now: int, faults: Faults)
    requires ValidConfig(c) && Invariant(c, start, w) && Deliver(c, w, w', a, i, now, faults)
    ensures Invariant(c, start, w')
  {
    var at := w.attempts[a];
    assert ValidAttempt(c, at);
    RequestIsGenuine(c, at, i);
    var r := ScriptOf(c, at)[i];
    HandledOk(c, w.spoiled, w.store, r, now, faults);
    hide Handled, SpoiledAfter, Pruned, TransfersOk, Genuine, ScriptOf, SameCopies, GuardedExcept, CopyOk, TransferOk,
         ValidEventName;
    hide ValidConfig, HistoryOk, ValidAttempt;
    CopiesFrame(c, start, w, w');
    ReplyKeeps(c, w, w', Reply(a, i, Handled(w.store, r, now, faults, c.lib).value.1));
  }

  lemma DeliverShortKeeps(c: Config, start: Inbox, w: World, w': World, r: Request, now: int, faults: Faults)
    requires ValidConfig(c) && Invariant(c, start, w) && DeliverShort(c, w, w', r, now, faults)
    ensures Invariant(c, start, w')
  {
    HandledOk(c, w.spoiled, w.store, r, now, faults);
    assert SpoiledAfter(w.spoiled, Pruned(w.store, now, faults.remains), r, faults) == w.spoiled;
    hide Handled, SpoiledAfter, TransfersOk, Genuine, ScriptOf, SameCopies, GuardedExcept, CopyOk, TransferOk,
         ValidEventName;
    hide ValidConfig, HistoryOk, ValidAttempt, Pruned, AttemptsOk;
    CopiesFrame(c, start, w, w');
    AttemptsFrame(c, w, w');
  }

  lemma PublishStarts(c: Config, start: Inbox, w: World, w': World, a: nat, i: nat, now: int, faults: Faults,
                      run: seq<Swap>)
    requires ValidConfig(c) && Invariant(c, start, w) && Publish(c, w, w', a, i, now, faults, run)
    ensures var key, t := w.attempts[a].key, SwapStart(w, w.attempts[a].key, now, faults);
            && key in t.transfers && ValidKey(key) && key in c.sources
            && TransfersOk(c, w.spoiled, t) && TransferOk(c, w.spoiled, t, key) && SameCopies(w.store.inbox, t.inbox)
            && EndRefusal(t.transfers[key], StagedOf(t, key), c.lib) == None
  {
    var at := w.attempts[a];
    assert ValidAttempt(c, at);
    RequestIsGenuine(c, at, i);
    hide Genuine, EndRefusal, TreeBytes, SwapRun, StagingName, Pruned, ValidConfig;
    UnhandledOk(c, w.spoiled, w.store, ScriptOf(c, at)[i], now, faults);
  }

  lemma PublishAnswers(c: Config, w: World, w': World, a: nat, i: nat, now: int, faults: Faults, run: seq<Swap>)
    requires ValidConfig(c) && Publish(c, w, w', a, i, now, faults, run) && AttemptsOk(c, w)
    ensures AttemptsOk(c, w')
  {
    assert run != [];
    hide Handled, SwapStart, ValidConfig, SwapRun, ScriptOf, StagingName, ReceivedBytes, ValidAttempt;
    var key, end := w.attempts[a].key, run[|run| - 1];
    var answer := SwapAnswer(SwapStart(w, key, now, faults), key, end);
    if answer.Some? {
      ReplyKeeps(c, w, w', Reply(a, i, answer.value));
    } else {
      AttemptsFrame(c, w, w');
    }
  }

  lemma SwapEffectKeeps(c: Config, start: Inbox, w: World, w': World, key: Key, t: Store, run: seq<Swap>)
    requires ValidConfig(c) && TransfersOk(c, w.spoiled, t) && key in t.transfers && key in c.sources && ValidKey(key)
    requires EndRefusal(t.transfers[key], StagedOf(t, key), c.lib) == None
    requires SwapRun(key.event, StagingOf(key), true, run) && run[0].inbox == t.inbox
    requires SameCopies(w.store.inbox, t.inbox) && GuardedExcept(w.store.inbox, w.stranded)
    requires forall e :: ValidEventName(e) ==> CopyOk(c, start, w, e)
    requires SwapEffect(w, w', key, t, run[|run| - 1])
    ensures TransfersOk(c, w'.spoiled, w'.store) && (w'.up ==> GuardedExcept(w'.store.inbox, w'.stranded))
    ensures forall e :: ValidEventName(e) ==> CopyOk(c, start, w', e)
  {
    var before, end := w.(store := t), run[|run| - 1];
    hide ValidConfig, TransfersOk, TransferOk, SameCopies, SwapRun, StagingName, CopyOk, ValidEventName, SwapInvariant,
         SwapFrame, ValidKey, BackupGuarded, EndRefusal, GuardedExcept;
    CopiesFrame(c, start, w, before);
    SwapOutcome(c, w.spoiled, t, key, run);
    EffectFrom(w, before, w', key, t, end);
    hide SwapEffect;
    SwappedCopies(c, start, before, w', key, end);
    SwappedGuards(before, w', key, end);
    SwappedTransfers(c, w.spoiled, t, w'.store, key, end);
  }

  /** The effect does not depend on the store before pruning. */
  lemma EffectFrom(w: World, before: World, w': World, key: Key, t: Store, end: Swap)
    requires SwapEffect(w, w', key, t, end) && before == w.(store := t)
    ensures SwapEffect(before, w', key, before.store, end) && w'.spoiled == w.spoiled && w'.store.inbox == end.inbox
    ensures w'.store.transfers
         == if end.pc == Published then t.transfers - {key} else if Over(end.pc) then t.transfers else map[]
  {
  }

  lemma HistoryKeeps(c: Config, w: World, w': World, key: Key, t: Store, end: Swap)
    requires HistoryOk(c, w) && SwapEffect(w, w', key, t, end) && key in c.sources && ValidKey(key)
    ensures HistoryOk(c, w')
  {
    hide ValidKey;
  }

  lemma DownHasNoTransfers(w: World, w': World, key: Key, t: Store, end: Swap)
    requires SwapEffect(w, w', key, t, end)
    ensures !w'.up ==> w'.store.transfers == map[]
  {
  }

  lemma PublishKeeps(c: Config, start: Inbox, w: World, w': World, a: nat, i: nat, now: int, faults: Faults,
                     run: seq<Swap>)
    requires ValidConfig(c) && Invariant(c, start, w) && Publish(c, w, w', a, i, now, faults, run)
    ensures Invariant(c, start, w')
  {
    var key, t := w.attempts[a].key, SwapStart(w, w.attempts[a].key, now, faults);
    PublishStarts(c, start, w, w', a, i, now, faults, run);
    PublishAnswers(c, w, w', a, i, now, faults, run);
    hide SwapStart, ValidConfig, TransfersOk, TransferOk, EndRefusal, AttemptsOk, SameCopies, SwapRun, SwapAnswer;
    hide StagingName, CopyOk, GuardedExcept, ValidEventName, ScriptOf, Handled, ValidKey, HistoryOk, SwapEffect;
    SwapEffectKeeps(c, start, w, w', key, t, run);
    HistoryKeeps(c, w, w', key, t, run[|run| - 1]);
    assert !w'.up ==> w'.store.transfers == map[] by { DownHasNoTransfers(w, w', key, t, run[|run| - 1]); }
  }

  lemma SwappedCopies(c: Config, start: Inbox, w: World, w': World, key: Key, end: Swap)
    requires ValidKey(key) && key in c.sources && StagingOf(key) in w.store.inbox
    requires (key !in w.spoiled ==> w.store.inbox[StagingOf(key)] == c.sources[key])
    requires GuardedExcept(w.store.inbox, w.stranded)
    requires end.inbox - SwapNames(key) == w.store.inbox - SwapNames(key)
    requires SwapFrame(key.event, StagingOf(key), w.store.inbox, end)
    requires BackupGuarded(w.store.inbox, key.event) ==>
               SwapInvariant(key.event, StagingOf(key), true, w.store.inbox, end)
    requires SwapEffect(w, w', key, w.store, end)
    requires forall e :: ValidEventName(e) ==> CopyOk(c, start, w, e)
    ensures forall e :: ValidEventName(e) ==> CopyOk(c, start, w', e)
  {
    assert key.event !in w.stranded ==> BackupGuarded(w.store.inbox, key.event);
    if Moved(end.pc) {
      MovedIn(w.store, key, end);
    } else if key.event !in w.stranded {
      NotMovedIn(w.store, key, end);
    }
    hide Copy, SwapInvariant, SwapFrame, BackupGuarded;
    forall e | ValidEventName(e) ensures CopyOk(c, start, w', e) {
      if e != key.event { OtherEventCopies(key, w.store.inbox, end.inbox, e); }
      assert CopyOk(c, start, w, e);
    }
  }

  lemma SwappedGuards(w: World, w': World, key: Key, end: Swap)
    requires ValidKey(key) && GuardedExcept(w.store.inbox, w.stranded)
    requires end.inbox - SwapNames(key) == w.store.inbox - SwapNames(key)
    requires SwapEffect(w, w', key, w.store, end)
    ensures w'.up ==> GuardedExcept(w'.store.inbox, w'.stranded)
  {
    hide BackupGuarded, Copy;
    forall e | ValidEventName(e) && e !in w'.stranded && w'.up ensures BackupGuarded(end.inbox, e) {
      if e != key.event {
        OtherEventCopies(key, w.store.inbox, end.inbox, e);
        assert BackupGuarded(w.store.inbox, e);
      }
    }
  }

  /** A transaction whose files are all complete is in order without them: no chunk can touch them any more. */
  lemma CompleteTracksAlone(t: TransferState, staged: Tree, source: Tree)
    requires TransferTracks(t, staged, source) && forall p :: p in t.files ==> CompleteFile(t.files[p], Get(staged, p))
    ensures TransferTracks(t, map[], source)
  {
    forall p | p in t.files ensures FileTracks(t.files[p], None, source[p]) {
      assert CompleteFile(t.files[p], Get(staged, p)) && FileTracks(t.files[p], Get(staged, p), source[p]);
    }
  }

  lemma PassedIsComplete(t: TransferState, staged: Tree, lib: Library)
    requires EndRefusal(t, staged, lib) == None
    ensures forall p :: p in t.files ==> CompleteFile(t.files[p], Get(staged, p))
  {
    hide ReceiverVerdict, ReceivedBytes, CompleteFile;
  }

  lemma SwappedTransfers(c: Config, spoiled: set<Key>, t: Store, s': Store, key: Key, end: Swap)
    requires ValidConfig(c) && TransfersOk(c, spoiled, t) && key in t.transfers && TransferOk(c, spoiled, t, key)
    requires ValidKey(key)
    requires StagingOf(key) in t.inbox && EndRefusal(t.transfers[key], StagedOf(t, key), c.lib) == None
    requires end.inbox - SwapNames(key) == t.inbox - SwapNames(key)
    requires SwapFrame(key.event, StagingOf(key), t.inbox, end)
    requires s'.inbox == end.inbox
    requires s'.transfers
          == if end.pc == Published then t.transfers - {key} else if Over(end.pc) then t.transfers else map[]
    ensures TransfersOk(c, spoiled, s')
  {
    var rest := Store(end.inbox, t.transfers - {key});
    OtherTransfersSurviveSwap(c, spoiled, t, rest, key);
    PassedIsComplete(t.transfers[key], StagedOf(t, key), c.lib);
    if key !in spoiled { CompleteTracksAlone(t.transfers[key], StagedOf(t, key), c.sources[key]); }
    hide EndRefusal, TransferTracks, BackupName, FinalName, StagingName;
    if Over(end.pc) && end.pc != Published {
      assert TransferOk(c, spoiled, s', key);
      forall k | k in s'.transfers ensures TransferOk(c, spoiled, s', k) {
        if k != key { assert k in rest.transfers && TransferOk(c, spoiled, rest, k); }
      }
    }
  }

  lemma CrashKeeps(c: Config, start: Inbox, w: World, w': World)
    requires ValidConfig(c) && Invariant(c, start, w) && (Crash(w, w') || Restart(w, w'))
    ensures Invariant(c, start, w')
  {
    hide Copy, ValidEventName, BackupGuarded, ValidConfig, AttemptsOk;
    AttemptsFrame(c, w, w');
    assert forall e :: CopyOk(c, start, w, e) ==> CopyOk(c, start, w', e);
  }

  lemma RecoverKeeps(c: Config, start: Inbox, w: World, w': World, event: string)
    requires ValidConfig(c) && Invariant(c, start, w) && Recover(w, w', event)
    ensures Invariant(c, start, w')
  {
    hide Copy, BackupGuarded, ValidEventName, RecoverStep, ValidConfig, AttemptsOk;
    AttemptsFrame(c, w, w');
    forall e | ValidEventName(e) ensures CopyOk(c, start, w', e) {
      RecoverStepKeepsCopies(event, w.store.inbox, w'.store.inbox, e);
      assert CopyOk(c, start, w, e);
    }
  }

  lemma StepKeeps(c: Config, start: Inbox, w: World, w': World, step: Step)
    requires ValidConfig(c) && Invariant(c, start, w) && NextStep(c, w, w', step)
    ensures Invariant(c, start, w')
  {
    hide Invariant, ValidConfig, Start, Resume, GiveUp, Deliver, DeliverShort, Publish, Crash, Recover, Restart;
    match step
    case StartStep(key, chunk) => StartKeeps(c, start, w, w', key, chunk);
    case ResumeStep(a, response) => ResumeKeeps(c, start, w, w', a, response);
    case GiveUpStep(a) => GiveUpKeeps(c, start, w, w', a);
    case DeliverStep(a, i, now, faults) => DeliverKeeps(c, start, w, w', a, i, now, faults);
    case DeliverShortStep(r, now, faults) => DeliverShortKeeps(c, start, w, w', r, now, faults);
    case PublishStep(a, i, now, faults, run) => PublishKeeps(c, start, w, w', a, i, now, faults, run);
    case RecoverStepOf(event) => RecoverKeeps(c, start, w, w', event);
    case _ => CrashKeeps(c, start, w, w');
  }

  lemma NextKeeps(c: Config, start: Inbox, w: World, w': World)
    requires ValidConfig(c) && Invariant(c, start, w) && Next(c, w, w')
    ensures Invariant(c, start, w')
  {
    hide Invariant, ValidConfig, NextStep;
    var step :| NextStep(c, w, w', step);
    StepKeeps(c, start, w, w', step);
  }

  lemma {:induction false} Reachable(c: Config, worlds: seq<World>, n: nat)
    requires ValidConfig(c) && Behaviour(c, worlds) && n < |worlds|
    ensures Invariant(c, worlds[0].store.inbox, worlds[n])
  {
    hide Next;
    if n > 0 {
      Reachable(c, worlds, n - 1);
      assert Next(c, worlds[n - 1], worlds[n]);
      hide Invariant, ValidConfig;
      NextKeeps(c, worlds[0].store.inbox, worlds[n - 1], worlds[n]);
    }
  }

  // ---- end to end ----

  /** Whatever a running receiver shows under an event's name is the whole directory some sender has for that event, or
      what was there before the first request - unless the transaction that put it there was spoiled, or a swap began
      while the event's backup stood alone. */
  lemma PublishedIsWholeSource(c: Config, worlds: seq<World>, n: nat, event: string)
    requires ValidConfig(c) && Behaviour(c, worlds) && n < |worlds|
    requires ValidEventName(event) && worlds[n].up && FinalName(event) in worlds[n].store.inbox
    requires event !in worlds[n].doubtful && event !in worlds[n].lost
    ensures WholeOrOld(c, worlds[0].store.inbox, worlds[n], event)
  {
    Reachable(c, worlds, n);
    var w := worlds[n];
    assert CopyOk(c, worlds[0].store.inbox, w, event);
    if event in w.latest {
      assert w.latest[event] in w.placed;
    }
  }

  ghost predicate WholeOrOld(c: Config, start: Inbox, w: World, event: string)
    requires FinalName(event) in w.store.inbox
  {
    var published := w.store.inbox[FinalName(event)];
    || Copy(start, event) == Some(published)
    || exists key :: key in c.sources && key.event == event && published == c.sources[key]
  }

  /** A directory marked as uploaded has been published, and stays published unless a swap leaves its backup standing
      alone; whole, unless its event is in doubt. */
  lemma UploadedIsPublished(c: Config, worlds: seq<World>, n: nat, key: Key)
    requires ValidConfig(c) && Behaviour(c, worlds) && n < |worlds|
    requires key in worlds[n].uploaded && worlds[n].up
    requires key.event !in worlds[n].lost && key.event !in worlds[n].stranded
    ensures ValidEventName(key.event) && FinalName(key.event) in worlds[n].store.inbox
    ensures key.event !in worlds[n].doubtful && (forall k :: k in c.sources && k.event == key.event ==> k == key) ==>
              key in c.sources && worlds[n].store.inbox[FinalName(key.event)] == c.sources[key]
  {
    Reachable(c, worlds, n);
    var w := worlds[n];
    assert CopyOk(c, worlds[0].store.inbox, w, key.event);
    assert key in w.placed && w.latest[key.event] in w.placed;
    assert BackupGuarded(w.store.inbox, key.event);
  }

  /** Nothing is in doubt unless a BEGIN has failed on an unfinished file, and nothing is lost unless a swap has left a
      backup standing alone. */
  lemma {:induction false} UndisturbedIsSure(c: Config, worlds: seq<World>, n: nat)
    requires ValidConfig(c) && Behaviour(c, worlds) && n < |worlds|
    ensures !worlds[n].beginFailed ==> worlds[n].spoiled == {} && worlds[n].doubtful == {}
    ensures !worlds[n].backupLeft ==> worlds[n].stranded == {} && worlds[n].lost == {}
  {
    if n > 0 {
      UndisturbedIsSure(c, worlds, n - 1);
      assert Next(c, worlds[n - 1], worlds[n]);
      hide Handled, SwapStart, SwapRun, SwapAnswer, ScriptOf, Genuine, Spoils, ValidConfig, Recovered, RecoverStep,
           BackupGuarded, Pruned, MkdirRaises, BeginRefusal, ValidKey;
    }
  }
}
