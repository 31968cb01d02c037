/**
 The receiver itself, tools/receiver_node.py ReceiverNode: its methods change the inbox and the transfer
 table in place, and each is proved to do what the transaction model says.
 */
module ReceiverService {
  import opened Prelude
  import opened Text
  import opened ReceiverNames
  import opened ChecksumManifest
  import opened Receiver
  import opened PublishSwap

  /** Which of the swap's renames and syncs of the inbox raise. */
  datatype SwapFaults = SwapFaults(firstSync: bool, aside: bool, moveIn: bool, restore: bool, lastSync: bool)

  /** Where a swap ends on these faults. */
  function SwapEnd(inbox: Inbox, event: string, swap: SwapFaults, remains: map<string, set<string>>): Pc
  {
    if !GetsAside(inbox, event, swap, remains) || swap.moveIn then Aborted
    else if swap.lastSync then Unsynced else Published
  }

  /** The store after a swap that started in s and ran to its end. */
  ghost predicate Swapped(s: Store, key: Key, swap: SwapFaults, remains: map<string, set<string>>, run: seq<Swap>,
                          after: Store, response: Response)
    requires key in s.transfers
  {
    && SwapRun(key.event, StagingOf(key), swap.restore, run) && run[0].inbox == s.inbox
    && var pc := SwapEnd(s.inbox, key.event, swap, remains);
       && run[|run| - 1] == Swap(pc, after.inbox)
       && (Moved(pc) && BackupName(key.event) !in remains ==> BackupName(key.event) !in after.inbox)
       && if pc == Published then
            && after.transfers == s.transfers - {key}
            && response == Response(true, Complete, ReceivedBytes(s.transfers[key]))
          else after.transfers == s.transfers && response == Failure(Raised)
  }

  /** What one request does to the store, and its answer. */
  ghost predicate Served(s: Store, r: Request, now: int, faults: Faults, swap: SwapFaults, lib: Library, after: Store,
                         response: Response)
  {
    match Handled(s, r, now, faults, lib)
    case Some(handled) => (after, response) == handled
    case None =>
      var pruned := Pruned(s, now, faults.remains);
      && r.key in pruned.transfers && r.opcode == End && ValidKey(r.key)
      && exists run :: Swapped(Touched(pruned, r.key, now), r.key, swap, faults.remains, run, after, response)
  }

  lemma PassedCanSwap(s: Store, key: Key, io: Io, lib: Library)
    requires key in s.transfers && ValidEventName(key.event)
    requires EndVerdict(s.transfers[key], StagedOf(s, key), io, lib) == None
    ensures ThreeNames(key.event, StagingOf(key)) && StagingOf(key) in s.inbox
  {
    InboxNamesDisjoint(key.event, key.event, key.id);
    PassedIsStaged(s.transfers[key], StagedOf(s, key), lib);
    hide EndRefusal, FinalName, BackupName, StagingName;
  }

  class ReceiverNode {
    var inbox: Inbox
    var transfers: map<Key, TransferState>
    const lib: Library

    ghost function State(): Store
      reads this
    {
      Store(inbox, transfers)
    }

    /** __init__ over an inbox left by an earlier run: recover_backups, no transfers. */
    constructor (inbox: Inbox, lib: Library, remains: map<string, set<string>>)
      ensures this.lib == lib && transfers == map[]
      ensures Recovered(this.inbox)
      ensures forall e :: ValidEventName(e) ==> Get(this.inbox, FinalName(e)) == Copy(inbox, e)
      ensures SameEvents(inbox, this.inbox)
    {
      this.inbox := inbox;
      this.transfers := map[];
      this.lib := lib;
      new;
      RecoverBackups(remains);
    }

    /** glob(".*.backup"), each entry once: drop a backup whose event is published, else publish it. */
    method RecoverBackups(remains: map<string, set<string>>)
      modifies this`inbox
      ensures Recovered(inbox) && SameEvents(old(inbox), inbox)
      ensures forall e :: ValidEventName(e) ==> Get(inbox, FinalName(e)) == Copy(old(inbox), e)
      ensures forall e :: ValidEventName(e) && BackupName(e) in inbox ==> BackupName(e) in remains
    {
      var left := set n | n in inbox && IsBackup(n) :: n;
      ghost var start := inbox;
      BackupsAreBackups(start);
      while left != {}
        invariant Recovering(start, inbox, left, remains)
        decreases left
      {
        var backup :| backup in left;
        var event := backup[1..|backup| - |".backup"|];
        BackupNameOf(backup);
        hide IsBackup, ValidEventName, BackupName, Cleared;
        ghost var before := inbox;
        if FinalName(event) in inbox {
          inbox := Cleared(inbox, {backup}, remains);
        } else {
          inbox := Replaced(inbox, backup, FinalName(event));
        }
        OneLess(start, before, inbox, left, event, remains);
        hide Recovering;
        left := left - {backup};
      }
    }

    /** dispatch's first act. */
    method PruneIdleTransfers(now: int, remains: map<string, set<string>>)
      modifies this
      ensures State() == Pruned(old(State()), now, remains)
    {
      ghost var start := State();
      ghost var removed: set<string> := {};
      assert inbox == Cleared(start.inbox, removed, remains);
      var left := transfers.Keys;
      while left != {}
        invariant left <= start.transfers.Keys
        invariant forall k :: k in transfers <==> k in start.transfers && (k in left || !Idle(start.transfers[k], now))
        invariant forall k :: k in transfers ==> transfers[k] == start.transfers[k]
        invariant inbox == Cleared(start.inbox, removed, remains)
        invariant forall k :: k in start.transfers && k !in left && Idle(start.transfers[k], now) ==>
                    StagingOf(k) in removed
        invariant forall n :: n in removed ==>
                    exists k :: k in start.transfers && Idle(start.transfers[k], now) && n == StagingOf(k)
        decreases left
      {
        hide StagingName, Idle, Cleared;
        var key :| key in left;
        left := left - {key};
        if Idle(transfers[key], now) {
          ClearedTwice(start.inbox, removed, {StagingOf(key)}, remains);
          removed := removed + {StagingOf(key)};
          inbox := Cleared(inbox, {StagingOf(key)}, remains);
          transfers := transfers - {key};
        }
      }
      assert removed == IdleNames(start, now);
    }

    method BeginTransfer(r: Request, now: int, faults: Faults) returns (response: Response)
      modifies this
      ensures (State(), response) == Begun(old(State()), r, now, faults)
    {
      if r.fileCount == 0 || r.fileCount > MAX_FILES { return Failure(FileLimit); }
      if r.totalBytes > MAX_TOTAL_BYTES { return Failure(ByteLimit); }
      if |r.key.event| + |r.key.id| + |"...part"| > 240 { return Failure(NameLimit); }
      if r.key !in transfers && |transfers| >= MAX_ACTIVE_TRANSFERS { return Failure(TooManyTransfers); }
      var others := transfers.Keys;
      while others != {}
        invariant others <= transfers.Keys
        invariant forall k :: k in transfers.Keys - others ==> !(k.event == r.key.event && k.id != r.key.id)
      {
        var k :| k in others;
        if k.event == r.key.event && k.id != r.key.id { return Failure(EventOwned); }
        others := others - {k};
      }
      var staging := StagingOf(r.key);
      inbox := Cleared(inbox, {staging}, faults.remains);
      if faults.io != Works || staging in inbox { return Failure(Raised); }
      inbox := inbox[staging := map[]];
      transfers := transfers[r.key := NewTransfer(r, now)];
      return Response(true, Started, 0);
    }

    method StoreChunk(r: Request, io: Io) returns (response: Response)
      requires r.key in transfers
      modifies this
      ensures (State(), response) == Chunked(old(State()), r, io, lib)
    {
      var staging := StagingOf(r.key);
      assert transfers[r.key := transfers[r.key]] == transfers
        && (staging in inbox ==> inbox[staging := inbox[staging]] == inbox);
      var parts := SafeRelative(r.path);
      if parts.None? { return Failure(UnsafePath); }
      var relative := Join(parts.value, '/');
      var refusal := FileAway(r, relative);
      if refusal.Some? { return refusal.value; }
      ghost var filed := transfers[r.key];
      hide SafeRelative, StagingName, Placed;
      response := Place(r, relative, io);
      ghost var placed := Placed(filed.files[relative], Get(FilesIn(Get(old(inbox), staging)), relative), r, io);
      assert transfers == old(transfers)[r.key := filed.(files := filed.files[relative := placed.0])];
    }

    /** store_chunk's first half: the path, its size, and the chunk's range. */
    method FileAway(r: Request, relative: string) returns (refusal: Option<Response>)
      requires r.key in transfers
      modifies this`transfers
      ensures var (t, refused) := Filed(old(transfers[r.key]), relative, r, lib);
              transfers == old(transfers)[r.key := t] && refusal == refused
    {
      var folded := lib.fold(relative);
      var state := transfers[r.key];
      assert transfers[r.key := state] == transfers;
      if folded in state.canonical && state.canonical[folded] != relative { return Some(Failure(PathCollision)); }
      state := state.(canonical := state.canonical[folded := relative]);
      transfers := transfers[r.key := state];
      if relative !in state.files {
        state := state.(files := state.files[relative := FileState(r.totalBytes, 0, [])]);
        transfers := transfers[r.key := state];
      }
      assert transfers == old(transfers)[r.key := state];
      var f := state.files[relative];
      if f.expectedBytes != r.totalBytes { return Some(Response(false, SizeChanged, f.receivedBytes)); }
      if r.offset + |r.data| > f.expectedBytes { return Some(Response(false, ChunkTooLong, f.receivedBytes)); }
      return None;
    }

    /** store_chunk's second half: the chunk against the staged file. */
    method Place(r: Request, relative: string, io: Io) returns (response: Response)
      requires r.key in transfers && relative in transfers[r.key].files
      modifies this
      ensures var state, staging := old(transfers[r.key]), StagingOf(r.key);
              var staged := FilesIn(Get(old(inbox), staging));
              var (f, copy, answer) := Placed(state.files[relative], Get(staged, relative), r, io);
              && transfers == old(transfers)[r.key := state.(files := state.files[relative := f])]
              && inbox == (if io == RaisesEarly(false) then old(inbox)
                           else old(inbox)[staging := if copy.Some? then staged[relative := copy.value] else staged])
              && response == answer
    {
      var staging := StagingOf(r.key);
      var state := transfers[r.key];
      var f := state.files[relative];
      assert state.files[relative := f] == state.files && transfers[r.key := state] == transfers;
      if io == RaisesEarly(false) { return Failure(Raised); }
      if staging !in inbox { inbox := inbox[staging := map[]]; }
      var staged := inbox[staging];
      var target := Get(staged, relative);
      assert inbox == old(inbox)[staging := staged] && (target.Some? ==> staged[relative := target.value] == staged);
      if io == RaisesEarly(true) { return Failure(Raised); }
      var end := r.offset + |r.data|;
      if r.offset < f.receivedBytes {
        if end > f.receivedBytes || target.None? { return Response(false, Overlap, f.receivedBytes); }
        if ReadAt(target.value, r.offset, |r.data|) != r.data { return Response(false, Conflict, f.receivedBytes); }
        return Response(true, Duplicate, f.receivedBytes);
      }
      if r.offset != f.receivedBytes { return Response(false, NonContiguous, f.receivedBytes); }
      var reached := if io.RaisesAfter? && io.written < |r.data| then r.data[..io.written] else r.data;
      inbox := inbox[staging := staged[relative := Written(target, r.offset, reached)]];
      UpdateTwice(old(inbox), staging, staged, inbox[staging]);
      if io.RaisesAfter? { return Failure(Raised); }
      f := FileState(f.expectedBytes, end, f.hashed + r.data);
      transfers := transfers[r.key := state.(files := state.files[relative := f])];
      return Response(true, Stored, end);
    }

    /** sum(item.received_bytes for item in files.values()) */
    method SumReceived(files: map<string, FileState>) returns (total: nat)
      ensures total == Sum(ReceivedSizes(files))
    {
      total := 0;
      var left := files;
      while left != map[]
        invariant total + Sum(ReceivedSizes(left)) == Sum(ReceivedSizes(files))
        decreases |left|
      {
        var p :| p in left;
        SumRemove(ReceivedSizes(left), p);
        assert ReceivedSizes(left) - {p} == ReceivedSizes(left - {p});
        TreeShrinks(left, p);
        total := total + left[p].receivedBytes;
        left := left - {p};
      }
      assert ReceivedSizes(left) == map[];
    }

    /** finish up to the swap: the refusal, if any. */
    method CheckEnd(key: Key, io: Io) returns (refusal: Option<Reason>, received: nat)
      requires key in transfers
      ensures refusal == EndVerdict(transfers[key], StagedOf(State(), key), io, lib)
      ensures received == ReceivedBytes(transfers[key])
    {
      hide ReceiverVerdict, CompleteFile, StagingName, Sum, ReceivedSizes;
      var state, staged := transfers[key], FilesIn(Get(inbox, StagingOf(key)));
      received := SumReceived(state.files);
      if |state.files| != state.expectedFiles { return Some(FileCountMismatch), received; }
      if received != state.expectedBytes { return Some(ByteCountMismatch), received; }
      if io.RaisesEarly? { return Some(Raised), received; }
      var left := state.files.Keys;
      while left != {}
        invariant left <= state.files.Keys
        invariant forall p :: p in state.files.Keys - left ==> CompleteFile(state.files[p], Get(staged, p))
      {
        var p :| p in left;
        if !CompleteFile(state.files[p], Get(staged, p)) { return Some(IncompleteFile), received; }
        left := left - {p};
      }
      var digests := map p | p in state.files :: lib.digest(state.files[p].hashed);
      assert digests == ReceivedDigests(state, lib);
      var error := VerifyChecksums(Get(staged, MANIFEST), digests, lib.decode);
      if error == Some(Undecodable) { return Some(Raised), received; }
      if error.Some? { return Some(BadChecksums(error.value)), received; }
      return if io.RaisesAfter? then Some(Raised) else None, received;
    }

    /** finish from the first removal of the backup to the first rename. */
    method MoveAside(key: Key, faults: SwapFaults, remains: map<string, set<string>>)
      returns (aside: bool, ghost run: seq<Swap>)
      requires ThreeNames(key.event, StagingOf(key)) && StagingOf(key) in inbox
      modifies this`inbox
      ensures SwapRun(key.event, StagingOf(key), faults.restore, run) && run[0].inbox == old(inbox)
      ensures run[|run| - 1] == Swap(if aside then MovingIn else Aborted, inbox)
      ensures aside <==> GetsAside(old(inbox), key.event, faults, remains)
      ensures StagingOf(key) in inbox && inbox[StagingOf(key)] == old(inbox[StagingOf(key)])
      ensures aside ==> FinalName(key.event) !in inbox
    {
      var event, staging := key.event, StagingOf(key);
      var final, backup := FinalName(event), BackupName(event);
      run := [Swap(ClearingBackup, inbox)];
      ClearedIsPartly(inbox, backup, remains);
      inbox := Cleared(inbox, {backup}, remains);
      run := Extended(event, staging, faults.restore, run, Swap(MovingAside, inbox));
      if faults.firstSync || (final in inbox && (faults.aside || !CanReplace(inbox, final, backup))) {
        run := Extended(event, staging, faults.restore, run, Swap(Aborted, inbox));
        return false, run;
      }
      if final in inbox {
        inbox := Replaced(inbox, final, backup);
      }
      run := Extended(event, staging, faults.restore, run, Swap(MovingIn, inbox));
      return true, run;
    }

    /** finish from the first removal of the backup on, with the exception handler around the second rename. */
    method SwapIn(key: Key, faults: SwapFaults, remains: map<string, set<string>>)
      returns (published: bool, ghost run: seq<Swap>)
      requires ThreeNames(key.event, StagingOf(key)) && StagingOf(key) in inbox
      modifies this`inbox
      ensures SwapRun(key.event, StagingOf(key), faults.restore, run) && run[0].inbox == old(inbox)
      ensures var pc := SwapEnd(old(inbox), key.event, faults, remains);
              && run[|run| - 1] == Swap(pc, inbox) && (published <==> pc == Published)
              && (Moved(pc) ==> Get(inbox, FinalName(key.event)) == Some(old(inbox[StagingOf(key)])))
              && (Moved(pc) && BackupName(key.event) !in remains ==> BackupName(key.event) !in inbox)
    {
      var event, staging := key.event, StagingOf(key);
      var final, backup := FinalName(event), BackupName(event);
      var aside;
      aside, run := MoveAside(key, faults, remains);
      if !aside {
        return false, run;
      }
      hide GetsAside, StagingName, FinalName, BackupName;
      if faults.moveIn {
        run := Extended(event, staging, faults.restore, run, Swap(Restoring, inbox));
        if backup in inbox && final !in inbox && !faults.restore {
          inbox := Replaced(inbox, backup, final);
        }
        run := Extended(event, staging, faults.restore, run, Swap(Aborted, inbox));
        return false, run;
      }
      inbox := Replaced(inbox, staging, final);
      run := Extended(event, staging, faults.restore, run, Swap(DroppingBackup, inbox));
      ClearedIsPartly(inbox, backup, remains);
      inbox := Cleared(inbox, {backup}, remains);
      run := Extended(event, staging, faults.restore, run,
                      Swap(if faults.lastSync then Unsynced else Published, inbox));
      return !faults.lastSync, run;
    }

    /** finish: refused exactly as EndVerdict says, otherwise one swap from the present store. */
    method Finish(key: Key, faults: Faults, swap: SwapFaults) returns (response: Response, ghost run: seq<Swap>)
      requires key in transfers && ValidEventName(key.event)
      modifies this
      ensures match Ended(old(State()), key, faults.io, lib)
              case Some(ended) => (State(), response) == ended
              case None => Swapped(old(State()), key, swap, faults.remains, run, State(), response)
    {
      hide SwapRun, GetsAside, EndVerdict, FinalName, BackupName, StagingName, ReceivedBytes, ThreeNames,
           ValidEventName;
      var refusal, received := CheckEnd(key, faults.io);
      run := [];
      if refusal == Some(Raised) { return Failure(Raised), run; }
      if refusal.Some? { return Response(false, refusal.value, received), run; }
      PassedCanSwap(State(), key, faults.io, lib);
      var published: bool;
      published, run := SwapIn(key, swap, faults.remains);
      if !published { return Failure(Raised), run; }
      transfers := transfers - {key};
      return Response(true, Complete, received), run;
    }

    /** handle_request */
    method HandleRequest(r: Request, now: int, faults: Faults, swap: SwapFaults) returns (response: Response)
      modifies this
      ensures Served(old(State()), r, now, faults, swap, lib, State(), response)
    {
      hide Swapped;
      PruneIdleTransfers(now, faults.remains);
      if !ValidEventName(r.key.event) || !ValidEventName(r.key.id) { return Failure(UnsafeName); }
      if r.opcode == Begin {
        response := BeginTransfer(r, now, faults);
        return;
      }
      if r.key !in transfers { return Failure(NoTransfer); }
      match r.opcode
      case FileChunk =>
        transfers := transfers[r.key := transfers[r.key].(lastActivity := now)];
        response := StoreChunk(r, faults.io);
      case End =>
        transfers := transfers[r.key := transfers[r.key].(lastActivity := now)];
        ghost var run;
        response, run := Finish(r.key, faults, swap);
      case _ =>
        response := Failure(UnknownOpcode);
    }
  }

  /** Removing entries in two rounds is removing them in one. */
  lemma ClearedTwice(inbox: Inbox, names: set<string>, more: set<string>, remains: map<string, set<string>>)
    ensures Cleared(Cleared(inbox, names, remains), more, remains) == Cleared(inbox, names + more, remains)
  {
    assert forall n :: n in inbox && n in remains ==>
      Kept(Kept(inbox[n], remains[n]), remains[n]) == Kept(inbox[n], remains[n]);
  }

  lemma TreeShrinks<V>(m: map<string, V>, p: string)
    requires p in m
    ensures |m - {p}| < |m|
  {
    assert m == (m - {p})[p := m[p]];
  }

  lemma Extended(event: string, staging: string, mayFail: bool, run: seq<Swap>, next: Swap) returns (longer: seq<Swap>)
    requires SwapRun(event, staging, mayFail, run) && SwapStep(event, staging, mayFail, run[|run| - 1], next)
    ensures SwapRun(event, staging, mayFail, longer) && longer[0] == run[0] && longer[|longer| - 1] == next
  {
    hide SwapStep;
    longer := run + [next];
  }

  /** Whether the way is free for the new copy. */
  predicate GetsAside(inbox: Inbox, event: string, faults: SwapFaults, remains: map<string, set<string>>)
  {
    var cleared := Cleared(inbox, {BackupName(event)}, remains);
    && !faults.firstSync
    && (FinalName(event) in cleared ==> !faults.aside && CanReplace(cleared, FinalName(event), BackupName(event)))
  }

  predicate IsBackup(name: string)
  {
    |name| > 8 && name[0] == '.' && IsSuffix(name, ".backup") && ValidEventName(name[1..|name| - 7])
  }

  lemma BackupNameOf(name: string)
    requires IsBackup(name)
    ensures BackupName(name[1..|name| - 7]) == name && ValidEventName(name[1..|name| - 7])
  {
    var event := name[1..|name| - 7];
    assert name == [name[0]] + event + name[|name| - 7..];
  }

  lemma BackupsAreBackups(inbox: Inbox)
    ensures forall e :: ValidEventName(e) && BackupName(e) in inbox ==> IsBackup(BackupName(e))
  {
    forall e | ValidEventName(e) ensures IsBackup(BackupName(e)) {
      assert BackupName(e)[1..|BackupName(e)| - 7] == e;
    }
  }

  predicate EventEntry(name: string) { ValidEventName(name) || IsBackup(name) }

  /** Every event keeps its copy and every other entry is untouched. */
  ghost predicate SameEvents(a: Inbox, b: Inbox)
  {
    && (forall e :: ValidEventName(e) ==> Copy(b, e) == Copy(a, e))
    && (forall n :: !EventEntry(n) ==> Get(b, n) == Get(a, n))
  }

  lemma ClearedIsPartly(inbox: Inbox, name: string, remains: map<string, set<string>>)
    ensures PartlyRemoved(inbox, Cleared(inbox, {name}, remains), name)
  {
    if name !in inbox || name !in remains {
      assert Cleared(inbox, {name}, remains) == inbox - {name};
    }
  }

  lemma RecoveredOne(start: Inbox, a: Inbox, b: Inbox, event: string, remains: map<string, set<string>>)
    requires SameEvents(start, a) && ValidEventName(event) && IsBackup(BackupName(event))
    requires BackupName(event) in a
    requires b == if FinalName(event) in a then Cleared(a, {BackupName(event)}, remains)
                  else Replaced(a, BackupName(event), FinalName(event))
    ensures SameEvents(start, b)
    ensures forall n :: n in b && n != FinalName(event) ==> n in a && (n == BackupName(event) ==> n in remains)
    ensures FinalName(event) in b && !IsBackup(FinalName(event))
    ensures forall n :: n in a && n != BackupName(event) ==> n in b
  {
    ClearedIsPartly(a, BackupName(event), remains);
    assert RecoverStep(event, a, b);
    forall e | ValidEventName(e) ensures Copy(b, e) == Copy(a, e) { RecoverStepKeepsCopies(event, a, b, e); }
    InboxNamesDisjoint(event, event, "");
    assert Alphanumeric(event[0]);
    hide BackupName, ValidEventName, Copy;
  }

  /** recover_backups with these backups still to visit. */
  ghost predicate Recovering(start: Inbox, inbox: Inbox, left: set<string>, remains: map<string, set<string>>)
  {
    && SameEvents(start, inbox)
    && (forall e :: ValidEventName(e) && BackupName(e) in inbox && BackupName(e) !in left ==>
          BackupName(e) in remains && FinalName(e) in inbox)
    && forall n :: n in left ==> IsBackup(n) && n in inbox
  }

  lemma OneLess(start: Inbox, a: Inbox, b: Inbox, left: set<string>, event: string, remains: map<string, set<string>>)
    requires Recovering(start, a, left, remains) && BackupName(event) in left && ValidEventName(event)
    requires b == if FinalName(event) in a then Cleared(a, {BackupName(event)}, remains)
                  else Replaced(a, BackupName(event), FinalName(event))
    ensures Recovering(start, b, left - {BackupName(event)}, remains)
  {
    RecoveredOne(start, a, b, event, remains);
    hide SameEvents, Cleared, Replaced;
    forall e | ValidEventName(e) && BackupName(e) in b && BackupName(e) !in left - {BackupName(event)}
      ensures BackupName(e) in remains && FinalName(e) in b
    {
      InboxNamesDisjoint(event, e, "");
      if FinalName(e) == FinalName(event) { assert e == event; }
      InboxNamesDisjoint(e, event, "");
    }
    hide BackupName, ValidEventName, IsBackup;
  }
}
