/**
 The converse of safety: a script delivered in order to a receiver with room for it is accepted request by
 request, and its END reaches the swap with the whole source staged.
 */
module UploadCompletion {
  import opened Prelude
  import opened ReceiverNames
  import opened ChecksumManifest
  import opened Receiver
  import opened UploadSender
  import opened ReceiverSafety

  /** What a source must satisfy for the receiver to take it. */
  ghost predicate Acceptable(key: Key, order: seq<string>, files: Tree, lib: Library)
  {
    && ValidKey(key) && PlainId(key.id) && Lists(order, files.Keys) && NormalSource(files)
    && FoldsApart(files, lib)
    && ReceiverVerdict(Get(files, MANIFEST), Digests(files, lib.digest), lib.decode) == None
  }

  // ---- one transaction ----

  function Whole(content: Bytes): FileState { FileState(|content|, |content|, content) }

  ghost function WholeFiles(files: Tree, done: set<string>): (m: map<string, FileState>)
    requires done <= files.Keys
    ensures m.Keys == done
  {
    map p | p in done :: Whole(files[p])
  }

  ghost function Copies(files: Tree, done: set<string>): (m: Tree)
    requires done <= files.Keys
    ensures m.Keys == done
  {
    map p | p in done :: files[p]
  }

  /** `done` files are complete and, if a path is given, `at` bytes of that one have arrived. */
  ghost predicate Arrived(t: TransferState, staged: Tree, files: Tree, done: set<string>, path: string, at: nat,
                          lib: Library)
    requires path in files && at <= |files[path]| && done <= files.Keys
  {
    var content := files[path];
    && t.expectedFiles == |files| && t.expectedBytes == TreeBytes(files)
    && path !in done
    && t.files == WholeFiles(files, done)[path := FileState(|content|, at, content[..at])]
    && staged == Copies(files, done)[path := content[..at]]
    && CanonicalOk(t, files, lib)
  }

  ghost predicate Finished(t: TransferState, staged: Tree, files: Tree, done: set<string>, lib: Library)
    requires done <= files.Keys
  {
    && t.expectedFiles == |files| && t.expectedBytes == TreeBytes(files)
    && t.files == WholeFiles(files, done)
    && staged == Copies(files, done)
    && CanonicalOk(t, files, lib)
  }

  ghost predicate CanonicalOk(t: TransferState, files: Tree, lib: Library)
  {
    forall f :: f in t.canonical ==> t.canonical[f] in files && lib.fold(t.canonical[f]) == f
  }

  ghost predicate FoldsApart(files: Tree, lib: Library)
  {
    forall p, q :: p in files && q in files && lib.fold(p) == lib.fold(q) ==> p == q
  }

  lemma AppendWrites(content: Bytes, at: nat, end: nat)
    requires at <= end <= |content|
    ensures Written(Some(content[..at]), at, content[at..end]) == content[..end]
    ensures at == 0 ==> Written(None, at, content[at..end]) == content[..end]
  {
    assert content[..at] + content[at..end] == content[..end];
  }

  lemma ChunkIsStored(t: TransferState, staged: Tree, files: Tree, done: set<string>, r: Request, lib: Library)
    requires done <= files.Keys && NormalSource(files) && FoldsApart(files, lib)
    requires r.opcode == FileChunk && r.path in files && r.offset + |r.data| <= |files[r.path]|
    requires r.totalBytes == |files[r.path]| && r.data == files[r.path][r.offset..r.offset + |r.data|]
    requires Arrived(t, staged, files, done, r.path, r.offset, lib)
          || (r.offset == 0 && r.path !in done && Finished(t, staged, files, done, lib))
    ensures var end, filed := r.offset + |r.data|, Filed(t, r.path, r, lib).0;
            ChunkStored(t, Some(staged), r, Works, lib)
            == (filed.(files := filed.files[r.path := FileState(|files[r.path]|, end, files[r.path][..end])]),
                Some(staged[r.path := files[r.path][..end]]), Response(true, Stored, end))
  {
    assert NormalPath(r.path);
    hide NormalPath, NormalSource, TreeBytes, Filed, Placed, FoldsApart, CanonicalOk, WholeFiles, Copies, Arrived,
         Finished, ChunkStored;
    NormalChunk(t, Some(staged), r, Works, lib);
    FiledArrives(t, staged, files, done, r, lib);
    StagedArrives(t, staged, files, done, r.path, r.offset, [], lib);
    PlacedArrives(files[r.path], r, Get(staged, r.path));
  }

  /** A chunk at the expected offset is stored. */
  lemma ChunkArrives(t: TransferState, staged: Tree, files: Tree, done: set<string>, r: Request, lib: Library)
    requires done <= files.Keys && NormalSource(files) && FoldsApart(files, lib)
    requires r.opcode == FileChunk && r.path in files && r.offset + |r.data| <= |files[r.path]|
    requires r.totalBytes == |files[r.path]| && r.data == files[r.path][r.offset..r.offset + |r.data|]
    requires Arrived(t, staged, files, done, r.path, r.offset, lib)
          || (r.offset == 0 && r.path !in done && Finished(t, staged, files, done, lib))
    ensures var (t', staged', response) := ChunkStored(t, Some(staged), r, Works, lib);
            && staged'.Some? && Arrived(t', staged'.value, files, done, r.path, r.offset + |r.data|, lib)
            && response == Response(true, Stored, r.offset + |r.data|)
            && t'.lastActivity == t.lastActivity
  {
    hide NormalSource, TreeBytes, Filed, FoldsApart, CanonicalOk, WholeFiles, Copies, ChunkStored;
    assert t.expectedFiles == |files| && t.expectedBytes == TreeBytes(files);
    hide Arrived, Finished;
    var end := r.offset + |r.data|;
    ChunkIsStored(t, staged, files, done, r, lib);
    FiledArrives(t, staged, files, done, r, lib);
    StagedArrives(t, staged, files, done, r.path, r.offset, files[r.path][..end], lib);
    NotedArrives(Filed(t, r.path, r, lib).0, files, done, r.path, r.offset, end, lib);
  }

  lemma NotedArrives(filed: TransferState, files: Tree, done: set<string>, path: string, at: nat, end: nat,
                     lib: Library)
    requires done <= files.Keys && path in files && at <= end <= |files[path]| && path !in done
    requires filed.expectedFiles == |files| && filed.expectedBytes == TreeBytes(files) && CanonicalOk(filed, files, lib)
    requires filed.files == WholeFiles(files, done)[path := FileState(|files[path]|, at, files[path][..at])]
    ensures var f := FileState(|files[path]|, end, files[path][..end]);
            Arrived(filed.(files := filed.files[path := f]), Copies(files, done)[path := files[path][..end]], files,
                    done, path, end, lib)
  {
    hide TreeBytes, CanonicalOk, WholeFiles, Copies, Arrived;
    var f := FileState(|files[path]|, end, files[path][..end]);
    UpdateTwice(WholeFiles(files, done), path, FileState(|files[path]|, at, files[path][..at]), f);
    SameCanonical(filed, filed.(files := filed.files[path := f]), files, lib);
    NowArrived(filed.(files := filed.files[path := f]), files, done, path, end, lib);
  }

  lemma NowArrived(t: TransferState, files: Tree, done: set<string>, path: string, at: nat, lib: Library)
    requires done <= files.Keys && path in files && at <= |files[path]| && path !in done
    requires t.expectedFiles == |files| && t.expectedBytes == TreeBytes(files) && CanonicalOk(t, files, lib)
    requires t.files == WholeFiles(files, done)[path := FileState(|files[path]|, at, files[path][..at])]
    ensures Arrived(t, Copies(files, done)[path := files[path][..at]], files, done, path, at, lib)
  {
  }

  lemma StagedArrives(t: TransferState, staged: Tree, files: Tree, done: set<string>, path: string, at: nat,
                      bytes: Bytes, lib: Library)
    requires done <= files.Keys && path in files && at <= |files[path]|
    requires Arrived(t, staged, files, done, path, at, lib)
          || (at == 0 && path !in done && Finished(t, staged, files, done, lib))
    ensures Get(staged, path) == Some(files[path][..at]) || (Get(staged, path) == None && at == 0)
    ensures staged[path := bytes] == Copies(files, done)[path := bytes]
  {
    UpdateTwice(Copies(files, done), path, files[path][..at], bytes);
  }

  lemma PlacedArrives(content: Bytes, r: Request, staged: Option<Bytes>)
    requires r.offset + |r.data| <= |content| && r.data == content[r.offset..r.offset + |r.data|]
    requires staged == Some(content[..r.offset]) || (staged == None && r.offset == 0)
    ensures Placed(FileState(|content|, r.offset, content[..r.offset]), staged, r, Works)
         == (FileState(|content|, r.offset + |r.data|, content[..r.offset + |r.data|]),
             Some(content[..r.offset + |r.data|]), Response(true, Stored, r.offset + |r.data|))
  {
    AppendWrites(content, r.offset, r.offset + |r.data|);
    assert content[..r.offset] + r.data == content[..r.offset + |r.data|];
  }

  lemma SameCanonical(a: TransferState, b: TransferState, files: Tree, lib: Library)
    requires CanonicalOk(a, files, lib) && a.canonical == b.canonical
    ensures CanonicalOk(b, files, lib)
  {
  }

  lemma FiledArrives(t: TransferState, staged: Tree, files: Tree, done: set<string>, r: Request, lib: Library)
    requires done <= files.Keys && FoldsApart(files, lib)
    requires r.path in files && r.offset + |r.data| <= |files[r.path]| && r.totalBytes == |files[r.path]|
    requires Arrived(t, staged, files, done, r.path, r.offset, lib)
          || (r.offset == 0 && r.path !in done && Finished(t, staged, files, done, lib))
    ensures var (filed, refusal) := Filed(t, r.path, r, lib);
            && refusal == None && r.path !in done && CanonicalOk(filed, files, lib)
            && filed.lastActivity == t.lastActivity
            && filed.expectedFiles == t.expectedFiles && filed.expectedBytes == t.expectedBytes
            && filed.files == WholeFiles(files, done)
                                [r.path := FileState(|files[r.path]|, r.offset, files[r.path][..r.offset])]
  {
    hide TreeBytes;
  }

  // ---- the receiver ----

  ghost predicate AllPlain(s: Store)
  {
    forall k :: k in s.transfers ==> PlainId(k.id)
  }

  /** The store after these requests, the j-th handled at clock(i + j), if every one succeeds. */
  ghost function RunFrom(s: Store, requests: seq<Request>, i: nat, clock: nat -> int, lib: Library): Option<Store>
    decreases |requests|
  {
    if requests == [] then Some(s)
    else
      var handled := Handled(s, requests[0], clock(i), NoFaults, lib);
      if handled.Some? && handled.value.1.success then RunFrom(handled.value.0, requests[1..], i + 1, clock, lib)
      else None
  }

  lemma {:induction false} RunConcat(s: Store, a: seq<Request>, b: seq<Request>, i: nat, clock: nat -> int,
                                     lib: Library)
    ensures RunFrom(s, a + b, i, clock, lib)
         == var mid := RunFrom(s, a, i, clock, lib);
            if mid.Some? then RunFrom(mid.value, b, i + |a|, clock, lib) else None
    decreases |a|
  {
    hide Handled;
    if a == [] {
      assert a + b == b;
    } else {
      assert (a + b)[1..] == a[1..] + b;
      var handled := Handled(s, a[0], clock(i), NoFaults, lib);
      if handled.Some? { RunConcat(handled.value.0, a[1..], b, i + 1, clock, lib); }
    }
  }

  /** The transaction is live, was last touched at `at`, and every staging name is unambiguous. */
  ghost predicate Live(s: Store, key: Key, at: int)
  {
    && key in s.transfers && StagingOf(key) in s.inbox && s.transfers[key].lastActivity == at
    && AllPlain(s) && ValidKey(key) && PlainId(key.id)
  }

  lemma PrunedKeepsLive(s: Store, key: Key, at: int, now: int, remains: map<string, set<string>>)
    requires Live(s, key, at) && now <= at + TRANSFER_IDLE_SECONDS
    ensures var p := Pruned(s, now, remains);
            && key in p.transfers && p.transfers[key] == s.transfers[key] && AllPlain(p)
            && StagingOf(key) in p.inbox && p.inbox[StagingOf(key)] == s.inbox[StagingOf(key)]
  {
    forall j | j in s.transfers && Idle(s.transfers[j], now) ensures StagingOf(j) != StagingOf(key) {
      if StagingOf(j) == StagingOf(key) { StagingNameInjective(j.event, j.id, key.event, key.id); }
    }
  }

  lemma ChunkHandled(s: Store, r: Request, at: int, now: int, lib: Library)
    requires Live(s, r.key, at) && now <= at + TRANSFER_IDLE_SECONDS && r.opcode == FileChunk
    ensures var h := Handled(s, r, now, NoFaults, lib);
            var (t, staged, response) := ChunkStored(s.transfers[r.key].(lastActivity := now),
                                                     Some(s.inbox[StagingOf(r.key)]), r, Works, lib);
            && h.Some? && h.value.1 == response && staged.Some?
            && (t.lastActivity == now ==> Live(h.value.0, r.key, now))
            && r.key in h.value.0.transfers && h.value.0.transfers[r.key] == t
            && StagingOf(r.key) in h.value.0.inbox && h.value.0.inbox[StagingOf(r.key)] == staged.value
  {
    PrunedKeepsLive(s, r.key, at, now, map[]);
    ChunkKeepsStaging(s.transfers[r.key].(lastActivity := now), Some(s.inbox[StagingOf(r.key)]), r, Works, lib);
    hide Pruned, StagingName, ChunkStored, ValidKey, PlainId;
  }

  /** Requests never arrive more than the idle limit apart. */
  ghost predicate Steady(clock: nat -> int)
  {
    forall i: nat, j: nat :: j == i + 1 ==> clock(j) <= clock(i) + TRANSFER_IDLE_SECONDS
  }

  /** `at` bytes of a file are in, after the files in `done`; a file not begun is one with no bytes in. */
  ghost predicate Receiving(s: Store, key: Key, files: Tree, done: set<string>, path: string, at: nat, now: int,
                            lib: Library)
  {
    && done <= files.Keys && path in files && at <= |files[path]| && path !in done
    && NormalSource(files) && FoldsApart(files, lib)
    && Live(s, key, now)
    && var t, staged := s.transfers[key], s.inbox[StagingOf(key)];
       Arrived(t, staged, files, done, path, at, lib) || (at == 0 && Finished(t, staged, files, done, lib))
  }

  ghost predicate Holding(s: Store, key: Key, files: Tree, done: set<string>, now: int, lib: Library)
  {
    && done <= files.Keys && NormalSource(files) && FoldsApart(files, lib) && Live(s, key, now)
    && Finished(s.transfers[key], s.inbox[StagingOf(key)], files, done, lib)
  }

  lemma {:induction false} ChunksRun(s: Store, key: Key, files: Tree, done: set<string>, path: string, chunk: nat,
                                     offset: nat, i: nat, clock: nat -> int, lib: Library) returns (s': Store)
    requires chunk > 0 && i > 0 && Steady(clock)
    requires Receiving(s, key, files, done, path, offset, clock(i - 1), lib) && offset < |files[path]|
    ensures var requests := ChunksFrom(key, path, files[path], chunk, offset);
            && RunFrom(s, requests, i, clock, lib) == Some(s')
            && Holding(s', key, files, done + {path}, clock(i + |requests| - 1), lib)
    decreases |files[path]| - offset
  {
    hide Receiving, Holding, Handled, Arrived, Finished, Live;
    ReceivingFits(s, key, files, done, path, offset, clock(i - 1), lib);
    var end := ChunkEnd(files[path], offset, chunk);
    var r := ChunkRequest(key, path, files[path], offset, end);
    NextArrival(clock, i);
    hide Steady;
    var h := Handled(s, r, clock(i), NoFaults, lib);
    OneChunkRun(s, r, files, done, clock(i - 1), clock(i), lib);
    if end < |files[path]| {
      s' := ChunksRun(h.value.0, key, files, done, path, chunk, end, i + 1, clock, lib);
    } else {
      s' := h.value.0;
      LastByte(s', key, files, done, path, clock(i), lib);
      assert ChunksFrom(key, path, files[path], chunk, end) == [];
    }
  }

  lemma NextArrival(clock: nat -> int, i: nat)
    requires Steady(clock) && i > 0
    ensures clock(i) <= clock(i - 1) + TRANSFER_IDLE_SECONDS
  {
  }

  lemma ReceivingFits(s: Store, key: Key, files: Tree, done: set<string>, path: string, at: nat, now: int, lib: Library)
    requires Receiving(s, key, files, done, path, at, now, lib)
    ensures path in files && at <= |files[path]| && path !in done && done <= files.Keys
  {
  }

  lemma FirstThen(s: Store, first: Request, rest: seq<Request>, i: nat, clock: nat -> int, lib: Library)
    requires var h := Handled(s, first, clock(i), NoFaults, lib); h.Some? && h.value.1.success
    ensures RunFrom(s, [first] + rest, i, clock, lib)
         == RunFrom(Handled(s, first, clock(i), NoFaults, lib).value.0, rest, i + 1, clock, lib)
  {
    hide Handled;
    assert ([first] + rest)[1..] == rest;
  }

  lemma LastByte(s: Store, key: Key, files: Tree, done: set<string>, path: string, now: int, lib: Library)
    requires path in files && Receiving(s, key, files, done, path, |files[path]|, now, lib)
    requires Arrived(s.transfers[key], s.inbox[StagingOf(key)], files, done, path, |files[path]|, lib)
    ensures Holding(s, key, files, done + {path}, now, lib)
  {
    ArrivedFinishes(s.transfers[key], s.inbox[StagingOf(key)], files, done, path, lib);
  }

  lemma TouchedArrives(t: TransferState, staged: Tree, files: Tree, done: set<string>, path: string, at: nat, now: int,
                       lib: Library)
    requires done <= files.Keys && path in files && at <= |files[path]|
    ensures Arrived(t, staged, files, done, path, at, lib) ==>
              Arrived(t.(lastActivity := now), staged, files, done, path, at, lib)
    ensures Finished(t, staged, files, done, lib) ==> Finished(t.(lastActivity := now), staged, files, done, lib)
  {
  }

  lemma OneChunkRun(s: Store, r: Request, files: Tree, done: set<string>, at: int, now: int, lib: Library)
    requires Receiving(s, r.key, files, done, r.path, r.offset, at, lib) && now <= at + TRANSFER_IDLE_SECONDS
    requires r.opcode == FileChunk && r.offset + |r.data| <= |files[r.path]|
    requires r.totalBytes == |files[r.path]| && r.data == files[r.path][r.offset..r.offset + |r.data|]
    ensures var h := Handled(s, r, now, NoFaults, lib);
            && h.Some? && h.value.1.success
            && Receiving(h.value.0, r.key, files, done, r.path, r.offset + |r.data|, now, lib)
            && Arrived(h.value.0.transfers[r.key], h.value.0.inbox[StagingOf(r.key)], files, done, r.path,
                       r.offset + |r.data|, lib)
  {
    var t, staged := s.transfers[r.key], s.inbox[StagingOf(r.key)];
    TouchedArrives(t, staged, files, done, r.path, r.offset, now, lib);
    ChunkArrives(t.(lastActivity := now), staged, files, done, r, lib);
    ChunkHandled(s, r, at, now, lib);
    hide Arrived, Finished, Handled, FoldsApart, NormalSource, ChunkStored;
  }

  /** A file whose last byte has arrived is one more finished file. */
  lemma ArrivedFinishes(t: TransferState, staged: Tree, files: Tree, done: set<string>, path: string, lib: Library)
    requires done <= files.Keys && path in files
    requires Arrived(t, staged, files, done, path, |files[path]|, lib)
    ensures Finished(t, staged, files, done + {path}, lib)
  {
    hide CanonicalOk, TreeBytes;
    assert files[path][..|files[path]|] == files[path];
    assert WholeFiles(files, done)[path := Whole(files[path])] == WholeFiles(files, done + {path});
    assert Copies(files, done)[path := files[path]] == Copies(files, done + {path});
  }

  lemma StartsReceiving(s: Store, key: Key, files: Tree, done: set<string>, path: string, now: int, lib: Library)
    requires path in files && path !in done && Holding(s, key, files, done, now, lib)
    ensures Receiving(s, key, files, done, path, 0, now, lib)
  {
    hide Finished, Arrived, Live;
  }

  lemma {:induction false} FileRun(s: Store, key: Key, files: Tree, done: set<string>, path: string, chunk: nat,
                                   i: nat, clock: nat -> int, lib: Library) returns (s': Store)
    requires chunk > 0 && i > 0 && Steady(clock) && path in files && path !in done
    requires Holding(s, key, files, done, clock(i - 1), lib)
    ensures var requests := FileRequests(key, path, files[path], chunk);
            && RunFrom(s, requests, i, clock, lib) == Some(s')
            && Holding(s', key, files, done + {path}, clock(i + |requests| - 1), lib)
  {
    hide Steady, Receiving, Holding, Handled, Live, Finished, Arrived, RunFrom;
    StartsReceiving(s, key, files, done, path, clock(i - 1), lib);
    if files[path] == [] {
      s' := EmptyFileRun(s, key, files, done, path, i, clock, lib);
    } else {
      s' := ChunksRun(s, key, files, done, path, chunk, 0, i, clock, lib);
    }
  }

  lemma EmptyFileRun(s: Store, key: Key, files: Tree, done: set<string>, path: string, i: nat, clock: nat -> int,
                     lib: Library) returns (s': Store)
    requires i > 0 && Steady(clock) && path in files && files[path] == []
    requires Receiving(s, key, files, done, path, 0, clock(i - 1), lib)
    ensures RunFrom(s, [ChunkRequest(key, path, files[path], 0, 0)], i, clock, lib) == Some(s')
    ensures Holding(s', key, files, done + {path}, clock(i), lib)
  {
    var r := ChunkRequest(key, path, files[path], 0, 0);
    hide Receiving, Holding, Handled, Live, Finished, Arrived;
    NextArrival(clock, i);
    OneChunkRun(s, r, files, done, clock(i - 1), clock(i), lib);
    s' := Handled(s, r, clock(i), NoFaults, lib).value.0;
    LastByte(s', key, files, done, path, clock(i), lib);
    FirstThen(s, r, [], i, clock, lib);
    assert [r] + [] == [r];
  }

  lemma {:induction false} FilesRun(s: Store, key: Key, order: seq<string>, files: Tree, chunk: nat, n: nat,
                                    i: nat, clock: nat -> int, lib: Library) returns (s': Store)
    requires chunk > 0 && i > 0 && Steady(clock) && Distinct(order) && n <= |order|
    requires forall p :: p in order ==> p in files
    requires Holding(s, key, files, {}, clock(i - 1), lib)
    ensures var requests := AllFileRequests(key, order[..n], files, chunk);
            && RunFrom(s, requests, i, clock, lib) == Some(s')
            && Holding(s', key, files, (set p | p in order[..n]), clock(i + |requests| - 1), lib)
  {
    hide Holding, Steady, RunFrom, FileRequests;
    if n == 0 {
      NoneHeld(s, key, files, order, clock(i - 1), lib);
      s' := s;
      NothingRun(s, i, clock, lib);
    } else {
      var front, last := order[..n - 1], order[n - 1];
      LastOfOrder(order, n);
      var before := AllFileRequests(key, front, files, chunk);
      assert AllFileRequests(key, order[..n], files, chunk) == before + FileRequests(key, last, files[last], chunk);
      hide AllFileRequests, Distinct;
      var mid := FilesRun(s, key, order, files, chunk, n - 1, i, clock, lib);
      s' := FileRun(mid, key, files, (set p | p in front), last, chunk, i + |before|, clock, lib);
      RunConcat(s, before, FileRequests(key, last, files[last], chunk), i, clock, lib);
      OneMoreDone(front, last, order[..n]);
    }
  }

  lemma LastOfOrder(order: seq<string>, n: nat)
    requires Distinct(order) && 0 < n <= |order|
    ensures order[..n][..n - 1] == order[..n - 1] && order[..n] == order[..n - 1] + [order[n - 1]]
    ensures order[n - 1] in order && order[n - 1] !in order[..n - 1]
  {
  }

  lemma OneMoreDone(front: seq<string>, last: string, all: seq<string>)
    requires all == front + [last]
    ensures (set p | p in all) == (set p | p in front) + {last}
  {
  }

  lemma NoneHeld(s: Store, key: Key, files: Tree, order: seq<string>, now: int, lib: Library)
    requires Holding(s, key, files, {}, now, lib)
    ensures Holding(s, key, files, (set p | p in order[..0]), now, lib)
  {
    assert (set p | p in order[..0]) == {};
  }

  lemma NothingRun(s: Store, i: nat, clock: nat -> int, lib: Library)
    ensures RunFrom(s, [], i, clock, lib) == Some(s)
  {
  }

  // ---- END ----

  lemma FinishedPasses(t: TransferState, staged: Tree, files: Tree, lib: Library)
    requires Finished(t, staged, files, files.Keys, lib)
    requires ReceiverVerdict(Get(files, MANIFEST), Digests(files, lib.digest), lib.decode) == None
    ensures staged == files && EndRefusal(t, staged, lib) == None
  {
    assert staged == files;
    assert ReceivedSizes(t.files) == Sizes(files);
    assert ReceivedDigests(t, lib) == Digests(files, lib.digest);
    assert |t.files| == |t.files.Keys| && |files| == |files.Keys|;
    hide ReceiverVerdict, Sum;
  }

  /** END passes every check with exactly these files staged. */
  ghost predicate ReachesSwap(s: Store, r: Request, now: int, files: Tree, lib: Library)
  {
    && Handled(s, r, now, NoFaults, lib) == None
    && Get(Pruned(s, now, map[]).inbox, StagingOf(r.key)) == Some(files)
  }

  /** Room for one more transaction of this event within the receiver's limits. */
  ghost predicate Admitted(s: Store, begin: Request, now: int)
  {
    AllPlain(s) && BeginRefusal(Pruned(s, now, map[]), begin) == None
  }

  /** All but END of a script that arrives in order, however slowly within the idle limit, is accepted. */
  lemma LosslessScriptHolds(s: Store, key: Key, order: seq<string>, files: Tree, chunk: nat,
                            clock: nat -> int, lib: Library) returns (s': Store)
    requires chunk > 0 && Steady(clock) && Acceptable(key, order, files, lib)
    requires Admitted(s, BeginRequest(key, |order|, SizeOf(order, files)), clock(0))
    ensures var script := Script(key, order, files, chunk);
            var n := |script| - 1;
            && RunFrom(s, script[..n], 0, clock, lib) == Some(s')
            && Holding(s', key, files, files.Keys, clock(n - 1), lib) && script[n] == EndRequest(key)
  {
    hide Handled, Holding, Live, Admitted, ReceiverVerdict, RunFrom, ValidKey, PlainId, NormalSource, FoldsApart,
         SizeOf, AllFileRequests, Steady, Distinct;
    var begin, middle := BeginRequest(key, |order|, SizeOf(order, files)), AllFileRequests(key, order, files, chunk);
    SizeOfIsTreeBytes(order, files);
    BeginHolds(s, begin, files, clock(0), lib);
    s' := FilesRun(Handled(s, begin, clock(0), NoFaults, lib).value.0, key, order, files, chunk, |order|, 1, clock,
                   lib);
    assert order[..|order|] == order && (set p | p in order) == files.Keys;
    FirstThen(s, begin, middle, 0, clock, lib);
    var script, n := Script(key, order, files, chunk), 1 + |middle|;
    assert script[..n] == [begin] + middle && script[n] == EndRequest(key);
  }

  /** And its END then passes every check with exactly the source staged. */
  lemma LosslessScriptReachesSwap(s: Store, key: Key, order: seq<string>, files: Tree, chunk: nat,
                                  clock: nat -> int, lib: Library) returns (s': Store)
    requires chunk > 0 && Steady(clock) && Acceptable(key, order, files, lib)
    requires Admitted(s, BeginRequest(key, |order|, SizeOf(order, files)), clock(0))
    ensures var script := Script(key, order, files, chunk);
            var n := |script| - 1;
            && RunFrom(s, script[..n], 0, clock, lib) == Some(s')
            && ReachesSwap(s', script[n], clock(n), files, lib)
  {
    s' := LosslessScriptHolds(s, key, order, files, chunk, clock, lib);
    var n := |Script(key, order, files, chunk)| - 1;
    NextArrival(clock, n);
    hide Holding, ReachesSwap, Admitted, Script, SizeOf, RunFrom, ReceiverVerdict, Lists, NormalSource, FoldsApart,
         ValidKey;
    EndPasses(s', EndRequest(key), files, clock(n - 1), clock(n), lib);
  }

  lemma BeginHolds(s: Store, r: Request, files: Tree, now: int, lib: Library)
    requires r.opcode == Begin && r.fileCount == |files| && r.totalBytes == TreeBytes(files)
    requires ValidKey(r.key) && PlainId(r.key.id) && NormalSource(files) && FoldsApart(files, lib)
    requires Admitted(s, r, now)
    ensures var h := Handled(s, r, now, NoFaults, lib);
            h.Some? && h.value.1.success && Holding(h.value.0, r.key, files, {}, now, lib)
  {
    hide StagingName, BeginRefusal, NormalSource, FoldsApart, TreeBytes, ValidKey, PlainId;
    assert WholeFiles(files, {}) == map[] && Copies(files, {}) == map[];
  }

  lemma EndPasses(s: Store, r: Request, files: Tree, at: int, now: int, lib: Library)
    requires r.opcode == End && Holding(s, r.key, files, files.Keys, at, lib) && now <= at + TRANSFER_IDLE_SECONDS
    requires ReceiverVerdict(Get(files, MANIFEST), Digests(files, lib.digest), lib.decode) == None
    ensures ReachesSwap(s, r, now, files, lib)
  {
    var t, staged := s.transfers[r.key].(lastActivity := now), s.inbox[StagingOf(r.key)];
    FinishedTouched(s.transfers[r.key], staged, files, now, lib);
    hide Finished, ReceiverVerdict, EndRefusal;
    FinishedPasses(t, staged, files, lib);
    PrunedKeepsLive(s, r.key, at, now, map[]);
    hide ReceiverVerdict, Finished, NormalSource, FoldsApart, EndRefusal, StagingName, Pruned;
    EndReaches(s, r, at, now, files, lib);
  }

  lemma FinishedTouched(t: TransferState, staged: Tree, files: Tree, now: int, lib: Library)
    requires Finished(t, staged, files, files.Keys, lib)
    ensures Finished(t.(lastActivity := now), staged, files, files.Keys, lib)
  {
  }

  lemma EndReaches(s: Store, r: Request, at: int, now: int, files: Tree, lib: Library)
    requires r.opcode == End && Live(s, r.key, at)
    requires var p := Pruned(s, now, map[]);
             && r.key in p.transfers && p.transfers[r.key] == s.transfers[r.key]
             && StagingOf(r.key) in p.inbox && p.inbox[StagingOf(r.key)] == s.inbox[StagingOf(r.key)]
    requires s.inbox[StagingOf(r.key)] == files
    requires EndRefusal(s.transfers[r.key].(lastActivity := now), files, lib) == None
    ensures ReachesSwap(s, r, now, files, lib)
  {
    hide EndRefusal, StagingName, Pruned, ValidKey, PlainId;
  }
}
