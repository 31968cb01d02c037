/**
 What the receiver promises whoever asks it, over any run of its requests: how long a silent transaction lasts, when a
 BEGIN starts, what a chunk's answer means, and when END publishes.
 */
module ReceiverPromises {
  import opened Prelude
  import opened Text
  import opened ReceiverNames
  import opened ChecksumManifest
  import opened Receiver
  import opened UploadSender
  import opened ReceiverSafety
  import opened PublishSwap
  import opened ReceiverService

  /** Ten minutes without a request of its own. */
  predicate Silent(t: TransferState, now: int) { t.lastActivity < now - 600 }

  ghost function Heard(s: Store, now: int): set<Key> { set k | k in s.transfers && !Silent(s.transfers[k], now) }

  // ---- silent transactions ----

  lemma PruningIsExact(s: Store, now: int, remains: map<string, set<string>>)
    ensures var p := Pruned(s, now, remains);
            && p.transfers.Keys == Heard(s, now) && (forall k :: k in p.transfers ==> p.transfers[k] == s.transfers[k])
            && (forall k :: k in s.transfers && Silent(s.transfers[k], now) && StagingOf(k) !in remains ==>
                  StagingOf(k) !in p.inbox)
            && forall n :: n in remains ==> (n in p.inbox <==> n in s.inbox)
  {
    hide StagingName;
  }

  /** A request changes no transaction but its own. */
  lemma OthersStay(p: Store, r: Request, now: int, faults: Faults, lib: Library, key: Key)
    requires HandledOpen(p, r, now, faults, lib).Some? && key != r.key
    ensures Get(HandledOpen(p, r, now, faults, lib).value.0.transfers, key) == Get(p.transfers, key)
  {
    hide ChunkStored, StagingName, EndVerdict, ReceivedBytes, Cleared, BeginRefusal, MkdirRaises, ValidKey;
  }

  /** And it touches its own, or has found it recent. */
  lemma OwnIsRecent(p: Store, r: Request, now: int, faults: Faults, lib: Library)
    requires HandledOpen(p, r, now, faults, lib).Some?
    requires r.key in p.transfers ==> p.transfers[r.key].lastActivity >= now - 600
    ensures var h := HandledOpen(p, r, now, faults, lib).value;
            && (r.key in h.0.transfers ==> h.0.transfers[r.key].lastActivity >= now - 600)
            && (r.key in h.0.transfers && r.key !in p.transfers ==> r.opcode == Begin && h.1.success)
  {
    hide StagingName, EndVerdict, ReceivedBytes, Cleared, BeginRefusal, MkdirRaises, ValidKey, SafeRelative, Placed;
  }

  lemma StagingElsewhere(p: Store, r: Request, now: int, faults: Faults, lib: Library, name: string)
    requires HandledOpen(p, r, now, faults, lib).Some? && name != StagingOf(r.key) && name !in p.inbox
    ensures name !in HandledOpen(p, r, now, faults, lib).value.0.inbox
  {
    hide ChunkStored, StagingName, EndVerdict, ReceivedBytes, BeginRefusal, MkdirRaises, ValidKey;
  }

  lemma SwapElsewhere(s: Store, key: Key, swap: SwapFaults, remains: map<string, set<string>>, run: seq<Swap>,
                      after: Store, response: Response, other: Key)
    requires key in s.transfers && Swapped(s, key, swap, remains, run, after, response) && ValidKey(key)
    requires StagingOf(other) != StagingOf(key) && StagingOf(key) in s.inbox && StagingOf(other) !in s.inbox
    ensures StagingOf(other) !in after.inbox
  {
    InboxNamesDisjoint(key.event, key.event, key.id);
    InboxNamesDisjoint(key.event, other.event, other.id);
    var final, backup := FinalName(key.event), BackupName(key.event);
    hide FinalName, BackupName, StagingName, SwapRun, GetsAside, ValidEventName, ReceivedBytes;
    FrameRunKeeps(key.event, StagingOf(key), swap.restore, run, |run| - 1);
    assert StagingOf(other) !in after.inbox - {final, backup, StagingOf(key)};
  }

  /** What is left of a transaction after a request. */
  ghost predicate Outcome(s: Store, r: Request, now: int, after: Store, response: Response, key: Key)
  {
    if key != r.key then
      Get(after.transfers, key)
      == if key in s.transfers && s.transfers[key].lastActivity >= now - 600 then Some(s.transfers[key]) else None
    else
      key in after.transfers ==>
        && after.transfers[key].lastActivity >= now - 600
        && (key in s.transfers || (r.opcode == Begin && response.success))
  }

  ghost predicate Outcomes(s: Store, r: Request, now: int, after: Store, response: Response)
  {
    forall key :: Outcome(s, r, now, after, response, key)
  }

  /** A silent transaction's staging directory is gone, if it could be removed and is not the request's own. */
  ghost predicate FilesGone(s: Store, r: Request, now: int, remains: map<string, set<string>>, after: Store, key: Key)
  {
    key in s.transfers && s.transfers[key].lastActivity < now - 600 ==>
      StagingOf(key) == StagingOf(r.key) || StagingOf(key) in remains || StagingOf(key) !in after.inbox
  }

  lemma SwapStarts(s: Store, r: Request, now: int, faults: Faults, lib: Library)
    requires Handled(s, r, now, faults, lib).None?
    ensures var p := Pruned(s, now, faults.remains);
            && r.key in p.transfers && ValidKey(r.key) && r.opcode == End
            && StagingOf(r.key) in Touched(p, r.key, now).inbox
            && EndRefusal(p.transfers[r.key].(lastActivity := now), StagedOf(p, r.key), lib) == None
  {
    var p := Pruned(s, now, faults.remains);
    hide Pruned, StagingName, ValidKey, EndRefusal, Begun, Chunked, ReceivedBytes;
    assert EndRefusal(p.transfers[r.key].(lastActivity := now), StagedOf(p, r.key), lib) == None;
    PassedIsStaged(p.transfers[r.key].(lastActivity := now), StagedOf(p, r.key), lib);
  }

  lemma HandledOutcome(s: Store, r: Request, now: int, faults: Faults, lib: Library, key: Key)
    requires Handled(s, r, now, faults, lib).Some?
    ensures var h := Handled(s, r, now, faults, lib).value;
            Outcome(s, r, now, h.0, h.1, key) && FilesGone(s, r, now, faults.remains, h.0, key)
  {
    var p := Pruned(s, now, faults.remains);
    PruningIsExact(s, now, faults.remains);
    hide Pruned, HandledOpen, StagingName;
    if key == r.key {
      OwnIsRecent(p, r, now, faults, lib);
    } else {
      OthersStay(p, r, now, faults, lib, key);
    }
    if StagingOf(key) != StagingOf(r.key) && StagingOf(key) !in p.inbox {
      StagingElsewhere(p, r, now, faults, lib, StagingOf(key));
    }
  }

  lemma SwappedOutcome(s: Store, r: Request, now: int, faults: Faults, swap: SwapFaults, lib: Library, p: Store,
                       run: seq<Swap>, after: Store, response: Response, key: Key)
    requires Handled(s, r, now, faults, lib).None? && p == Pruned(s, now, faults.remains) && r.key in p.transfers
    requires Swapped(Touched(p, r.key, now), r.key, swap, faults.remains, run, after, response)
    ensures Outcome(s, r, now, after, response, key) && FilesGone(s, r, now, faults.remains, after, key)
  {
    hide Handled, StagingName, ValidKey, Swapped, EndRefusal, StagedOf, Pruned;
    SwapStarts(s, r, now, faults, lib);
    PruningIsExact(s, now, faults.remains);
    SwapLeaves(Touched(p, r.key, now), r.key, swap, faults.remains, run, after, response);
    if StagingOf(key) != StagingOf(r.key) && StagingOf(key) !in p.inbox {
      SwapElsewhere(Touched(p, r.key, now), r.key, swap, faults.remains, run, after, response, key);
    }
  }

  /** After any request, whatever fails: no transaction is left that has been silent for ten minutes, and nothing is
      left of the silent ones' files that could be removed; every other transaction is as it was, and only a BEGIN that
      is answered with success adds one. */
  lemma SilentTransactionsGo(s: Store, r: Request, now: int, faults: Faults, swap: SwapFaults, lib: Library,
                             after: Store, response: Response)
    requires Served(s, r, now, faults, swap, lib, after, response)
    ensures Outcomes(s, r, now, after, response) && forall key :: FilesGone(s, r, now, faults.remains, after, key)
  {
    hide Handled, Pruned, Outcome, FilesGone, Swapped, ValidKey;
    forall key
      ensures Outcome(s, r, now, after, response, key) && FilesGone(s, r, now, faults.remains, after, key)
    {
      if Handled(s, r, now, faults, lib).Some? {
        HandledOutcome(s, r, now, faults, lib, key);
      } else {
        var p := Pruned(s, now, faults.remains);
        var run :| Swapped(Touched(p, r.key, now), r.key, swap, faults.remains, run, after, response);
        SwappedOutcome(s, r, now, faults, swap, lib, p, run, after, response, key);
      }
    }
  }

  lemma SwapLeaves(t: Store, key: Key, swap: SwapFaults, remains: map<string, set<string>>, run: seq<Swap>,
                   after: Store, response: Response)
    requires key in t.transfers && Swapped(t, key, swap, remains, run, after, response)
    ensures after.transfers == t.transfers || after.transfers == t.transfers - {key}
  {
    hide SwapRun, GetsAside, ReceivedBytes;
  }

  // ---- when a BEGIN starts ----

  /** Nobody else has the event, and there is room. */
  ghost predicate Free(s: Store, key: Key, now: int)
  {
    && (key in Heard(s, now) || |Heard(s, now)| < 16)
    && forall k :: k in Heard(s, now) && k.event == key.event ==> k == key
  }

  /** A BEGIN starts exactly when its names are valid and short enough, its counts are within limits, of the
      transactions heard of in the last ten minutes none has the event under another id and there are fewer than 16 - or
      it is one of them -, and the staging directory can be made anew. */
  lemma BeginStartsExactly(s: Store, r: Request, now: int, faults: Faults, lib: Library)
    requires r.opcode == Begin
    ensures var h := Handled(s, r, now, faults, lib);
            && h.Some?
            && (h.value.1.success
                <==> (&& ValidKey(r.key) && |r.key.event| + |r.key.id| <= 233
                      && 1 <= r.fileCount <= 10000 && r.totalBytes <= 107374182400 && Free(s, r.key, now)
                      && faults.io == Works
                      && !(StagingOf(r.key) in s.inbox && StagingOf(r.key) in faults.remains)))
            && (h.value.1.success ==>
                  && r.key in h.value.0.transfers && StagedOf(h.value.0, r.key) == map[]
                  && h.value.0.transfers[r.key] == TransferState(r.fileCount, r.totalBytes, map[], map[], now))
  {
    PruningIsExact(s, now, faults.remains);
    var p := Pruned(s, now, faults.remains);
    assert |p.transfers| == |p.transfers.Keys|;
    assert |"...part"| == 7;
    hide Pruned, StagingName, ValidKey;
    assert BeginRefusal(p, r).None? <==> |r.key.event| + |r.key.id| <= 233 && 1 <= r.fileCount <= 10000
                                         && r.totalBytes <= 107374182400 && Free(s, r.key, now);
  }

  // ---- runs ----

  datatype Call = Call(request: Request, now: int, faults: Faults, swap: SwapFaults)

  /** The receiver serves these calls one after the other. */
  ghost predicate Serving(stores: seq<Store>, answers: seq<Response>, calls: seq<Call>, lib: Library)
  {
    && |stores| == |calls| + 1 && |answers| == |calls|
    && forall i :: 0 <= i < |calls| ==> ServedAt(stores, answers, calls, lib, i)
  }

  ghost predicate ServedAt(stores: seq<Store>, answers: seq<Response>, calls: seq<Call>, lib: Library, i: nat)
    requires i < |calls| == |answers| == |stores| - 1
  {
    var c := calls[i];
    Served(stores[i], c.request, c.now, c.faults, c.swap, lib, stores[i + 1], answers[i])
  }

  /** A transaction whose sender says nothing more is, as long as it lasts, as its sender left it. */
  lemma {:induction false} AbandonedStays(stores: seq<Store>, answers: seq<Response>, calls: seq<Call>, lib: Library,
                                          key: Key, n: nat)
    requires Serving(stores, answers, calls, lib) && key in stores[0].transfers && n <= |calls|
    requires forall i :: 0 <= i < n ==> calls[i].request.key != key
    ensures key in stores[n].transfers ==> stores[n].transfers[key] == stores[0].transfers[key]
  {
    if n > 0 {
      AbandonedStays(stores, answers, calls, lib, key, n - 1);
      assert ServedAt(stores, answers, calls, lib, n - 1);
      var c := calls[n - 1];
      hide Served, FilesGone;
      SilentTransactionsGo(stores[n - 1], c.request, c.now, c.faults, c.swap, lib, stores[n], answers[n - 1]);
      assert Outcome(stores[n - 1], c.request, c.now, stores[n], answers[n - 1], key);
    }
  }

  /** Nobody but the abandoned transaction stands in the way of the last call. */
  ghost predicate OnlyAbandonedInTheWay(s: Store, c: Call, abandoned: Key)
  {
    var r, heard := c.request, Heard(s, c.now) - {abandoned};
    && r.opcode == Begin && ValidKey(r.key) && |r.key.event| + |r.key.id| <= 233
    && 1 <= r.fileCount <= 10000 && r.totalBytes <= 107374182400 && c.faults == NoFaults
    && |heard| < 16 && forall k :: k in heard && k.event == r.key.event ==> k == r.key
  }

  /** An abandoned transaction gives its event free: whatever has happened since its sender's last request, once ten
      minutes have gone by, a BEGIN under another id starts that nothing else stands in the way of. */
  lemma AbandonedEventIsFree(stores: seq<Store>, answers: seq<Response>, calls: seq<Call>, lib: Library, key: Key)
    requires Serving(stores, answers, calls, lib) && calls != [] && key in stores[0].transfers
    requires forall i :: 0 <= i < |calls| ==> calls[i].request.key != key
    requires var last := calls[|calls| - 1];
             && stores[0].transfers[key].lastActivity < last.now - 600
             && OnlyAbandonedInTheWay(stores[|calls| - 1], last, key)
    ensures answers[|calls| - 1].success && key !in stores[|calls|].transfers
    ensures calls[|calls| - 1].request.key in stores[|calls|].transfers
  {
    var n := |calls| - 1;
    var s, c := stores[n], calls[n];
    AbandonedStays(stores, answers, calls, lib, key, n);
    assert ServedAt(stores, answers, calls, lib, n);
    hide Serving, Outcomes, FilesGone, Handled, ValidKey, StagingName, Pruned, Swapped;
    SilentTransactionsGo(s, c.request, c.now, c.faults, c.swap, lib, stores[n + 1], answers[n]);
    OutcomeOf(s, c.request, c.now, stores[n + 1], answers[n], key);
    BeginStartsExactly(s, c.request, c.now, c.faults, lib);
    assert Heard(s, c.now) == Heard(s, c.now) - {key};
  }

  /** Never more than 16 transactions, and never two of one event. */
  ghost predicate Limited(s: Store)
  {
    |s.transfers| <= 16 && forall j, k :: j in s.transfers && k in s.transfers && j.event == k.event ==> j == k
  }

  lemma LimitedStep(s: Store, r: Request, now: int, faults: Faults, swap: SwapFaults, lib: Library, after: Store,
                    response: Response)
    requires Served(s, r, now, faults, swap, lib, after, response) && Limited(s)
    ensures Limited(after)
  {
    hide Handled, ValidKey, StagingName, Pruned, FilesGone, Cleared, Swapped, Outcomes;
    SilentTransactionsGo(s, r, now, faults, swap, lib, after, response);
    if r.opcode == Begin { BeginStartsExactly(s, r, now, faults, lib); }
    hide Served;
    forall k ensures Outcome(s, r, now, after, response, k) { OutcomeOf(s, r, now, after, response, k); }
    OnlyOneIsAdded(s, r, now, after, response);
  }

  lemma OutcomeOf(s: Store, r: Request, now: int, after: Store, response: Response, key: Key)
    requires Outcomes(s, r, now, after, response)
    ensures Outcome(s, r, now, after, response, key)
  {
    hide Outcome;
  }

  lemma OnlyOneIsAdded(s: Store, r: Request, now: int, after: Store, response: Response)
    requires Limited(s) && (forall k :: Outcome(s, r, now, after, response, k))
    requires r.opcode == Begin && response.success ==> Free(s, r.key, now)
    ensures Limited(after)
  {
    forall k | k in after.transfers && k != r.key ensures k in Heard(s, now) {
      assert Outcome(s, r, now, after, response, k);
    }
    assert Outcome(s, r, now, after, response, r.key);
    hide Outcome;
    AtMostOneMore(s, r.key, now, after);
  }

  lemma AtMostOneMore(s: Store, key: Key, now: int, after: Store)
    requires Limited(s) && after.transfers.Keys <= Heard(s, now) + {key}
    requires key in after.transfers && key !in s.transfers ==> Free(s, key, now)
    ensures Limited(after)
  {
    var heard := Heard(s, now);
    assert |s.transfers| == |s.transfers.Keys| && |after.transfers| == |after.transfers.Keys|;
    SubsetSize(heard, s.transfers.Keys);
    SubsetSize(after.transfers.Keys, heard + {key});
    if key in s.transfers { SubsetSize(after.transfers.Keys, s.transfers.Keys); }
    if key !in after.transfers { SubsetSize(after.transfers.Keys, heard); }
    assert forall k :: k in after.transfers ==> k in heard || k == key;
  }

  /** In every run from a started receiver. */
  lemma {:induction false} LimitsHold(stores: seq<Store>, answers: seq<Response>, calls: seq<Call>, lib: Library,
                                      n: nat)
    requires Serving(stores, answers, calls, lib) && stores[0].transfers == map[] && n <= |calls|
    ensures Limited(stores[n])
  {
    if n > 0 {
      LimitsHold(stores, answers, calls, lib, n - 1);
      assert ServedAt(stores, answers, calls, lib, n - 1);
      hide Served, Limited;
      var c := calls[n - 1];
      LimitedStep(stores[n - 1], c.request, c.now, c.faults, c.swap, lib, stores[n], answers[n - 1]);
    }
  }

  // ---- what a chunk's answer means ----

  /** Another path of the transaction looks the same where case does not count. */
  ghost predicate Collides(t: TransferState, path: string, lib: Library)
  {
    lib.fold(path) in t.canonical && t.canonical[lib.fold(path)] != path
  }

  function ReceivedOf(t: TransferState, path: string): nat
  {
    if path in t.files then t.files[path].receivedBytes else 0
  }

  lemma PlacedAnswer(f: FileState, staged: Option<Bytes>, content: Bytes, r: Request)
    requires FileTracks(f, staged, content)
    requires r.offset + |r.data| <= |content| && r.data == content[r.offset..r.offset + |r.data|]
    ensures var (g, copy, response) := Placed(f, staged, r, Works);
            var end := r.offset + |r.data|;
            && g.receivedBytes == (if r.offset == f.receivedBytes then end else f.receivedBytes)
            && response.receivedBytes == g.receivedBytes
            && (response.success
                <==> end <= g.receivedBytes && copy.Some? && (r.data == [] || end <= |copy.value|))
  {
    PlacedTracks(f, staged, content, r, Works);
    hide Written;
    if r.offset == f.receivedBytes && r.data != [] { WrittenTracks(staged, content, r.offset, |r.data|); }
  }

  /** The answer is a success exactly when the file's bytes up to the chunk's end have been received and are staged; the
      next chunk in turn is taken, any other one - sent before, overlapping, or too early - changes nothing; and the
      answer says how far the file has come. */
  ghost predicate AnswerMeans(t: TransferState, r: Request, t': TransferState, tree': Tree, response: Response)
  {
    var before, after, end := ReceivedOf(t, r.path), ReceivedOf(t', r.path), r.offset + |r.data|;
    && after == (if r.offset == before then end else before) && response.receivedBytes == after
    && (forall p :: p != r.path ==> ReceivedOf(t', p) == ReceivedOf(t, p))
    && (response.success
        <==> end <= after && r.path in tree' && (r.data == [] || end <= |tree'[r.path]|))
  }

  /** So it is for every true slice of the transaction's own source, when nothing fails. */
  lemma ChunkAnswerMeans(t: TransferState, staged: Option<Tree>, r: Request, lib: Library, source: Tree)
    requires r.opcode == FileChunk && Genuine(r, r.key, source) && NormalSource(source)
    requires TransferTracks(t, FilesIn(staged), source) && !Collides(t, r.path, lib)
    ensures var (t', staged', response) := ChunkStored(t, staged, r, Works, lib);
            AnswerMeans(t, r, t', FilesIn(staged'), response)
  {
    assert NormalPath(r.path) && r.path in source && r.totalBytes == |source[r.path]|;
    hide ChunkStored;
    NormalChunk(t, staged, r, Works, lib);
    hide NormalPath, NormalSource, ChunkNamed, TransferTracks, AnswerMeans, Collides, TreeBytes;
    NamedAnswerMeans(t, staged, r, lib, source);
  }

  lemma NamedAnswerMeans(t: TransferState, staged: Option<Tree>, r: Request, lib: Library, source: Tree)
    requires TransferTracks(t, FilesIn(staged), source) && !Collides(t, r.path, lib)
    requires r.path in source && r.totalBytes == |source[r.path]| && r.offset + |r.data| <= |source[r.path]|
    requires r.data == source[r.path][r.offset..r.offset + |r.data|]
    ensures var (t', staged', response) := ChunkNamed(t, staged, r.path, r, Works, lib);
            AnswerMeans(t, r, t', FilesIn(staged'), response)
  {
    FiledNext(t, r, lib, source, FilesIn(staged));
    hide Filed, Placed, TreeBytes, TransferTracks, FileTracks;
    var filed := Filed(t, r.path, r, lib).0;
    PlacedAnswer(filed.files[r.path], Get(FilesIn(staged), r.path), source[r.path], r);
  }

  lemma FiledNext(t: TransferState, r: Request, lib: Library, source: Tree, tree: Tree)
    requires TransferTracks(t, tree, source) && !Collides(t, r.path, lib)
    requires r.path in source && r.totalBytes == |source[r.path]| && r.offset + |r.data| <= |source[r.path]|
    ensures var (filed, refusal) := Filed(t, r.path, r, lib);
            && refusal == None && r.path in filed.files && filed.files[r.path].receivedBytes == ReceivedOf(t, r.path)
            && FileTracks(filed.files[r.path], Get(tree, r.path), source[r.path])
            && forall p :: p != r.path ==> ReceivedOf(filed, p) == ReceivedOf(t, p)
  {
    FiledTracks(t, tree, source, r, lib);
    assert r.path in t.files ==> FileTracks(t.files[r.path], Get(tree, r.path), source[r.path]);
    assert FileTracks(Filed(t, r.path, r, lib).0.files[r.path], Get(tree, r.path), source[r.path]);
  }

  // ---- any chunk, true or not ----

  /** A file's bookkeeping, whoever sends. */
  predicate FileSane(f: FileState) { f.receivedBytes <= f.expectedBytes && |f.hashed| == f.receivedBytes }

  /** Every path filed is in normal form, no two look the same where case does not count, and no file is over its
      size. */
  ghost predicate Sane(t: TransferState, lib: Library)
  {
    && (forall p :: p in t.files ==>
          NormalPath(p) && FileSane(t.files[p]) && lib.fold(p) in t.canonical && t.canonical[lib.fold(p)] == p)
    && forall p, q :: p in t.files && q in t.files && lib.fold(p) == lib.fold(q) ==> p == q
  }

  /** No file shrinks or changes its declared size. */
  ghost predicate FilesGrow(t: TransferState, t': TransferState)
  {
    forall p :: p in t.files ==>
      && p in t'.files && t'.files[p].expectedBytes == t.files[p].expectedBytes
      && t.files[p].receivedBytes <= t'.files[p].receivedBytes
  }

  lemma PlacedSane(f: FileState, staged: Option<Bytes>, r: Request, io: Io)
    requires FileSane(f) && r.offset + |r.data| <= f.expectedBytes
    ensures var (g, _, response) := Placed(f, staged, r, io);
            && FileSane(g) && g.expectedBytes == f.expectedBytes && f.receivedBytes <= g.receivedBytes
            && (response.success ==> r.offset + |r.data| <= g.receivedBytes)
  {
    hide Written, ReadAt;
  }

  lemma FiledSane(t: TransferState, relative: string, r: Request, lib: Library)
    requires Sane(t, lib) && NormalPath(relative)
    ensures var (filed, refusal) := Filed(t, relative, r, lib);
            && Sane(filed, lib) && FilesGrow(t, filed)
            && (refusal.None? ==> filed.files[relative].expectedBytes == r.totalBytes
                                  && r.offset + |r.data| <= r.totalBytes)
            && (refusal.Some? ==> !refusal.value.success)
  {
    hide NormalPath;
  }

  lemma UpdatedSane(t: TransferState, path: string, f: FileState, lib: Library)
    requires Sane(t, lib) && path in t.files && FileSane(f) && f.expectedBytes == t.files[path].expectedBytes
    requires t.files[path].receivedBytes <= f.receivedBytes
    ensures var t' := t.(files := t.files[path := f]); Sane(t', lib) && FilesGrow(t, t')
  {
    hide NormalPath;
  }

  lemma GrowTwice(a: TransferState, b: TransferState, c: TransferState)
    requires FilesGrow(a, b) && FilesGrow(b, c)
    ensures FilesGrow(a, c)
  {
  }

  lemma NamedSane(t: TransferState, staged: Option<Tree>, relative: string, r: Request, io: Io, lib: Library)
    requires Sane(t, lib) && NormalPath(relative)
    ensures var (t', _, response) := ChunkNamed(t, staged, relative, r, io, lib);
            && Sane(t', lib) && FilesGrow(t, t')
            && (response.success ==>
                  && relative in t'.files && t'.files[relative].expectedBytes == r.totalBytes
                  && r.offset + |r.data| <= t'.files[relative].receivedBytes)
  {
    FiledSane(t, relative, r, lib);
    var (filed, refusal) := Filed(t, relative, r, lib);
    assert refusal.None? ==> FileSane(filed.files[relative]);
    hide Filed, Placed, NormalPath, Sane, FilesGrow, FileSane;
    if refusal.None? {
      PlacedSane(filed.files[relative], Get(FilesIn(staged), relative), r, io);
      var f := Placed(filed.files[relative], Get(FilesIn(staged), relative), r, io).0;
      UpdatedSane(filed, relative, f, lib);
      GrowTwice(t, filed, filed.(files := filed.files[relative := f]));
    }
  }

  /** Whatever a chunk holds and whatever fails: files stay within their sizes and apart from each other, and keep what
      they have; a success is only for a safe path, the size first declared, and bytes that have all been received. */
  lemma AnyChunkIsSane(t: TransferState, staged: Option<Tree>, r: Request, io: Io, lib: Library)
    requires Sane(t, lib)
    ensures var (t', _, response) := ChunkStored(t, staged, r, io, lib);
            && Sane(t', lib) && FilesGrow(t, t')
            && (response.success ==>
                  && SafeRelative(r.path).Some?
                  && var relative := Join(SafeRelative(r.path).value, '/');
                     && relative in t'.files && t'.files[relative].expectedBytes == r.totalBytes
                     && r.offset + |r.data| <= t'.files[relative].receivedBytes)
  {
    SafeRelativeNormalizes(r.path);
    hide ChunkNamed, SafeRelative, NormalPath, Sane, FilesGrow;
    if SafeRelative(r.path).Some? {
      assert NormalPath(Join(SafeRelative(r.path).value, '/'));
      NamedSane(t, staged, Join(SafeRelative(r.path).value, '/'), r, io, lib);
    } else {
      assert FilesGrow(t, t) by { NothingShrinks(t); }
    }
  }

  lemma NothingShrinks(t: TransferState)
    ensures FilesGrow(t, t)
  {
  }

  ghost predicate AllSane(s: Store, lib: Library) { forall k :: k in s.transfers ==> Sane(s.transfers[k], lib) }

  lemma OwnSane(p: Store, r: Request, now: int, faults: Faults, lib: Library)
    requires HandledOpen(p, r, now, faults, lib).Some? && AllSane(p, lib)
    ensures var h := HandledOpen(p, r, now, faults, lib).value;
            && (r.key in h.0.transfers ==> Sane(h.0.transfers[r.key], lib))
            && (h.1.success ==>
                  ValidKey(r.key) && (r.opcode == Begin || (r.opcode == FileChunk && r.key in p.transfers)))
  {
    if r.key in p.transfers {
      assert Sane(p.transfers[r.key].(lastActivity := now), lib);
      hide ChunkStored, Sane;
      AnyChunkIsSane(p.transfers[r.key].(lastActivity := now), Get(p.inbox, StagingOf(r.key)), r, faults.io, lib);
    }
    assert Sane(NewTransfer(r, now), lib);
    hide ChunkStored, Sane, ValidKey, BeginRefusal, MkdirRaises, EndVerdict, StagingName, ReceivedBytes, Cleared;
  }

  lemma HandledSane(s: Store, r: Request, now: int, faults: Faults, lib: Library)
    requires Handled(s, r, now, faults, lib).Some? && AllSane(s, lib)
    ensures var h := Handled(s, r, now, faults, lib).value;
            && AllSane(h.0, lib)
            && (h.1.success ==>
                  ValidKey(r.key) && (r.opcode == Begin || (r.opcode == FileChunk && r.key in Heard(s, now))))
  {
    var p := Pruned(s, now, faults.remains);
    PruningIsExact(s, now, faults.remains);
    hide Pruned, HandledOpen, Sane, ValidKey;
    assert AllSane(p, lib);
    OwnSane(p, r, now, faults, lib);
    var after := HandledOpen(p, r, now, faults, lib).value.0;
    forall k | k in after.transfers ensures Sane(after.transfers[k], lib) {
      if k != r.key {
        OthersStay(p, r, now, faults, lib, k);
        assert Get(after.transfers, k) == Get(p.transfers, k);
      }
    }
  }

  lemma ServedSane(s: Store, r: Request, now: int, faults: Faults, swap: SwapFaults, lib: Library, after: Store,
                   response: Response)
    requires Served(s, r, now, faults, swap, lib, after, response) && AllSane(s, lib)
    ensures AllSane(after, lib)
    ensures response.success ==> ValidKey(r.key) && (r.opcode == Begin || r.key in Heard(s, now))
  {
    var p := Pruned(s, now, faults.remains);
    PruningIsExact(s, now, faults.remains);
    hide Handled, Pruned, Sane, ValidKey, Swapped;
    if Handled(s, r, now, faults, lib).Some? {
      HandledSane(s, r, now, faults, lib);
    } else {
      var run :| Swapped(Touched(p, r.key, now), r.key, swap, faults.remains, run, after, response);
      SwapLeaves(Touched(p, r.key, now), r.key, swap, faults.remains, run, after, response);
      assert Sane(p.transfers[r.key].(lastActivity := now), lib) by { TouchedSane(p.transfers[r.key], now, lib); }
    }
  }

  lemma TouchedSane(t: TransferState, now: int, lib: Library)
    requires Sane(t, lib)
    ensures Sane(t.(lastActivity := now), lib)
  {
  }

  /** In every run of any requests from a started receiver every transaction is sane; and no success is given to a name
      that is not valid, nor - but for a BEGIN - to one without a transaction heard of in the last ten minutes. */
  lemma {:induction false} RunsAreSane(stores: seq<Store>, answers: seq<Response>, calls: seq<Call>, lib: Library,
                                       n: nat)
    requires Serving(stores, answers, calls, lib) && stores[0].transfers == map[] && n <= |calls|
    ensures AllSane(stores[n], lib)
    ensures n < |calls| && answers[n].success ==>
              var c := calls[n];
              ValidKey(c.request.key) && (c.request.opcode == Begin || c.request.key in Heard(stores[n], c.now))
  {
    if n > 0 {
      RunsAreSane(stores, answers, calls, lib, n - 1);
      StepSane(stores, answers, calls, lib, n - 1);
    }
    if n < |calls| { StepSane(stores, answers, calls, lib, n); }
  }

  lemma StepSane(stores: seq<Store>, answers: seq<Response>, calls: seq<Call>, lib: Library, n: nat)
    requires Serving(stores, answers, calls, lib) && n < |calls| && AllSane(stores[n], lib)
    ensures AllSane(stores[n + 1], lib)
    ensures var c := calls[n];
            answers[n].success ==>
              ValidKey(c.request.key) && (c.request.opcode == Begin || c.request.key in Heard(stores[n], c.now))
  {
    assert ServedAt(stores, answers, calls, lib, n);
    hide Served, AllSane, Serving, ValidKey;
    var c := calls[n];
    ServedSane(stores[n], c.request, c.now, c.faults, c.swap, lib, stores[n + 1], answers[n]);
  }

  // ---- when END publishes ----

  /** Every file of the source has been received to its end. */
  ghost predicate AllReceived(t: TransferState, source: Tree)
  {
    t.files.Keys == source.Keys && forall p :: p in source ==> t.files[p].receivedBytes == |source[p]|
  }

  lemma ReceivedSums(t: TransferState, source: Tree, lib: Library)
    requires AllReceived(t, source) && forall p :: p in source ==> t.files[p].hashed == source[p]
    ensures ReceivedBytes(t) == TreeBytes(source) && ReceivedDigests(t, lib) == Digests(source, lib.digest)
    ensures |t.files| == |source|
  {
    assert ReceivedSizes(t.files) == Sizes(source);
    assert |t.files| == |t.files.Keys| && |source| == |source.Keys|;
    hide Sum;
  }

  /** END of a transaction that tracks its source passes its checks exactly when no stat or sync raises, every file has
      been received, all of it is staged, and the source's own manifest is in order. */
  lemma EndPassesExactly(t: TransferState, staged: Tree, source: Tree, io: Io, lib: Library)
    requires TransferTracks(t, staged, source)
    ensures EndVerdict(t, staged, io, lib) == None
            <==> (&& io == Works && AllReceived(t, source) && staged == source
                  && ReceiverVerdict(Get(source, MANIFEST), Digests(source, lib.digest), lib.decode) == None)
  {
    hide EndRefusal, AllReceived, ReceiverVerdict, TransferTracks;
    if EndRefusal(t, staged, lib) == None {
      CheckedStagingIsSource(t, staged, source, lib);
      CheckedIsReceived(t, staged, source, lib);
    } else if AllReceived(t, source) && staged == source {
      ReceivedPasses(t, source, lib);
    }
  }

  lemma TrackedBytes(t: TransferState, staged: Tree, source: Tree)
    requires TransferTracks(t, staged, source) && AllReceived(t, source)
    ensures forall p :: p in source ==> t.files[p].hashed == source[p] && t.files[p].expectedBytes == |source[p]|
  {
    forall p | p in source ensures t.files[p].hashed == source[p] && t.files[p].expectedBytes == |source[p]| {
      assert FileTracks(t.files[p], Get(staged, p), source[p]);
    }
  }

  lemma CheckedIsReceived(t: TransferState, staged: Tree, source: Tree, lib: Library)
    requires TransferTracks(t, staged, source) && EndRefusal(t, staged, lib) == None && staged == source
    ensures AllReceived(t, source)
    ensures ReceiverVerdict(Get(source, MANIFEST), Digests(source, lib.digest), lib.decode) == None
  {
    forall p | p in t.files ensures t.files[p].receivedBytes == |source[p]| {
      assert CompleteFile(t.files[p], Get(staged, p));
    }
    TrackedBytes(t, staged, source);
    ReceivedSums(t, source, lib);
    hide ReceiverVerdict, ReceivedBytes, Digests, ReceivedDigests, FileTracks, TreeBytes;
  }

  lemma ReceivedPasses(t: TransferState, source: Tree, lib: Library)
    requires TransferTracks(t, source, source) && AllReceived(t, source)
    ensures EndRefusal(t, source, lib) == None
            <==> ReceiverVerdict(Get(source, MANIFEST), Digests(source, lib.digest), lib.decode) == None
  {
    TrackedBytes(t, source, source);
    ReceivedSums(t, source, lib);
    hide ReceiverVerdict, ReceivedBytes, Digests, ReceivedDigests, FileTracks, TreeBytes;
  }

  /** Some file of the old backup cannot be removed. */
  ghost predicate BackupStays(inbox: Inbox, event: string, remains: map<string, set<string>>)
  {
    && BackupName(event) in inbox && BackupName(event) in remains
    && exists p :: p in inbox[BackupName(event)] && p in remains[BackupName(event)]
  }

  /** An END that passed publishes exactly when no sync or rename it needs raises - the first rename is needed only over
      a published copy, and raises over an old backup that cannot be emptied. Then the staged tree stands under the
      event's name, staging directory and transaction are gone, the backup too if it could be removed, and every other
      entry is as it was. */
  lemma SwapPublishesExactly(s: Store, key: Key, swap: SwapFaults, remains: map<string, set<string>>, run: seq<Swap>,
                             after: Store, response: Response)
    requires key in s.transfers && Swapped(s, key, swap, remains, run, after, response)
    requires ValidKey(key) && StagingOf(key) in s.inbox
    ensures response.success
            <==> (&& !swap.firstSync && !swap.moveIn && !swap.lastSync
                  && (FinalName(key.event) in s.inbox ==> !swap.aside && !BackupStays(s.inbox, key.event, remains)))
    ensures response.success ==>
              && after.transfers == s.transfers - {key}
              && Get(after.inbox, FinalName(key.event)) == Get(s.inbox, StagingOf(key))
              && StagingOf(key) !in after.inbox
              && (BackupName(key.event) in after.inbox ==> BackupName(key.event) in remains)
              && forall n :: n !in {FinalName(key.event), BackupName(key.event), StagingOf(key)} ==>
                   Get(after.inbox, n) == Get(s.inbox, n)
  {
    InboxNamesDisjoint(key.event, key.event, key.id);
    var names := {FinalName(key.event), BackupName(key.event), StagingOf(key)};
    GetsAsideExactly(s.inbox, key.event, swap, remains);
    hide FinalName, BackupName, StagingName, SwapRun, ValidEventName, ReceivedBytes, GetsAside, BackupStays;
    FrameRunKeeps(key.event, StagingOf(key), swap.restore, run, |run| - 1);
    forall n | n !in names ensures Get(after.inbox, n) == Get(s.inbox, n) {
      assert Get(after.inbox, n) == Get(after.inbox - names, n) == Get(s.inbox - names, n);
    }
  }

  lemma GetsAsideExactly(inbox: Inbox, event: string, swap: SwapFaults, remains: map<string, set<string>>)
    requires FinalName(event) != BackupName(event)
    ensures GetsAside(inbox, event, swap, remains)
            <==> (&& !swap.firstSync
                  && (FinalName(event) in inbox ==> !swap.aside && !BackupStays(inbox, event, remains)))
  {
    hide FinalName, BackupName;
    var backup := BackupName(event);
    if backup in inbox && backup in remains {
      assert Kept(inbox[backup], remains[backup]) == map[]
             <==> !exists p :: p in inbox[backup] && p in remains[backup] by {
        if p :| p in inbox[backup] && p in remains[backup] { assert p in Kept(inbox[backup], remains[backup]); }
      }
    }
  }
}
