/**
 What a BEGIN that fails half-way can do, tools/receiver_node.py:145-150: its rmtree takes away what a live transaction
 has received, its mkdir raises, and the transaction goes on with the old bookkeeping.
 */
module UploadFaults {
  import opened Prelude
  import opened Text
  import opened ReceiverNames
  import opened ChecksumManifest
  import opened Receiver
  import opened UploadSender
  import opened ReceiverSafety
  import opened PublishSwap
  import opened UploadProtocol
  import opened UploadCompletion
  import opened UploadRuns
  import opened ManifestExamples

  // ---- the file that comes out wrong ----

  /** What a file looks like whose all bytes but the last were lost before the last one arrived. */
  function Hollow(content: Bytes): Bytes
    requires |content| > 0
  {
    seq(|content| - 1, _ => 0) + content[|content| - 1..]
  }

  /** The receiver takes the directory, and in it is a file in which the loss shows. */
  ghost predicate Corruptible(c: Config, key: Key, path: string)
  {
    && Takeable(c, key) && path in c.sources[key] && path != MANIFEST
    && |c.sources[key][path]| > 1 && Hollow(c.sources[key][path]) != c.sources[key][path]
  }

  /** A file sent in two chunks, the second of one byte. */
  lemma TwoChunks(key: Key, path: string, content: Bytes)
    requires |content| > 1
    ensures var n := |content|;
            FileRequests(key, path, content, n - 1)
            == [ChunkRequest(key, path, content, 0, n - 1), ChunkRequest(key, path, content, n - 1, n)]
  {
    var n := |content|;
    assert ChunkEnd(content, 0, n - 1) == n - 1 && ChunkEnd(content, n - 1, n - 1) == n;
    assert ChunksFrom(key, path, content, n - 1, n) == [];
    assert ChunksFrom(key, path, content, n - 1, n - 1) == [ChunkRequest(key, path, content, n - 1, n)];
    assert ChunksFrom(key, path, content, n - 1, 0)
        == [ChunkRequest(key, path, content, 0, n - 1)] + ChunksFrom(key, path, content, n - 1, n - 1);
  }

  function Without(order: seq<string>, path: string): seq<string>
  {
    if order == [] then [] else (if order[0] == path then [] else [order[0]]) + Without(order[1..], path)
  }

  lemma {:induction false} WithoutOne(order: seq<string>, path: string)
    requires Distinct(order)
    ensures Distinct(Without(order, path))
    ensures forall p :: p in Without(order, path) <==> p in order && p != path
  {
    if order != [] {
      assert order == [order[0]] + order[1..];
      WithoutOne(order[1..], path);
      assert order[0] !in order[1..];
    }
  }

  // ---- a run up to the middle of a file ----

  /** Of the other files everything has arrived, of this one all but the last byte. */
  ghost predicate HalfWay(c: Config, key: Key, path: string, s: Store)
    requires Corruptible(c, key, path)
  {
    var files := c.sources[key];
    && Live(s, key, 0)
    && Arrived(s.transfers[key], StagedOf(s, key), files, files.Keys - {path}, path, |files[path]| - 1, c.lib)
  }

  /** BEGIN, all other files, and the first chunk of this one. */
  ghost function HalfScript(c: Config, key: Key, path: string): seq<Request>
    requires Corruptible(c, key, path)
  {
    var order, files, content := c.orders[key], c.sources[key], c.sources[key][path];
    var some := Without(order, path);
    WithoutOne(order, path);
    [BeginRequest(key, |order|, SizeOf(order, files))] + AllFileRequests(key, some, files, |content| - 1)
    + [ChunkRequest(key, path, content, 0, |content| - 1)]
  }

  lemma HalfOfScript(c: Config, key: Key, path: string)
    requires Corruptible(c, key, path)
    ensures var chunk := |c.sources[key][path]| - 1;
            forall r :: r in HalfScript(c, key, path) ==> r in Script(key, c.orders[key], c.sources[key], chunk)
  {
    var order, files, content := c.orders[key], c.sources[key], c.sources[key][path];
    WithoutOne(order, path);
    SameRequests(key, order, Without(order, path), files, |content| - 1);
    TwoChunks(key, path, content);
    RequestsOfFiles(key, order, files, |content| - 1, path, ChunkRequest(key, path, content, 0, |content| - 1));
    hide AllFileRequests, FileRequests, SizeOf;
  }

  lemma OtherFiles(c: Config, key: Key, path: string)
    requires Corruptible(c, key, path)
    ensures var order, files, some := c.orders[key], c.sources[key], Without(c.orders[key], path);
            && Distinct(some) && (forall q :: q in order ==> q in files) && (forall q :: q in some ==> q in files)
            && (set p | p in some) == files.Keys - {path} && path in order
            && NormalSource(files) && FoldsApart(files, c.lib) && ValidKey(key) && PlainId(key.id)
            && SizeOf(order, files) == TreeBytes(files) && |order| == |files|
  {
    WithoutOne(c.orders[key], path);
    SizeOfIsTreeBytes(c.orders[key], c.sources[key]);
    hide SizeOf, TreeBytes, Without, ReceiverVerdict, NormalSource, FoldsApart;
  }

  /** BEGIN and all other files. */
  lemma OthersRun(c: Config, key: Key, path: string, inbox: Inbox, begin: Request, middle: seq<Request>)
    returns (s: Store)
    requires Corruptible(c, key, path)
    requires begin == BeginRequest(key, |c.orders[key]|, SizeOf(c.orders[key], c.sources[key]))
    requires (forall q :: q in Without(c.orders[key], path) ==> q in c.sources[key])
    requires middle == AllFileRequests(key, Without(c.orders[key], path), c.sources[key], |c.sources[key][path]| - 1)
    ensures RunFrom(Store(inbox, map[]), [begin] + middle, 0, Still(), c.lib) == Some(s)
    ensures Holding(s, key, c.sources[key], c.sources[key].Keys - {path}, 0, c.lib)
  {
    OtherFiles(c, key, path);
    EmptyAdmits(begin, inbox);
    assert Steady(Still());
    hide Corruptible, Handled, Holding, Admitted, ValidKey, SizeOf, AllFileRequests, Steady, Distinct, RunFrom, Without,
         TreeBytes, NormalSource, FoldsApart;
    var files, n, lib, some := c.sources[key], |c.sources[key][path]|, c.lib, Without(c.orders[key], path);
    BeginHolds(Store(inbox, map[]), begin, files, 0, lib);
    var s1 := Handled(Store(inbox, map[]), begin, 0, NoFaults, lib).value.0;
    s := FilesRun(s1, key, some, files, n - 1, |some|, 1, Still(), lib);
    assert some[..|some|] == some;
    FirstThen(Store(inbox, map[]), begin, middle, 0, Still(), lib);
  }

  lemma FirstChunkRun(c: Config, key: Key, path: string, s: Store, i: nat) returns (s': Store)
    requires Corruptible(c, key, path) && Holding(s, key, c.sources[key], c.sources[key].Keys - {path}, 0, c.lib)
    ensures var content := c.sources[key][path];
            RunFrom(s, [ChunkRequest(key, path, content, 0, |content| - 1)], i, Still(), c.lib) == Some(s')
    ensures HalfWay(c, key, path, s')
  {
    var files, content, lib := c.sources[key], c.sources[key][path], c.lib;
    var r := ChunkRequest(key, path, content, 0, |content| - 1);
    hide Handled, Holding, ReceiverVerdict, ValidKey, SizeOf, Live, Arrived, Finished, Receiving, RunFrom, Acceptable,
         BeginRefusal;
    StartsReceiving(s, key, files, files.Keys - {path}, path, 0, lib);
    OneChunkRun(s, r, files, files.Keys - {path}, 0, 0, lib);
    s' := Handled(s, r, 0, NoFaults, lib).value.0;
    FirstThen(s, r, [], i, Still(), lib);
    assert [r] + [] == [r];
    NothingRun(s', i + 1, Still(), lib);
    ReceivingIsLive(s', key, files, files.Keys - {path}, path, |content| - 1, lib);
  }

  lemma HalfRun(c: Config, key: Key, path: string, inbox: Inbox) returns (s: Store)
    requires Corruptible(c, key, path)
    ensures RunFrom(Store(inbox, map[]), HalfScript(c, key, path), 0, Still(), c.lib) == Some(s)
    ensures HalfWay(c, key, path, s)
  {
    hide Acceptable, BeginRefusal, Handled, Holding, SizeOf, AllFileRequests, RunFrom, Without, HalfWay, Distinct,
         Lists;
    OtherFiles(c, key, path);
    var order, files, content := c.orders[key], c.sources[key], c.sources[key][path];
    var n := |content| - 1;
    assert n > 0 && path in c.sources[key];
    hide Corruptible;
    var begin := BeginRequest(key, |order|, SizeOf(order, files));
    var middle := AllFileRequests(key, Without(order, path), files, n);
    var s1 := OthersRun(c, key, path, inbox, begin, middle);
    s := FirstChunkRun(c, key, path, s1, 1 + |middle|);
    var last := [ChunkRequest(key, path, content, 0, n)];
    assert HalfScript(c, key, path) == [begin] + middle + last;
    hide HalfScript;
    RunConcat(Store(inbox, map[]), [begin] + middle, last, 0, Still(), c.lib);
  }

  lemma ReceivingIsLive(s: Store, key: Key, files: Tree, done: set<string>, path: string, at: nat, lib: Library)
    requires Receiving(s, key, files, done, path, at, 0, lib)
    ensures Live(s, key, 0) && StagedOf(s, key) == s.inbox[StagingOf(key)]
  {
    hide Arrived, Finished;
  }

  lemma HalfReceived(c: Config, key: Key, path: string) returns (worlds: seq<World>, at: Attempt)
    requires ValidConfig(c) && Corruptible(c, key, path)
    ensures Behaviour(c, worlds) && worlds[0] == NowhereYet && at.status == Waiting
    ensures AtEnd(c, key, |c.sources[key][path]| - 1, at) && HalfWay(c, key, path, Last(worlds).store)
    ensures Onward(FirstTry(at), Last(worlds), Last(worlds).store)
  {
    var s;
    worlds, at, s := SentOnce(c, key, |c.sources[key][path]| - 1);
    HalfOfScript(c, key, path);
    hide Holding, Next, RunFrom, HalfWay, Takeable, BackupGuarded;
    worlds := StartedAgain(c, worlds);
    s := HalfRun(c, key, path, Last(worlds).store.inbox);
    ScriptOfSender(c, key, path, at);
    hide HalfScript, Script, ValidConfig, Corruptible, ScriptOf;
    worlds := Redelivered(c, worlds, at, HalfScript(c, key, path), 0, s);
  }

  // ---- the failing BEGIN and what follows ----

  /** Everything staged can stay but this file. */
  function TakesAway(key: Key, files: Tree, path: string): Faults
  {
    Faults(Works, map[StagingOf(key) := files.Keys - {path}])
  }

  /** The bookkeeping of HalfWay without the file it is about. */
  ghost predicate Bereft(c: Config, key: Key, path: string, s: Store)
    requires Corruptible(c, key, path)
  {
    var files, content := c.sources[key], c.sources[key][path];
    && Live(s, key, 0) && StagedOf(s, key) == Copies(files, files.Keys - {path})
    && Arrived(s.transfers[key], StagedOf(s, key)[path := content[..|content| - 1]], files, files.Keys - {path}, path,
               |content| - 1, c.lib)
  }

  /** A live transaction's own BEGIN is not refused. */
  lemma BeginOfLive(p: Store, begin: Request)
    requires BeginRefusal(Store(map[], map[]), begin).None? && begin.key in p.transfers && OnlyOf(p, begin.key)
    ensures BeginRefusal(p, begin).None?
  {
    assert forall k :: k in p.transfers && k.event == begin.key.event ==> k == begin.key;
  }

  lemma OnlyOfFewer(s: Store, p: Store, key: Key)
    requires OnlyOf(s, key) && p.transfers.Keys <= s.transfers.Keys
    ensures OnlyOf(p, key)
  {
  }

  lemma KeptWithout(files: Tree, path: string, bytes: Bytes)
    requires path in files
    ensures var done := files.Keys - {path}; Kept(Copies(files, done)[path := bytes], done) == Copies(files, done)
  {
  }

  /** What is staged after the failed BEGIN. */
  lemma TakenAway(s: Store, begin: Request, files: Tree, path: string, bytes: Bytes)
    requires path in files && StagingOf(begin.key) in s.inbox && BeginRefusal(s, begin).None?
    requires StagedOf(s, begin.key) == Copies(files, files.Keys - {path})[path := bytes]
    ensures var faults := TakesAway(begin.key, files, path);
            var h := Begun(s, begin, 0, faults);
            && MkdirRaises(s, begin.key, faults) && h.0.transfers == s.transfers && StagingOf(begin.key) in h.0.inbox
            && StagedOf(h.0, begin.key) == Copies(files, files.Keys - {path})
  {
    KeptWithout(files, path, bytes);
    hide BeginRefusal, StagingName, Kept;
  }

  lemma BeginFails(c: Config, key: Key, path: string, s: Store, begin: Request)
    requires Corruptible(c, key, path) && HalfWay(c, key, path, s) && OnlyOf(s, key)
    requires begin == BeginRequest(key, |c.orders[key]|, SizeOf(c.orders[key], c.sources[key]))
    ensures var faults := TakesAway(key, c.sources[key], path);
            var h := Handled(s, begin, 0, faults, c.lib);
            && h.Some? && Bereft(c, key, path, h.value.0) && Spoils(Pruned(s, 0, faults.remains), begin, faults)
  {
    hide Acceptable, BeginRefusal, SizeOf, TreeBytes, CanonicalOk, WholeFiles, Copies, StagingName, Cleared, Pruned;
    var files, content, faults := c.sources[key], c.sources[key][path], TakesAway(key, c.sources[key], path);
    PrunedKeepsLive(s, key, 0, 0, faults.remains);
    var p := Pruned(s, 0, faults.remains);
    assert p.transfers.Keys <= s.transfers.Keys by { PrunedHasFewer(s, 0, faults.remains); }
    OnlyOfFewer(s, p, key);
    BeginOfLive(p, begin);
    TakenAway(p, begin, files, path, content[..|content| - 1]);
    hide OnlyOf, MkdirRaises, Begun;
    var t := p.transfers[key];
    assert path in t.files && t.files[path] == FileState(|content|, |content| - 1, content[..|content| - 1]);
  }

  lemma PrunedHasFewer(s: Store, now: int, remains: map<string, set<string>>)
    ensures Pruned(s, now, remains).transfers.Keys <= s.transfers.Keys
  {
  }

  lemma PlacedHollow(content: Bytes, r: Request)
    requires |content| > 1 && r.offset == |content| - 1 && r.data == content[|content| - 1..]
    ensures Placed(FileState(|content|, |content| - 1, content[..|content| - 1]), None, r, Works)
         == (Whole(content), Some(Hollow(content)), Response(true, Stored, |content|))
  {
    var n := |content| - 1;
    assert content[..n] + content[n..] == content;
    var zeros: Bytes := [] + seq(n, _ => 0);
    assert zeros[..n] == zeros && zeros + r.data + [] == Hollow(content);
  }

  /** All bookkeeping is that of the whole directory, but one file is hollow. */
  ghost predicate Ruined(c: Config, key: Key, path: string, s: Store)
    requires Corruptible(c, key, path)
  {
    var files := c.sources[key];
    && Live(s, key, 0) && StagedOf(s, key) == files[path := Hollow(files[path])]
    && s.transfers[key].expectedFiles == |files| && s.transfers[key].expectedBytes == TreeBytes(files)
    && s.transfers[key].files == WholeFiles(files, files.Keys)
  }

  lemma HollowMaps(files: Tree, path: string, bytes: Bytes, f: FileState)
    requires path in files
    ensures var done := files.Keys - {path};
            && Copies(files, done)[path := bytes] == files[path := bytes] && Get(Copies(files, done), path) == None
            && WholeFiles(files, done)[path := f][path := Whole(files[path])] == WholeFiles(files, files.Keys)
  {
    var done := files.Keys - {path};
    UpdateTwice(WholeFiles(files, done), path, f, Whole(files[path]));
  }

  /** The last chunk of the file is filed like any other. */
  lemma HollowFiled(t: TransferState, staged: Tree, files: Tree, path: string, r: Request, lib: Library)
    requires FoldsApart(files, lib) && path in files && |files[path]| > 1
    requires r == ChunkRequest(r.key, path, files[path], |files[path]| - 1, |files[path]|)
    requires Arrived(t, staged[path := files[path][..|files[path]| - 1]], files, files.Keys - {path}, path,
                     |files[path]| - 1, lib)
    ensures var (filed, refusal) := Filed(t, path, r, lib);
            var f := FileState(|files[path]|, |files[path]| - 1, files[path][..|files[path]| - 1]);
            && refusal == None && filed.files == WholeFiles(files, files.Keys - {path})[path := f]
            && filed == t.(files := filed.files, canonical := filed.canonical)
  {
    hide FoldsApart, Arrived, WholeFiles, ChunksFrom;
    FiledArrives(t, staged[path := files[path][..|files[path]| - 1]], files, files.Keys - {path}, r, lib);
  }

  lemma HollowChunk(t: TransferState, staged: Tree, files: Tree, path: string, r: Request, lib: Library)
    requires NormalSource(files) && FoldsApart(files, lib) && path in files && |files[path]| > 1
    requires r == ChunkRequest(r.key, path, files[path], |files[path]| - 1, |files[path]|)
    requires staged == Copies(files, files.Keys - {path})
    requires Arrived(t, staged[path := files[path][..|files[path]| - 1]], files, files.Keys - {path}, path,
                     |files[path]| - 1, lib)
    ensures ChunkStored(t, Some(staged), r, Works, lib)
            == (t.(files := WholeFiles(files, files.Keys), canonical := Filed(t, path, r, lib).0.canonical),
                Some(files[path := Hollow(files[path])]), Response(true, Stored, |files[path]|))
  {
    assert NormalPath(path);
    hide NormalPath, NormalSource, FoldsApart, Arrived, WholeFiles, Copies, Hollow, ChunkStored, Filed, Placed,
         ChunksFrom;
    NormalChunk(t, Some(staged), r, Works, lib);
    HollowFiled(t, staged, files, path, r, lib);
    var f := FileState(|files[path]|, |files[path]| - 1, files[path][..|files[path]| - 1]);
    PlacedHollow(files[path], r);
    HollowMaps(files, path, Hollow(files[path]), f);
    assert Filed(t, path, r, lib).0.files[path] == f;
  }

  lemma LastChunkRuins(c: Config, key: Key, path: string, s: Store, r: Request)
    requires Corruptible(c, key, path) && Bereft(c, key, path, s)
    requires r == ChunkRequest(key, path, c.sources[key][path], |c.sources[key][path]| - 1, |c.sources[key][path]|)
    ensures var h := Handled(s, r, 0, NoFaults, c.lib);
            h.Some? && h.value.1.success && Ruined(c, key, path, h.value.0)
  {
    hide ReceiverVerdict, BeginRefusal, SizeOf, TreeBytes, StagingName, Handled, ChunkStored, Hollow;
    var files, t := c.sources[key], s.transfers[key];
    assert t.(lastActivity := 0) == t;
    HollowChunk(t, StagedOf(s, key), files, path, r, c.lib);
    ChunkHandled(s, r, 0, 0, c.lib);
  }

  lemma AllComplete(files: Tree, path: string, t: TransferState, staged: Tree)
    requires path in files && |files[path]| > 1 && path != MANIFEST
    requires t.files == WholeFiles(files, files.Keys) && staged == files[path := Hollow(files[path])]
    ensures forall p :: p in t.files ==> CompleteFile(t.files[p], Get(staged, p))
    ensures Get(staged, MANIFEST) == Get(files, MANIFEST) && |t.files| == |files|
  {
    assert |t.files| == |t.files.Keys| && |files| == |files.Keys|;
  }

  lemma SameSums(files: Tree, t: TransferState, lib: Library)
    requires t.files == WholeFiles(files, files.Keys)
    ensures ReceivedBytes(t) == TreeBytes(files) && ReceivedDigests(t, lib) == Digests(files, lib.digest)
  {
    assert ReceivedSizes(t.files) == Sizes(files);
    hide Sum;
  }

  lemma RuinedPasses(c: Config, key: Key, path: string, t: TransferState, staged: Tree)
    requires Corruptible(c, key, path)
    requires var files := c.sources[key];
             && t.expectedFiles == |files| && t.expectedBytes == TreeBytes(files)
             && t.files == WholeFiles(files, files.Keys)
             && staged == files[path := Hollow(files[path])]
    ensures EndRefusal(t, staged, c.lib) == None && ReceivedBytes(t) == TreeBytes(c.sources[key])
  {
    hide ReceiverVerdict, SizeOf, BeginRefusal, FoldsApart, NormalSource, Lists, Hollow, TreeBytes, ReceivedBytes,
         CompleteFile, ReceivedDigests;
    AllComplete(c.sources[key], path, t, staged);
    SameSums(c.sources[key], t, c.lib);
  }

  lemma EndOfRuined(c: Config, key: Key, path: string, s: Store)
    requires Corruptible(c, key, path) && Ruined(c, key, path, s)
    ensures Handled(s, EndRequest(key), 0, NoFaults, c.lib) == None && key in Pruned(s, 0, map[]).transfers
    ensures var t := Touched(Pruned(s, 0, map[]), key, 0);
            && key in t.transfers && StagedOf(t, key) == c.sources[key][path := Hollow(c.sources[key][path])]
            && StagingOf(key) in t.inbox && ReceivedBytes(t.transfers[key]) == TreeBytes(c.sources[key])
  {
    hide Acceptable, BeginRefusal, SizeOf, StagingName, Hollow, EndRefusal, WholeFiles, TreeBytes, Pruned,
         ValidEventName, PlainId;
    PrunedKeepsLive(s, key, 0, 0, map[]);
    var t := Touched(Pruned(s, 0, map[]), key, 0);
    RuinedPasses(c, key, path, t.transfers[key], StagedOf(t, key));
  }

  // ---- the whole run ----

  lemma ScriptOfSender(c: Config, key: Key, path: string, at: Attempt)
    requires Corruptible(c, key, path) && ValidConfig(c)
    requires at.key == key && at.chunk == |c.sources[key][path]| - 1
    ensures ScriptOf(c, at) == Script(key, c.orders[key], c.sources[key], |c.sources[key][path]| - 1)
    ensures ScriptOf(c, at)[0] == BeginRequest(key, |c.orders[key]|, SizeOf(c.orders[key], c.sources[key]))
  {
    hide Acceptable, BeginRefusal, SizeOf, AllFileRequests;
  }

  /** A first attempt whose transaction a failed BEGIN has spoiled. */
  ghost predicate Robbed(w: World, at: Attempt)
  {
    Onward(FirstTry(at).(spoiled := {at.key}, beginFailed := true), w, w.store)
  }

  /** BEGIN fails under the half received directory. */
  lemma BeginFailed(c: Config, key: Key, path: string) returns (worlds: seq<World>, at: Attempt)
    requires ValidConfig(c) && Corruptible(c, key, path)
    ensures Behaviour(c, worlds) && worlds[0] == NowhereYet && at.status == Waiting
    ensures AtEnd(c, key, |c.sources[key][path]| - 1, at)
    ensures Robbed(Last(worlds), at) && Bereft(c, key, path, Last(worlds).store)
  {
    hide Acceptable, BeginRefusal, ScriptOf, ValidConfig, Handled, HalfWay, Bereft, SizeOf, Spoils, Pruned, Next,
         Script;
    worlds, at := HalfReceived(c, key, path);
    ScriptOfSender(c, key, path, at);
    OtherFiles(c, key, path);
    NothingYet(c, worlds, key);
    BeginFails(c, key, path, Last(worlds).store, ScriptOf(c, at)[0]);
    hide Corruptible, OnlyOf, Copy;
    worlds := DeliveredWith(c, worlds, at, 0, TakesAway(key, c.sources[key], path));
    assert Last(worlds).spoiled == {key};
  }

  /** And the last chunk arrives all the same. */
  lemma RuinedInTransit(c: Config, key: Key, path: string) returns (worlds: seq<World>, at: Attempt)
    requires ValidConfig(c) && Corruptible(c, key, path)
    ensures Behaviour(c, worlds) && worlds[0] == NowhereYet && at.status == Waiting
    ensures AtEnd(c, key, |c.sources[key][path]| - 1, at)
    ensures Robbed(Last(worlds), at) && Ruined(c, key, path, Last(worlds).store)
  {
    hide Acceptable, BeginRefusal, ScriptOf, ValidConfig, Next, Handled, Bereft, Ruined, SizeOf, Pruned, Script;
    worlds, at := BeginFailed(c, key, path);
    var j := LastChunkIsSent(c, key, path);
    ScriptOfSender(c, key, path, at);
    var r := ScriptOf(c, at)[j];
    LastChunkRuins(c, key, path, Last(worlds).store, r);
    ChunkSpoilsNothing({key}, Pruned(Last(worlds).store, 0, NoFaults.remains), r);
    hide Corruptible, Spoils;
    worlds := DeliveredWith(c, worlds, at, j, NoFaults);
  }

  lemma ChunkSpoilsNothing(spoiled: set<Key>, p: Store, r: Request)
    requires r.opcode == FileChunk
    ensures SpoiledAfter(spoiled, p, r, NoFaults) == spoiled && !Spoils(p, r, NoFaults)
  {
  }

  lemma LastChunkIsSent(c: Config, key: Key, path: string) returns (j: nat)
    requires Corruptible(c, key, path)
    ensures var content := c.sources[key][path];
            var script := Script(key, c.orders[key], c.sources[key], |content| - 1);
            j < |script| - 1 && script[j] == ChunkRequest(key, path, content, |content| - 1, |content|)
  {
    hide AllFileRequests, FileRequests, SizeOf, Acceptable, BeginRefusal, Script, Distinct;
    var order, files, content := c.orders[key], c.sources[key], c.sources[key][path];
    OtherFiles(c, key, path);
    TwoChunks(key, path, content);
    var r := ChunkRequest(key, path, content, |content| - 1, |content|);
    hide Corruptible;
    RequestsOfFiles(key, order, files, |content| - 1, path, r);
    j := InScript(key, order, files, |content| - 1, r);
  }

  lemma InScript(key: Key, order: seq<string>, files: Tree, chunk: nat, r: Request) returns (j: nat)
    requires chunk > 0 && (forall q :: q in order ==> q in files) && r in AllFileRequests(key, order, files, chunk)
    ensures var script := Script(key, order, files, chunk); j < |script| - 1 && script[j] == r
  {
    hide AllFileRequests, SizeOf;
    var requests := AllFileRequests(key, order, files, chunk);
    var i :| 0 <= i < |requests| && requests[i] == r;
    j := i + 1;
  }

  // ---- publication ----

  /** For every directory in which the loss shows there is a run in which one BEGIN fails, and the receiver publishes,
      and the sender takes for uploaded, something that is nobody's directory. */
  lemma FailedBeginCorrupts(c: Config, key: Key, path: string) returns (worlds: seq<World>)
    requires ValidConfig(c) && Corruptible(c, key, path)
    ensures Behaviour(c, worlds) && worlds[0] == NowhereYet
    ensures var w := Last(worlds);
            && w.up && key in w.uploaded && FinalName(key.event) in w.store.inbox && !w.backupLeft
            && w.store.inbox[FinalName(key.event)] == c.sources[key][path := Hollow(c.sources[key][path])]
            && !WholeOrOld(c, worlds[0].store.inbox, w, key.event)
  {
    hide Acceptable, BeginRefusal, ScriptOf, ValidConfig, Next, Handled, Ruined, SizeOf, Pruned, Script, Hollow;
    var at;
    worlds, at := RuinedInTransit(c, key, path);
    var t := ReadyToSwap(c, key, path, worlds, at);
    hide Corruptible, SwapStart, Copy, TreeBytes, ReceivedBytes, ValidKey, WholeOrOld, StagingName;
    worlds := PublishedAndConfirmed(c, worlds, at, t);
    RuinIsNobodys(c, key, path, Last(worlds));
  }

  lemma ReadyToSwap(c: Config, key: Key, path: string, worlds: seq<World>, at: Attempt) returns (t: Store)
    requires ValidConfig(c) && Corruptible(c, key, path) && Behaviour(c, worlds) && worlds[0] == NowhereYet
    requires AtEnd(c, key, |c.sources[key][path]| - 1, at) && Robbed(Last(worlds), at)
    requires Ruined(c, key, path, Last(worlds).store)
    ensures ValidKey(key) && key in c.sources
    ensures Handled(Last(worlds).store, ScriptOf(c, at)[at.next], 0, NoFaults, c.lib) == None
    ensures t == SwapStart(Last(worlds), key, 0, NoFaults) && key in t.transfers && StagingOf(key) in t.inbox
    ensures Copy(t.inbox, key.event) == None && ReceivedBytes(t.transfers[key]) == TreeBytes(c.sources[key])
    ensures StagedOf(t, key) == c.sources[key][path := Hollow(c.sources[key][path])]
  {
    hide Acceptable, BeginRefusal, ScriptOf, ValidConfig, Next, Handled, Ruined, SizeOf, Pruned, Script, Hollow,
         StagedOf, Copy, ReceivedBytes, TreeBytes;
    OtherFiles(c, key, path);
    EndOfRuined(c, key, path, Last(worlds).store);
    t := SwapStart(Last(worlds), key, 0, NoFaults);
    NothingYet(c, worlds, key);
    NoCopyAtSwap(c, worlds, key);
  }

  lemma RuinIsNobodys(c: Config, key: Key, path: string, w: World)
    requires Corruptible(c, key, path) && FinalName(key.event) in w.store.inbox
    requires w.store.inbox[FinalName(key.event)] == c.sources[key][path := Hollow(c.sources[key][path])]
    ensures !WholeOrOld(c, map[], w, key.event)
  {
    hide Acceptable, BeginRefusal, Hollow;
    assert w.store.inbox[FinalName(key.event)][path] != c.sources[key][path];
  }

  // ---- an example ----

  function ExampleLibrary(): Library { Library((s: string) => s, (b: Bytes) => Some(Listing()), ZeroDigest()) }

  const SENDER := Key("e", "1")

  function ExampleFiles(): Tree { map[FILE := [1, 2], MANIFEST := []] }

  function ExampleConfig(): Config
  {
    Config(map[SENDER := ExampleFiles()], map[SENDER := [FILE, MANIFEST]], ExampleLibrary())
  }

  lemma SenderIsValid()
    ensures ValidKey(SENDER) && PlainId(SENDER.id)
  {
    assert Alphanumeric('e') && Alphanumeric('1');
    hide Alphanumeric;
  }

  lemma ExampleVerdict()
    ensures var lib := ExampleLibrary();
            ReceiverVerdict(Get(ExampleFiles(), MANIFEST), Digests(ExampleFiles(), lib.digest), lib.decode) == None
  {
    var lib := ExampleLibrary();
    FileIsHashed();
    FileHasNoBreak();
    NamesOfExample();
    hide Hashed, Uploaded, FileName, NormalPath, PythonBreak, Terminated, ReceiverVerdict, Row;
    assert forall b: Bytes :: HexDigest(lib.digest(b));
    assert Rows([FILE], map[FILE := [1, 2]], lib.digest) == [Row(seq(64, _ => '0'), FILE)];
    hide HexDigest, Rows;
    OneFileAccepted(FILE, [1, 2], [], lib, Listing());
  }

  /** The condition is met by a directory of one two-byte file and its manifest. */
  lemma ExampleIsCorruptible()
    ensures ValidConfig(ExampleConfig()) && Corruptible(ExampleConfig(), SENDER, FILE)
  {
    FileIsHashed();
    NamesOfExample();
    SenderIsValid();
    ExampleVerdict();
    hide Hashed, Uploaded, FileName, NormalPath, ReceiverVerdict, ValidKey, PlainId, Listing;
    var order := [FILE, MANIFEST];
    assert Lists(order, ExampleFiles().Keys);
    assert SizeOf(order, ExampleFiles()) == 2 by {
      assert order[..1] == [FILE] && [FILE][..0] == [];
      assert SizeOf([FILE], ExampleFiles()) == 2;
    }
    assert Hollow([1, 2])[0] == 0;
  }
}
