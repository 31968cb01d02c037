/**
 The receiving side of the upload transactions, tools/receiver_node.py: the state, and what each request does to it
 when the file system works and when it fails.
 */
module Receiver {
  import opened Prelude
  import opened Text
  import opened ReceiverNames
  import opened ChecksumManifest

  const MAX_FILES := 10000
  const MAX_TOTAL_BYTES := 100 * 1024 * 1024 * 1024
  const MAX_ACTIVE_TRANSFERS := 16
  const TRANSFER_IDLE_SECONDS := 600

  // ---- requests and responses ----

  datatype Key = Key(event: string, id: string)

  datatype Opcode = Begin | FileChunk | End | Unknown

  datatype Request = Request(key: Key, opcode: Opcode, path: string, offset: nat, totalBytes: nat,
                             fileCount: nat, data: Bytes)

  datatype Reason =
    | Started | Stored | Duplicate | Complete
    | UnsafeName | NoTransfer | UnknownOpcode
    | FileLimit | ByteLimit | NameLimit | TooManyTransfers | EventOwned
    | UnsafePath | PathCollision | SizeChanged | ChunkTooLong | Overlap | Conflict | NonContiguous
    | FileCountMismatch | ByteCountMismatch | IncompleteFile | BadChecksums(error: ChecksumError)
    | Raised

  datatype Response = Response(success: bool, reason: Reason, receivedBytes: nat)

  // ---- state ----

  datatype FileState = FileState(expectedBytes: nat, receivedBytes: nat, hashed: Bytes)

  datatype TransferState = TransferState(expectedFiles: nat, expectedBytes: nat, files: map<string, FileState>,
                                         canonical: map<string, string>, lastActivity: int)

  /** The inbox directory: entry name to the files below it. */
  type Inbox = map<string, Tree>

  datatype Store = Store(inbox: Inbox, transfers: map<Key, TransferState>)

  /** The library calls the receiver makes: str.casefold, UTF-8 decoding and sha256().hexdigest(). */
  datatype Library = Library(fold: string -> string, decode: Bytes -> Option<string>, digest: Bytes -> string)

  /** What the file system does while a request is handled: it works; a first call raises - for a chunk, one before the
      write, made saying whether the staging directory is there by then; for END, a stat or sync of a file -; or a later
      one does - for a chunk, the write after that many bytes reached the file; for END, the sync before the swap. */
  datatype Io = Works | RaisesEarly(made: bool) | RaisesAfter(written: nat)

  /** remains: what rmtree(ignore_errors=True) cannot remove while the request is handled - of the entries named, the
      directory itself and these of its files. */
  datatype Faults = Faults(io: Io, remains: map<string, set<string>>)

  const NoFaults := Faults(Works, map[])

  function Kept(files: Tree, kept: set<string>): Tree { map p | p in files && p in kept :: files[p] }

  /** The inbox after rmtree of these entries. */
  function Cleared(inbox: Inbox, names: set<string>, remains: map<string, set<string>>): Inbox
  {
    map n | n in inbox && (n in names ==> n in remains) :: if n in names then Kept(inbox[n], remains[n]) else inbox[n]
  }

  function StagingOf(key: Key): string { StagingName(key.event, key.id) }

  function Failure(reason: Reason): Response { Response(false, reason, 0) }

  // ---- prune_idle_transfers ----

  predicate Idle(state: TransferState, now: int)
  {
    state.lastActivity < now - TRANSFER_IDLE_SECONDS
  }

  function IdleNames(s: Store, now: int): set<string>
  {
    set k | k in s.transfers && Idle(s.transfers[k], now) :: StagingOf(k)
  }

  function Pruned(s: Store, now: int, remains: map<string, set<string>>): Store
  {
    Store(Cleared(s.inbox, IdleNames(s, now), remains),
          map k | k in s.transfers && !Idle(s.transfers[k], now) :: s.transfers[k])
  }

  // ---- begin ----

  function BeginRefusal(s: Store, r: Request): Option<Reason>
  {
    if r.fileCount == 0 || r.fileCount > MAX_FILES then Some(FileLimit)
    else if r.totalBytes > MAX_TOTAL_BYTES then Some(ByteLimit)
    else if |r.key.event| + |r.key.id| + |"...part"| > 240 then Some(NameLimit)
    else if r.key !in s.transfers && |s.transfers| >= MAX_ACTIVE_TRANSFERS then Some(TooManyTransfers)
    else if exists k :: k in s.transfers && k.event == r.key.event && k.id != r.key.id then Some(EventOwned)
    else None
  }

  function NewTransfer(r: Request, now: int): TransferState
  {
    TransferState(r.fileCount, r.totalBytes, map[], map[], now)
  }

  /** Whether mkdir raises: it fails by itself, or the directory is still there. */
  predicate MkdirRaises(s: Store, key: Key, faults: Faults)
  {
    faults.io != Works || StagingOf(key) in Cleared(s.inbox, {StagingOf(key)}, faults.remains)
  }

  /** When mkdir raises, the bookkeeping of a live transaction stays while its files are gone. */
  function Begun(s: Store, r: Request, now: int, faults: Faults): (Store, Response)
  {
    var cleared := Cleared(s.inbox, {StagingOf(r.key)}, faults.remains);
    match BeginRefusal(s, r)
    case Some(reason) => (s, Failure(reason))
    case None =>
      if MkdirRaises(s, r.key, faults) then (s.(inbox := cleared), Failure(Raised))
      else (Store(cleared[StagingOf(r.key) := map[]], s.transfers[r.key := NewTransfer(r, now)]),
            Response(true, Started, 0))
  }

  // ---- store_chunk ----

  /** seek(offset) then write(data): a gap is filled with zeros, the rest of the file stays. */
  function WriteAt(content: Bytes, offset: nat, data: Bytes): Bytes
  {
    var padded := if |content| < offset then content + seq(offset - |content|, _ => 0) else content;
    padded[..offset] + data + if offset + |data| < |padded| then padded[offset + |data|..] else []
  }

  /** A file opened (and created if missing), then written at offset; nothing written leaves it as it was. */
  function Written(staged: Option<Bytes>, offset: nat, data: Bytes): Bytes
  {
    var before := if staged.Some? then staged.value else [];
    if data == [] then before else WriteAt(before, offset, data)
  }

  /** seek(offset) then read(n) */
  function ReadAt(content: Bytes, offset: nat, n: nat): Bytes
  {
    if |content| <= offset then []
    else if |content| - offset <= n then content[offset..]
    else content[offset..offset + n]
  }

  /** The transaction's bookkeeping once the chunk named its file, and the refusal if there is one. */
  function Filed(state: TransferState, relative: string, r: Request, lib: Library)
    : (filed: (TransferState, Option<Response>))
    ensures filed.1.None? ==> relative in filed.0.files
  {
    var folded := lib.fold(relative);
    if folded in state.canonical && state.canonical[folded] != relative then (state, Some(Failure(PathCollision)))
    else
      var noted := state.(canonical := state.canonical[folded := relative]);
      if relative !in noted.files then
        (noted.(files := noted.files[relative := FileState(r.totalBytes, 0, [])]),
         if r.offset + |r.data| > r.totalBytes then Some(Failure(ChunkTooLong)) else None)
      else
        var f := noted.files[relative];
        (noted,
         if f.expectedBytes != r.totalBytes then Some(Response(false, SizeChanged, f.receivedBytes))
         else if r.offset + |r.data| > f.expectedBytes then Some(Response(false, ChunkTooLong, f.receivedBytes))
         else None)
  }

  /** A filed chunk against the staged copy of its file: the new state and copy, and the answer. */
  function Placed(f: FileState, staged: Option<Bytes>, r: Request, io: Io): (FileState, Option<Bytes>, Response)
  {
    var end := r.offset + |r.data|;
    if io.RaisesEarly? then (f, staged, Failure(Raised))
    else if r.offset < f.receivedBytes then
      (f, staged,
       if end > f.receivedBytes || staged.None? then Response(false, Overlap, f.receivedBytes)
       else if ReadAt(staged.value, r.offset, |r.data|) != r.data then Response(false, Conflict, f.receivedBytes)
       else Response(true, Duplicate, f.receivedBytes))
    else if r.offset != f.receivedBytes then (f, staged, Response(false, NonContiguous, f.receivedBytes))
    else
      var reached := if io.RaisesAfter? && io.written < |r.data| then r.data[..io.written] else r.data;
      if io.RaisesAfter? then (f, Some(Written(staged, r.offset, reached)), Failure(Raised))
      else (FileState(f.expectedBytes, end, f.hashed + r.data), Some(Written(staged, r.offset, reached)),
            Response(true, Stored, end))
  }

  function FilesIn(staged: Option<Tree>): Tree { if staged.Some? then staged.value else map[] }

  /** store_chunk on one transaction and its staging directory, which is made again if it is gone. */
  function ChunkStored(t: TransferState, staged: Option<Tree>, r: Request, io: Io, lib: Library)
    : (TransferState, Option<Tree>, Response)
  {
    var parts := SafeRelative(r.path);
    if parts.None? then (t, staged, Failure(UnsafePath)) else ChunkNamed(t, staged, Join(parts.value, '/'), r, io, lib)
  }

  function ChunkNamed(t: TransferState, staged: Option<Tree>, relative: string, r: Request, io: Io, lib: Library)
    : (TransferState, Option<Tree>, Response)
  {
    var (filed, refusal) := Filed(t, relative, r, lib);
    if refusal.Some? then (filed, staged, refusal.value)
    else
      var tree := FilesIn(staged);
      var (f, copy, response) := Placed(filed.files[relative], Get(tree, relative), r, io);
      (filed.(files := filed.files[relative := f]),
       if io == RaisesEarly(false) then staged else Some(if copy.Some? then tree[relative := copy.value] else tree),
       response)
  }

  function Chunked(s: Store, r: Request, io: Io, lib: Library): (Store, Response)
    requires r.key in s.transfers
  {
    var (t, staged, response) := ChunkStored(s.transfers[r.key], Get(s.inbox, StagingOf(r.key)), r, io, lib);
    (Store(if staged.Some? then s.inbox[StagingOf(r.key) := staged.value] else s.inbox, s.transfers[r.key := t]),
     response)
  }

  // ---- finish, up to the swap ----

  ghost function ReceivedSizes(files: map<string, FileState>): (sizes: map<string, nat>)
    ensures sizes.Keys == files.Keys
  {
    map p | p in files :: files[p].receivedBytes
  }

  ghost function ReceivedBytes(state: TransferState): nat { Sum(ReceivedSizes(state.files)) }

  predicate CompleteFile(f: FileState, staged: Option<Bytes>)
  {
    staged.Some? && f.receivedBytes == f.expectedBytes == |staged.value|
  }

  ghost function ReceivedDigests(state: TransferState, lib: Library): map<string, string>
  {
    map p | p in state.files :: lib.digest(state.files[p].hashed)
  }

  /** Why END refuses to publish; None when it goes on to the swap. */
  ghost function EndRefusal(state: TransferState, staged: Tree, lib: Library): Option<Reason>
  {
    if |state.files| != state.expectedFiles then Some(FileCountMismatch)
    else if ReceivedBytes(state) != state.expectedBytes then Some(ByteCountMismatch)
    else if exists p :: p in state.files && !CompleteFile(state.files[p], Get(staged, p)) then Some(IncompleteFile)
    else
      var error := ReceiverVerdict(Get(staged, MANIFEST), ReceivedDigests(state, lib), lib.decode);
      if error == Some(Undecodable) then Some(Raised)
      else if error.Some? then Some(BadChecksums(error.value)) else None
  }

  /** What passes END's checks has a staging directory: the manifest is in it. */
  lemma PassedIsStaged(t: TransferState, staged: Tree, lib: Library)
    requires EndRefusal(t, staged, lib) == None
    ensures MANIFEST in staged
  {
    hide Sum, PythonLines, Table;
  }

  // ---- dispatch ----

  predicate ValidKey(key: Key) { ValidEventName(key.event) && ValidEventName(key.id) }

  function Touched(s: Store, key: Key, now: int): Store
    requires key in s.transfers
  {
    s.(transfers := s.transfers[key := s.transfers[key].(lastActivity := now)])
  }

  /** The files staged for a transaction. */
  function StagedOf(s: Store, key: Key): Tree { FilesIn(Get(s.inbox, StagingOf(key))) }

  /** The refusal, or what raises first; a file found incomplete before the call that raises is EndRefusal's. */
  ghost function EndVerdict(state: TransferState, staged: Tree, io: Io, lib: Library): Option<Reason>
  {
    var refusal := EndRefusal(state, staged, lib);
    if refusal == Some(FileCountMismatch) || refusal == Some(ByteCountMismatch) then refusal
    else if io.RaisesEarly? || (io.RaisesAfter? && refusal.None?) then Some(Raised)
    else refusal
  }

  /** END up to the swap: refused with the byte count, or None. */
  ghost function Ended(s: Store, key: Key, io: Io, lib: Library): Option<(Store, Response)>
    requires key in s.transfers
  {
    var refusal := EndVerdict(s.transfers[key], StagedOf(s, key), io, lib);
    if refusal.None? then None
    else if refusal == Some(Raised) then Some((s, Failure(Raised)))
    else Some((s, Response(false, refusal.value, ReceivedBytes(s.transfers[key]))))
  }

  /** The store and answer after one request; None when END's checks passed and the swap begins. */
  ghost function Handled(s: Store, r: Request, now: int, faults: Faults, lib: Library): Option<(Store, Response)>
  {
    HandledOpen(Pruned(s, now, faults.remains), r, now, faults, lib)
  }

  ghost function HandledOpen(p: Store, r: Request, now: int, faults: Faults, lib: Library): Option<(Store, Response)>
  {
    if !ValidKey(r.key) then Some((p, Failure(UnsafeName)))
    else if r.opcode == Begin then Some(Begun(p, r, now, faults))
    else if r.key !in p.transfers then Some((p, Failure(NoTransfer)))
    else if r.opcode == FileChunk then Some(Chunked(Touched(p, r.key, now), r, faults.io, lib))
    else if r.opcode == End then Ended(Touched(p, r.key, now), r.key, faults.io, lib)
    else Some((p, Failure(UnknownOpcode)))
  }
}
