/**
 One transaction of the receiver under any mix of its own sender's requests: whatever is staged is a
 prefix of the source, and what passes END's checks is the whole source.
 */
module ReceiverSafety {
  import opened Prelude
  import opened Text
  import opened ReceiverNames
  import opened ChecksumManifest
  import opened Receiver
  import opened UploadSender

  ghost predicate NormalSource(source: Tree)
  {
    forall p :: p in source ==> NormalPath(p)
  }

  /** One file's bookkeeping and staged copy against its source: what was received is staged, unless it was the whole
      file, which no chunk can touch any more. */
  ghost predicate FileTracks(f: FileState, staged: Option<Bytes>, content: Bytes)
  {
    && f.expectedBytes == |content| && f.receivedBytes <= |content|
    && f.hashed == content[..f.receivedBytes]
    && match staged
       case Some(bytes) => bytes <= content && (f.receivedBytes <= |bytes| || f.receivedBytes == |content|)
       case None => f.receivedBytes == 0 || f.receivedBytes == |content|
  }

  ghost predicate TransferTracks(t: TransferState, staged: Tree, source: Tree)
  {
    && t.expectedFiles == |source| && t.expectedBytes == TreeBytes(source)
    && t.files.Keys <= source.Keys && staged.Keys <= t.files.Keys
    && forall p :: p in t.files ==> FileTracks(t.files[p], Get(staged, p), source[p])
  }

  lemma WriteKeepsPrefix(before: Bytes, content: Bytes, offset: nat, n: nat)
    requires before <= content && offset <= |before| && offset + n <= |content|
    ensures var after := WriteAt(before, offset, content[offset..offset + n]);
            after <= content && |after| >= offset + n && |after| >= |before|
  {
    var data := content[offset..offset + n];
    var after := WriteAt(before, offset, data);
    assert after == if offset + n < |before| then before else content[..offset + n];
  }

  lemma WrittenTracks(staged: Option<Bytes>, content: Bytes, offset: nat, n: nat)
    requires staged.Some? ==> staged.value <= content && (n > 0 ==> offset <= |staged.value|)
    requires staged.None? ==> offset == 0 || n == 0
    requires offset + n <= |content|
    ensures var after := Written(staged, offset, content[offset..offset + n]);
            after <= content && (n > 0 ==> |after| >= offset + n)
    ensures n == 0 && staged.Some? ==> Written(staged, offset, content[offset..offset + n]) == staged.value
  {
    if n > 0 { WriteKeepsPrefix(if staged.Some? then staged.value else [], content, offset, n); }
  }

  lemma PlacedTracks(f: FileState, staged: Option<Bytes>, content: Bytes, r: Request, io: Io)
    requires FileTracks(f, staged, content)
    requires r.offset + |r.data| <= |content| && r.data == content[r.offset..r.offset + |r.data|]
    ensures FileTracks(Placed(f, staged, r, io).0, Placed(f, staged, r, io).1, content)
    ensures Placed(f, staged, r, io).1.None? ==> staged.None?
    ensures io.RaisesEarly? ==> Placed(f, staged, r, io).1 == staged
  {
    hide Written, ReadAt, WriteAt;
    if r.offset == f.receivedBytes && !io.RaisesEarly? {
      var n := if io.RaisesAfter? && io.written < |r.data| then io.written else |r.data|;
      var reached := if io.RaisesAfter? && io.written < |r.data| then r.data[..io.written] else r.data;
      assert reached == content[r.offset..r.offset + n];
      WrittenTracks(staged, content, r.offset, n);
      assert content[..r.offset] + r.data == content[..r.offset + |r.data|];
    }
  }

  lemma NewFileTracks(content: Bytes)
    ensures FileTracks(FileState(|content|, 0, []), None, content)
  {
  }

  lemma FiledTracks(t: TransferState, staged: Tree, source: Tree, r: Request, lib: Library)
    requires TransferTracks(t, staged, source)
    requires r.path in source && r.totalBytes == |source[r.path]|
    ensures TransferTracks(Filed(t, r.path, r, lib).0, staged, source)
  {
    NewFileTracks(source[r.path]);
    hide FileTracks;
  }

  lemma UpdatedTracks(t: TransferState, staged: Tree, source: Tree, path: string, f: FileState, bytes: Option<Bytes>)
    requires TransferTracks(t, staged, source) && path in t.files
    requires FileTracks(f, bytes, source[path]) && (bytes.None? ==> path !in staged)
    ensures TransferTracks(t.(files := t.files[path := f]),
                           if bytes.Some? then staged[path := bytes.value] else staged, source)
  {
    hide FileTracks;
  }

  lemma ChunkTracks(t: TransferState, staged: Option<Tree>, r: Request, io: Io, lib: Library, source: Tree)
    requires r.opcode == FileChunk && Genuine(r, r.key, source) && NormalSource(source)
    requires TransferTracks(t, FilesIn(staged), source)
    ensures var (t', staged', _) := ChunkStored(t, staged, r, io, lib); TransferTracks(t', FilesIn(staged'), source)
  {
    assert NormalPath(r.path);
    assert r.path in source && r.totalBytes == |source[r.path]|;
    hide Genuine;
    NormalChunk(t, staged, r, io, lib);
    FiledTracks(t, FilesIn(staged), source, r, lib);
    hide ChunkStored, Filed, NormalPath, NormalSource, Placed, TransferTracks, TreeBytes;
    var (filed, refusal) := Filed(t, r.path, r, lib);
    if refusal.None? { FiledChunkTracks(filed, FilesIn(staged), source, r, io); }
  }

  /** A path in normal form names its file itself. */
  lemma NormalChunk(t: TransferState, staged: Option<Tree>, r: Request, io: Io, lib: Library)
    requires NormalPath(r.path)
    ensures ChunkStored(t, staged, r, io, lib) == ChunkNamed(t, staged, r.path, r, io, lib)
  {
    SafeRelativeNormalizes(r.path);
    hide ChunkNamed;
  }

  lemma FiledChunkTracks(filed: TransferState, tree: Tree, source: Tree, r: Request, io: Io)
    requires TransferTracks(filed, tree, source) && r.path in filed.files
    requires r.opcode == FileChunk && Genuine(r, r.key, source)
    ensures var (f, copy, _) := Placed(filed.files[r.path], Get(tree, r.path), r, io);
            var t := filed.(files := filed.files[r.path := f]);
            && TransferTracks(t, if copy.Some? then tree[r.path := copy.value] else tree, source)
            && (io.RaisesEarly? ==> TransferTracks(t, tree, source))
  {
    var f, copy := filed.files[r.path], Get(tree, r.path);
    PlacedTracks(f, copy, source[r.path], r, io);
    hide Placed, FileTracks;
    var (f', copy', response) := Placed(f, copy, r, io);
    UpdatedTracks(filed, tree, source, r.path, f', copy');
    assert copy.Some? ==> tree[r.path := copy.value] == tree;
  }

  /** No chunk removes a staging directory. */
  lemma ChunkKeepsStaging(t: TransferState, staged: Option<Tree>, r: Request, io: Io, lib: Library)
    ensures staged.Some? ==> ChunkStored(t, staged, r, io, lib).1.Some?
  {
    hide SafeRelative, Filed, Placed;
  }

  /** Files of which some but not all bytes were received, and which were staged, are gone. */
  ghost predicate PartLost(t: TransferState, before: Tree, after: Tree)
  {
    exists p :: p in t.files && p in before && p !in after && 0 < t.files[p].receivedBytes < t.files[p].expectedBytes
  }

  /** Whatever else is removed under a live transaction does no harm. */
  lemma RemovalTracks(t: TransferState, before: Tree, after: Tree, source: Tree)
    requires TransferTracks(t, before, source) && !PartLost(t, before, after)
    requires after.Keys <= before.Keys && forall p :: p in after ==> after[p] == before[p]
    ensures TransferTracks(t, after, source)
  {
    forall p | p in t.files ensures FileTracks(t.files[p], Get(after, p), source[p]) {
      assert FileTracks(t.files[p], Get(before, p), source[p]);
    }
  }

  /** END's checks leave nothing but the whole source in staging. */
  lemma CheckedStagingIsSource(t: TransferState, staged: Tree, source: Tree, lib: Library)
    requires TransferTracks(t, staged, source)
    requires EndRefusal(t, staged, lib) == None
    ensures staged == source && ReceivedBytes(t) == TreeBytes(source)
  {
    hide ReceiverVerdict, TreeBytes, ReceivedDigests, FileTracks;
    assert |t.files.Keys| == |t.files| && |source.Keys| == |source|;
    SubsetOfEqualSize(t.files.Keys, source.Keys);
    CheckedFilesAreSource(t, staged, source);
  }

  lemma CheckedFilesAreSource(t: TransferState, staged: Tree, source: Tree)
    requires TransferTracks(t, staged, source) && t.files.Keys == source.Keys
    requires forall p :: p in t.files ==> CompleteFile(t.files[p], Get(staged, p))
    ensures staged == source
  {
    forall p | p in source ensures p in staged && staged[p] == source[p] {
      assert CompleteFile(t.files[p], Get(staged, p));
    }
  }

  lemma NewTransferTracks(r: Request, now: int, source: Tree)
    requires r.opcode == Begin && Genuine(r, r.key, source)
    ensures TransferTracks(NewTransfer(r, now), map[], source)
  {
  }
}
