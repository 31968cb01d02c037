/**
 The sending side, include/upload_worker.hpp transferDirectory: the request sequence of one attempt and
 the method that issues it over a channel that may lose any response.
 */
module UploadSender {
  import opened Prelude
  import opened Receiver
  import opened ChecksumManifest

  const U32_MAX := 0xFFFF_FFFF
  const U64_MAX := 0xFFFF_FFFF_FFFF_FFFF

  function BeginRequest(key: Key, files: nat, bytes: nat): Request
  {
    Request(key, Begin, "", 0, bytes, files, [])
  }

  function EndRequest(key: Key): Request { Request(key, End, "", 0, 0, 0, []) }

  function ChunkRequest(key: Key, path: string, content: Bytes, offset: nat, end: nat): Request
    requires offset <= end <= |content|
  {
    Request(key, FileChunk, path, offset, |content|, 0, content[offset..end])
  }

  function ChunkEnd(content: Bytes, offset: nat, chunk: nat): nat
  {
    if offset + chunk < |content| then offset + chunk else |content|
  }

  /** The chunks of one file from an offset on. */
  function ChunksFrom(key: Key, path: string, content: Bytes, chunk: nat, offset: nat): seq<Request>
    requires chunk > 0
    decreases |content| - offset
  {
    if offset >= |content| then []
    else
      var end := ChunkEnd(content, offset, chunk);
      [ChunkRequest(key, path, content, offset, end)] + ChunksFrom(key, path, content, chunk, end)
  }

  /** An empty file is announced by one empty chunk. */
  function FileRequests(key: Key, path: string, content: Bytes, chunk: nat): seq<Request>
    requires chunk > 0
  {
    if content == [] then [ChunkRequest(key, path, content, 0, 0)] else ChunksFrom(key, path, content, chunk, 0)
  }

  function AllFileRequests(key: Key, order: seq<string>, files: Tree, chunk: nat): seq<Request>
    requires chunk > 0 && forall p :: p in order ==> p in files
  {
    if order == [] then []
    else
      var n := |order| - 1;
      assert order[n] in order;
      AllFileRequests(key, order[..n], files, chunk) + FileRequests(key, order[n], files[order[n]], chunk)
  }

  function SizeOf(order: seq<string>, files: Tree): nat
    requires forall p :: p in order ==> p in files
  {
    if order == [] then 0
    else
      assert order[|order| - 1] in order;
      SizeOf(order[..|order| - 1], files) + |files[order[|order| - 1]]|
  }

  /** Everything one attempt sends when every response is a success. */
  function Script(key: Key, order: seq<string>, files: Tree, chunk: nat): (script: seq<Request>)
    requires chunk > 0 && forall p :: p in order ==> p in files
    ensures |script| >= 2
  {
    [BeginRequest(key, |order|, SizeOf(order, files))] + AllFileRequests(key, order, files, chunk) + [EndRequest(key)]
  }

  // ---- what the script consists of ----

  /** The request is the key's own BEGIN or END, or a true slice of one of its files. */
  ghost predicate Genuine(r: Request, key: Key, files: Tree)
  {
    && r.key == key
    && match r.opcode
       case Begin => r.fileCount == |files| && r.totalBytes == TreeBytes(files)
       case End => true
       case FileChunk =>
         && r.path in files && r.totalBytes == |files[r.path]|
         && r.offset + |r.data| <= |files[r.path]|
         && r.data == files[r.path][r.offset..r.offset + |r.data|]
       case Unknown => false
  }

  lemma {:induction false} ChunksAreGenuine(key: Key, path: string, files: Tree, chunk: nat, offset: nat)
    requires chunk > 0 && path in files
    ensures forall r :: r in ChunksFrom(key, path, files[path], chunk, offset) ==>
              r.opcode == FileChunk && Genuine(r, key, files)
    decreases |files[path]| - offset
  {
    if offset < |files[path]| {
      ChunksAreGenuine(key, path, files, chunk, ChunkEnd(files[path], offset, chunk));
    }
  }

  lemma {:induction false} FilesAreGenuine(key: Key, order: seq<string>, files: Tree, chunk: nat)
    requires chunk > 0 && forall p :: p in order ==> p in files
    ensures forall r :: r in AllFileRequests(key, order, files, chunk) ==>
              r.opcode == FileChunk && Genuine(r, key, files)
  {
    if order != [] {
      var n := |order| - 1;
      assert order[n] in order;
      FilesAreGenuine(key, order[..n], files, chunk);
      ChunksAreGenuine(key, order[n], files, chunk, 0);
    }
  }

  lemma ListsFront(order: seq<string>, files: Tree)
    requires Lists(order, files.Keys) && order != []
    ensures var n := |order| - 1; order[n] in files && Lists(order[..n], (files - {order[n]}).Keys)
  {
    var n := |order| - 1;
    assert order[n] in order;
    forall p ensures p in order[..n] <==> p in (files - {order[n]}).Keys {
      if p in order[..n] { assert p in order; }
      if p in order && p != order[n] { assert order == order[..n] + [order[n]]; }
    }
  }

  lemma TreeBytesRemove(files: Tree, path: string)
    requires path in files
    ensures TreeBytes(files) == |files[path]| + TreeBytes(files - {path})
  {
    SumRemove(Sizes(files), path);
    assert Sizes(files) - {path} == Sizes(files - {path});
  }

  lemma {:induction false} SizeOfIsTreeBytes(order: seq<string>, files: Tree)
    requires Lists(order, files.Keys)
    ensures SizeOf(order, files) == TreeBytes(files) && |order| == |files|
    decreases |order|
  {
    if order == [] {
      ListsNothing(files);
    } else {
      ListsFront(order, files);
      SizeOfIsTreeBytes(order[..|order| - 1], files - {order[|order| - 1]});
      SizeOfFront(order, files);
    }
  }

  lemma SizeOfFront(order: seq<string>, files: Tree)
    requires order != [] && forall p :: p in order ==> p in files
    requires var n := |order| - 1; forall p :: p in order[..n] ==> p in files - {order[n]}
    ensures var n := |order| - 1;
            var rest := files - {order[n]};
            && SizeOf(order, files) == SizeOf(order[..n], rest) + |files[order[n]]|
            && TreeBytes(files) == TreeBytes(rest) + |files[order[n]]|
            && |files| == |rest| + 1
  {
    var n := |order| - 1;
    assert order[n] in order;
    TreeBytesRemove(files, order[n]);
    SizeOfSame(order[..n], files, files - {order[n]});
    TreeSizeRemove(files, order[n]);
  }

  lemma ListsNothing(files: Tree)
    requires Lists([], files.Keys)
    ensures TreeBytes(files) == 0 && |files| == 0
  {
    var none: seq<string> := [];
    assert forall p :: p in files.Keys <==> p in none;
    assert files == map[] && Sizes(files) == map[];
  }

  lemma TreeSizeRemove(files: Tree, path: string)
    requires path in files
    ensures |files| == |files - {path}| + 1
  {
    assert files == (files - {path})[path := files[path]];
  }

  lemma {:induction false} SizeOfSame(order: seq<string>, a: Tree, b: Tree)
    requires forall p :: p in order ==> p in a && p in b && a[p] == b[p]
    ensures SizeOf(order, a) == SizeOf(order, b)
  {
    if order != [] {
      assert order[|order| - 1] in order;
      SizeOfSame(order[..|order| - 1], a, b);
    }
  }

  /** Only the first request is a BEGIN and only the last an END; every request is genuine. */
  lemma ScriptIsGenuine(key: Key, order: seq<string>, files: Tree, chunk: nat)
    requires chunk > 0 && Lists(order, files.Keys)
    ensures var script := Script(key, order, files, chunk);
            && (forall i :: 0 <= i < |script| ==> Genuine(script[i], key, files))
            && (forall i :: 0 <= i < |script| ==> (script[i].opcode == Begin <==> i == 0))
            && (forall i :: 0 <= i < |script| ==> (script[i].opcode == End <==> i == |script| - 1))
  {
    FilesAreGenuine(key, order, files, chunk);
    SizeOfIsTreeBytes(order, files);
    var script := Script(key, order, files, chunk);
    var middle := AllFileRequests(key, order, files, chunk);
    forall i | 1 <= i < |script| - 1 ensures script[i] in middle { assert script[i] == middle[i - 1]; }
  }

  // ---- the worker ----

  predicate Succeeded(answers: nat -> Option<Response>, i: nat)
  {
    answers(i).Some? && answers(i).value.success
  }

  /** The RPC client during one attempt: answers(i) is what its i-th call gets, None for a time-out. */
  class Channel {
    var sent: seq<Request>
    const answers: nat -> Option<Response>

    constructor (answers: nat -> Option<Response>)
      ensures sent == [] && this.answers == answers
    {
      sent := [];
      this.answers := answers;
    }

    method Call(r: Request) returns (response: Option<Response>)
      modifies this
      ensures sent == old(sent) + [r] && response == answers(|old(sent)|)
    {
      response := answers(|sent|);
      sent := sent + [r];
    }

    /** Exactly these requests were sent and all of them succeeded. */
    ghost predicate Delivered(requests: seq<Request>)
      reads this
    {
      sent == requests && forall i :: 0 <= i < |sent| ==> Succeeded(answers, i)
    }

    /** A prefix of these requests was sent; the last answer, and only that one, was not a success. */
    ghost predicate Stopped(requests: seq<Request>)
      reads this
    {
      && 0 < |sent| && sent <= requests && !Succeeded(answers, |sent| - 1)
      && forall i :: 0 <= i < |sent| - 1 ==> Succeeded(answers, i)
    }

    /** A prefix of these requests was sent, all with success, and after it at most one chunk cut short. */
    ghost predicate Interrupted(requests: seq<Request>, short: seq<Request>)
      reads this
    {
      && |short| <= 1 && |short| <= |sent| <= |requests| + |short|
      && var n := |sent| - |short|;
         sent == requests[..n] + short && forall i :: 0 <= i < n ==> Succeeded(answers, i)
    }
  }

  /** The chunk loop of one file, after the requests `done`, and the check of its size. reading is None when the file
      cannot be opened; a read that fails may first yield part of a chunk. */
  method SendFile(channel: Channel, key: Key, path: string, content: Bytes, reading: Option<Reading>, chunk: nat,
                  ghost done: seq<Request>)
    returns (ok: bool, ghost short: seq<Request>)
    requires chunk > 0 && channel.Delivered(done)
    modifies channel
    ensures done <= channel.sent && forall r :: r in short ==> SliceOf(r, key, path, content)
    ensures ok ==> channel.Delivered(done + FileRequests(key, path, content, chunk)) && Reads(reading, content)
    ensures !ok ==> channel.Stopped(done + FileRequests(key, path, content, chunk))
                    || (channel.Interrupted(done + FileRequests(key, path, content, chunk), short)
                        && !Reads(reading, content))
  {
    ghost var requests := FileRequests(key, path, content, chunk);
    short := [];
    assert (done + requests)[..|done|] + [] == done;
    if reading.None? {
      return false, short;
    }
    if content == [] {
      var response := channel.Call(ChunkRequest(key, path, content, 0, 0));
      assert (done + requests)[..|done + requests|] + [] == done + requests;
      return response.Some? && response.value.success && reading.value.sizeHolds, short;
    }
    var offset: nat := 0;
    ghost var prior: seq<Request> := [];
    assert done + prior == done;
    while offset < |content|
      invariant offset <= |content| && (offset == 0 || offset <= reading.value.bytes)
      invariant requests == prior + ChunksFrom(key, path, content, chunk, offset)
      invariant channel.Delivered(done + prior) && short == []
    {
      var end := ChunkEnd(content, offset, chunk);
      var r := ChunkRequest(key, path, content, offset, end);
      ghost var tail := ChunksFrom(key, path, content, chunk, end);
      Regrouped(done, prior, r, tail);
      assert channel.sent <= done + requests;
      if reading.value.bytes < end {
        if offset < reading.value.bytes {
          r := ChunkRequest(key, path, content, offset, reading.value.bytes);
          short := [r];
          SendPart(channel, r, done + requests);
        } else {
          assert (done + requests)[..|channel.sent|] + short == channel.sent;
        }
        return false, short;
      }
      var response := channel.Call(r);
      if response.None? || !response.value.success { return false, short; }
      prior := prior + [r];
      offset := end;
    }
    assert requests == prior;
    assert (done + requests)[..|done + requests|] + [] == done + requests;
    return reading.value.sizeHolds, short;
  }

  lemma Regrouped(done: seq<Request>, prior: seq<Request>, r: Request, tail: seq<Request>)
    ensures prior + ([r] + tail) == (prior + [r]) + tail
    ensures done + (prior + ([r] + tail)) == (done + prior + [r]) + tail && done + prior + [r] == done + (prior + [r])
  {
  }

  /** What a failing read still yielded; whatever the answer, the next read fails. */
  method SendPart(channel: Channel, r: Request, ghost requests: seq<Request>)
    requires channel.sent <= requests && channel.Delivered(channel.sent)
    modifies channel
    ensures channel.Interrupted(requests, [r]) && old(channel.sent) <= channel.sent
  {
    ghost var before := channel.sent;
    var _ := channel.Call(r);
    assert requests[..|before|] == before;
  }

  ghost predicate SliceOf(r: Request, key: Key, path: string, content: Bytes)
  {
    exists from: nat, to: nat :: from <= to <= |content| && r == ChunkRequest(key, path, content, from, to)
  }

  lemma SlicesAreGenuine(key: Key, path: string, files: Tree, short: seq<Request>)
    requires path in files && forall r :: r in short ==> SliceOf(r, key, path, files[path])
    ensures forall r :: r in short ==> r.opcode == FileChunk && Genuine(r, key, files)
  {
  }

  /** Stopping within fewer requests is stopping within more. */
  lemma StoppedEarlier(channel: Channel, fewer: seq<Request>, more: seq<Request>, short: seq<Request>)
    requires fewer <= more
    ensures channel.Stopped(fewer) ==> channel.Stopped(more)
    ensures channel.Interrupted(fewer, short) ==> channel.Interrupted(more, short)
  {
    if channel.Interrupted(fewer, short) {
      var n := |channel.sent| - |short|;
      assert fewer[..n] == more[..n];
    }
  }

  /** How reading a file goes once it is open: the bytes a read yields before one fails, and whether its size is still
      found to be the declared one at the end. */
  datatype Reading = Reading(bytes: nat, sizeHolds: bool)

  predicate Reads(reading: Option<Reading>, content: Bytes)
  {
    reading.Some? && reading.value.bytes >= |content| && reading.value.sizeHolds
  }

  /** The file loop, after BEGIN. */
  method SendFiles(channel: Channel, key: Key, order: seq<string>, files: Tree, readings: map<string, Reading>,
                   chunk: nat, ghost done: seq<Request>)
    returns (ok: bool, sentBytes: nat, ghost short: seq<Request>)
    requires chunk > 0 && channel.Delivered(done) && forall p :: p in order ==> p in files
    modifies channel
    ensures done <= channel.sent && forall r :: r in short ==> r.opcode == FileChunk && Genuine(r, key, files)
    ensures ok ==> channel.Delivered(done + AllFileRequests(key, order, files, chunk))
                   && sentBytes == SizeOf(order, files) && AllRead(order, files, readings)
    ensures !ok ==> channel.Stopped(done + AllFileRequests(key, order, files, chunk))
                    || (channel.Interrupted(done + AllFileRequests(key, order, files, chunk), short)
                        && !AllRead(order, files, readings))
  {
    hide FileRequests, Reads, Genuine, SliceOf;
    sentBytes := 0;
    short := [];
    assert done + [] == done;
    for i := 0 to |order|
      invariant sentBytes == SizeOf(order[..i], files) && short == []
      invariant channel.Delivered(done + AllFileRequests(key, order[..i], files, chunk))
      invariant AllRead(order[..i], files, readings)
    {
      assert order[i] in order;
      assert order[..i + 1][..i] == order[..i];
      ghost var prior := done + AllFileRequests(key, order[..i], files, chunk);
      ok, short := SendFile(channel, key, order[i], files[order[i]], Get(readings, order[i]), chunk, prior);
      assert prior + FileRequests(key, order[i], files[order[i]], chunk)
          == done + AllFileRequests(key, order[..i + 1], files, chunk);
      if !ok {
        FilesPrefix(key, order, files, chunk, i + 1);
        SlicesAreGenuine(key, order[i], files, short);
        StoppedEarlier(channel, done + AllFileRequests(key, order[..i + 1], files, chunk),
                       done + AllFileRequests(key, order, files, chunk), short);
        return false, sentBytes, short;
      }
      short := [];
      sentBytes := sentBytes + |files[order[i]]|;
    }
    assert order[..|order|] == order;
    return true, sentBytes, short;
  }

  predicate AllRead(order: seq<string>, files: Tree, readings: map<string, Reading>)
    requires forall p :: p in order ==> p in files
  {
    forall p :: p in order ==> Reads(Get(readings, p), files[p])
  }

  lemma {:induction false} FilesPrefix(key: Key, order: seq<string>, files: Tree, chunk: nat, n: nat)
    requires n <= |order| && chunk > 0 && forall p :: p in order ==> p in files
    ensures AllFileRequests(key, order[..n], files, chunk) <= AllFileRequests(key, order, files, chunk)
  {
    if n == |order| {
      assert order[..n] == order;
    } else {
      FilesPrefix(key, order[..|order| - 1], files, chunk, n);
      assert order[..|order| - 1][..n] == order[..n];
    }
  }

  /** The declared size, refused when it does not fit 64 bits. */
  method TotalSize(order: seq<string>, files: Tree) returns (fits: bool, total: nat)
    requires forall p :: p in order ==> p in files
    ensures fits <==> SizeOf(order, files) <= U64_MAX
    ensures fits ==> total == SizeOf(order, files)
  {
    total := 0;
    for i := 0 to |order|
      invariant total == SizeOf(order[..i], files) <= U64_MAX
    {
      assert order[i] in order;
      assert order[..i + 1][..i] == order[..i];
      var size := |files[order[i]]|;
      if size > U64_MAX - total {
        SizeOfMonotone(order, files, i + 1);
        return false, total;
      }
      total := total + size;
    }
    assert order[..|order|] == order;
    return true, total;
  }

  lemma {:induction false} SizeOfMonotone(order: seq<string>, files: Tree, n: nat)
    requires n <= |order| && forall p :: p in order ==> p in files
    ensures SizeOf(order[..n], files) <= SizeOf(order, files)
  {
    if n == |order| {
      assert order[..n] == order;
    } else {
      SizeOfMonotone(order[..|order| - 1], files, n);
      assert order[..|order| - 1][..n] == order[..n];
    }
  }

  predicate Sendable(key: Key, order: seq<string>, files: Tree)
    requires forall p :: p in order ==> p in files
  {
    order != [] && key.id != "" && |order| <= U32_MAX && SizeOf(order, files) <= U64_MAX
  }

  /** UploadWorker::transferDirectory on the sorted files of one event directory: it succeeds exactly when the whole
      script was sent, every answer was a success and END reported every byte sent; END is sent only when every file
      could be read to its end and kept its size. traversed is whether the listing of the files was complete. */
  method TransferDirectory(channel: Channel, key: Key, order: seq<string>, files: Tree, readings: map<string, Reading>,
                           chunk: nat, traversed: bool)
    returns (ok: bool, ghost short: seq<Request>)
    requires chunk > 0 && channel.sent == [] && forall p :: p in order ==> p in files
    modifies channel
    ensures channel.sent == [] <==> !traversed || order == [] || key.id == "" || |order| > 0xFFFF_FFFF
                                    || SizeOf(order, files) > 0xFFFF_FFFF_FFFF_FFFF
    ensures forall r :: r in short ==> r.opcode == FileChunk && Genuine(r, key, files)
    ensures traversed && Sendable(key, order, files) ==>
              var script := Script(key, order, files, chunk);
              && (channel.Delivered(script) || channel.Stopped(script) || channel.Interrupted(script, short))
              && (AllRead(order, files, readings) ==> channel.Delivered(script) || channel.Stopped(script))
              && (ok ==> AllRead(order, files, readings))
              && (ok <==> channel.Delivered(script) && Succeeded(channel.answers, |script| - 1)
                          && channel.answers(|script| - 1).value.receivedBytes == SizeOf(order, files))
    ensures !traversed || !Sendable(key, order, files) ==> !ok
  {
    short := [];
    if !traversed || order == [] || key.id == "" || |order| > U32_MAX { return false, short; }
    var fits, total := TotalSize(order, files);
    if !fits { return false, short; }
    ghost var script := Script(key, order, files, chunk);
    var begin := BeginRequest(key, |order|, total);
    ghost var middle := AllFileRequests(key, order, files, chunk);
    assert script == [begin] + (middle + [EndRequest(key)]);
    assert [begin] + middle <= script;
    hide AllFileRequests, SizeOf, Genuine;
    var response := channel.Call(begin);
    if response.None? || !response.value.success { return false, short; }
    var sent, sentBytes;
    sent, sentBytes, short := SendFiles(channel, key, order, files, readings, chunk, [begin]);
    if !sent {
      StoppedEarlier(channel, [begin] + middle, script, short);
      return false, short;
    }
    response := channel.Call(EndRequest(key));
    if response.None? || !response.value.success { return false, short; }
    return response.value.receivedBytes == sentBytes, short;
  }

  // ---- how a file is cut ----

  lemma {:induction false} ChunksAreEven(key: Key, path: string, content: Bytes, chunk: nat, offset: nat, i: nat)
    requires chunk > 0 && offset <= |content|
    ensures var requests, left := ChunksFrom(key, path, content, chunk, offset), |content| - offset;
            && left <= |requests| * chunk < left + chunk
            && (i < |requests| ==>
                  && requests[i].offset == offset + i * chunk
                  && |requests[i].data| == if i + 1 < |requests| then chunk else left - i * chunk)
    decreases |content| - offset
  {
    if offset < |content| {
      var end := ChunkEnd(content, offset, chunk);
      ChunksAreEven(key, path, content, chunk, end, if i > 0 then i - 1 else 0);
      var rest := ChunksFrom(key, path, content, chunk, end);
      assert (1 + |rest|) * chunk == chunk + |rest| * chunk;
      if i > 0 { assert i * chunk == chunk + (i - 1) * chunk; }
    }
  }

  /** A file is cut into as few chunks as the chunk size allows - an empty one is one empty chunk -, all of them full
      but the last, each beginning where the one before it ends. */
  lemma FileIsCutEvenly(key: Key, path: string, content: Bytes, chunk: nat, i: nat)
    requires chunk > 0 && i < |FileRequests(key, path, content, chunk)|
    ensures var requests, n := FileRequests(key, path, content, chunk), |FileRequests(key, path, content, chunk)|;
            && (if content == [] then n == 1 else |content| <= n * chunk < |content| + chunk)
            && requests[i].offset == i * chunk
            && |requests[i].data| == (if i + 1 < n then chunk else |content| - i * chunk)
            && Genuine(requests[i], key, map[path := content])
  {
    hide Genuine;
    if content == [] {
      EmptyIsGenuine(key, path);
    } else {
      ChunksAreEven(key, path, content, chunk, 0, i);
      ChunksAreGenuine(key, path, map[path := content], chunk, 0);
    }
  }

  lemma EmptyIsGenuine(key: Key, path: string)
    ensures Genuine(ChunkRequest(key, path, [], 0, 0), key, map[path := []])
  {
  }

  /** Whatever came of an attempt, all it sent bears its own key. */
  lemma SentUnderKey(channel: Channel, key: Key, order: seq<string>, files: Tree, chunk: nat, short: seq<Request>)
    requires chunk > 0 && (forall p :: p in order ==> p in files) && forall r :: r in short ==> Genuine(r, key, files)
    requires var script := Script(key, order, files, chunk);
             channel.Delivered(script) || channel.Stopped(script) || channel.Interrupted(script, short)
    ensures forall r :: r in channel.sent ==> r.key == key
  {
    FilesAreGenuine(key, order, files, chunk);
    hide AllFileRequests, SizeOf;
    var script := Script(key, order, files, chunk);
    assert forall r :: r in script ==> r.key == key;
    hide Script;
  }
}
