/**
 The upload thread's object, include/upload_worker.hpp:103-163, 244-256 and 434-479: its scan, one upload of a directory
 over the channel, its retry table; and what comes of a directory over any history of its calls.
 */
module UploadThread {
  import opened Prelude
  import opened UploadSender
  import opened UploadScheduling
  import Receiver

  /** What an upload of a directory meets: its files and how reading them goes, and which markers can be written or
      removed. */
  datatype Parcel = Parcel(leaseWritten: bool, traversed: bool, order: seq<string>, tree: Tree,
                           readings: map<string, Reading>, chunk: nat, newId: string, idWritten: bool,
                           uploadedWritten: bool, leaseRemoved: bool)

  predicate Packed(p: Parcel) { p.chunk > 0 && p.newId != "" && forall f :: f in p.order ==> f in p.tree }

  /** The stored id, or a new one if it can be stored. */
  function Identified(e: Entry, newId: string, written: bool): (Entry, string)
  {
    if e.transferId.Some? && e.transferId.value != "" then (e, e.transferId.value)
    else if written then (e.(transferId := Some(newId)), newId)
    else (e, "")
  }

  /** The id is asked for once the files are listed, and there are some. */
  function Numbered(e: Entry, p: Parcel): (Entry, string)
  {
    if p.traversed && p.order != [] then Identified(e, p.newId, p.idWritten) else (e, "")
  }

  /** The entry after uploadDirectory, and whether it succeeded; transferred is how the transfer itself turned out. */
  function Uploaded(e: Entry, now: int, config: Config, removable: bool, p: Parcel, transferred: bool): (Entry, bool)
  {
    if LeaseActive(e, now, config) then (e, false)
    else if !p.leaseWritten then (LeaseChecked(e, now, config, removable), false)
    else
      var ok := transferred && p.uploadedWritten;
      (Numbered(e, p).0.(lease := if p.leaseRemoved then NoLease else Since(now), uploaded := e.uploaded || ok), ok)
  }

  /** The whole directory went over the channel under this id, every request was answered with success, and END reported
      every byte. */
  ghost predicate Transferred(channel: Channel, d: Name, id: string, p: Parcel)
    requires Packed(p)
    reads channel
  {
    var key := Receiver.Key(d, id);
    var script := Script(key, p.order, p.tree, p.chunk);
    && p.traversed && Sendable(key, p.order, p.tree) && channel.Delivered(script)
    && channel.answers(|script| - 1).Some?
    && channel.answers(|script| - 1).value.receivedBytes == SizeOf(p.order, p.tree)
  }

  /** Every request sent was the directory's, under its stored id. */
  ghost predicate SentAs(channel: Channel, d: Name, id: Option<string>)
    reads channel
  {
    forall r :: r in channel.sent ==> id.Some? && r.key == Receiver.Key(d, id.value)
  }

  class UploadWorker {
    var files: map<Name, Entry>
    var pending: map<Name, Retry>
    const config: Config

    constructor (files: map<Name, Entry>, config: Config)
      ensures this.files == files && pending == map[] && this.config == config
    {
      this.files, pending, this.config := files, map[], config;
    }

    /** order is how the record root is listed; stuck where markers cannot be removed. */
    method FindUploadCandidates(order: seq<Name>, now: int, stuck: set<Name>) returns (candidates: seq<Name>)
      requires (forall d :: d in order ==> d in files) && forall i, j :: 0 <= i < j < |order| ==> order[i] != order[j]
      modifies this`files
      ensures Scanned(order, old(files), files, candidates, now, stuck, config)
      ensures forall d :: d in order ==> (d in candidates <==> IsCandidate(old(files)[d], now, config, d !in stuck))
      ensures forall d :: d in order ==> d in files && CleanedUp(old(files)[d], files[d], now, config, d !in stuck)
    {
      hide IsCandidate, CleanedUp;
      candidates := [];
      ghost var before := files;
      for i := 0 to |order|
        invariant Scanned(order[..i], before, files, candidates, now, stuck, config)
      {
        var d := order[i];
        NextScanned(order, i, before, files, candidates, now, stuck, config);
        hide Scanned;
        var e := files[d];
        if LeaseActive(e, now, config) {
          assert files[d := e] == files;
          continue;
        }
        if d !in stuck {
          files := files[d := e.(lease := NoLease)];
        } else {
          assert files[d := e] == files;
        }
        if e.uploaded || !e.complete {
          continue;
        }
        if e.failedAt.Some? {
          if config.failedRescan <= 0 || now - e.failedAt.value < config.failedRescan || d in stuck {
            continue;
          }
          files := files[d := files[d].(failedAt := None)];
        }
        candidates := candidates + [d];
      }
      assert order[..|order|] == order;
      ScannedMeans(order, before, files, candidates, now, stuck, config);
    }

    /** transferDirectory under the directory's id: all that is sent bears it. */
    method TransferUnderId(d: Name, p: Parcel, channel: Channel) returns (ok: bool)
      requires d in files && Packed(p) && channel.sent == []
      modifies this`files, channel
      ensures files == old(files)[d := Numbered(old(files)[d], p).0]
      ensures ok <==> files[d].transferId.Some? && Transferred(channel, d, files[d].transferId.value, p)
      ensures SentAs(channel, d, files[d].transferId)
    {
      assert files[d := files[d]] == files;
      var id := "";
      if p.traversed && p.order != [] {
        id := TransferIdFor(d, p.newId, p.idWritten);
      }
      var key := Receiver.Key(d, id);
      ghost var short;
      ok, short := TransferDirectory(channel, key, p.order, p.tree, p.readings, p.chunk, p.traversed);
      if p.traversed && Sendable(key, p.order, p.tree) {
        hide Script, SizeOf, Genuine;
        SentUnderKey(channel, key, p.order, p.tree, p.chunk, short);
      }
    }

    /** acquireLease: looks, clears what is no active lease, and writes its own. */
    method AcquireLease(d: Name, now: int, removable: bool, written: bool) returns (taken: bool)
      requires d in files
      modifies this`files
      ensures taken <==> written && !LeaseActive(old(files)[d], now, config)
      ensures files == old(files)[d := if taken then old(files)[d].(lease := Since(now))
                                       else LeaseChecked(old(files)[d], now, config, removable)]
    {
      assert files[d := files[d]] == files;
      if LeaseActive(files[d], now, config) {
        return false;
      }
      if removable {
        files := files[d := files[d].(lease := NoLease)];
      }
      if written {
        files := files[d := files[d].(lease := Since(now))];
      }
      return written;
    }

    /** uploadDirectory: nothing is sent unless the lease was free and is taken; the directory counts as uploaded if it
        did before, or the whole of it has gone over and .uploaded could be written. */
    method UploadDirectory(d: Name, now: int, removable: bool, p: Parcel, channel: Channel)
      returns (ok: bool, ghost transferred: bool)
      requires d in files && Packed(p) && channel.sent == []
      modifies this`files, channel
      ensures d in files && files == old(files)[d := files[d]]
      ensures (files[d], ok) == Uploaded(old(files)[d], now, config, removable, p, transferred)
      ensures transferred <==> files[d].transferId.Some? && Transferred(channel, d, files[d].transferId.value, p)
      ensures SentAs(channel, d, files[d].transferId)
      ensures LeftBy(old(files)[d], files[d], now, config, removable, p, transferred, ok)
      ensures channel.sent != [] ==> p.leaseWritten && !Running(old(files)[d].lease, now, config)
    {
      NothingTransferred(channel, d, p);
      forall t { UploadedMeans(files[d], now, config, removable, p, t); }
      hide LeftBy;
      ghost var before, e := files, files[d];
      var taken := AcquireLease(d, now, removable, p.leaseWritten);
      if !taken {
        return false, false;
      }
      hide Transferred, Numbered;
      ok := TransferUnderId(d, p, channel);
      NumberedElsewhere(e, now, p);
      e := Numbered(e, p).0.(lease := Since(now));
      assert files == before[d := e];
      transferred := ok;
      if ok {
        ok := p.uploadedWritten;
        if ok {
          UpdateTwice(before, d, e, e.(uploaded := true));
          files := files[d := files[d].(uploaded := true)];
          e := files[d];
        }
      }
      if p.leaseRemoved {
        UpdateTwice(before, d, e, e.(lease := NoLease));
        files := files[d := files[d].(lease := NoLease)];
      }
    }

    /** The persisted id, or a new one if it can be persisted. */
    method TransferIdFor(d: Name, newId: string, written: bool) returns (id: string)
      requires d in files && newId != ""
      modifies this`files
      ensures var (e, answer) := Identified(old(files)[d], newId, written);
              id == answer && files == old(files)[d := e]
    {
      assert files[d := files[d]] == files;
      if files[d].transferId.Some? && files[d].transferId.value != "" {
        return files[d].transferId.value;
      }
      if !written {
        return "";
      }
      files := files[d := files[d].(transferId := Some(newId))];
      return newId;
    }

    /** One turn of run's loop over the candidates. */
    method Attempt(d: Name, scanNow: int, now: int, removable: bool, p: Parcel, channel: Channel, endedAt: int,
                   persisted: bool)
      returns (tried: bool, ghost transferred: bool)
      requires d in files && Packed(p) && channel.sent == []
      modifies this, channel
      ensures tried <==> (d in old(pending) ==> scanNow >= old(pending)[d].nextAttempt)
      ensures !tried ==> files == old(files) && pending == old(pending) && channel.sent == []
      ensures tried ==>
                var (e, ok) := Uploaded(old(files)[d], now, config, removable, p, transferred);
                var (next, marked) :=
                  if ok then (None, false) else AfterFailure(Get(old(pending), d), endedAt, config, persisted);
                && Get(pending, d) == next && pending - {d} == old(pending) - {d}
                && files == old(files)[d := if marked then e.(failedAt := Some(endedAt)) else e]
                && (transferred <==> e.transferId.Some? && Transferred(channel, d, e.transferId.value, p))
    {
      hide Transferred, Uploaded;
      transferred := false;
      if d in pending && scanNow < pending[d].nextAttempt {
        return false, false;
      }
      tried := true;
      var ok;
      ok, transferred := UploadDirectory(d, now, removable, p, channel);
      if ok {
        pending := pending - {d};
        return;
      }
      var attempts := 1 + if d in pending then pending[d].attempts else 0;
      if config.maxRetries > 0 && attempts >= config.maxRetries && persisted {
        UpdateTwice(old(files), d, files[d], files[d].(failedAt := Some(endedAt)));
        files := files[d := files[d].(failedAt := Some(endedAt))];
        pending := pending - {d};
        return;
      }
      pending := pending[d := Retry(attempts, endedAt + Delay(attempts, config))];
    }
  }

  /** The lease is taken if it is free and can be written, and given back if it can be removed; .uploaded is there
      afterwards if it was before, or the whole directory has gone over and it could be written. */
  predicate LeftBy(e: Entry, f: Entry, now: int, config: Config, removable: bool, p: Parcel, transferred: bool,
                   ok: bool)
  {
    var free := !Running(e.lease, now, config);
    && (ok <==> transferred && free && p.leaseWritten && p.uploadedWritten)
    && (f.uploaded <==> e.uploaded || ok) && f.complete == e.complete && f.failedAt == e.failedAt
    && f.lease == if free && p.leaseWritten then (if p.leaseRemoved then NoLease else Since(now))
                  else if free && removable then NoLease else e.lease
  }

  lemma UploadedMeans(e: Entry, now: int, config: Config, removable: bool, p: Parcel, transferred: bool)
    ensures var (f, ok) := Uploaded(e, now, config, removable, p, transferred);
            LeftBy(e, f, now, config, removable, p, transferred, ok)
  {
  }

  lemma NothingTransferred(channel: Channel, d: Name, p: Parcel)
    requires Packed(p)
    ensures channel.sent == [] ==> forall id :: !Transferred(channel, d, id, p)
  {
  }

  /** The lease does not matter to the id. */
  lemma NumberedElsewhere(e: Entry, now: int, p: Parcel)
    ensures Numbered(e.(lease := Since(now)), p).0 == Numbered(e, p).0.(lease := Since(now))
    ensures Numbered(e, p).0.uploaded == e.uploaded
  {
  }

  // ---- the scan ----

  /** Complete, not uploaded, under nobody's lease that still runs, and without a failure marker - or with one that has
      become old enough and can be removed. */
  predicate IsCandidate(e: Entry, now: int, config: Config, removable: bool)
  {
    && e.complete && !e.uploaded
    && !Running(e.lease, now, config)
    && (e.failedAt.Some? ==>
          removable && config.failedRescan > 0 && now >= e.failedAt.value + config.failedRescan)
  }

  predicate Running(lease: Lease, now: int, config: Config)
  {
    lease.Since? && lease.startedAt <= now < lease.startedAt + config.leaseTimeout
  }

  /** The scan removes a lease that does not run and the failure marker of a candidate, where it can, and nothing
      else. */
  predicate CleanedUp(e: Entry, f: Entry, now: int, config: Config, removable: bool)
  {
    f == e.(lease := if Running(e.lease, now, config) || !removable then e.lease else NoLease,
            failedAt := if IsCandidate(e, now, config, removable) then None else e.failedAt)
  }

  ghost predicate Scanned(order: seq<Name>, before: map<Name, Entry>, after: map<Name, Entry>, candidates: seq<Name>,
                          now: int, stuck: set<Name>, config: Config)
  {
    && after.Keys == before.Keys
    && (forall d :: d in after ==>
          after[d] == if d in order then Examined(before[d], now, config, d !in stuck).0 else before[d])
    && (forall d :: d in candidates ==> d in order)
    && forall d :: d in order ==>
         d in before && (d in candidates <==> Examined(before[d], now, config, d !in stuck).1)
  }

  lemma ScannedMeans(order: seq<Name>, before: map<Name, Entry>, after: map<Name, Entry>, candidates: seq<Name>,
                     now: int, stuck: set<Name>, config: Config)
    requires Scanned(order, before, after, candidates, now, stuck, config)
    ensures forall d :: d in order ==>
              && d in before && d in after && (d in candidates <==> IsCandidate(before[d], now, config, d !in stuck))
              && CleanedUp(before[d], after[d], now, config, d !in stuck)
  {
  }

  lemma NextScanned(order: seq<Name>, i: nat, before: map<Name, Entry>, current: map<Name, Entry>,
                    candidates: seq<Name>, now: int, stuck: set<Name>, config: Config)
    requires i < |order| && (forall a, b :: 0 <= a < b < |order| ==> order[a] != order[b]) && order[i] in before
    requires Scanned(order[..i], before, current, candidates, now, stuck, config)
    ensures order[i] in current && current[order[i]] == before[order[i]]
    ensures var (e, taken) := Examined(before[order[i]], now, config, order[i] !in stuck);
            Scanned(order[..i + 1], before, current[order[i] := e],
                    if taken then candidates + [order[i]] else candidates, now, stuck, config)
  {
    assert order[..i + 1] == order[..i] + [order[i]] && order[i] !in order[..i];
  }

  // ---- a directory over any history ----

  /** What the thread's calls do to one directory; marked is whether a failed try ends in .upload_failed. */
  datatype Call =
    | Look(now: int, removable: bool)
    | Send(now: int, removable: bool, parcel: Parcel, transferred: bool, marked: bool)

  function Called(e: Entry, c: Call, config: Config): Entry
  {
    match c
    case Look(now, removable) => Examined(e, now, config, removable).0
    case Send(now, removable, parcel, transferred, marked) =>
      var left := Uploaded(e, now, config, removable, parcel, transferred).0;
      if marked then left.(failedAt := Some(now)) else left
  }

  /** The directory after these calls, in whatever order and over however many lives of the thread. */
  function AfterCalls(e: Entry, calls: seq<Call>, config: Config): Entry
  {
    if calls == [] then e else Called(AfterCalls(e, calls[..|calls| - 1], config), calls[|calls| - 1], config)
  }

  /** The i-th call finds no running lease and writes its own, sends the whole directory, and writes .uploaded. */
  predicate Succeeds(e: Entry, calls: seq<Call>, config: Config, i: nat)
    requires i < |calls|
  {
    && calls[i].Send? && calls[i].transferred && calls[i].parcel.leaseWritten && calls[i].parcel.uploadedWritten
    && !Running(AfterCalls(e, calls[..i], config).lease, calls[i].now, config)
  }

  /** A directory counts as uploaded after any history exactly when it did before or some call has sent the whole of it
      under a lease of its own; and nothing takes that back. */
  lemma {:induction false} UploadedExactly(e: Entry, calls: seq<Call>, config: Config)
    ensures AfterCalls(e, calls, config).uploaded
            <==> e.uploaded || exists i :: 0 <= i < |calls| && Succeeds(e, calls, config, i)
    ensures AfterCalls(e, calls, config).complete == e.complete
  {
    if calls != [] {
      var front, n := calls[..|calls| - 1], |calls| - 1;
      UploadedExactly(e, front, config);
      forall i | 0 <= i < n ensures Succeeds(e, calls, config, i) <==> Succeeds(e, front, config, i) {
        assert calls[..i] == front[..i];
      }
      assert Succeeds(e, calls, config, n) ==> AfterCalls(e, calls, config).uploaded;
    }
  }

  /** So a directory is never taken up again once it has been uploaded, and otherwise it is exactly when its failure
      marker, if any, has become old and no lease runs. */
  lemma TakenUpExactly(e: Entry, calls: seq<Call>, config: Config, now: int, removable: bool)
    ensures var last := AfterCalls(e, calls, config);
            Examined(last, now, config, removable).1
            <==> (&& e.complete && !e.uploaded && !(exists i :: 0 <= i < |calls| && Succeeds(e, calls, config, i))
                  && !Running(last.lease, now, config)
                  && (last.failedAt.Some? ==>
                        removable && config.failedRescan > 0 && now >= last.failedAt.value + config.failedRescan))
  {
    UploadedExactly(e, calls, config);
  }

  /** The id under which the i-th call sends; none if it does not get so far. */
  function SentUnder(e: Entry, calls: seq<Call>, i: nat, config: Config): string
    requires i < |calls|
  {
    var before := AfterCalls(e, calls[..i], config);
    if calls[i].Send? && calls[i].parcel.leaseWritten && !LeaseActive(before, calls[i].now, config) then
      Numbered(before, calls[i].parcel).1
    else ""
  }

  lemma {:induction false} IdStays(e: Entry, calls: seq<Call>, i: nat, j: nat, config: Config, id: string)
    requires i <= j <= |calls| && id != "" && AfterCalls(e, calls[..i], config).transferId == Some(id)
    ensures AfterCalls(e, calls[..j], config).transferId == Some(id)
  {
    if i < j {
      IdStays(e, calls, i, j - 1, config, id);
      assert calls[..j][..j - 1] == calls[..j - 1];
    }
  }

  /** Whatever happens to a directory, once a try has sent under an id every later one sends under the same, or not at
      all; and it is the one on the disk. */
  lemma OneIdForAllTries(e: Entry, calls: seq<Call>, i: nat, j: nat, config: Config)
    requires i <= j < |calls| && SentUnder(e, calls, i, config) != "" && SentUnder(e, calls, j, config) != ""
    ensures SentUnder(e, calls, j, config) == SentUnder(e, calls, i, config)
    ensures AfterCalls(e, calls, config).transferId == Some(SentUnder(e, calls, i, config))
  {
    assert calls[..i + 1][..i] == calls[..i] && calls[..|calls|] == calls;
    var id := SentUnder(e, calls, i, config);
    IdStays(e, calls, i + 1, |calls|, config, id);
    if i < j { IdStays(e, calls, i + 1, j, config, id); }
  }
}
