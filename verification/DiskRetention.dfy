/**
 Oldest-first clean-up of event directories, include/disk_space_manager.hpp: the age pass, the capacity pass, and
 which directories are considered at all.
 */
module DiskRetention {
  import opened Prelude
  import opened DirectoryNames
  import EventStore
  import EventStoreInvariant

  datatype EventDir = EventDir(name: string, timestamp: int, bytes: nat)

  /** Bytes, days and seconds; 0 switches a limit off. */
  datatype Policy = Policy(minFree: nat, maxCapacity: nat, retentionDays: nat, interval: int, protectUnuploaded: bool)

  predicate OldestFirst(dirs: seq<EventDir>)
  {
    forall i, j :: 0 <= i < j < |dirs| ==> dirs[i].timestamp <= dirs[j].timestamp
  }

  function Bytes(dirs: seq<EventDir>): nat
  {
    if dirs == [] then 0 else dirs[0].bytes + Bytes(dirs[1..])
  }

  const DAY_NS: int := 24 * 3600 * 1_000_000_000

  // ---- the passes ----

  /** The directories older than the cutoff whose removal works, and those left. stuck is where removal fails. */
  function Aged(dirs: seq<EventDir>, cutoff: int, stuck: set<string>): (r: (seq<EventDir>, seq<EventDir>))
  {
    if dirs == [] || dirs[0].timestamp >= cutoff then ([], dirs)
    else
      var (deleted, left) := Aged(dirs[1..], cutoff, stuck);
      if dirs[0].name in stuck then (deleted, [dirs[0]] + left) else ([dirs[0]] + deleted, left)
  }

  /** From the oldest on, until what is left fits. */
  function Shed(dirs: seq<EventDir>, total: nat, capacity: nat, stuck: set<string>): (r: (seq<EventDir>, seq<EventDir>))
  {
    if dirs == [] || total <= capacity then ([], dirs)
    else if dirs[0].name in stuck then
      var (deleted, left) := Shed(dirs[1..], total, capacity, stuck);
      (deleted, [dirs[0]] + left)
    else
      var (deleted, left) :=
        Shed(dirs[1..], if dirs[0].bytes > total then 0 else total - dirs[0].bytes, capacity, stuck);
      ([dirs[0]] + deleted, left)
  }

  /** A pass is what has been decided so far followed by the rest of the pass. */
  ghost predicate Continues(whole: (seq<EventDir>, seq<EventDir>), deleted: seq<EventDir>, left: seq<EventDir>,
                            rest: (seq<EventDir>, seq<EventDir>))
  {
    whole == (deleted + rest.0, left + rest.1)
  }

  lemma Decide(whole: (seq<EventDir>, seq<EventDir>), deleted: seq<EventDir>, left: seq<EventDir>, d: EventDir,
               rest: (seq<EventDir>, seq<EventDir>))
    ensures Continues(whole, deleted, left, ([d] + rest.0, rest.1)) ==> Continues(whole, deleted + [d], left, rest)
    ensures Continues(whole, deleted, left, (rest.0, [d] + rest.1)) ==> Continues(whole, deleted, left + [d], rest)
  {
    assert deleted + ([d] + rest.0) == (deleted + [d]) + rest.0;
    assert left + ([d] + rest.1) == (left + [d]) + rest.1;
  }

  method AgePass(dirs: seq<EventDir>, cutoff: int, stuck: set<string>)
    returns (deleted: seq<EventDir>, left: seq<EventDir>)
    ensures (deleted, left) == Aged(dirs, cutoff, stuck)
  {
    ghost var whole := Aged(dirs, cutoff, stuck);
    deleted, left := [], dirs;
    var it := 0;
    ghost var rest := dirs;
    assert [] + whole.0 == whole.0 && [] + whole.1 == whole.1;
    while it < |left| && left[it].timestamp < cutoff
      invariant it <= |left| && rest == left[it..]
      invariant Continues(whole, deleted, left[..it], Aged(rest, cutoff, stuck))
      decreases |left| - it
    {
      var dir := left[it];
      Decide(whole, deleted, left[..it], dir, Aged(rest[1..], cutoff, stuck));
      StepOver(left, it);
      hide Continues;
      if dir.name !in stuck {
        deleted := deleted + [dir];
        left := left[..it] + left[it + 1..];
      } else {
        it := it + 1;
      }
      rest := rest[1..];
    }
    assert left == left[..it] + rest && deleted + [] == deleted;
  }

  /** One element further, or one element less. */
  lemma StepOver(left: seq<EventDir>, it: nat)
    requires it < |left|
    ensures left[it..][1..] == left[it + 1..] && left[..it + 1] == left[..it] + [left[it]]
    ensures var less := left[..it] + left[it + 1..];
            less[..it] == left[..it] && less[it..] == left[it + 1..] && |less| == |left| - 1
  {
  }

  method CapacityPass(dirs: seq<EventDir>, capacity: nat, stuck: set<string>)
    returns (deleted: seq<EventDir>, left: seq<EventDir>)
    ensures (deleted, left) == Shed(dirs, Bytes(dirs), capacity, stuck)
  {
    var total := TotalBytes(dirs);
    ghost var whole := Shed(dirs, total, capacity, stuck);
    deleted, left := [], [];
    var i := 0;
    ghost var rest := dirs;
    assert [] + whole.0 == whole.0 && [] + whole.1 == whole.1;
    while i < |dirs| && total > capacity
      invariant i <= |dirs| && rest == dirs[i..] && total >= 0
      invariant Continues(whole, deleted, left, Shed(rest, total, capacity, stuck))
    {
      var now := if dirs[i].name in stuck then total else if dirs[i].bytes > total then 0 else total - dirs[i].bytes;
      Decide(whole, deleted, left, dirs[i], Shed(rest[1..], now, capacity, stuck));
      if dirs[i].name !in stuck {
        deleted := deleted + [dirs[i]];
      } else {
        left := left + [dirs[i]];
      }
      total := now;
      rest := rest[1..];
      i := i + 1;
    }
    left := left + dirs[i..];
    assert deleted + [] == deleted;
  }

  method TotalBytes(dirs: seq<EventDir>) returns (total: nat)
    ensures total == Bytes(dirs)
  {
    total := 0;
    for i := 0 to |dirs|
      invariant total + Bytes(dirs[i..]) == Bytes(dirs)
    {
      total := total + dirs[i].bytes;
      assert dirs[i..][1..] == dirs[i + 1..];
    }
  }

  // ---- what the passes achieve ----

  /** The age pass leaves nothing older than the cutoff except where removal fails, and deletes nothing else. */
  lemma {:induction false} AgedIsExact(dirs: seq<EventDir>, cutoff: int, stuck: set<string>, d: EventDir)
    requires OldestFirst(dirs)
    ensures var (deleted, left) := Aged(dirs, cutoff, stuck);
            && (d in deleted <==> d in dirs && d.timestamp < cutoff && d.name !in stuck)
            && (d in left <==> d in dirs && (d.timestamp >= cutoff || d.name in stuck))
  {
    if dirs != [] {
      var rest := dirs[1..];
      assert dirs == [dirs[0]] + rest;
      if dirs[0].timestamp < cutoff {
        AgedIsExact(rest, cutoff, stuck, d);
      } else if d in dirs {
        var i :| 0 <= i < |dirs| && dirs[i] == d;
        assert dirs[0].timestamp <= dirs[i].timestamp;
      }
    }
  }

  /** What is left is still oldest first. */
  lemma {:induction false} AgedKeepsOrder(dirs: seq<EventDir>, cutoff: int, stuck: set<string>)
    requires OldestFirst(dirs)
    ensures OldestFirst(Aged(dirs, cutoff, stuck).1)
  {
    if dirs != [] && dirs[0].timestamp < cutoff {
      var rest, left := dirs[1..], Aged(dirs[1..], cutoff, stuck).1;
      AgedKeepsOrder(rest, cutoff, stuck);
      forall i | 0 <= i < |left| ensures dirs[0].timestamp <= left[i].timestamp {
        AgedIsExact(rest, cutoff, stuck, left[i]);
        var k :| 0 <= k < |rest| && rest[k] == left[i];
        assert rest[k] == dirs[k + 1];
      }
    }
  }

  /** The capacity pass splits the list; what it deletes and what it leaves keep their order. */
  lemma {:induction false} ShedAccounts(dirs: seq<EventDir>, capacity: nat, stuck: set<string>)
    ensures var (deleted, left) := Shed(dirs, Bytes(dirs), capacity, stuck);
            Bytes(deleted) + Bytes(left) == Bytes(dirs)
            && (Bytes(left) <= capacity || forall d :: d in left ==> d.name in stuck)
  {
    ShedTotals(dirs, Bytes(dirs), capacity, stuck);
  }

  lemma {:induction false} ShedTotals(dirs: seq<EventDir>, total: nat, capacity: nat, stuck: set<string>)
    requires total >= Bytes(dirs)
    ensures var (deleted, left) := Shed(dirs, total, capacity, stuck);
            Bytes(deleted) + Bytes(left) == Bytes(dirs)
            && (total - Bytes(deleted) <= capacity || forall d :: d in left ==> d.name in stuck)
  {
    if dirs != [] && total > capacity {
      ShedTotals(dirs[1..], if dirs[0].name in stuck then total else total - dirs[0].bytes, capacity, stuck);
      var (deleted, left) :=
        Shed(dirs[1..], if dirs[0].name in stuck then total else total - dirs[0].bytes, capacity, stuck);
      assert ([dirs[0]] + deleted)[1..] == deleted && ([dirs[0]] + left)[1..] == left;
    }
  }

  /** How many directories the pass goes through. */
  function Reach(dirs: seq<EventDir>, total: nat, capacity: nat, stuck: set<string>): (n: nat)
    ensures n <= |dirs|
  {
    if dirs == [] || total <= capacity then 0
    else 1 + Reach(dirs[1..],
                   if dirs[0].name in stuck then total else if dirs[0].bytes > total then 0 else total - dirs[0].bytes,
                   capacity, stuck)
  }

  function Without(dirs: seq<EventDir>, stuck: set<string>): seq<EventDir>
  {
    if dirs == [] then []
    else if dirs[0].name in stuck then Without(dirs[1..], stuck)
    else [dirs[0]] + Without(dirs[1..], stuck)
  }

  function Only(dirs: seq<EventDir>, stuck: set<string>): seq<EventDir>
  {
    if dirs == [] then []
    else if dirs[0].name in stuck then [dirs[0]] + Only(dirs[1..], stuck)
    else Only(dirs[1..], stuck)
  }

  /** It deletes, of the prefix it goes through, exactly what can be removed: every survivor older than a deleted
      directory is one whose removal failed. */
  lemma {:induction false} ShedIsPrefix(dirs: seq<EventDir>, total: nat, capacity: nat, stuck: set<string>)
    requires total >= Bytes(dirs)
    ensures var n := Reach(dirs, total, capacity, stuck);
            Shed(dirs, total, capacity, stuck) == (Without(dirs[..n], stuck), Only(dirs[..n], stuck) + dirs[n..])
  {
    if dirs != [] && total > capacity {
      var now := if dirs[0].name in stuck then total else total - dirs[0].bytes;
      ShedIsPrefix(dirs[1..], now, capacity, stuck);
      var n := Reach(dirs, total, capacity, stuck);
      assert dirs[..n][1..] == dirs[1..][..n - 1] && dirs[n..] == dirs[1..][n - 1..];
      var only := Only(dirs[1..][..n - 1], stuck);
      assert ([dirs[0]] + only) + dirs[n..] == [dirs[0]] + (only + dirs[n..]);
    } else {
      assert Only(dirs[..0], stuck) + dirs[0..] == dirs;
    }
  }

  /** Bytes of the removable ones among the first k. */
  function Removable(dirs: seq<EventDir>, k: nat, stuck: set<string>): nat
    requires k <= |dirs|
  {
    if k == 0 then 0 else (if dirs[0].name in stuck then 0 else dirs[0].bytes) + Removable(dirs[1..], k - 1, stuck)
  }

  /** The prefix is the shortest one that will do: after it the rest fits, after any shorter one it does not. */
  lemma {:induction false} ShedIsShortest(dirs: seq<EventDir>, total: nat, capacity: nat, stuck: set<string>, k: nat)
    requires total >= Bytes(dirs) && k <= |dirs|
    ensures var n := Reach(dirs, total, capacity, stuck);
            && (k < n ==> total - Removable(dirs, k, stuck) > capacity)
            && (n < |dirs| ==> total - Removable(dirs, n, stuck) <= capacity)
  {
    if dirs != [] && total > capacity {
      var now := if dirs[0].name in stuck then total else total - dirs[0].bytes;
      ShedIsShortest(dirs[1..], now, capacity, stuck, if k > 0 then k - 1 else 0);
    }
  }

  lemma {:induction false} NothingStuck(dirs: seq<EventDir>)
    ensures Without(dirs, {}) == dirs && Only(dirs, {}) == []
  {
    if dirs != [] { NothingStuck(dirs[1..]); }
  }

  lemma {:induction false} RemovableIsPrefix(dirs: seq<EventDir>, k: nat)
    requires k <= |dirs|
    ensures Bytes(dirs[k..]) == Bytes(dirs) - Removable(dirs, k, {})
  {
    if k == 0 {
      assert dirs[0..] == dirs;
    } else {
      RemovableIsPrefix(dirs[1..], k - 1);
      assert dirs[1..][k - 1..] == dirs[k..];
    }
  }

  /** When every removal works, the capacity pass deletes the shortest oldest-first prefix that makes the rest fit. */
  lemma CapacityDeletesShortestPrefix(dirs: seq<EventDir>, capacity: nat, k: nat)
    requires k <= |dirs|
    ensures var (deleted, left) := Shed(dirs, Bytes(dirs), capacity, {});
            && dirs == deleted + left && Bytes(left) <= capacity
            && (k < |deleted| ==> Bytes(dirs[k..]) > capacity)
  {
    var n := Reach(dirs, Bytes(dirs), capacity, {});
    ShedIsPrefix(dirs, Bytes(dirs), capacity, {});
    ShedIsShortest(dirs, Bytes(dirs), capacity, {}, k);
    NothingStuck(dirs[..n]);
    RemovableIsPrefix(dirs, n);
    RemovableIsPrefix(dirs, k);
    hide Shed, Reach, Without, Only, Removable, Bytes;
    CutAt(dirs, n);
    if n == |dirs| { NoBytes(); }
  }

  lemma CutAt(dirs: seq<EventDir>, n: nat)
    requires n <= |dirs|
    ensures dirs == dirs[..n] + dirs[n..] && [] + dirs[n..] == dirs[n..] && (n == |dirs| ==> dirs[n..] == [])
  {
  }

  lemma NoBytes()
    ensures Bytes([]) == 0
  {
  }

  /** With failures: whatever survives in front of a deleted directory is stuck. */
  lemma OlderSurvivorsAreStuck(dirs: seq<EventDir>, capacity: nat, stuck: set<string>, i: nat, j: nat)
    requires i < j < |dirs| && forall a, b :: 0 <= a < b < |dirs| ==> dirs[a] != dirs[b]
    requires var (deleted, left) := Shed(dirs, Bytes(dirs), capacity, stuck); dirs[i] in left && dirs[j] in deleted
    ensures dirs[i].name in stuck
  {
    var n := Reach(dirs, Bytes(dirs), capacity, stuck);
    ShedIsPrefix(dirs, Bytes(dirs), capacity, stuck);
    FilteredMembers(dirs[..n], stuck);
    assert dirs[j] in dirs[..n];
    var k :| 0 <= k < n && dirs[..n][k] == dirs[j];
    assert j == k && dirs[..n][i] == dirs[i];
    assert forall m :: 0 <= m < |dirs[n..]| ==> dirs[n..][m] == dirs[n + m];
  }

  lemma {:induction false} FilteredMembers(dirs: seq<EventDir>, stuck: set<string>)
    ensures forall d :: d in Without(dirs, stuck) ==> d in dirs && d.name !in stuck
    ensures forall d :: d in Only(dirs, stuck) ==> d in dirs && d.name in stuck
  {
    if dirs != [] {
      FilteredMembers(dirs[1..], stuck);
      assert dirs == [dirs[0]] + dirs[1..];
    }
  }

  // ---- the manager ----

  /** What an entry of the record root shows when it is looked at. */
  datatype Entry = Entry(name: string, isDirectory: bool, markers: EventStore.Disk, leaseTemporary: bool, bytes: nat)

  /** Decided, not being uploaded, uploaded if that is asked for, and named like an event. */
  predicate Considered(e: Entry, policy: Policy)
  {
    && e.isDirectory && !e.markers.pending && !e.markers.uploading && !e.leaseTemporary
    && (e.markers.complete.Some? || e.markers.failed)
    && (policy.protectUnuploaded && e.markers.complete.Some? ==> e.markers.uploaded)
    && EventTimestamp(e.name) >= 0
  }

  /** Only what the event store allows to be deleted is considered. */
  lemma ConsideredIsDeletable(e: Entry, policy: Policy)
    requires Considered(e, policy)
    ensures EventStoreInvariant.Deletable(e.markers, policy.protectUnuploaded)
    ensures !e.markers.pending && !e.markers.uploading
  {}

  /** Retention's looks at a directory's markers in the event store, one after the other, while nothing changes: how far
      it has come after n of them. */
  function Looked(e: Entry, policy: Policy, n: nat): (probe: EventStore.Probe)
    ensures !probe.Erasing?
  {
    if n == 0 then EventStore.Off
    else
      var before := Looked(e, policy, n - 1);
      if n > 1 && before.Off? then before
      else EventStore.NextProbe(before, e.name, e.markers, policy.protectUnuploaded)
  }

  /** And exactly what those looks let pass, if it is named like an event and no lease is just being written. */
  lemma ConsideredExactly(e: Entry, policy: Policy)
    ensures Considered(e, policy)
            <==> (&& Looked(e, policy, 5).At? && Looked(e, policy, 5).stage == 5
                  && e.isDirectory && !e.leaseTemporary && EventTimestamp(e.name) >= 0)
  {
    assert Looked(e, policy, 0) == EventStore.Off;
    var first, second := Looked(e, policy, 1), Looked(e, policy, 2);
    var third, fourth := Looked(e, policy, 3), Looked(e, policy, 4);
    assert first == if e.markers.pending then EventStore.Off else EventStore.At(e.name, 1, false);
    assert second.At? <==> !e.markers.pending && !e.markers.uploading;
    assert third.At? <==> second.At?;
    assert fourth.At? <==> third.At? && (e.markers.complete.Some? || e.markers.failed);
  }

  /** The collected directories are those of the entries considered. */
  lemma {:induction false} CollectedAre(entries: seq<Entry>, policy: Policy, d: EventDir)
    ensures d in Collected(entries, policy)
            <==> exists e :: e in entries && Considered(e, policy)
                             && d == EventDir(e.name, EventTimestamp(e.name), e.bytes)
  {
    if entries != [] {
      var front, last := entries[..|entries| - 1], entries[|entries| - 1];
      CollectedAre(front, policy, d);
      assert entries == front + [last];
      hide Considered;
    }
  }

  function DirOf(e: Entry): EventDir { EventDir(e.name, EventTimestamp(e.name), e.bytes) }

  function Collected(entries: seq<Entry>, policy: Policy): seq<EventDir>
  {
    if entries == [] then []
    else
      var last := entries[|entries| - 1];
      Collected(entries[..|entries| - 1], policy) + if Considered(last, policy) then [DirOf(last)] else []
  }

  method CollectEventDirs(entries: seq<Entry>, policy: Policy) returns (dirs: seq<EventDir>)
    ensures dirs == Collected(entries, policy)
  {
    dirs := [];
    for i := 0 to |entries|
      invariant dirs == Collected(entries[..i], policy)
    {
      assert entries[..i + 1][..i] == entries[..i];
      var e := entries[i];
      if e.isDirectory && !e.markers.pending && !e.markers.uploading && !e.leaseTemporary {
        if e.markers.complete.Some? || e.markers.failed {
          if !(policy.protectUnuploaded && e.markers.complete.Some? && !e.markers.uploaded) {
            var timestamp := ParseEventTimestamp(e.name);
            if timestamp >= 0 {
              dirs := dirs + [EventDir(e.name, timestamp as int, e.bytes)];
            }
          }
        }
      }
    }
    assert entries[..|entries|] == entries;
  }

  /** The sweep over the collected directories, sorted by time: age first, capacity with what is left. */
  function Swept(dirs: seq<EventDir>, policy: Policy, systemNow: int, stuck: set<string>)
    : (r: (seq<EventDir>, seq<EventDir>))
  {
    var (aged, rest) := if policy.retentionDays > 0 then Aged(dirs, Cutoff(policy, systemNow), stuck) else ([], dirs);
    var (shed, left) :=
      if policy.maxCapacity > 0 then Shed(rest, Bytes(rest), policy.maxCapacity, stuck) else ([], rest);
    (aged + shed, left)
  }

  function Cutoff(policy: Policy, systemNow: int): int { systemNow - policy.retentionDays * DAY_NS }

  lemma {:induction false} BytesAppend(a: seq<EventDir>, b: seq<EventDir>)
    ensures Bytes(a + b) == Bytes(a) + Bytes(b)
  {
    if a == [] {
      assert a + b == b;
    } else {
      BytesAppend(a[1..], b);
      assert (a + b)[1..] == a[1..] + b;
    }
  }

  lemma {:induction false} AgedAccounts(dirs: seq<EventDir>, cutoff: int, stuck: set<string>)
    ensures var (deleted, left) := Aged(dirs, cutoff, stuck); Bytes(deleted) + Bytes(left) == Bytes(dirs)
  {
    if dirs != [] && dirs[0].timestamp < cutoff {
      AgedAccounts(dirs[1..], cutoff, stuck);
      var (deleted, left) := Aged(dirs[1..], cutoff, stuck);
      assert ([dirs[0]] + deleted)[1..] == deleted && ([dirs[0]] + left)[1..] == left;
    }
  }

  /** Of an oldest-first list the capacity pass deletes nothing while something older is left that could be removed. */
  lemma ShedOldestFirst(dirs: seq<EventDir>, capacity: nat, stuck: set<string>, d: EventDir, x: EventDir)
    requires OldestFirst(dirs)
    ensures var (deleted, left) := Shed(dirs, Bytes(dirs), capacity, stuck);
            && (x in deleted ==> x in dirs && x.name !in stuck) && (d in left ==> d in dirs)
            && (x in deleted && d in left && d.timestamp < x.timestamp ==> d.name in stuck)
  {
    var n := Reach(dirs, Bytes(dirs), capacity, stuck);
    ShedIsPrefix(dirs, Bytes(dirs), capacity, stuck);
    FilteredMembers(dirs[..n], stuck);
    CutAt(dirs, n);
    hide Shed, Reach, Without, Only, Bytes, OldestFirst;
    if x in dirs[..n] && d in dirs[n..] { FrontIsOlder(dirs, n, x, d); }
  }

  lemma FrontIsOlder(dirs: seq<EventDir>, n: nat, x: EventDir, d: EventDir)
    requires OldestFirst(dirs) && n <= |dirs| && x in dirs[..n] && d in dirs[n..]
    ensures x.timestamp <= d.timestamp
  {
    var i :| 0 <= i < n && dirs[..n][i] == x;
    var j :| 0 <= j < |dirs[n..]| && dirs[n..][j] == d;
    assert dirs[i] == x && dirs[n + j] == d;
  }

  /** One sweep over an oldest-first list, whatever removals fail: only what can be removed goes, oldest first; no
      directory is lost from the books; nothing older than the cutoff is left but what is stuck; and what is left fits,
      or all of it is stuck. */
  lemma SweepAchieves(dirs: seq<EventDir>, policy: Policy, systemNow: int, stuck: set<string>)
    requires OldestFirst(dirs)
    ensures var (deleted, left) := Swept(dirs, policy, systemNow, stuck);
            && Bytes(deleted) + Bytes(left) == Bytes(dirs)
            && (forall x :: x in deleted ==> x in dirs && x.name !in stuck)
            && (forall d, x :: d in left && x in deleted && d.timestamp < x.timestamp ==> d.name in stuck)
            && (policy.retentionDays > 0 ==>
                  forall d :: d in left ==>
                    d.timestamp >= systemNow - policy.retentionDays * 86_400_000_000_000 || d.name in stuck)
            && (policy.maxCapacity > 0 ==>
                Bytes(left) <= policy.maxCapacity || forall d :: d in left ==> d.name in stuck)
  {
    var cutoff := Cutoff(policy, systemNow);
    var (aged, rest) := if policy.retentionDays > 0 then Aged(dirs, cutoff, stuck) else ([], dirs);
    var (shed, left) :=
      if policy.maxCapacity > 0 then Shed(rest, Bytes(rest), policy.maxCapacity, stuck) else ([], rest);
    AgedAccounts(dirs, cutoff, stuck);
    AgedKeepsOrder(dirs, cutoff, stuck);
    ShedAccounts(rest, policy.maxCapacity, stuck);
    BytesAppend(aged, shed);
    hide Aged, Shed, Bytes, OldestFirst;
    forall d, x ensures Spared(dirs, cutoff, policy, aged, rest, shed, left, stuck, d, x) {
      AgedIsExact(dirs, cutoff, stuck, d);
      AgedIsExact(dirs, cutoff, stuck, x);
      ShedOldestFirst(rest, policy.maxCapacity, stuck, d, x);
    }
    assert Swept(dirs, policy, systemNow, stuck) == (aged + shed, left);
    hide Swept;
    forall x | x in aged + shed ensures x in dirs && x.name !in stuck {
      assert Spared(dirs, cutoff, policy, aged, rest, shed, left, stuck, x, x);
    }
    forall d, x | d in left && x in aged + shed && d.timestamp < x.timestamp ensures d.name in stuck {
      assert Spared(dirs, cutoff, policy, aged, rest, shed, left, stuck, d, x);
    }
    forall d | d in left && policy.retentionDays > 0 ensures d.timestamp >= cutoff || d.name in stuck {
      assert Spared(dirs, cutoff, policy, aged, rest, shed, left, stuck, d, d);
    }
  }

  /** What both passes together mean for a directory that is left and one that is deleted. */
  ghost predicate Spared(dirs: seq<EventDir>, cutoff: int, policy: Policy, aged: seq<EventDir>, rest: seq<EventDir>,
                         shed: seq<EventDir>, left: seq<EventDir>, stuck: set<string>, d: EventDir, x: EventDir)
  {
    && (x in aged ==> x in dirs && x.timestamp < cutoff && x.name !in stuck && policy.retentionDays > 0)
    && (x in shed ==> x in dirs && x.name !in stuck)
    && (d in left ==> d in rest && (policy.retentionDays > 0 ==> d.timestamp >= cutoff || d.name in stuck))
    && (d in left && x in shed && d.timestamp < x.timestamp ==> d.name in stuck)
  }

  class DiskSpaceManager {
    const policy: Policy
    var lastSweep: int

    constructor (policy: Policy, steadyNow: int)
      ensures this.policy == policy && lastSweep == steadyNow - policy.interval
    {
      this.policy := policy;
      lastSweep := steadyNow - policy.interval;
    }

    predicate Enabled() { policy.retentionDays > 0 || policy.maxCapacity > 0 }

    /** Deletes nothing when nothing is limited, or too soon after the last sweep unless forced. */
    method EnforceRetention(force: bool, steadyNow: int, systemNow: int, dirs: seq<EventDir>, stuck: set<string>)
      returns (deleted: seq<EventDir>)
      modifies this
      ensures var due := Enabled() && (force || steadyNow - old(lastSweep) >= policy.interval);
              && lastSweep == (if due then steadyNow else old(lastSweep))
              && deleted == if due then Swept(dirs, policy, systemNow, stuck).0 else []
    {
      var ageEnabled, capacityEnabled := policy.retentionDays > 0, policy.maxCapacity > 0;
      if !ageEnabled && !capacityEnabled {
        return [];
      }
      if !force && steadyNow - lastSweep < policy.interval {
        return [];
      }
      lastSweep := steadyNow;
      deleted := [];
      var left := dirs;
      if ageEnabled {
        deleted, left := AgePass(left, Cutoff(policy, systemNow), stuck);
      }
      if capacityEnabled {
        var shed, _ := CapacityPass(left, policy.maxCapacity, stuck);
        deleted := deleted + shed;
      } else {
        assert deleted + [] == deleted;
      }
    }

    /** free and freeAfter are what the file system reports before and after the forced sweep. */
    method PrepareForWrite(free: nat, freeAfter: nat, steadyNow: int, systemNow: int, dirs: seq<EventDir>,
                           stuck: set<string>)
      returns (ok: bool, deleted: seq<EventDir>)
      modifies this
      ensures ok <==> policy.minFree == 0 || free >= policy.minFree || freeAfter >= policy.minFree
      ensures deleted == if policy.minFree > 0 && free < policy.minFree && Enabled()
              then Swept(dirs, policy, systemNow, stuck).0 else []
    {
      if policy.minFree == 0 || free >= policy.minFree {
        return true, [];
      }
      deleted := EnforceRetention(true, steadyNow, systemNow, dirs, stuck);
      ok := freeAfter >= policy.minFree;
    }
  }
}
