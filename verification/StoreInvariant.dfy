/** What every reachable store state satisfies, and that each step keeps it. */
module StoreInvariant {
  import opened Model
  import opened History
  import opened StoreSpec

  /** The ring holds exactly the last |log| events; slots never used are unset. */
  ghost predicate RingInv(s: StoreState) {
    && |s.log| >= MIN_LOG_CAPACITY
    && s.logStart + s.logSize == s.Head()
    && s.logSize <= |s.log|
    && (forall r :: 0 <= r < s.Head() && s.Head() - |s.log| <= r ==> s.log[r % |s.log|] == s.history[r])
    && (forall i :: s.Head() <= i < |s.log| ==> s.log[i] == NO_EVENT)
  }

  /** A version list is all of the key's versions from its first entry onwards. */
  ghost predicate RecordInv(h: seq<Event>, k: Key, vs: seq<Version>) {
    vs != [] && vs == Versions(h, k, vs[0].rev, |h|)
  }

  ghost predicate RecordsInv(s: StoreState) {
    && (forall k :: k in s.records <==> LatestRev(s.history, k, s.Head()) > 0)
    && (forall k :: k in s.records ==> RecordInv(s.history, k, s.records[k]))
  }

  ghost predicate ReadersInv(s: StoreState) {
    forall id :: id in s.readers ==>
      id <= s.nextReader && s.readers[id].minRev == s.readers[id].rev <= s.Head()
  }

  /** The captured snapshot never holds a wrong version, and it holds every key
      that was not written again after the start. */
  ghost predicate Faithful(h: seq<Event>, st: Stream)
    requires st.start <= |h|
  {
    && (forall k :: k in st.snapshot ==> Answer(h, k, st.start) == Some(st.snapshot[k]))
    && (forall k :: 0 < LatestRev(h, k, |h|) <= st.start ==> k in st.snapshot)
  }

  /** A contiguous piece of the history, placed by the revision of its first event. */
  ghost predicate Piece(h: seq<Event>, start: nat, evs: seq<Event>) {
    evs != [] ==>
      && start < evs[0].rev && evs[0].rev - 1 + |evs| <= |h|
      && evs == h[evs[0].rev - 1..evs[0].rev - 1 + |evs|]
  }

  /** An open stream has been sent everything from some point up to the head. */
  ghost predicate UpToDate(h: seq<Event>, start: nat, evs: seq<Event>) {
    start + |evs| <= |h| && evs == h[|h| - |evs|..]
  }

  ghost predicate StreamInv(h: seq<Event>, st: Stream) {
    && st.start <= |h|
    && |st.ch| <= STREAM_CAPACITY
    && Piece(h, st.start, st.Sent())
    && (!st.closed ==> UpToDate(h, st.start, st.Sent()))
    && Faithful(h, st)
  }

  ghost predicate StreamsInv(s: StoreState) {
    forall id :: id in s.streams ==> id <= s.nextStream && StreamInv(s.history, s.streams[id])
  }

  ghost predicate Inv(s: StoreState) {
    WellFormed(s.history) && RingInv(s) && RecordsInv(s) && ReadersInv(s) && StreamsInv(s)
  }

  lemma LogNonempty(s: StoreState)
    requires Inv(s)
    ensures |s.log| > 0
  {
  }

  // ---------- version lists ----------

  lemma RecordAt(s: StoreState, k: Key)
    requires RecordsInv(s) && k in s.records
    ensures RecordInv(s.history, k, s.records[k])
  {
  }

  lemma RecordSorted(s: StoreState, k: Key)
    requires WellFormed(s.history) && RecordsInv(s) && k in s.records
    ensures Sorted(s.records[k])
    ensures 0 < s.records[k][0].rev
  {
    VersionsShape(s.history, k, s.records[k][0].rev, s.Head());
  }

  /** A version list splits at `q` into the part a read at `q` may use and the rest. */
  lemma SplitAt(h: seq<Event>, k: Key, vs: seq<Version>, q: nat) returns (older: seq<Version>, newer: seq<Version>)
    requires WellFormed(h) && RecordInv(h, k, vs) && q <= |h|
    ensures vs == older + newer && older == Versions(h, k, vs[0].rev, q)
    ensures forall i :: 0 <= i < |older| ==> older[i].rev <= q
    ensures forall i :: 0 <= i < |newer| ==> q < newer[i].rev
  {
    var lo := vs[0].rev;
    older := Versions(h, k, lo, q);
    if lo <= q + 1 {
      newer := Versions(h, k, q + 1, |h|);
      VersionsSplit(h, k, lo, q, |h|);
      VersionsShape(h, k, lo, q);
      VersionsShape(h, k, q + 1, |h|);
    } else {
      newer := vs;
      VersionsAbove(h, k, lo, q);
      VersionsShape(h, k, lo, |h|);
    }
  }

  lemma SearchSplit(a: seq<Version>, b: seq<Version>, q: nat)
    requires forall i :: 0 <= i < |a| ==> a[i].rev <= q
    requires forall i :: 0 <= i < |b| ==> q < b[i].rev
    ensures SearchAfter(a + b, q) == |a|
  {
    var n := SearchAfter(a + b, q);
    assert forall i :: 0 <= i < |a| ==> (a + b)[i].rev <= q;
    assert forall i :: |a| <= i < |a + b| ==> q < (a + b)[i].rev;
    var next := if n < |a + b| then (a + b)[n].rev else 0;
  }

  lemma LastIsLatest(h: seq<Event>, k: Key, lo: nat, q: nat)
    requires WellFormed(h) && q <= |h| && 0 < lo
    ensures var vs := Versions(h, k, lo, q);
      && (vs == [] <==> LatestRev(h, k, q) < lo)
      && (vs != [] ==> vs[|vs| - 1].rev == LatestRev(h, k, q) && Answer(h, k, q) == Some(vs[|vs| - 1]))
  {
    VersionsLast(h, k, lo, q);
  }

  /** The binary search over a version list finds the history's answer, unless
      the answer lies below the oldest version still kept. */
  lemma SearchFindsAnswer(h: seq<Event>, k: Key, vs: seq<Version>, q: nat)
    requires WellFormed(h) && RecordInv(h, k, vs) && q <= |h|
    ensures 0 < vs[0].rev
    ensures var n := SearchAfter(vs, q);
      && (n == 0 <==> LatestRev(h, k, q) < vs[0].rev)
      && (n > 0 ==> Answer(h, k, q) == Some(vs[n - 1]) && vs[n - 1].rev == LatestRev(h, k, q))
  {
    hide WellFormed, Answer, LatestRev, Versions;
    var older, newer := SplitAt(h, k, vs, q);
    SearchSplit(older, newer, q);
    OldestIsPositive(h, k, vs);
    LastIsLatest(h, k, vs[0].rev, q);
  }

  lemma OldestIsPositive(h: seq<Event>, k: Key, vs: seq<Version>)
    requires WellFormed(h) && RecordInv(h, k, vs)
    ensures 0 < vs[0].rev
  {
    VersionsShape(h, k, vs[0].rev, |h|);
  }

  lemma RecordAppend(h: seq<Event>, ev: Event, k: Key, vs: seq<Version>)
    requires WellFormed(h + [ev])
    requires vs == [] ==> LatestRev(h, k, |h|) == 0
    requires vs != [] ==> RecordInv(h, k, vs) && vs[0].rev <= |h|
    ensures k == ev.key ==> RecordInv(h + [ev], k, vs + [VersionOf(ev)])
    ensures k != ev.key && vs != [] ==> RecordInv(h + [ev], k, vs)
  {
    var h' := h + [ev];
    assert h'[|h|] == ev;
    if vs == [] {
      VersionsAbove(h', k, |h'|, |h|);
    } else {
      VersionsExtend(h, h', k, vs[0].rev, |h|);
    }
  }

  /** Writing one event extends the version list of its key and no other. */
  lemma RecordsAppend(s: StoreState, ev: Event)
    requires WellFormed(s.history + [ev]) && WellFormed(s.history) && RecordsInv(s) && |s.log| > 0
    ensures RecordsInv(Append(s, ev))
  {
    var h, h' := s.history, s.history + [ev];
    var s' := Append(s, ev);
    forall k
      ensures k in s'.records <==> LatestRev(h', k, |h'|) > 0
      ensures k in s'.records ==> RecordInv(h', k, s'.records[k])
    {
      LatestRevExtend(h, h', k, |h|);
      if k in s.records {
        NewestKept(s, k);
      }
      RecordAppend(h, ev, k, VersionsAt(s.records, k));
    }
  }

  // ---------- reclaim ----------

  lemma {:induction false} SurvivingIsSuffix(readers: map<nat, Reader>, head: nat, before: nat, vs: seq<Version>)
    returns (c: nat)
    requires Sorted(vs)
    ensures c <= |vs| && Surviving(readers, head, before, vs) == vs[c..]
    ensures forall i :: 0 <= i < |vs| ==> (Survives(readers, head, before, vs[i].rev) <==> c <= i)
  {
    hide Survives;
    if vs == [] {
      return 0;
    }
    var last := |vs| - 1;
    c := SurvivingIsSuffix(readers, head, before, vs[..last]);
    assert forall i :: 0 <= i < last ==> vs[..last][i] == vs[i];
    if Survives(readers, head, before, vs[last].rev) {
      assert vs[..last][c..] + [vs[last]] == vs[c..];
    } else if c < last {
      assert Survives(readers, head, before, vs[c].rev);
      SurvivesUpward(readers, head, before, vs[c].rev, vs[last].rev);
      assert false;
    } else {
      c := |vs|;
    }
  }

  lemma SurvivesUpward(readers: map<nat, Reader>, head: nat, before: nat, r: nat, r': nat)
    requires r <= r' && Survives(readers, head, before, r)
    ensures Survives(readers, head, before, r')
  {
  }

  /** Where the kept part of a version list begins. */
  ghost predicate KeptFrom(
    readers: map<nat, Reader>, head: nat, before: nat, vs: seq<Version>, c: nat)
  {
    c < |vs| && forall i :: 0 <= i < |vs| ==>
      (c <= i <==> Survives(readers, head, before, vs[i].rev) || i == |vs| - 1)
  }

  /** A reclaim keeps a suffix of each version list, always with the newest one. */
  lemma RetainedIsSuffix(readers: map<nat, Reader>, head: nat, before: nat, vs: seq<Version>)
    returns (c: nat)
    requires Sorted(vs) && vs != []
    ensures KeptFrom(readers, head, before, vs, c)
    ensures Retained(readers, head, before, vs) == vs[c..]
  {
    var last := |vs| - 1;
    c := SurvivingIsSuffix(readers, head, before, vs[..last]);
    assert forall i :: 0 <= i < last ==> vs[..last][i] == vs[i];
    assert vs[..last][c..] + [vs[last]] == vs[c..];
  }

  lemma ReclaimKeepsRecords(s: StoreState, before: nat)
    requires WellFormed(s.history) && RecordsInv(s)
    ensures RecordsInv(Reclaim(s, before))
  {
    var s' := Reclaim(s, before);
    forall k | k in s'.records
      ensures RecordInv(s.history, k, s'.records[k])
    {
      RecordSorted(s, k);
      var c := RetainedIsSuffix(s.readers, s.Head(), before, s.records[k]);
      VersionsSuffix(s.history, k, s.records[k][0].rev, s.Head(), c);
    }
  }

  /** The revision of the oldest version still kept for a key; above the head if
      the key was never written. */
  function OldestKept(s: StoreState, k: Key): nat {
    var vs := VersionsAt(s.records, k);
    if vs == [] then s.Head() + 1 else vs[0].rev
  }

  // ---------- snapshots ----------

  /** A snapshot shows a key exactly when its answer has not been reclaimed. */
  lemma SnapshotEntry(s: StoreState, q: nat, k: Key)
    requires WellFormed(s.history) && RecordsInv(s) && q <= s.Head()
    ensures 0 < OldestKept(s, k)
    ensures k in Snapshot(s, q) <==> OldestKept(s, k) <= LatestRev(s.history, k, q)
    ensures k in Snapshot(s, q) ==> Answer(s.history, k, q) == Some(Snapshot(s, q)[k])
  {
    if k in s.records {
      SearchFindsAnswer(s.history, k, s.records[k], q);
    }
  }

  /** The newest version of a key is never reclaimed. */
  lemma NewestKept(s: StoreState, k: Key)
    requires WellFormed(s.history) && RecordsInv(s) && k in s.records
    ensures 0 < OldestKept(s, k) <= LatestRev(s.history, k, s.Head())
    ensures var newest := s.records[k][|s.records[k]| - 1];
      newest.rev == LatestRev(s.history, k, s.Head()) && Answer(s.history, k, s.Head()) == Some(newest)
  {
    assert RecordInv(s.history, k, s.records[k]);
    hide RecordsInv, WellFormed, LatestRev, Versions;
    OldestIsPositive(s.history, k, s.records[k]);
    LastIsLatest(s.history, k, s.records[k][0].rev, s.Head());
  }

  lemma SnapshotFaithful(s: StoreState, st: Stream)
    requires WellFormed(s.history) && RecordsInv(s)
    requires st.start <= s.Head() && st.snapshot == Snapshot(s, st.start)
    ensures Faithful(s.history, st)
  {
    forall k
      ensures k in st.snapshot ==> Answer(s.history, k, st.start) == Some(st.snapshot[k])
      ensures 0 < LatestRev(s.history, k, s.Head()) <= st.start ==> k in st.snapshot
    {
      SnapshotEntry(s, st.start, k);
      LatestRevMonotone(s.history, k, st.start, s.Head());
      if k in s.records {
        NewestKept(s, k);
      }
    }
  }

  // ---------- the ring ----------

  lemma SlotsDiffer(a: nat, b: nat, n: nat)
    requires 0 < n && b < a < b + n
    ensures a % n != b % n
  {
    var d := a / n - b / n;
    assert a - b == n * d + (a % n - b % n);
    assert d <= 0 ==> n * d <= 0;
    assert d >= 1 ==> n * d >= n;
  }

  lemma SlotsMeet(a: nat, n: nat)
    requires 0 < n
    ensures (a + n) % n == a % n
  {
    var d := (a + n) / n - a / n;
    assert n == n * d + ((a + n) % n - a % n);
    assert d <= 0 ==> n * d <= 0;
    assert d >= 2 ==> n * d >= n * 2;
  }

  lemma RingAppend(s: StoreState, ev: Event)
    requires RingInv(s) && ev.rev == s.Head() + 1
    ensures RingInv(Append(s, ev))
  {
    var s' := Append(s, ev);
    RingSlots(s.history, s.log, ev);
    assert s'.log == s.log[|s.history| % |s.log| := ev];
  }

  lemma RingSlots(h: seq<Event>, log: seq<Event>, ev: Event)
    requires |log| > 0
    requires forall r :: 0 <= r < |h| && |h| - |log| <= r ==> log[r % |log|] == h[r]
    requires forall i :: |h| <= i < |log| ==> log[i] == NO_EVENT
    ensures var h', log' := h + [ev], log[|h| % |log| := ev];
      && (forall r :: 0 <= r < |h'| && |h'| - |log| <= r ==> log'[r % |log|] == h'[r])
      && (forall i :: |h'| <= i < |log| ==> log'[i] == NO_EVENT)
  {
    var n, h', log' := |log|, h + [ev], log[|h| % |log| := ev];
    forall r | 0 <= r < |h'| && |h'| - n <= r
      ensures log'[r % n] == h'[r]
    {
      if r < |h| {
        SlotsDiffer(|h|, r, n);
      }
    }
    if |h| < n {
      SmallSlot(|h|, n);
    }
  }

  lemma SmallSlot(a: nat, n: nat)
    requires a < n
    ensures a % n == a
  {
  }

  /** Where the replay of `LogEvents(after)` begins in the history. */
  function ReplayFrom(s: StoreState, after: nat): nat {
    if s.logSize == 0 || after >= s.Head() then s.Head()
    else if after >= s.logStart then after
    else if s.logSize < |s.log| then s.logStart - 1
    else s.logStart
  }

  lemma {:induction false} ScanExact(s: StoreState, first: nat, last: nat)
    requires WellFormed(s.history) && RingInv(s)
    requires 0 < first && first - 1 <= last <= s.Head() && s.Head() - |s.log| < first
    ensures Scan(s.log, first, last) == s.history[first - 1..last]
  {
    if first <= last {
      ScanExact(s, first, last - 1);
      assert s.log[(last - 1) % |s.log|] == s.history[last - 1];
    }
  }

  /** The first slot scanned may have been overwritten; it is then left out. */
  lemma {:induction false} ScanSkipsOverwritten(s: StoreState, first: nat, last: nat)
    requires WellFormed(s.history) && RingInv(s)
    requires 0 < first <= last <= s.Head() && first == s.Head() - |s.log|
    ensures Scan(s.log, first, last) == s.history[first..last]
  {
    if first == last {
      OldestSlotReused(s, first);
    } else {
      ScanSkipsOverwritten(s, first, last - 1);
      assert s.log[(last - 1) % |s.log|] == s.history[last - 1];
    }
  }

  lemma OldestSlotReused(s: StoreState, first: nat)
    requires WellFormed(s.history) && RingInv(s) && 0 < first && first == s.Head() - |s.log|
    ensures Scan(s.log, first, first) == []
  {
    SlotsMeet(first - 1, |s.log|);
    assert s.log[(s.Head() - 1) % |s.log|] == s.history[s.Head() - 1];
    assert Scan(s.log, first, first - 1) == [];
  }

  lemma RingBounds(s: StoreState)
    requires RingInv(s)
    ensures s.logStart + s.logSize == s.Head() && s.logSize <= |s.log| && 0 < |s.log|
  {
  }

  /** The change log always returns a contiguous suffix of the history. */
  lemma LogEventsExact(s: StoreState, after: nat)
    requires WellFormed(s.history) && RingInv(s)
    ensures ReplayFrom(s, after) <= s.Head()
    ensures after <= s.Head() && (s.logSize > 0 ==> s.logStart <= after + 1) ==> after <= ReplayFrom(s, after)
    ensures LogEvents(s, after) == s.history[ReplayFrom(s, after)..]
  {
    hide RingInv, WellFormed, Scan;
    RingBounds(s);
    if s.logSize > 0 && after < s.Head() {
      if after >= s.logStart {
        ScanExact(s, after + 1, s.Head());
      } else if s.logSize < |s.log| {
        ScanExact(s, s.logStart, s.Head());
      } else {
        ScanSkipsOverwritten(s, s.logStart, s.Head());
      }
    }
  }

  // ---------- streams ----------

  lemma SuffixIsPiece(h: seq<Event>, start: nat, f: nat)
    requires WellFormed(h) && start <= f <= |h|
    ensures Piece(h, start, h[f..]) && UpToDate(h, start, h[f..])
  {
    assert h[f..] != [] ==> h[f..][0] == h[f];
  }

  lemma UpToDateExtend(h: seq<Event>, ev: Event, start: nat, evs: seq<Event>)
    requires UpToDate(h, start, evs)
    ensures start <= |h| - |evs| && evs + [ev] == (h + [ev])[|h| - |evs|..]
  {
  }

  lemma DeliverKeeps(h: seq<Event>, ev: Event, st: Stream)
    requires WellFormed(h) && WellFormed(h + [ev]) && StreamInv(h, st)
    ensures StreamInv(h + [ev], Deliver(st, ev))
  {
    hide WellFormed, Faithful, Piece, UpToDate;
    var h', st', sent := h + [ev], Deliver(st, ev), st.Sent();
    FaithfulExtend(h, ev, st);
    PieceExtend(h, ev, st.start, sent);
    if st'.closed {
      assert st'.Sent() == sent;
    } else {
      LastEvent(h, ev);
      assert st'.Sent() == sent + [ev];
      UpToDateExtend(h, ev, st.start, sent);
      SuffixIsPiece(h', st.start, |h| - |sent|);
    }
    FaithfulSame(h', st, st');
  }

  lemma LastEvent(h: seq<Event>, ev: Event)
    requires WellFormed(h + [ev])
    ensures ev.rev == |h| + 1
  {
    assert (h + [ev])[|h|] == ev;
  }

  lemma FaithfulSame(h: seq<Event>, st: Stream, st': Stream)
    requires st.start <= |h| && Faithful(h, st) && st'.start == st.start && st'.snapshot == st.snapshot
    ensures Faithful(h, st')
  {
  }

  lemma PieceExtend(h: seq<Event>, ev: Event, start: nat, evs: seq<Event>)
    requires Piece(h, start, evs)
    ensures Piece(h + [ev], start, evs)
  {
  }

  lemma FaithfulExtend(h: seq<Event>, ev: Event, st: Stream)
    requires st.start <= |h| && Faithful(h, st)
    ensures Faithful(h + [ev], st)
  {
    var h' := h + [ev];
    forall k
      ensures Answer(h', k, st.start) == Answer(h, k, st.start)
      ensures LatestRev(h', k, |h'|) <= st.start ==> LatestRev(h', k, |h'|) == LatestRev(h, k, |h|)
    {
      LatestRevExtend(h, h', k, st.start);
      LatestRevExtend(h, h', k, |h|);
    }
  }

  lemma OpenStreamKeeps(s: StoreState, rev: nat)
    requires Inv(s)
    ensures Inv(OpenStream(s, rev).0)
  {
    hide LogEvents, ReplayFrom, SnapshotAt, RecordsInv, WellFormed, Faithful, Piece, UpToDate;
    RingBounds(s);
    var (s', r) := OpenStream(s, rev);
    if r.Ok? {
      var st := s'.streams[r.value];
      LogEventsExact(s, st.start);
      SnapshotFaithful(s, st);
      assert st.Sent() == LogEvents(s, st.start);
      SuffixIsPiece(s.history, st.start, ReplayFrom(s, st.start));
      StreamAdded(s, s', r.value);
    } else {
      OthersUntouched(s, s');
    }
  }

  lemma OpenLiveStreamKeeps(s: StoreState)
    requires Inv(s)
    ensures Inv(OpenLiveStream(s).0)
  {
    var (s', id) := OpenLiveStream(s);
    SnapshotFaithful(s, s'.streams[id]);
    SuffixIsPiece(s.history, s.Head(), s.Head());
    StreamAdded(s, s', id);
  }

  /** Changing one stream to another valid one keeps the whole invariant. */
  lemma StreamAdded(s: StoreState, s': StoreState, id: nat)
    requires Inv(s) && s.nextStream <= s'.nextStream && id <= s'.nextStream
    requires id in s'.streams && StreamInv(s.history, s'.streams[id])
    requires s' == s.(streams := s.streams[id := s'.streams[id]], nextStream := s'.nextStream)
    ensures Inv(s')
  {
  }

  /** Opening a read, closing one or using up a stream id changes nothing else. */
  lemma OthersUntouched(s: StoreState, s': StoreState)
    requires Inv(s) && s.nextStream <= s'.nextStream
    requires s' == s.(readers := s'.readers, nextReader := s'.nextReader, nextStream := s'.nextStream)
    requires ReadersInv(s')
    ensures Inv(s')
  {
  }

  lemma BeginReadKeeps(s: StoreState, rev: nat)
    requires Inv(s)
    ensures Inv(BeginRead(s, rev).0)
  {
    OthersUntouched(s, BeginRead(s, rev).0);
  }

  lemma CloseReaderKeeps(s: StoreState, id: nat)
    requires Inv(s)
    ensures Inv(CloseReader(s, id))
  {
    OthersUntouched(s, CloseReader(s, id));
  }

  lemma ReceiveKeeps(s: StoreState, id: nat)
    requires Inv(s)
    ensures Inv(Receive(s, id))
  {
    hide Inv, StreamInv;
    var s' := Receive(s, id);
    if s' != s {
      StreamKept(s, id);
      ReceivedInv(s.history, s.streams[id]);
      StreamAdded(s, s', id);
    }
  }

  lemma StreamKept(s: StoreState, id: nat)
    requires Inv(s) && id in s.streams
    ensures id <= s.nextStream && StreamInv(s.history, s.streams[id])
  {
    hide WellFormed, RecordsInv, RingInv, ReadersInv, StreamInv;
  }

  lemma ReceivedInv(h: seq<Event>, st: Stream)
    requires StreamInv(h, st) && st.ch != []
    ensures StreamInv(h, st.(taken := st.taken + [st.ch[0]], ch := st.ch[1..]))
  {
    hide Piece, UpToDate;
    assert st.(taken := st.taken + [st.ch[0]], ch := st.ch[1..]).Sent() == st.Sent();
  }

  lemma ClosedInv(h: seq<Event>, st: Stream)
    requires StreamInv(h, st)
    ensures StreamInv(h, st.(closed := true))
  {
    hide Piece, UpToDate;
    assert st.(closed := true).Sent() == st.Sent();
  }

  lemma CloseStreamKeeps(s: StoreState, id: nat)
    requires Inv(s)
    ensures Inv(CloseStream(s, id))
  {
    hide Inv, StreamInv;
    if id in s.streams {
      StreamKept(s, id);
      ClosedInv(s.history, s.streams[id]);
      StreamAdded(s, CloseStream(s, id), id);
    }
  }

  lemma AppendWellFormed(h: seq<Event>, ev: Event)
    requires WellFormed(h) && ev.rev == |h| + 1
    requires ev.kind != Unset && (ev.kind == Delete <==> ev.value == Nil)
    ensures WellFormed(h + [ev])
  {
  }

  lemma AppendStreams(s: StoreState, ev: Event)
    requires WellFormed(s.history) && WellFormed(s.history + [ev]) && StreamsInv(s)
    requires |s.log| > 0 && ev.rev == s.Head() + 1
    ensures StreamsInv(Append(s, ev))
  {
    hide WellFormed, StreamInv, Deliver;
    forall id | id in s.streams
      ensures StreamInv(s.history + [ev], Deliver(s.streams[id], ev))
    {
      DeliverKeeps(s.history, ev, s.streams[id]);
    }
  }

  lemma AppendKeeps(s: StoreState, ev: Event)
    requires Inv(s) && ev.rev == s.Head() + 1
    requires ev.kind != Unset && (ev.kind == Delete <==> ev.value == Nil)
    ensures Inv(Append(s, ev))
  {
    LogNonempty(s);
    hide WellFormed, RecordsInv, RingInv, StreamsInv;
    AppendWellFormed(s.history, ev);
    RecordsAppend(s, ev);
    RingAppend(s, ev);
    AppendStreams(s, ev);
  }

  lemma ReclaimKeeps(s: StoreState, before: nat)
    requires Inv(s)
    ensures Inv(Reclaim(s, before))
  {
    ReclaimKeepsRecords(s, before);
  }

  // ---------- every step, every run ----------

  lemma StepKeeps(s: StoreState, op: StoreOp)
    requires Inv(s)
    ensures Inv(Step(s, op))
  {
    hide Inv;
    match op
    case OpPut(k, v) =>
      if v != Nil {
        AppendKeeps(s, Event(Put, k, v, s.Head() + 1));
      }
    case OpDelete(k) => AppendKeeps(s, Event(Delete, k, Nil, s.Head() + 1));
    case OpReclaim(before) => ReclaimKeeps(s, before);
    case OpBeginRead(rev) => BeginReadKeeps(s, rev);
    case OpCloseReader(id) => CloseReaderKeeps(s, id);
    case OpOpenStream(rev) => OpenStreamKeeps(s, rev);
    case OpOpenLiveStream => OpenLiveStreamKeeps(s);
    case OpReceive(id) => ReceiveKeeps(s, id);
    case OpCloseStream(id) => CloseStreamKeeps(s, id);
  }

  lemma StepExtendsHistory(s: StoreState, op: StoreOp)
    requires |s.log| > 0
    ensures s.history <= Step(s, op).history
  {
    hide LogEvents, Snapshot, ReclaimRecords;
  }

  lemma {:induction false} RunKeeps(s: StoreState, ops: seq<StoreOp>)
    requires Inv(s)
    ensures Inv(Run(s, ops))
  {
    if ops != [] {
      RunKeeps(s, ops[..|ops| - 1]);
      StepKeeps(Run(s, ops[..|ops| - 1]), ops[|ops| - 1]);
    }
  }

  /** Every state a store can reach satisfies the invariant. */
  lemma ReachableInv(logCapacity: int, ops: seq<StoreOp>)
    ensures Inv(Run(New(logCapacity), ops))
  {
    RunKeeps(New(logCapacity), ops);
  }
}
