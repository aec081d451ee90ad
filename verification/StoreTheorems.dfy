/** Properties of the store over every run. */
module StoreTheorems {
  import opened Model
  import opened History
  import opened StoreSpec
  import opened StoreInvariant

  function Lookup(view: map<Key, Version>, k: Key): Option<Version> {
    if k in view then Some(view[k]) else None
  }

  // ---------- the change log ----------

  /** The ring refines the unbounded history in every reachable state, and the
      log answers every query with a contiguous suffix of that history. */
  lemma RingRefinesHistory(logCapacity: int, ops: seq<StoreOp>, after: nat)
    ensures var s := Run(New(logCapacity), ops);
      && s.logStart + s.logSize == s.Head()
      && s.logSize <= |s.log| == (if logCapacity < 16 then 16 else logCapacity)
      && (forall r :: s.Head() - |s.log| <= r < s.Head() && 0 <= r ==> s.log[r % |s.log|] == s.history[r])
      && (forall i :: s.Head() <= i < |s.log| ==> s.log[i] == NO_EVENT)
      && ReplayFrom(s, after) <= s.Head()
      && LogEvents(s, after) == s.history[ReplayFrom(s, after)..]
  {
    ReachableInv(logCapacity, ops);
    LogEventsExact(Run(New(logCapacity), ops), after);
  }

  /** The two situations in which a replay is not gap-free. */
  predicate LosesOldest(s: StoreState, start: nat) {
    s.logSize == |s.log| && start + 1 == s.logStart
  }

  predicate LosesAll(s: StoreState, start: nat) {
    s.logSize == 0 && start < s.Head()
  }

  lemma FreshStreamId(s: StoreState)
    requires Inv(s)
    ensures s.nextStream + 1 !in s.streams && s.logStart + s.logSize == s.Head()
  {
    hide WellFormed, RecordsInv, ReadersInv, StreamInv;
  }

  /** When opening a stream succeeds, what it replays, and exactly when that is
      every event above the stream's start. */
  lemma OpenStreamExact(s: StoreState, rev: nat)
    requires Inv(s)
    ensures var (s', r) := OpenStream(s, rev); var start := StreamStart(s, rev);
      && (r.Ok? <==> rev <= s.Head() && s.Head() - ReplayFrom(s, start) <= STREAM_CAPACITY)
      && (r.Ok? ==>
            var st := s'.streams[r.value];
            && r.value !in s.streams && st.start == start <= s.Head() && !st.closed
            && (st.Sent() == s.history[start..] <==> !LosesOldest(s, start) && !LosesAll(s, start))
            && (LosesOldest(s, start) ==> st.Sent() == s.history[start + 1..])
            && (LosesAll(s, start) ==> st.Sent() == []))
  {
    var start := StreamStart(s, rev);
    LogEventsExact(s, start);
    hide LogEvents, SnapshotAt;
    FreshStreamId(s);
    hide Inv;
    var (s', r) := OpenStream(s, rev);
    if r.Ok? {
      assert s'.streams[r.value].Sent() == LogEvents(s, start);
      assert |s.history[start..]| == s.Head() - start;
    }
  }

  // ---------- streams over a run ----------

  /** What one step may do to a stream. */
  ghost predicate Advanced(h: seq<Event>, st: Stream, h': seq<Event>, st': Stream) {
    && h <= h' && st'.start == st.start && st'.snapshot == st.snapshot
    && st.taken <= st'.taken && (st.closed ==> st'.closed)
    && (st'.Sent() == st.Sent() || (!st'.closed && st'.Sent() == st.Sent() + h'[|h|..]))
    && (!st'.closed ==> |h'| - |st'.Sent()| == |h| - |st.Sent()|)
  }

  lemma DeliverAdvances(h: seq<Event>, ev: Event, st: Stream)
    requires st.start <= |h| && ev.rev == |h| + 1
    ensures Advanced(h, st, h + [ev], Deliver(st, ev))
  {
    var st' := Deliver(st, ev);
    assert st' == st || st'.closed || st'.Sent() == st.Sent() + [ev];
  }

  lemma StreamUntouched(h: seq<Event>, st: Stream, st': Stream)
    requires st'.start == st.start && st'.snapshot == st.snapshot && st'.Sent() == st.Sent()
    requires st.taken <= st'.taken && (st.closed ==> st'.closed)
    ensures Advanced(h, st, h, st')
  {
  }

  lemma StreamAcrossAppend(s: StoreState, ev: Event, id: nat)
    requires |s.log| > 0 && id in s.streams && s.streams[id].start <= s.Head() && ev.rev == s.Head() + 1
    ensures var s' := Append(s, ev);
      id in s'.streams && Advanced(s.history, s.streams[id], s'.history, s'.streams[id])
  {
    DeliverAdvances(s.history, ev, s.streams[id]);
  }

  lemma StreamAcrossReceive(s: StoreState, i: nat, id: nat)
    requires id in s.streams
    ensures id in Receive(s, i).streams && Receive(s, i).history == s.history
    ensures Advanced(s.history, s.streams[id], s.history, Receive(s, i).streams[id])
  {
    var st, st' := s.streams[id], Receive(s, i).streams[id];
    assert st'.Sent() == st.Sent();
    StreamUntouched(s.history, st, st');
  }

  lemma StreamAcrossClose(s: StoreState, i: nat, id: nat)
    requires id in s.streams
    ensures id in CloseStream(s, i).streams && CloseStream(s, i).history == s.history
    ensures Advanced(s.history, s.streams[id], s.history, CloseStream(s, i).streams[id])
  {
    StreamUntouched(s.history, s.streams[id], CloseStream(s, i).streams[id]);
  }

  /** Steps that neither write nor touch an open stream. */
  lemma StreamFrame(s: StoreState, op: StoreOp, id: nat)
    requires |s.log| > 0 && id in s.streams && id <= s.nextStream
    requires !op.OpPut? && !op.OpDelete? && !op.OpReceive? && !op.OpCloseStream?
    ensures Step(s, op).history == s.history
    ensures id in Step(s, op).streams && Step(s, op).streams[id] == s.streams[id]
  {
    hide ReclaimRecords, LogEvents, SnapshotAt;
  }

  lemma StreamBounds(s: StoreState, id: nat)
    requires StreamsInv(s) && id in s.streams
    ensures id <= s.nextStream && s.streams[id].start <= s.Head()
    ensures !s.streams[id].closed ==>
      var f := s.Head() - |s.streams[id].Sent()|;
      s.streams[id].start <= f && s.streams[id].Sent() == s.history[f..] && Faithful(s.history, s.streams[id])
  {
  }

  lemma StreamStep(s: StoreState, op: StoreOp, id: nat)
    requires StreamsInv(s) && |s.log| > 0 && id in s.streams
    ensures id in Step(s, op).streams
    ensures Advanced(s.history, s.streams[id], Step(s, op).history, Step(s, op).streams[id])
  {
    hide StreamsInv, Advanced, Append, Receive, CloseStream, Reclaim, OpenStream, OpenLiveStream;
    var st := s.streams[id];
    StreamBounds(s, id);
    match op
    case OpPut(k, v) =>
      if v == Nil {
        StreamUntouched(s.history, st, st);
      } else {
        StreamAcrossAppend(s, Event(Put, k, v, s.Head() + 1), id);
      }
    case OpDelete(k) => StreamAcrossAppend(s, Event(Delete, k, Nil, s.Head() + 1), id);
    case OpReceive(i) => StreamAcrossReceive(s, i, id);
    case OpCloseStream(i) => StreamAcrossClose(s, i, id);
    case _ =>
      StreamFrame(s, op, id);
      StreamUntouched(s.history, st, st);
  }

  /** The stream has been sent one contiguous piece of the history from `f`
      onwards, which reaches the head while the stream is open. */
  ghost predicate SentFrom(h: seq<Event>, st: Stream, f: nat) {
    && f + |st.Sent()| <= |h|
    && st.Sent() == h[f..f + |st.Sent()|]
    && (!st.closed ==> f + |st.Sent()| == |h|)
  }

  lemma AdvancedKeepsSentFrom(h: seq<Event>, st: Stream, h': seq<Event>, st': Stream, f: nat)
    requires SentFrom(h, st, f) && Advanced(h, st, h', st')
    ensures SentFrom(h', st', f) && st.Sent() <= st'.Sent()
  {
  }

  /** Whatever happens after a stream is in use, it keeps being sent one
      contiguous piece of the history, and nothing it was sent is taken back. */
  lemma {:induction false} StreamRun(s: StoreState, id: nat, f: nat, ops: seq<StoreOp>)
    requires Inv(s) && id in s.streams && SentFrom(s.history, s.streams[id], f)
    ensures var s' := Run(s, ops);
      && Inv(s') && id in s'.streams && s.history <= s'.history
      && SentFrom(s'.history, s'.streams[id], f)
      && s'.streams[id].start == s.streams[id].start && s'.streams[id].snapshot == s.streams[id].snapshot
      && s.streams[id].taken <= s'.streams[id].taken && s.streams[id].Sent() <= s'.streams[id].Sent()
  {
    if ops != [] {
      var most, op := ops[..|ops| - 1], ops[|ops| - 1];
      StreamRun(s, id, f, most);
      var m := Run(s, most);
      StepKeeps(m, op);
      StreamStep(m, op, id);
      AdvancedKeepsSentFrom(m.history, m.streams[id], Step(m, op).history, Step(m, op).streams[id], f);
    }
  }

  /** Opening at or above the log start is always gap-free. */
  lemma OpenGapFree(s: StoreState, rev: nat)
    requires Inv(s) && s.logStart <= rev && OpenStream(s, rev).1.Ok?
    ensures var (s', r) := OpenStream(s, rev);
      Inv(s') && r.value in s'.streams && s'.streams[r.value].start == rev
      && SentFrom(s'.history, s'.streams[r.value], rev) && !s'.streams[r.value].closed
  {
    hide Inv, LogEvents, Snapshot, ReplayFrom;
    FreshStreamId(s);
    OpenStreamExact(s, rev);
    OpenStreamKeeps(s, rev);
  }

  /** A start below the log is moved up to just below it; the stream then misses the
      event at the log start exactly when the ring is full. */
  lemma TruncatedOpen(s: StoreState, rev: nat)
    requires Inv(s) && s.logSize > 0 && rev + 1 < s.logStart && OpenStream(s, rev).1.Ok?
    ensures var (s', r) := OpenStream(s, rev); var st := s'.streams[r.value];
      && st.start == s.logStart - 1
      && (s.logSize < |s.log| ==> st.Sent() == s.history[s.logStart - 1..])
      && (s.logSize == |s.log| ==> st.Sent() == s.history[s.logStart..])
  {
    hide Inv, LogEvents, Snapshot, ReplayFrom;
    OpenStreamExact(s, rev);
  }

  /** No gap and no repeat, over every run: a stream opened at or above the log
      start has been sent exactly the history above its start, and one dropped
      for being slow has been sent a prefix of it. */
  lemma StreamDeliversExactly(logCapacity: int, before: seq<StoreOp>, rev: nat, after: seq<StoreOp>)
    requires var s := Run(New(logCapacity), before);
      s.logStart <= rev && OpenStream(s, rev).1.Ok?
    ensures var (s1, r) := OpenStream(Run(New(logCapacity), before), rev);
      var s2 := Run(s1, after);
      && r.value in s2.streams && s2.streams[r.value].start == rev
      && SentFrom(s2.history, s2.streams[r.value], rev)
  {
    hide Inv, Run, OpenStream, SentFrom;
    var s := Run(New(logCapacity), before);
    ReachableInv(logCapacity, before);
    OpenGapFree(s, rev);
    StreamRun(OpenStream(s, rev).0, OpenStream(s, rev).1.value, rev, after);
  }

  /** The same for a live stream, which starts at the head it was opened at. */
  lemma LiveStreamDeliversExactly(logCapacity: int, before: seq<StoreOp>, after: seq<StoreOp>)
    ensures var s := Run(New(logCapacity), before);
      var (s1, id) := OpenLiveStream(s);
      var s2 := Run(s1, after);
      && id in s2.streams && s2.streams[id].start == s.Head()
      && SentFrom(s2.history, s2.streams[id], s.Head())
  {
    hide Inv, Run, Snapshot;
    var s := Run(New(logCapacity), before);
    ReachableInv(logCapacity, before);
    OpenLiveStreamKeeps(s);
    StreamRun(OpenLiveStream(s).0, OpenLiveStream(s).1, s.Head(), after);
  }

  // ---------- snapshot plus replay ----------

  /** A client's view: start from the snapshot and apply every event received. */
  function Fold(view: map<Key, Version>, evs: seq<Event>): map<Key, Version> {
    if evs == [] then view
    else var ev := evs[|evs| - 1]; Fold(view, evs[..|evs| - 1])[ev.key := VersionOf(ev)]
  }

  /** One more event decides the answer for its own key and for no other. */
  lemma AnswerNext(h: seq<Event>, k: Key, n: nat)
    requires 0 < n <= |h|
    ensures h[n - 1].key == k ==> LatestRev(h, k, n) == n && Answer(h, k, n) == Some(VersionOf(h[n - 1]))
    ensures h[n - 1].key != k ==>
      LatestRev(h, k, n) == LatestRev(h, k, n - 1) && Answer(h, k, n) == Answer(h, k, n - 1)
  {
  }

  lemma AnswerRev(h: seq<Event>, k: Key, q: nat)
    requires WellFormed(h) && q <= |h| && Answer(h, k, q).Some?
    ensures Answer(h, k, q).value.rev == LatestRev(h, k, q)
  {
  }

  lemma {:induction false} FoldAt(view: map<Key, Version>, h: seq<Event>, f: nat, n: nat, k: Key)
    requires f <= n <= |h|
    ensures Lookup(Fold(view, h[f..n]), k) ==
            if LatestRev(h, k, n) > f then Answer(h, k, n) else Lookup(view, k)
  {
    hide LatestRev, Answer;
    if n > f {
      FoldAt(view, h, f, n - 1, k);
      AnswerNext(h, k, n);
      assert h[f..n][..n - f - 1] == h[f..n - 1];
    } else {
      assert h[f..n] == [];
    }
  }

  /** The snapshot at the head is exact whatever has been reclaimed. */
  lemma SnapshotAtHeadExact(s: StoreState, k: Key)
    requires WellFormed(s.history) && RecordsInv(s)
    ensures Lookup(Snapshot(s, s.Head()), k) == Answer(s.history, k, s.Head())
  {
    SnapshotEntry(s, s.Head(), k);
    if k in s.records {
      NewestKept(s, k);
    }
  }

  /** What a client holding an open stream ends up with for one key. */
  lemma FoldedKey(h: seq<Event>, st: Stream, f: nat, k: Key)
    requires st.start <= f <= |h| && st.Sent() == h[f..] && Faithful(h, st)
    ensures var r := LatestRev(h, k, |h|);
      Lookup(Fold(st.snapshot, st.Sent()), k) ==
      if r > f || r <= st.start then Answer(h, k, |h|) else Lookup(st.snapshot, k)
  {
    FoldAt(st.snapshot, h, f, |h|, k);
    assert h[f..|h|] == h[f..];
    LatestRevMonotone(h, k, st.start, |h|);
  }

  /** Every key written in start..f has been written again above `f`. */
  ghost predicate GapRewritten(h: seq<Event>, start: nat, f: nat)
    requires f <= |h|
  {
    forall i :: start <= i < f ==> LatestRev(h, h[i].key, |h|) > f
  }

  lemma GapRewrittenAt(h: seq<Event>, start: nat, f: nat, k: Key)
    requires f <= |h| && GapRewritten(h, start, f)
    ensures LatestRev(h, k, |h|) > f || LatestRev(h, k, |h|) <= start
  {
    var r := LatestRev(h, k, |h|);
    assert r > 0 ==> h[r - 1].key == k;
  }

  lemma LostKeyDiffers(h: seq<Event>, st: Stream, f: nat, i: nat)
    requires WellFormed(h) && st.start <= i < f <= |h| && st.Sent() == h[f..] && Faithful(h, st)
    requires LatestRev(h, h[i].key, |h|) <= f
    ensures Lookup(Fold(st.snapshot, st.Sent()), h[i].key) != Answer(h, h[i].key, |h|)
  {
    var k := h[i].key;
    FoldedKey(h, st, f, k);
    assert LatestRev(h, k, |h|) > i;
    if k in st.snapshot {
      assert Answer(h, k, st.start) == Some(st.snapshot[k]);
    }
  }

  lemma InvRecords(s: StoreState)
    requires Inv(s)
    ensures WellFormed(s.history) && RecordsInv(s)
  {
    hide WellFormed, RecordsInv;
  }

  /** Snapshot plus stream converges to the current snapshot exactly when every
      key written in the gap between the two has been written again since. A
      stream that was opened without a gap always converges. */
  lemma SnapshotPlusReplayConverges(s: StoreState, id: nat)
    requires Inv(s) && id in s.streams && !s.streams[id].closed
    ensures var st := s.streams[id]; var f := s.Head() - |st.Sent()|;
      && st.start <= f
      && (Fold(st.snapshot, st.Sent()) == Snapshot(s, s.Head()) <==> GapRewritten(s.history, st.start, f))
  {
    InvRecords(s);
    StreamBounds(s, id);
    hide Inv, WellFormed, RecordsInv, Faithful, Snapshot, Fold, GapRewritten, Lookup;
    var h, st := s.history, s.streams[id];
    var f := |h| - |st.Sent()|;
    if GapRewritten(h, st.start, f) {
      RewrittenConverges(s, st, f);
    } else {
      var i := LostWrite(h, st.start, f);
      LostKeyDiffers(h, st, f, i);
      SnapshotAtHeadExact(s, h[i].key);
    }
  }

  lemma LostWrite(h: seq<Event>, start: nat, f: nat) returns (i: nat)
    requires f <= |h| && !GapRewritten(h, start, f)
    ensures start <= i < f && LatestRev(h, h[i].key, |h|) <= f
  {
    i :| start <= i < f && LatestRev(h, h[i].key, |h|) <= f;
  }

  lemma RewrittenConverges(s: StoreState, st: Stream, f: nat)
    requires WellFormed(s.history) && RecordsInv(s)
    requires st.start <= f <= s.Head() && st.Sent() == s.history[f..] && Faithful(s.history, st)
    requires GapRewritten(s.history, st.start, f)
    ensures Fold(st.snapshot, st.Sent()) == Snapshot(s, s.Head())
  {
    hide WellFormed, RecordsInv, Faithful, Snapshot, Fold, LatestRev, GapRewritten, Lookup, Answer;
    forall k
      ensures Lookup(Fold(st.snapshot, st.Sent()), k) == Lookup(Snapshot(s, s.Head()), k)
    {
      GapRewrittenAt(s.history, st.start, f, k);
      FoldedKey(s.history, st, f, k);
      SnapshotAtHeadExact(s, k);
    }
    SameLookups(Fold(st.snapshot, st.Sent()), Snapshot(s, s.Head()));
  }

  lemma SameLookups(a: map<Key, Version>, b: map<Key, Version>)
    requires forall k :: Lookup(a, k) == Lookup(b, k)
    ensures a == b
  {
    assert forall k :: k in a <==> Lookup(a, k).Some?;
    assert forall k :: k in b <==> Lookup(b, k).Some?;
    assert forall k :: k in a ==> a[k] == Lookup(a, k).value;
    assert forall k :: k in b ==> b[k] == Lookup(b, k).value;
  }

  ghost predicate Converged(s: StoreState, id: nat) {
    id in s.streams && (!s.streams[id].closed ==>
      Fold(s.streams[id].snapshot, s.streams[id].Sent()) == Snapshot(s, s.Head()))
  }

  lemma GapFreeConverges(s: StoreState, id: nat, ops: seq<StoreOp>)
    requires Inv(s) && id in s.streams && SentFrom(s.history, s.streams[id], s.streams[id].start)
    ensures Converged(Run(s, ops), id)
  {
    StreamRun(s, id, s.streams[id].start, ops);
    var s' := Run(s, ops);
    if !s'.streams[id].closed {
      SnapshotPlusReplayConverges(s', id);
    }
  }

  lemma OpenedConverges(s: StoreState, rev: nat, ops: seq<StoreOp>)
    requires Inv(s) && s.logStart <= rev && OpenStream(s, rev).1.Ok?
    ensures Converged(Run(OpenStream(s, rev).0, ops), OpenStream(s, rev).1.value)
  {
    hide Inv, OpenStream, SentFrom, Converged, Run;
    LogNonempty(s);
    OpenGapFree(s, rev);
    GapFreeConverges(OpenStream(s, rev).0, OpenStream(s, rev).1.value, ops);
  }

  lemma LiveConverges(s: StoreState, ops: seq<StoreOp>)
    requires Inv(s)
    ensures Converged(Run(OpenLiveStream(s).0, ops), OpenLiveStream(s).1)
  {
    hide Inv, Snapshot, Converged, Run;
    OpenLiveStreamKeeps(s);
    GapFreeConverges(OpenLiveStream(s).0, OpenLiveStream(s).1, ops);
  }

  /** The convergence promise over whole runs, for both ways to open a stream. */
  lemma StreamsConverge(logCapacity: int, before: seq<StoreOp>, rev: nat, after: seq<StoreOp>)
    ensures var s := Run(New(logCapacity), before);
      && (s.logStart <= rev && OpenStream(s, rev).1.Ok? ==>
            Converged(Run(OpenStream(s, rev).0, after), OpenStream(s, rev).1.value))
      && Converged(Run(OpenLiveStream(s).0, after), OpenLiveStream(s).1)
  {
    hide Inv, Run, OpenStream, OpenLiveStream, Converged;
    var s := Run(New(logCapacity), before);
    ReachableInv(logCapacity, before);
    LogNonempty(s);
    if s.logStart <= rev && OpenStream(s, rev).1.Ok? {
      OpenedConverges(s, rev, after);
    }
    LiveConverges(s, after);
  }

  // ---------- reads ----------

  function Clamp(s: StoreState, q: nat): (r: nat)
    ensures r <= s.Head()
  {
    if q > s.Head() then s.Head() else q
  }

  /** Reads never lie: a snapshot answers a key exactly as the full history
      would, or omits it because that version was reclaimed; it never shows an
      older one. `Get` is always the latest write. */
  lemma ReadsNeverLie(logCapacity: int, ops: seq<StoreOp>, q: nat, k: Key)
    ensures var s := Run(New(logCapacity), ops);
      var latest := Answer(s.history, k, s.Head());
      && (k in Snapshot(s, q) ==> Answer(s.history, k, Clamp(s, q)) == Some(Snapshot(s, q)[k]))
      && (k in Snapshot(s, q) <==> OldestKept(s, k) <= LatestRev(s.history, k, Clamp(s, q)))
      && Get(s, k) == (if latest == None || latest.value.deleted then None else latest)
  {
    ReachableInv(logCapacity, ops);
    var s := Run(New(logCapacity), ops);
    SnapshotEntry(s, Clamp(s, q), k);
    GetIsLatest(s, k);
  }

  lemma GetIsLatest(s: StoreState, k: Key)
    requires WellFormed(s.history) && RecordsInv(s)
    ensures var latest := Answer(s.history, k, s.Head());
      Get(s, k) == (if latest == None || latest.value.deleted then None else latest)
  {
    if k in s.records {
      NewestKept(s, k);
    }
  }

  lemma OldestAfterReclaim(s: StoreState, before: nat, k: Key) returns (c: nat)
    requires WellFormed(s.history) && RecordsInv(s) && k in s.records
    ensures Sorted(s.records[k]) && KeptFrom(s.readers, s.Head(), before, s.records[k], c)
    ensures OldestKept(Reclaim(s, before), k) == s.records[k][c].rev
  {
    RecordSorted(s, k);
    c := RetainedIsSuffix(s.readers, s.Head(), before, s.records[k]);
  }

  lemma KeptAt(readers: map<nat, Reader>, head: nat, before: nat, vs: seq<Version>, c: nat, n: nat)
    requires Sorted(vs) && KeptFrom(readers, head, before, vs, c) && 0 < n <= |vs|
    ensures vs[c].rev <= vs[n - 1].rev <==>
            Survives(readers, head, before, vs[n - 1].rev) || vs[n - 1].rev == vs[|vs| - 1].rev
  {
    assert c <= n - 1 <==> vs[c].rev <= vs[n - 1].rev;
    assert n - 1 == |vs| - 1 <==> vs[n - 1].rev == vs[|vs| - 1].rev;
  }

  lemma SurvivesWhen(s: StoreState, before: nat, r: nat)
    ensures Survives(s.readers, s.Head(), before, r) <==>
            r > before || r >= |s.history| || exists id :: id in s.readers && s.readers[id].rev <= r
  {
  }

  /** Exactly which answers a reclaim hides from a snapshot at `q`. */
  lemma ReclaimHides(s: StoreState, before: nat, q: nat, k: Key)
    requires WellFormed(s.history) && RecordsInv(s) && q <= s.Head()
    ensures k in Snapshot(Reclaim(s, before), q) <==>
      && k in Snapshot(s, q)
      && var r := LatestRev(s.history, k, q);
      || r > before || r >= |s.history| || r == LatestRev(s.history, k, |s.history|)
      || exists id :: id in s.readers && s.readers[id].rev <= r
  {
    ReclaimKeepsRecords(s, before);
    SnapshotEntry(s, q, k);
    SnapshotEntry(Reclaim(s, before), q, k);
    hide WellFormed, Retained, Survives, SearchAfter;
    if k in s.records {
      var vs, n := s.records[k], SearchAfter(s.records[k], q);
      var c := OldestAfterReclaim(s, before, k);
      assert vs[0].rev <= vs[c].rev;
      if n > 0 {
        ReclaimKeepsEntry(s, before, q, k, c);
      }
    }
    SurvivesWhen(s, before, LatestRev(s.history, k, q));
  }

  lemma ReclaimKeepsEntry(s: StoreState, before: nat, q: nat, k: Key, c: nat)
    requires WellFormed(s.history) && RecordsInv(s) && q <= s.Head() && k in Snapshot(s, q)
    requires Sorted(s.records[k]) && KeptFrom(s.readers, s.Head(), before, s.records[k], c)
    ensures s.records[k][c].rev <= LatestRev(s.history, k, q) <==>
      || Survives(s.readers, s.Head(), before, LatestRev(s.history, k, q))
      || LatestRev(s.history, k, q) == LatestRev(s.history, k, s.Head())
  {
    hide WellFormed, RecordsInv, LatestRev, KeptFrom, Survives, Sorted;
    SnapshotEntry(s, q, k);
    NewestKept(s, k);
    RecordAt(s, k);
    SearchFindsAnswer(s.history, k, s.records[k], q);
    KeptAt(s.readers, s.Head(), before, s.records[k], c, SearchAfter(s.records[k], q));
  }

  /** Two reclaims in a row equal the later one. */
  lemma ReclaimsCompose(s: StoreState, a: nat, b: nat)
    requires Inv(s) && a <= b
    ensures Reclaim(Reclaim(s, a), b) == Reclaim(s, b)
  {
    forall k | k in s.records
      ensures s.records[k] != [] && Sorted(s.records[k])
    {
      RecordSorted(s, k);
    }
    ReclaimRecordsTwice(s.readers, s.Head(), a, b, s.records);
  }

  lemma ReclaimRecordsTwice(
    readers: map<nat, Reader>, head: nat, a: nat, b: nat, records: map<Key, seq<Version>>)
    requires a <= b && forall k :: k in records ==> records[k] != [] && Sorted(records[k])
    ensures ReclaimRecords(readers, head, b, ReclaimRecords(readers, head, a, records))
         == ReclaimRecords(readers, head, b, records)
  {
    forall k | k in records
      ensures Retained(readers, head, a, records[k]) != []
      ensures Retained(readers, head, b, Retained(readers, head, a, records[k]))
           == Retained(readers, head, b, records[k])
    {
      RetainedTwice(readers, head, a, b, records[k]);
    }
  }

  lemma RetainedTwice(readers: map<nat, Reader>, head: nat, a: nat, b: nat, vs: seq<Version>)
    requires a <= b && Sorted(vs) && vs != []
    ensures Retained(readers, head, a, vs) != []
    ensures Retained(readers, head, b, Retained(readers, head, a, vs)) == Retained(readers, head, b, vs)
  {
    hide KeptFrom, Retained;
    var c := RetainedIsSuffix(readers, head, a, vs);
    var d := RetainedIsSuffix(readers, head, b, vs);
    KeptBounds(readers, head, a, vs, c);
    KeptBounds(readers, head, b, vs, d);
    var e := RetainedIsSuffix(readers, head, b, vs[c..]);
    KeptTwice(readers, head, a, b, vs, c, d, e);
    assert vs[c..][e..] == vs[d..];
  }

  lemma KeptBounds(readers: map<nat, Reader>, head: nat, before: nat, vs: seq<Version>, c: nat)
    requires KeptFrom(readers, head, before, vs, c)
    ensures c < |vs|
  {
  }

  lemma KeptTwice(
    readers: map<nat, Reader>, head: nat, a: nat, b: nat, vs: seq<Version>, c: nat, d: nat, e: nat)
    requires a <= b && c <= |vs| && KeptFrom(readers, head, a, vs, c)
    requires KeptFrom(readers, head, b, vs, d) && KeptFrom(readers, head, b, vs[c..], e)
    ensures d == c + e
  {
    assert c <= d by {
      assert Survives(readers, head, b, vs[d].rev) ==> Survives(readers, head, a, vs[d].rev);
    }
    assert vs[c..][e] == vs[c + e];
    assert vs[c..][d - c] == vs[d];
  }

  // ---------- pinned reads ----------

  /** A pinned read succeeds only for a key written at exactly the pinned
      revision whose version is still kept; it then returns history's answer. */
  lemma GetAtExact(s: StoreState, id: nat, k: Key)
    requires WellFormed(s.history) && RecordsInv(s) && ReadersInv(s) && id in s.readers
    ensures s.readers[id].rev <= s.Head()
    ensures var q := s.readers[id].rev; var r := GetAt(s, id, k);
      && (r.Ok? <==> LatestRev(s.history, k, q) == q && OldestKept(s, k) <= q)
      && (r.Ok? ==> Answer(s.history, k, q) == Some(r.value) && r.value.rev == q)
      && (r == Err(ErrKeyMissing) <==> LatestRev(s.history, k, q) < OldestKept(s, k))
  {
    var q := s.readers[id].rev;
    SnapshotEntry(s, q, k);
    if k in s.records {
      SearchFindsAnswer(s.history, k, s.records[k], q);
    }
  }

  ghost predicate SameAnswer(s: StoreState, s': StoreState, id: nat, k: Key) {
    && (GetAt(s', id, k).Ok? <==> GetAt(s, id, k).Ok?)
    && (GetAt(s, id, k).Ok? ==> GetAt(s', id, k) == GetAt(s, id, k))
  }

  lemma ReaderAcrossAppend(s: StoreState, ev: Event, id: nat, k: Key)
    requires Inv(s) && Inv(Append(s, ev)) && id in s.readers
    ensures SameAnswer(s, Append(s, ev), id, k)
  {
    var s' := Append(s, ev);
    GetAtExact(s, id, k);
    GetAtExact(s', id, k);
    LatestRevExtend(s.history, s'.history, k, s.readers[id].rev);
    assert k in s.records ==> OldestKept(s', k) == OldestKept(s, k);
  }

  lemma ReaderAcrossReclaim(s: StoreState, before: nat, id: nat, k: Key)
    requires Inv(s) && Inv(Reclaim(s, before)) && id in s.readers
    ensures SameAnswer(s, Reclaim(s, before), id, k)
  {
    var q := s.readers[id].rev;
    GetAtExact(s, id, k);
    GetAtExact(Reclaim(s, before), id, k);
    ReclaimHides(s, before, q, k);
    SnapshotEntry(s, q, k);
    SnapshotEntry(Reclaim(s, before), q, k);
  }

  lemma ReaderStep(s: StoreState, op: StoreOp, id: nat, k: Key)
    requires Inv(s) && Inv(Step(s, op)) && id in s.readers && op != OpCloseReader(id)
    ensures id in Step(s, op).readers
    ensures SameAnswer(s, Step(s, op), id, k)
  {
    assert id <= s.nextReader;
    hide Inv, SameAnswer, Append, Receive, CloseStream, ReclaimRecords, OpenStream, OpenLiveStream;
    match op
    case OpPut(key, v) =>
      if v == Nil {
        ReaderUntouched(s, s, id, k);
      } else {
        ReaderAcrossAppend(s, Event(Put, key, v, s.Head() + 1), id, k);
      }
    case OpDelete(key) => ReaderAcrossAppend(s, Event(Delete, key, Nil, s.Head() + 1), id, k);
    case OpReclaim(before) => ReaderAcrossReclaim(s, before, id, k);
    case _ =>
      ReaderFrame(s, op);
      ReaderUntouched(s, Step(s, op), id, k);
  }

  /** Steps that neither write nor reclaim leave the version lists alone. */
  lemma ReaderFrame(s: StoreState, op: StoreOp)
    requires |s.log| > 0 && !op.OpPut? && !op.OpDelete? && !op.OpReclaim?
    ensures Step(s, op).records == s.records
    ensures forall id :: id in s.readers && id <= s.nextReader && op != OpCloseReader(id) ==>
      id in Step(s, op).readers && Step(s, op).readers[id] == s.readers[id]
  {
    hide Append, LogEvents, Snapshot, ReclaimRecords;
  }

  lemma ReaderUntouched(s: StoreState, s': StoreState, id: nat, k: Key)
    requires id in s.readers && id in s'.readers && s'.readers[id] == s.readers[id]
    requires s'.records == s.records
    ensures SameAnswer(s, s', id, k)
  {
  }

  /** Repeatable reads: until it is closed, a reader's answer for a key never
      changes, and a read that fails keeps failing, whatever else happens. */
  lemma {:induction false} ReadsAreRepeatable(s: StoreState, id: nat, k: Key, ops: seq<StoreOp>)
    requires Inv(s) && id in s.readers && OpCloseReader(id) !in ops
    ensures id in Run(s, ops).readers
    ensures SameAnswer(s, Run(s, ops), id, k)
  {
    if ops != [] {
      var most, op := ops[..|ops| - 1], ops[|ops| - 1];
      assert OpCloseReader(id) !in most;
      ReadsAreRepeatable(s, id, k, most);
      RunKeeps(s, most);
      StepKeeps(Run(s, most), op);
      ReaderStep(Run(s, most), op, id, k);
    }
  }

  /** A pinned read does not in general return the newest version at or below
      the pinned revision: in any store, a key written just before another one
      is refused by a reader opened at the head. */
  lemma PinnedReadRefusesOlderWrite(s: StoreState, k: Key, v: string, j: Key, w: string)
    requires Inv(s) && k != j
    ensures var s2 := Write(Write(s, k, Bytes(v)), j, Bytes(w));
      var (s3, r) := BeginRead(s2, s2.Head());
      && r.Ok?
      && Answer(s3.history, k, s3.Head()) == Some(Version(s.Head() + 1, Bytes(v), false))
      && GetAt(s3, r.value, k) == Err(ErrVersionReclaimed)
  {
    hide Inv, Answer, GetAt, LatestRev;
    LogNonempty(s);
    var s1 := Write(s, k, Bytes(v));
    var s2 := Write(s1, j, Bytes(w));
    var (s3, r) := BeginRead(s2, s2.Head());
    StepKeeps(s, OpPut(k, Bytes(v)));
    StepKeeps(s1, OpPut(j, Bytes(w)));
    BeginReadKeeps(s2, s2.Head());
    OlderWriteSeen(s.history, s3.history, k);
    RefusedWhenOlder(s3, r.value, k);
  }

  lemma RefusedWhenOlder(s: StoreState, id: nat, k: Key)
    requires Inv(s) && id in s.readers && s.readers[id].rev == s.Head()
    requires 0 < LatestRev(s.history, k, s.Head()) < s.Head()
    ensures GetAt(s, id, k) == Err(ErrVersionReclaimed)
  {
    GetAtExact(s, id, k);
    NewestKept(s, k);
  }

  lemma OlderWriteSeen(h: seq<Event>, h': seq<Event>, k: Key)
    requires |h'| == |h| + 2 && h'[|h|].key == k && h'[|h| + 1].key != k
    ensures LatestRev(h', k, |h'|) == |h| + 1
    ensures Answer(h', k, |h'|) == Some(VersionOf(h'[|h|]))
  {
  }
}
