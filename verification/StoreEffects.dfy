/** What each store operation does, said of the keys, revisions, buffers and
    transactions themselves, and what stays so over every later run. */
module StoreEffects {
  import opened Model
  import opened History
  import opened StoreSpec
  import opened StoreInvariant
  import opened StoreTheorems

  // ---------- writes ----------

  lemma LastWriteIsRead(s: StoreState, s': StoreState, ev: Event, j: Key)
    requires Inv(s) && Inv(s') && s'.history == s.history + [ev]
    ensures Get(s', j) ==
            if j != ev.key then Get(s, j) else if ev.kind == Delete then None else Some(VersionOf(ev))
  {
    InvRecords(s);
    InvRecords(s');
    hide Inv, WellFormed, RecordsInv, Get, LatestRev, Answer;
    GetIsLatest(s, j);
    GetIsLatest(s', j);
    AnswerNext(s'.history, j, s'.Head());
    AnswerExtend(s.history, s'.history, j);
    assert s'.history[s.Head()] == ev;
  }

  lemma AnswerExtend(h: seq<Event>, h': seq<Event>, k: Key)
    requires h <= h'
    ensures Answer(h', k, |h|) == Answer(h, k, |h|)
  {
    LatestRevExtend(h, h', k, |h|);
  }

  /** A put of a value adds one event under the next revision and is what is read
      from then on, and a nil value adds none; every other key reads as before. */
  lemma PutIsRead(s: StoreState, k: Key, v: Value, j: Key)
    requires Inv(s)
    ensures |s.log| > 0 && Inv(Write(s, k, v))
    ensures v == Nil ==> Write(s, k, v) == s
    ensures v != Nil ==> Write(s, k, v).history == s.history + [Event(Put, k, v, |s.history| + 1)]
    ensures Get(Write(s, k, v), j) ==
            if j == k && v != Nil then Some(Version(|s.history| + 1, v, false)) else Get(s, j)
  {
    LogNonempty(s);
    hide Inv, Get;
    StepKeeps(s, OpPut(k, v));
    if v != Nil {
      LastWriteIsRead(s, Write(s, k, v), Event(Put, k, v, |s.history| + 1), j);
    }
  }

  /** A delete adds one event, written or not, and nothing is read afterwards. */
  lemma DeleteIsRead(s: StoreState, k: Key, j: Key)
    requires Inv(s)
    ensures |s.log| > 0 && Inv(Remove(s, k))
    ensures Remove(s, k).history == s.history + [Event(Delete, k, Nil, |s.history| + 1)]
    ensures Get(Remove(s, k), j) == if j == k then None else Get(s, j)
  {
    LogNonempty(s);
    hide Inv, Get;
    StepKeeps(s, OpDelete(k));
    LastWriteIsRead(s, Remove(s, k), Event(Delete, k, Nil, |s.history| + 1), j);
  }

  /** The operations that add an event to the history. */
  predicate Writes(op: StoreOp) {
    op.OpDelete? || (op.OpPut? && op.value != Nil)
  }

  // ---------- when a stream ends ----------

  lemma BufferBound(s: StoreState, id: nat)
    requires Inv(s) && id in s.streams
    ensures |s.streams[id].ch| <= 512 && s.streams[id].start <= s.Head() && id <= s.nextStream && |s.log| > 0
  {
    hide WellFormed, RecordsInv, ReadersInv, Piece, UpToDate, Faithful;
  }

  /** An open stream ends in two ways only: its consumer closes it, or a write
      finds 512 events it has not received yet. */
  lemma DroppedOnlyWhenFull(s: StoreState, op: StoreOp, id: nat)
    requires Inv(s) && id in s.streams && !s.streams[id].closed
    ensures |s.log| > 0 && id in Step(s, op).streams
    ensures Step(s, op).streams[id].closed <==>
            op == OpCloseStream(id) || (Writes(op) && |s.streams[id].ch| == 512)
  {
    BufferBound(s, id);
    hide Inv, Write, Remove, Reclaim, OpenStream, OpenLiveStream, BeginRead;
    match op
    case OpPut(k, v) => WriteDrops(s, k, v, id);
    case OpDelete(k) => WriteDrops(s, k, Nil, id);
    case OpReceive(i) =>
    case OpCloseStream(i) =>
    case _ => StreamFrame(s, op, id);
  }

  lemma WriteDrops(s: StoreState, k: Key, v: Value, id: nat)
    requires |s.log| > 0 && id in s.streams && s.streams[id].start <= s.Head()
    requires !s.streams[id].closed && |s.streams[id].ch| <= 512
    ensures id in Write(s, k, v).streams && id in Remove(s, k).streams
    ensures Write(s, k, v).streams[id].closed <==> v != Nil && |s.streams[id].ch| == 512
    ensures Remove(s, k).streams[id].closed <==> |s.streams[id].ch| == 512
  {
  }

  /** The consumer never closes the stream and never lets 512 events wait for it
      when the next one is written. */
  ghost predicate KeepsUp(s: StoreState, ops: seq<StoreOp>, id: nat)
    requires |s.log| > 0
  {
    ops != [] ==>
      var most, op := ops[..|ops| - 1], ops[|ops| - 1];
      var m := Run(s, most);
      && KeepsUp(s, most, id) && op != OpCloseStream(id)
      && (Writes(op) ==> id in m.streams && |m.streams[id].ch| != 512)
  }

  lemma StreamStays(s: StoreState, op: StoreOp, id: nat)
    requires Inv(s) && id in s.streams
    ensures |s.log| > 0 && id in Step(s, op).streams
    ensures s.streams[id].closed ==> Step(s, op).streams[id].closed
    ensures s.streams[id].closed ==> Step(s, op).streams[id].Sent() == s.streams[id].Sent()
  {
    BufferBound(s, id);
    assert StreamsInv(s);
    hide Inv, StreamsInv, Step;
    StreamStep(s, op, id);
  }

  /** Over any run an open stream stays open exactly when its consumer keeps up. */
  lemma {:induction false} OpenWhileKeepingUp(s: StoreState, ops: seq<StoreOp>, id: nat)
    requires Inv(s) && id in s.streams && !s.streams[id].closed
    ensures |s.log| > 0 && id in Run(s, ops).streams
    ensures !Run(s, ops).streams[id].closed <==> KeepsUp(s, ops, id)
  {
    LogNonempty(s);
    hide Inv, Step;
    if ops != [] {
      var most, op := ops[..|ops| - 1], ops[|ops| - 1];
      OpenWhileKeepingUp(s, most, id);
      RunKeeps(s, most);
      StreamStays(Run(s, most), op, id);
      if !Run(s, most).streams[id].closed {
        DroppedOnlyWhenFull(Run(s, most), op, id);
      }
    }
  }

  lemma OpenHasAll(h: seq<Event>, st: Stream, f: nat)
    requires SentFrom(h, st, f) && !st.closed
    ensures f <= |h| && st.Sent() == h[f..]
  {
    assert h[f..|h|] == h[f..];
  }

  lemma DeliversAll(s: StoreState, id: nat, f: nat, ops: seq<StoreOp>)
    requires Inv(s) && id in s.streams && !s.streams[id].closed && SentFrom(s.history, s.streams[id], f)
    ensures |s.log| > 0
    ensures var s' := Run(s, ops);
      && id in s'.streams && f <= |s'.history|
      && (!s'.streams[id].closed <==> KeepsUp(s, ops, id))
      && (KeepsUp(s, ops, id) ==> s'.streams[id].Sent() == s'.history[f..])
  {
    LogNonempty(s);
    hide Inv, SentFrom, Run, KeepsUp;
    StreamRun(s, id, f, ops);
    OpenWhileKeepingUp(s, ops, id);
    SentFromBound(Run(s, ops).history, Run(s, ops).streams[id], f);
    if KeepsUp(s, ops, id) {
      OpenHasAll(Run(s, ops).history, Run(s, ops).streams[id], f);
    }
  }

  lemma SentFromBound(h: seq<Event>, st: Stream, f: nat)
    requires SentFrom(h, st, f)
    ensures f <= |h|
  {
  }

  /** A consumer that keeps up is sent the whole history above its start and is
      never dropped, and one that does not is: for a stream opened at or above the
      log start, over any run before and after. */
  lemma KeepingUpDeliversAll(logCapacity: int, before: seq<StoreOp>, rev: nat, after: seq<StoreOp>)
    requires var s := Run(New(logCapacity), before);
      s.logStart <= rev && OpenStream(s, rev).1.Ok?
    ensures var (s1, r) := OpenStream(Run(New(logCapacity), before), rev); var s2 := Run(s1, after);
      && r.value in s2.streams && rev <= |s2.history|
      && (!s2.streams[r.value].closed <==> KeepsUp(s1, after, r.value))
      && (KeepsUp(s1, after, r.value) ==> s2.streams[r.value].Sent() == s2.history[rev..])
  {
    hide Inv, Run, OpenStream, SentFrom, KeepsUp;
    var s := Run(New(logCapacity), before);
    ReachableInv(logCapacity, before);
    OpenGapFree(s, rev);
    DeliversAll(OpenStream(s, rev).0, OpenStream(s, rev).1.value, rev, after);
  }

  /** The same for a live stream, from the head it was opened at. */
  lemma LiveKeepingUpDeliversAll(logCapacity: int, before: seq<StoreOp>, after: seq<StoreOp>)
    ensures var s := Run(New(logCapacity), before); var (s1, id) := OpenLiveStream(s); var s2 := Run(s1, after);
      && id in s2.streams && |s.history| <= |s2.history|
      && (!s2.streams[id].closed <==> KeepsUp(s1, after, id))
      && (KeepsUp(s1, after, id) ==> s2.streams[id].Sent() == s2.history[|s.history|..])
  {
    hide Inv, Run, Snapshot, KeepsUp;
    var s := Run(New(logCapacity), before);
    ReachableInv(logCapacity, before);
    OpenLiveStreamKeeps(s);
    DeliversAll(OpenLiveStream(s).0, OpenLiveStream(s).1, |s.history|, after);
  }

  // ---------- opening, receiving, closing ----------

  /** Where a stream starts and what its snapshot shows: the revision asked for, or
      one below the log start if the log no longer reaches down to it. */
  lemma StreamStartsAt(s: StoreState, rev: nat, k: Key)
    requires Inv(s)
    ensures |s.log| > 0
    ensures var (s', r) := OpenStream(s, rev);
      && s'.history == s.history && s'.records == s.records
      && (forall id :: id in s.streams ==> id in s'.streams && s'.streams[id] == s.streams[id])
      && (r.Err? ==> r == Err(ErrVersionReclaimed) && s'.streams == s.streams)
      && (r.Ok? ==>
            var st := s'.streams[r.value];
            && r.value !in s.streams && s'.streams.Keys == s.streams.Keys + {r.value}
            && st.start == (if s.logSize > 0 && rev + 1 < s.logStart then s.logStart - 1 else rev) <= |s.history|
            && st.taken == [] && !st.closed
            && (k in st.snapshot <==> OldestKept(s, k) <= LatestRev(s.history, k, st.start))
            && (k in st.snapshot ==> Answer(s.history, k, st.start) == Some(st.snapshot[k])))
  {
    LogNonempty(s);
    InvRecords(s);
    FreshStreamId(s);
    hide Inv, WellFormed, RecordsInv, OldestKept, LatestRev, Answer, OpenStream, SnapshotAt;
    OpenedStream(s, rev);
    var (s', r) := OpenStream(s, rev);
    if r.Ok? {
      SnapshotEntry(s, s'.streams[r.value].start, k);
    }
  }

  lemma OpenedStream(s: StoreState, rev: nat)
    requires |s.log| > 0 && s.nextStream + 1 !in s.streams && s.logStart + s.logSize == s.Head()
    ensures var (s', r) := OpenStream(s, rev);
      && s'.history == s.history && s'.records == s.records
      && (forall id :: id in s.streams ==> id in s'.streams && s'.streams[id] == s.streams[id])
      && (r.Err? ==> r == Err(ErrVersionReclaimed) && s'.streams == s.streams)
      && (r.Ok? ==>
            var st := s'.streams[r.value];
            && r.value !in s.streams && s'.streams.Keys == s.streams.Keys + {r.value}
            && st.start == (if s.logSize > 0 && rev + 1 < s.logStart then s.logStart - 1 else rev) <= |s.history|
            && st.taken == [] && !st.closed && st.snapshot == Snapshot(s, st.start))
  {
    hide LogEvents, Snapshot;
  }

  /** The consumer gets the events one at a time in the order they were sent, and
      nothing when none is waiting; nobody else notices. */
  lemma ReceivesInOrder(s: StoreState, id: nat)
    requires id in s.streams
    ensures var s' := Receive(s, id); var st, st' := s.streams[id], s'.streams[id];
      && s' == s.(streams := s.streams[id := st']) && st'.closed == st.closed
      && st'.Sent() == st.Sent()
      && st'.taken == st.Sent()[..if |st.taken| < |st.Sent()| then |st.taken| + 1 else |st.taken|]
  {
    var st, st' := s.streams[id], Receive(s, id).streams[id];
    assert st'.Sent() == st.Sent();
    if st.ch == [] {
      assert s.streams[id := st] == s.streams;
    }
  }

  lemma {:induction false} ClosedStreamStays(s: StoreState, id: nat, ops: seq<StoreOp>)
    requires Inv(s) && id in s.streams && s.streams[id].closed
    ensures |s.log| > 0
    ensures var s' := Run(s, ops);
      && id in s'.streams && s'.streams[id].closed && s'.streams[id].Sent() == s.streams[id].Sent()
  {
    LogNonempty(s);
    hide Inv, Step;
    if ops != [] {
      ClosedStreamStays(s, id, ops[..|ops| - 1]);
      RunKeeps(s, ops[..|ops| - 1]);
      StreamStays(Run(s, ops[..|ops| - 1]), ops[|ops| - 1], id);
    }
  }

  /** Once closed, a stream stays closed and nothing is sent to it any more, over any
      later run; closing it leaves everything else as it was. */
  lemma ClosedStreamIsSilent(s: StoreState, id: nat, ops: seq<StoreOp>)
    requires Inv(s)
    ensures |s.log| > 0
    ensures id !in s.streams ==> CloseStream(s, id) == s
    ensures id in s.streams ==>
      var s1 := CloseStream(s, id); var s2 := Run(s1, ops);
      && s1 == s.(streams := s1.streams) && s1.streams.Keys == s.streams.Keys
      && (forall other :: other in s.streams && other != id ==> s1.streams[other] == s.streams[other])
      && id in s2.streams && s2.streams[id].closed && s2.streams[id].Sent() == s.streams[id].Sent()
  {
    LogNonempty(s);
    hide Inv, Run;
    if id in s.streams {
      CloseStreamKeeps(s, id);
      assert CloseStream(s, id).streams[id].Sent() == s.streams[id].Sent();
      ClosedStreamStays(CloseStream(s, id), id, ops);
    }
  }

  // ---------- transactions ----------

  /** A transaction opens at any revision up to the head, under a number of its own
      and without touching anything else. It then finds a key exactly when that was
      last written at the very revision it is opened at and is still kept. */
  lemma BeginReadPins(s: StoreState, rev: nat, k: Key)
    requires Inv(s)
    ensures var (s', r) := BeginRead(s, rev);
      && (r.Ok? <==> rev <= |s.history|)
      && (r.Err? ==> r == Err(ErrVersionReclaimed) && s' == s)
      && (r.Ok? ==>
            && r.value !in s.readers && s' == s.(readers := s'.readers, nextReader := s'.nextReader)
            && s'.readers.Keys == s.readers.Keys + {r.value}
            && (forall id :: id in s.readers ==> s'.readers[id] == s.readers[id])
            && (GetAt(s', r.value, k).Ok? <==>
                  LatestRev(s.history, k, rev) == rev && OldestKept(s, k) <= rev)
            && (GetAt(s', r.value, k).Ok? ==>
                  Answer(s.history, k, rev) == Some(GetAt(s', r.value, k).value)))
  {
    hide LatestRev, Answer, GetAt, OldestKept;
    BeginReadKeeps(s, rev);
    FreshReaderId(s);
    var (s', r) := BeginRead(s, rev);
    hide Inv;
    if r.Ok? {
      InvRecords(s');
      InvReaders(s');
      GetAtExact(s', r.value, k);
      SameOldest(s, s', k);
    }
  }

  lemma FreshReaderId(s: StoreState)
    requires Inv(s)
    ensures forall id :: id in s.readers ==> id <= s.nextReader
  {
    hide WellFormed, RecordsInv, StreamsInv;
  }

  lemma InvReaders(s: StoreState)
    requires Inv(s)
    ensures ReadersInv(s)
  {
    hide ReadersInv;
  }

  lemma SameOldest(s: StoreState, s': StoreState, k: Key)
    requires s'.records == s.records && s'.history == s.history
    ensures OldestKept(s', k) == OldestKept(s, k)
  {
  }

  lemma StepReaders(s: StoreState, op: StoreOp, id: nat)
    requires |s.log| > 0 && id <= s.nextReader && id !in s.readers
    ensures id !in Step(s, op).readers && id <= Step(s, op).nextReader
  {
    hide LogEvents, Snapshot, ReclaimRecords, Broadcast;
  }

  lemma {:induction false} RunReaders(s: StoreState, ops: seq<StoreOp>, id: nat)
    requires |s.log| > 0 && id <= s.nextReader && id !in s.readers
    ensures id !in Run(s, ops).readers && id <= Run(s, ops).nextReader
  {
    hide Step;
    if ops != [] {
      RunReaders(s, ops[..|ops| - 1], id);
      StepReaders(Run(s, ops[..|ops| - 1]), ops[|ops| - 1], id);
    }
  }

  /** A closed transaction is refused every key, whatever happens later: its number
      is never given out again. Every other transaction is left as it was. */
  lemma ClosedReaderIsRefused(s: StoreState, id: nat, ops: seq<StoreOp>, k: Key)
    requires Inv(s) && id in s.readers
    ensures |s.log| > 0
    ensures var s1 := CloseReader(s, id);
      && s1 == s.(readers := s1.readers) && s1.readers.Keys == s.readers.Keys - {id}
      && (forall other :: other in s.readers && other != id ==>
            s1.readers[other] == s.readers[other] && GetAt(s1, other, k) == GetAt(s, other, k))
      && id !in Run(s1, ops).readers && GetAt(Run(s1, ops), id, k) == Err(ErrVersionReclaimed)
  {
    LogNonempty(s);
    FreshReaderId(s);
    hide Inv, Run;
    RunReaders(CloseReader(s, id), ops, id);
  }

  // ---------- reclaim ----------

  /** Which versions of a key a reclaim leaves: those above the bound, those not
      below the head or below some open transaction, and the newest one. */
  lemma ReclaimLeaves(s: StoreState, before: nat, k: Key, v: Version)
    requires Inv(s) && k in s.records && v in s.records[k]
    ensures s.records[k] != [] && Reclaim(s, before).records.Keys == s.records.Keys
    ensures v in Reclaim(s, before).records[k] <==>
      || v.rev > before || v.rev >= |s.history|
      || (exists id :: id in s.readers && s.readers[id].rev <= v.rev)
      || v == s.records[k][|s.records[k]| - 1]
  {
    InvRecords(s);
    AllNonempty(s);
    RecordSorted(s, k);
    var c := RetainedIsSuffix(s.readers, s.Head(), before, s.records[k]);
    InSuffix(s.records[k], c, v);
  }

  lemma AllNonempty(s: StoreState)
    requires RecordsInv(s)
    ensures forall k :: k in s.records ==> s.records[k] != []
  {
    forall k | k in s.records
      ensures s.records[k] != []
    {
      RecordAt(s, k);
    }
  }

  lemma InSuffix(vs: seq<Version>, c: nat, v: Version)
    requires c <= |vs| && Sorted(vs) && v in vs
    ensures exists i :: 0 <= i < |vs| && vs[i] == v
    ensures forall i :: 0 <= i < |vs| && vs[i] == v ==> (v in vs[c..] <==> c <= i)
  {
    assert vs == vs[..c] + vs[c..];
  }

  /** The log window moves up past the bound, never past the head, and nothing but
      the window and the version lists changes. */
  lemma ReclaimWindow(s: StoreState, before: nat)
    requires Inv(s)
    ensures var s' := Reclaim(s, before);
      && s' == s.(records := s'.records, logStart := s'.logStart, logSize := s'.logSize)
      && s'.logStart + s'.logSize == |s.history|
      && s'.logStart ==
         if before < s.logStart then s.logStart else if before < |s.history| then before + 1 else |s.history|
  {
    assert RingInv(s);
    hide Inv, ReclaimRecords;
  }
}
