/** Runs of the store that reach the losing side of its exact conditions. */
module StoreGaps {
  import opened Model
  import opened History
  import opened StoreSpec
  import opened StoreInvariant
  import opened StoreTheorems

  // ---------- nothing is replayed ----------

  lemma RunMore(s: StoreState, ops: seq<StoreOp>, op: StoreOp)
    requires |s.log| > 0
    ensures Run(s, ops + [op]) == Step(Run(s, ops), op) && Run(s, []) == s
  {
    hide Step;
    assert (ops + [op])[..|ops|] == ops;
  }

  lemma RunOne(s: StoreState, op: StoreOp)
    requires |s.log| > 0
    ensures Run(s, [op]) == Step(s, op)
  {
    RunMore(s, [], op);
    assert [] + [op] == [op];
  }

  lemma NewIsEmpty(logCapacity: int)
    ensures var s := New(logCapacity);
      && Inv(s) && |s.log| > 0 && s.history == [] && s.logStart == 0 && s.logSize == 0 && s.readers == map[]
      && |s.log| == if logCapacity < MIN_LOG_CAPACITY then MIN_LOG_CAPACITY else logCapacity
  {
    ReachableInv(logCapacity, []);
    hide Inv;
  }

  /** A stream that was not sent its start's successor never shows the key written
      there, unless that key is written again. */
  lemma LostEventDiverges(s: StoreState, id: nat, f: nat)
    requires Inv(s) && id in s.streams && !s.streams[id].closed
    requires f == s.Head() - |s.streams[id].Sent()| && s.streams[id].start < f <= s.Head()
    requires LatestRev(s.history, s.history[s.streams[id].start].key, s.Head()) <= f
    ensures Fold(s.streams[id].snapshot, s.streams[id].Sent()) != Snapshot(s, s.Head())
  {
    hide Inv, Fold, Snapshot, LatestRev;
    SnapshotPlusReplayConverges(s, id);
  }

  /** One write and one reclaim leave the log empty below the head: opening there
      succeeds, replays nothing and never shows the key that was written. */
  lemma EmptyLogReplaysNothing(logCapacity: int, k: Key, v: string)
    ensures var s := Run(Run(New(logCapacity), [OpPut(k, Bytes(v))]), [OpReclaim(1)]);
      var (s', r) := OpenStream(s, 0);
      && LosesAll(s, 0) && r.Ok? && s'.streams[r.value].Sent() == []
      && Fold(s'.streams[r.value].snapshot, s'.streams[r.value].Sent()) != Snapshot(s', s'.Head())
  {
    hide Inv, New, Snapshot, ReclaimRecords, Fold, LogEvents, ReplayFrom;
    NewIsEmpty(logCapacity);
    var s0 := New(logCapacity);
    RunOne(s0, OpPut(k, Bytes(v)));
    var s1 := Step(s0, OpPut(k, Bytes(v)));
    RunOne(s1, OpReclaim(1));
    var s2 := Step(s1, OpReclaim(1));
    StepKeeps(s0, OpPut(k, Bytes(v)));
    StepKeeps(s1, OpReclaim(1));
    LogNonempty(s2);
    OpenStreamExact(s2, 0);
    NothingToReplay(s2, 0);
    OpenStreamKeeps(s2, 0);
    LostEventDiverges(OpenStream(s2, 0).0, OpenStream(s2, 0).1.value, 1);
  }

  lemma NothingToReplay(s: StoreState, start: nat)
    ensures s.logSize == 0 ==> ReplayFrom(s, start) == s.Head()
  {
  }

  // ---------- one event is missing ----------

  function Puts(k: Key, v: string, n: nat): seq<StoreOp> {
    if n == 0 then [] else Puts(k, v, n - 1) + [OpPut(k, Bytes(v))]
  }

  lemma {:induction false} PutsRun(s: StoreState, k: Key, v: string, n: nat)
    requires Inv(s) && |s.log| > 0
    ensures var s' := Run(s, Puts(k, v, n));
      && Inv(s') && |s'.log| == |s.log| && s.history <= s'.history && |s'.history| == |s.history| + n
      && (forall i :: |s.history| <= i < |s'.history| ==> s'.history[i].key == k)
      && s'.logSize == (if s.logSize + n <= |s.log| then s.logSize + n else |s.log|)
  {
    hide Inv, Step, Run;
    RunMore(s, [], OpPut(k, Bytes(v)));
    OnePut(s, k, v);
    if n > 0 {
      PutsRun(s, k, v, n - 1);
      var m := Run(s, Puts(k, v, n - 1));
      RunMore(s, Puts(k, v, n - 1), OpPut(k, Bytes(v)));
      StepKeeps(m, OpPut(k, Bytes(v)));
      OnePut(m, k, v);
    }
  }

  lemma OnePut(s: StoreState, k: Key, v: string)
    requires Inv(s) && |s.log| > 0
    ensures var s' := Step(s, OpPut(k, Bytes(v)));
      && s'.history == s.history + [Event(Put, k, Bytes(v), s.Head() + 1)] && |s'.log| == |s.log|
      && s.logSize <= |s.log| && s'.logSize == (if s.logSize == |s.log| then s.logSize else s.logSize + 1)
  {
    hide WellFormed, RecordsInv, ReadersInv, StreamsInv;
  }

  /** As many writes as the ring holds, after one to another key: opening at
      revision 0, one below the log start, misses exactly the first event, and the
      stream never shows its key. */
  lemma FullRingMissesOne(logCapacity: int, k: Key, j: Key, v: string)
    requires logCapacity <= STREAM_CAPACITY && k != j
    ensures |New(logCapacity).log| > 0
    ensures var s := Run(Run(New(logCapacity), Puts(k, v, 1)), Puts(j, v, |New(logCapacity).log|));
      var (s', r) := OpenStream(s, 0);
      && s.logStart == 1 && LosesOldest(s, 0) && r.Ok?
      && s'.streams[r.value].start == 0 && s'.streams[r.value].Sent() == s.history[1..]
      && Fold(s'.streams[r.value].snapshot, s'.streams[r.value].Sent()) != Snapshot(s', s'.Head())
  {
    hide Inv, New, Run, Snapshot, Fold, LogEvents, LatestRev;
    NewIsEmpty(logCapacity);
    var s0 := New(logCapacity);
    PutsRun(s0, k, v, 1);
    var s1 := Run(s0, Puts(k, v, 1));
    PutsRun(s1, j, v, |s0.log|);
    var s2 := Run(s1, Puts(j, v, |s0.log|));
    FreshStreamId(s2);
    FullReplay(s2);
    OpenStreamExact(s2, 0);
    OpenStreamKeeps(s2, 0);
    LatestIsFirst(s2.history, k);
    LostEventDiverges(OpenStream(s2, 0).0, OpenStream(s2, 0).1.value, 1);
  }

  lemma FullReplay(s: StoreState)
    requires s.logSize > 0 && s.logStart == 1 && s.Head() > 0
    ensures StreamStart(s, 0) == 0 && ReplayFrom(s, 0) <= s.Head()
    ensures s.logSize == |s.log| ==> ReplayFrom(s, 0) == 1
  {
  }

  lemma LatestIsFirst(h: seq<Event>, k: Key)
    requires h != [] && h[0].key == k && forall i :: 1 <= i < |h| ==> h[i].key != k
    ensures LatestRev(h, k, |h|) == 1
  {
  }

  // ---------- an open reader's answer disappears ----------

  /** A key is written, then another, then the first again. */
  function WrittenTwice(s: StoreState, k: Key, j: Key, v: string): StoreState
    requires |s.log| > 0
  {
    Write(Write(Write(s, k, Bytes(v)), j, Bytes(v)), k, Bytes(v))
  }

  lemma WrittenTwiceFacts(s: StoreState, k: Key, j: Key, v: string)
    requires Inv(s) && |s.log| > 0 && k != j
    ensures var s3 := WrittenTwice(s, k, j, v);
      && Inv(s3) && s3.readers == s.readers && s3.Head() == s.Head() + 3
      && LatestRev(s3.history, k, s.Head() + 2) == s.Head() + 1
      && LatestRev(s3.history, k, s3.Head()) == s3.Head()
      && OldestKept(s3, k) <= s.Head() + 1
  {
    hide Inv, WellFormed, RecordsInv, LatestRev, Write;
    var s1 := Write(s, k, Bytes(v));
    WriteShape(s, k, v);
    WriteShape(s1, j, v);
    WriteShape(Write(s1, j, Bytes(v)), k, v);
    StepKeeps(s, OpPut(k, Bytes(v)));
    StepKeeps(s1, OpPut(j, Bytes(v)));
    StepKeeps(Write(s1, j, Bytes(v)), OpPut(k, Bytes(v)));
    InvRecords(s1);
    ThirdWrite(s1.history, WrittenTwice(s, k, j, v).history, k);
    FirstVersionStays(s1, k, j, v);
  }

  /** In any state without open readers: a reader pinned between two writes to a key
      has an answer for it, and a reclaim up to the pinned revision takes that answer
      away while the reader is open. */
  lemma ReclaimHidesPinnedAnswer(s: StoreState, k: Key, j: Key, v: string)
    requires Inv(s) && s.readers == map[] && k != j
    ensures |s.log| > 0
    ensures var q := s.Head() + 2;
      var (s4, r) := BeginRead(WrittenTwice(s, k, j, v), q);
      var s5 := Reclaim(s4, q);
      && r.Ok? && r.value in s5.readers && s5.readers[r.value].rev == q
      && k in Snapshot(s4, q) && Answer(s4.history, k, q) == Some(Snapshot(s4, q)[k])
      && k !in Snapshot(s5, q)
  {
    hide Inv, WellFormed, RecordsInv, Snapshot, ReclaimRecords, Answer, LatestRev, Survives, WrittenTwice;
    LogNonempty(s);
    WrittenTwiceFacts(s, k, j, v);
    var s3, q := WrittenTwice(s, k, j, v), s.Head() + 2;
    var (s4, r) := BeginRead(s3, q);
    BeginReadKeeps(s3, q);
    InvRecords(s4);
    SnapshotEntry(s4, q, k);
    ReclaimHides(s4, q, q, k);
    BelowOnlyReader(s4.readers, r.value, s4.Head(), q);
  }

  lemma WriteShape(s: StoreState, k: Key, v: string)
    requires |s.log| > 0
    ensures var s' := Write(s, k, Bytes(v));
      && s'.history == s.history + [Event(Put, k, Bytes(v), s.Head() + 1)]
      && |s'.log| == |s.log| && s'.readers == s.readers
      && s' == Step(s, OpPut(k, Bytes(v)))
  {
  }

  lemma ThirdWrite(h1: seq<Event>, h: seq<Event>, k: Key)
    requires h1 != [] && |h| == |h1| + 2 && h1 <= h
    requires h1[|h1| - 1].key == k && h[|h1|].key != k && h[|h1| + 1].key == k
    ensures LatestRev(h1, k, |h1|) == |h1|
    ensures LatestRev(h, k, |h1| + 1) == |h1| && LatestRev(h, k, |h|) == |h|
  {
    assert h[|h1| - 1] == h1[|h1| - 1];
  }

  lemma FirstVersionStays(s1: StoreState, k: Key, j: Key, v: string)
    requires WellFormed(s1.history) && RecordsInv(s1) && |s1.log| > 0 && k != j
    requires LatestRev(s1.history, k, s1.Head()) == s1.Head() > 0
    ensures OldestKept(Write(Write(s1, j, Bytes(v)), k, Bytes(v)), k) <= s1.Head()
  {
    hide WellFormed, LatestRev;
    SnapshotAtHeadExact(s1, k);
    SnapshotEntry(s1, s1.Head(), k);
    NewestKept(s1, k);
  }

  lemma BelowOnlyReader(readers: map<nat, Reader>, id: nat, head: nat, q: nat)
    requires readers.Keys == {id} && readers[id].rev == q && 0 < q < head
    ensures !Survives(readers, head, q, q - 1)
  {
  }
}
