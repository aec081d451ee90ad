/** Runs in which a client is sent an event twice, or never told of a delete. */
module WatchGaps {
  import opened Model
  import opened History
  import opened StoreSpec
  import opened StoreInvariant
  import opened StoreTheorems
  import opened StoreGaps
  import opened WatchSpec
  import opened WatchTheorems
  import opened Transcript
  import opened Resume
  import opened MovedWatch

  function FreshSub(stream: nat): Sub {
    Sub("", 0, stream, [], 0, None, [], 0, false)
  }

  /** The watch is new, and the one event there is waits on its stream. */
  ghost predicate Waiting(w: WatchState, id: nat, e: Event) {
    && id in w.subs && w.subs[id] == FreshSub(w.subs[id].stream)
    && w.subs[id].stream in w.store.streams && w.store.streams[w.subs[id].stream].ch == [e] && e.rev > 0
  }

  /** It is taken in hand and put on the channel. */
  function OneDelivery(w: WatchState, id: nat): WatchState {
    Send(NextEvent(w, id), id)
  }

  lemma DeliversOne(w: WatchState, id: nat, e: Event)
    requires Waiting(w, id, e)
    ensures var w' := OneDelivery(w, id);
      && w'.subs == w.subs[id := w.subs[id].(cursor := e.rev, delivered := [e])]
      && w'.store == Receive(w.store, w.subs[id].stream) && w'.nextID == w.nextID
  {
    hide Receive;
    var sub := w.subs[id];
    var w1 := NextEvent(w, id);
    assert w1.subs == w.subs[id := sub.(cursor := e.rev, held := Some(e))];
    assert sub.delivered + [e] == [e];
    assert Send(w1, id).subs[id] == sub.(cursor := e.rev, delivered := [e]);
  }

  /** Write, deliver, lose the connection, reconnect, deliver. */
  function TwiceOps(k: Key, v: string): seq<LineOp> {
    [] + [Reconnect([])] + [Elsewhere(OpStore(OpPut(k, Bytes(v))))]
    + [Elsewhere(OpNextEvent(1))] + [Elsewhere(OpSend(1))] + [Disconnect]
    + [Reconnect([])] + [Elsewhere(OpNextEvent(2))] + [Elsewhere(OpSend(2))]
  }

  /** The first connection, once the event has been written. */
  lemma FirstConnection(logCapacity: int, k: Key, v: string)
    ensures |New(logCapacity).log| > 0
    ensures var w0 := NewWatcher(New(logCapacity)); var e := Event(Put, k, Bytes(v), 1);
      && w0.store.logStart == 0 && |w0.store.log| > 0 && WatchAllowed(w0, OpWatch("", 0, []))
      && var (w1, r) := Watch(w0, "", 0, []);
      && r == Ok(1) && |w1.store.log| > 0 && w1.store.logStart == 0
      && var w2 := WatchStep(w1, OpStore(OpPut(k, Bytes(v))));
      && w2.subs == map[1 := FreshSub(1)] && Waiting(w2, 1, e) && w2.nextID == 1
      && w2.store.history == [e] && w2.store.logStart == 0 && WatchInv(w1) && WatchInv(w2)
  {
    hide New, Inv, Ordered;
    NewIsEmpty(logCapacity);
    var s0 := New(logCapacity);
    var w0 := NewWatcher(s0);
    EmptyStore(logCapacity);
    WatchKeeps(w0, "", 0, []);
    var w1 := Watch(w0, "", 0, []).0;
    assert w1.store.streams == map[1 := Stream(map[], 0, [], [], false)];
    WatchStepKeeps(w1, OpStore(OpPut(k, Bytes(v))));
  }

  lemma EmptyStore(logCapacity: int)
    ensures New(logCapacity).records == map[] && New(logCapacity).streams == map[] && New(logCapacity).nextStream == 0
  {
  }

  /** Opening again at revision 0 replays the event. */
  lemma SecondConnection(w: WatchState, e: Event)
    requires WatchInv(w) && |w.store.log| > 0 && w.nextID == 1 && w.subs.Keys == {1}
    requires w.store.history == [e] && w.store.logStart == 0
    ensures WatchAllowed(w, OpWatch("", 0, []))
    ensures var (w', r) := Watch(w, "", 0, []);
      && r == Ok(2) && Waiting(w', 2, e) && w'.subs[1] == w.subs[1]
  {
    hide Inv, LogEvents, Snapshot, ReplayFrom, SentFrom;
    WatchStoreInv(w);
    OpenStreamExact(w.store, 0);
    FreshStreamId(w.store);
    OneReplay(w.store);
    OpenGapFree(w.store, 0);
    OldSnapshotEmpty(w.store);
    SentIsReplay(OpenStream(w.store, 0).0.history, OpenStream(w.store, 0).0.streams[OpenStream(w.store, 0).1.value]);
  }

  lemma WatchStoreInv(w: WatchState)
    requires WatchInv(w)
    ensures Inv(w.store) && WellFormed(w.store.history)
  {
    hide Ordered, WellFormed;
  }

  lemma OneReplay(s: StoreState)
    requires s.logStart + s.logSize == s.Head() == 1 && s.logStart == 0
    ensures StreamStart(s, 0) == 0 && ReplayFrom(s, 0) == 0
  {
  }

  lemma OldSnapshotEmpty(s: StoreState)
    requires Inv(s)
    ensures Snapshot(s, 0) == map[]
  {
    InvRecords(s);
    hide Inv, WellFormed, RecordsInv, Snapshot;
    forall k
      ensures k !in Snapshot(s, 0)
    {
      SnapshotEntry(s, 0, k);
    }
  }

  lemma SentIsReplay(h: seq<Event>, st: Stream)
    requires SentFrom(h, st, 0) && !st.closed && |h| == 1 && st.taken == []
    ensures st.ch == [h[0]]
  {
  }

  /** The watch has delivered the event and is cancelled. */
  lemma FirstWatchEnds(w: WatchState, e: Event)
    requires WatchInv(w) && w.subs == map[1 := FreshSub(1)] && Waiting(w, 1, e)
    ensures var w' := Cancel(OneDelivery(w, 1), 1);
      && WatchInv(w') && w'.nextID == w.nextID && w'.subs.Keys == {1}
      && w'.subs[1].start == 0 && w'.subs[1].delivered == [e]
      && |w'.store.log| == |w.store.log| && w'.store.history == w.store.history
      && w'.store.logStart == w.store.logStart
  {
    hide WatchInv;
    DeliversOne(w, 1, e);
    NextEventKeeps(w, 1);
    SendKeeps(NextEvent(w, 1), 1);
    CancelKeeps(OneDelivery(w, 1), 1);
  }

  lemma ServeLine(l: Line, id: nat)
    requires |l.w.store.log| > 0
    ensures var m := LineStep(l, Elsewhere(OpNextEvent(id)));
      && LineAllowed(l, Elsewhere(OpNextEvent(id))) && LineAllowed(m, Elsewhere(OpSend(id)))
      && LineStep(m, Elsewhere(OpSend(id))) == l.(w := OneDelivery(l.w, id))
  {
    hide NextEvent, Send;
  }

  lemma ConnectLine(l: Line)
    requires |l.w.store.log| > 0 && l.key == "" && l.cursor == 0 && l.w.store.logStart == 0
    requires WatchAllowed(l.w, OpWatch("", 0, [])) && Watch(l.w, "", 0, []).1.Ok?
    ensures LineAllowed(l, Reconnect([]))
    ensures var (w', r) := Watch(l.w, "", 0, []); var l' := LineStep(l, Reconnect([]));
      && l'.w == w' && l'.live == Some(r.value) && l'.past == Connections(l)
      && l'.key == "" && l'.cursor == 0
  {
    hide WatchAllowed, Watch, Acknowledged, Connections;
  }

  lemma OtherSteps(l: Line, k: Key, v: string)
    requires |l.w.store.log| > 0
    ensures var put := Elsewhere(OpStore(OpPut(k, Bytes(v))));
      && LineAllowed(l, put) && LineStep(l, put) == l.(w := WatchStep(l.w, OpStore(OpPut(k, Bytes(v)))))
      && LineAllowed(l, Disconnect)
      && (l.live.Some? ==> LineStep(l, Disconnect) == l.(w := Cancel(l.w, l.live.value)))
  {
    hide Step, Cancel;
  }

  lemma SecondDelivery(l: Line, e: Event)
    requires l.live == Some(2) && Waiting(l.w, 2, e)
    ensures var w' := OneDelivery(l.w, 2);
      2 in w'.subs && w'.subs[2].start == 0 && w'.subs[2].delivered == [e]
  {
    DeliversOne(l.w, 2, e);
    hide OneDelivery, Receive;
  }

  lemma TwoConnections(l: Line, e: Event)
    requires l.past == [Connection(0, [e])] && l.live == Some(2)
    requires 2 in l.w.subs && l.w.subs[2].start == 0 && l.w.subs[2].delivered == [e]
    ensures Flat(Connections(l)) == [e, e]
  {
    var c := Connection(0, [e]);
    assert Connections(l) == [c, c] && [c, c][..1] == [c] && [c][..0] == [];
    assert Flat([c]) == [e];
  }

  /** The run, step by step. */
  lemma EightSteps(l0: Line, k: Key, v: string)
    requires |l0.w.store.log| > 0
    ensures var l1 := LineStep(l0, Reconnect([]));
      var l2 := LineStep(l1, Elsewhere(OpStore(OpPut(k, Bytes(v)))));
      var l3 := LineStep(l2, Elsewhere(OpNextEvent(1)));
      var l4 := LineStep(l3, Elsewhere(OpSend(1)));
      var l5 := LineStep(l4, Disconnect);
      var l6 := LineStep(l5, Reconnect([]));
      var l7 := LineStep(l6, Elsewhere(OpNextEvent(2)));
      && LineRun(l0, TwiceOps(k, v)) == LineStep(l7, Elsewhere(OpSend(2)))
      && (LineAllowed(l0, Reconnect([])) && LineAllowed(l1, Elsewhere(OpStore(OpPut(k, Bytes(v)))))
          && LineAllowed(l2, Elsewhere(OpNextEvent(1))) && LineAllowed(l3, Elsewhere(OpSend(1)))
          && LineAllowed(l4, Disconnect) && LineAllowed(l5, Reconnect([]))
          && LineAllowed(l6, Elsewhere(OpNextEvent(2))) && LineAllowed(l7, Elsewhere(OpSend(2)))
          ==> LineRunAllowed(l0, TwiceOps(k, v)))
  {
    hide LineStep, LineAllowed, LineRun, LineRunAllowed;
    var put: LineOp := Elsewhere(OpStore(OpPut(k, Bytes(v))));
    var p1: seq<LineOp> := [] + [Reconnect([])];
    var p2 := p1 + [put];
    var p3 := p2 + [Elsewhere(OpNextEvent(1))];
    var p4 := p3 + [Elsewhere(OpSend(1))];
    var p5 := p4 + [Disconnect];
    var p6 := p5 + [Reconnect([])];
    var p7 := p6 + [Elsewhere(OpNextEvent(2))];
    LineMore(l0, [], Reconnect([]));
    LineMore(l0, p1, put);
    LineMore(l0, p2, Elsewhere(OpNextEvent(1)));
    LineMore(l0, p3, Elsewhere(OpSend(1)));
    LineMore(l0, p4, Disconnect);
    LineMore(l0, p5, Reconnect([]));
    LineMore(l0, p6, Elsewhere(OpNextEvent(2)));
    LineMore(l0, p7, Elsewhere(OpSend(2)));
  }

  /** Delivery is at least once: the client acknowledged nothing before it lost its
      connection, so it is sent the event again. */
  lemma UnacknowledgedIsSentAgain(logCapacity: int, k: Key, v: string)
    ensures |New(logCapacity).log| > 0
    ensures var l0 := NewLine(NewWatcher(New(logCapacity)), "", 0); var e := Event(Put, k, Bytes(v), 1);
      && LineRunAllowed(l0, TwiceOps(k, v))
      && Flat(Connections(LineRun(l0, TwiceOps(k, v)))) == [e, e]
  {
    FirstConnection(logCapacity, k, v);
    hide New, NewWatcher, WatchInv, LineStep, LineAllowed, LineRun, LineRunAllowed, WatchStep, WatchAllowed, Watch;
    hide OneDelivery, Cancel, Waiting;
    var l0, e := NewLine(NewWatcher(New(logCapacity)), "", 0), Event(Put, k, Bytes(v), 1);
    ConnectLine(l0);
    var l1 := LineStep(l0, Reconnect([]));
    OtherSteps(l1, k, v);
    var l2 := LineStep(l1, Elsewhere(OpStore(OpPut(k, Bytes(v)))));
    ServeLine(l2, 1);
    var l3 := LineStep(l2, Elsewhere(OpNextEvent(1)));
    var l4 := LineStep(l3, Elsewhere(OpSend(1)));
    OtherSteps(l4, k, v);
    var l5 := LineStep(l4, Disconnect);
    FirstWatchEnds(l2.w, e);
    SecondConnection(l5.w, e);
    ConnectLine(l5);
    var l6 := LineStep(l5, Reconnect([]));
    ServeLine(l6, 2);
    var l7 := LineStep(l6, Elsewhere(OpNextEvent(2)));
    var l8 := LineStep(l7, Elsewhere(OpSend(2)));
    SecondDelivery(l6, e);
    EightSteps(l0, k, v);
    TwoConnections(l8, e);
  }

  // ---------- a delete that is never reported ----------

  /** A key is written and deleted, another is written twice, and a reclaim moves the
      log above the delete. */
  function DeletedBelowLog(logCapacity: int, k: Key, j: Key, v: string): StoreState
    requires |New(logCapacity).log| > 0
  {
    var s := Remove(Write(New(logCapacity), k, Bytes(v)), k);
    Write(Write(s, j, Bytes(v)), j, Bytes(v))
  }

  lemma DeletedFacts(logCapacity: int, k: Key, j: Key, v: string)
    requires k != j
    ensures |New(logCapacity).log| > 0
    ensures var s := Reclaim(DeletedBelowLog(logCapacity, k, j, v), 2);
      && Inv(s) && |s.log| >= MIN_LOG_CAPACITY && s.logStart == 3 && s.logSize == 1
      && s.history == [Event(Put, k, Bytes(v), 1), Event(Delete, k, Nil, 2),
                       Event(Put, j, Bytes(v), 3), Event(Put, j, Bytes(v), 4)]
  {
    NewIsEmpty(logCapacity);
    hide Inv, New, ReclaimRecords;
    var s0 := New(logCapacity);
    var s1 := Write(s0, k, Bytes(v));
    var s2 := Remove(s1, k);
    var s3 := Write(s2, j, Bytes(v));
    StepKeeps(s0, OpPut(k, Bytes(v)));
    StepKeeps(s1, OpDelete(k));
    StepKeeps(s2, OpPut(j, Bytes(v)));
    StepKeeps(s3, OpPut(j, Bytes(v)));
    StepKeeps(Write(s3, j, Bytes(v)), OpReclaim(2));
  }

  lemma TombstoneOnly(s: StoreState, k: Key)
    requires Inv(s) && s.Head() >= 2 && s.history[0].key == k && s.history[1] == Event(Delete, k, Nil, 2)
    ensures EntriesOf([], Snapshot(s, 2))
  {
    InvRecords(s);
    hide Inv, WellFormed, RecordsInv, Snapshot;
    forall i | i in Snapshot(s, 2)
      ensures Snapshot(s, 2)[i].deleted
    {
      SnapshotEntry(s, 2, i);
      assert LatestRev(s.history, i, 2) == 2;
    }
  }

  /** The delivery loop reads an event of another key. */
  lemma SkipsOne(w: WatchState, id: nat)
    requires id in w.subs && Ready(w.subs[id]) && w.subs[id].pending == [] && HasEvent(w.store, w.subs[id].stream)
    requires !Match(w.store.streams[w.subs[id].stream].ch[0], w.subs[id].key)
    ensures NextEvent(w, id) == w.(store := Receive(w.store, w.subs[id].stream))
  {
    assert w.subs == w.subs[id := w.subs[id]];
    hide Receive;
  }

  /** The watch has nothing left but two events of another key. */
  lemma SkipsTwo(w: WatchState, id: nat)
    requires |w.store.log| > 0 && id in w.subs && w.subs[id].stream in w.store.streams
    requires Ready(w.subs[id]) && w.subs[id].pending == [] && w.subs[id].delivered == []
    requires var ch := w.store.streams[w.subs[id].stream].ch;
      |ch| == 2 && !Match(ch[0], w.subs[id].key) && !Match(ch[1], w.subs[id].key)
    requires !w.store.streams[w.subs[id].stream].closed
    ensures var w' := WatchRun(w, [OpNextEvent(id), OpNextEvent(id)]);
      && id in w'.subs && w'.subs[id] == w.subs[id] && w.subs[id].stream in w'.store.streams
      && AtRest(w', id) && w'.store.history == w.store.history
  {
    hide NextEvent, Receive;
    var stream := w.subs[id].stream;
    SkipsOne(w, id);
    ReceiveOne(w.store, stream);
    var w1 := w.(store := Receive(w.store, stream));
    SkipsOne(w1, id);
    ReceiveOne(w1.store, stream);
    RunTwo(w, OpNextEvent(id));
  }

  lemma ReceiveOne(s: StoreState, stream: nat)
    requires HasEvent(s, stream)
    ensures var s' := Receive(s, stream);
      && stream in s'.streams && s'.streams[stream].ch == s.streams[stream].ch[1..]
      && s'.streams[stream].closed == s.streams[stream].closed
      && s'.history == s.history && |s'.log| == |s.log|
  {
  }

  lemma RunTwo(w: WatchState, op: WatchOp)
    requires |w.store.log| > 0
    ensures WatchRun(w, [op, op]) == WatchStep(WatchStep(w, op), op)
  {
    hide WatchStep;
    assert [op, op][..1] == [op] && [op][..0] == [];
    assert WatchRun(w, [op]) == WatchStep(w, op);
  }

  /** The client knows the key at revision 1 and watches it from there; the watch
      comes to rest without a word, and the key is gone. */
  lemma DeleteIsNeverReported(logCapacity: int, k: Key, j: Key, v: string)
    requires k != j && k != ""
    ensures |New(logCapacity).log| > 0
    ensures var w := NewWatcher(Reclaim(DeletedBelowLog(logCapacity, k, j, v), 2));
      && |w.store.log| > 0 && WatchAllowed(w, OpWatch(k, 1, []))
      && var (w1, r) := Watch(w, k, 1, []);
      && r == Ok(1) && |w1.store.log| > 0
      && var w2 := WatchRun(w1, [OpNextEvent(1), OpNextEvent(1)]);
      && 1 in w2.subs && w2.subs[1].stream in w2.store.streams && AtRest(w2, 1) && w2.subs[1].delivered == []
      && w2.store.Head() == 4
      && Answer(w2.store.history, k, 1) == Some(Version(1, Bytes(v), false))
      && Answer(w2.store.history, k, 4) == Some(Version(2, Nil, true))
  {
    DeletedFacts(logCapacity, k, j, v);
    hide Inv, New, DeletedBelowLog, Reclaim, Watch, WatchAllowed, WatchRun, AtRest, Answer, Match;
    var s := Reclaim(DeletedBelowLog(logCapacity, k, j, v), 2);
    OpenedBelowLog(s, k);
    SkipsTwo(Watch(NewWatcher(s), k, 1, []).0, 1);
    FourEvents(s.history, k, j);
  }

  lemma OpenedBelowLog(s: StoreState, k: Key)
    requires Inv(s) && |s.log| >= MIN_LOG_CAPACITY && s.logStart == 3 && s.logSize == 1 && s.Head() == 4
    requires s.history[0].key == k && s.history[1] == Event(Delete, k, Nil, 2) && k != ""
    requires s.history[2].key != k && s.history[3].key != k
    ensures WatchAllowed(NewWatcher(s), OpWatch(k, 1, []))
    ensures var (w, r) := Watch(NewWatcher(s), k, 1, []);
      && r == Ok(1) && |w.store.log| > 0 && w.store.history == s.history && 1 in w.subs
      && Ready(w.subs[1]) && w.subs[1].pending == [] && w.subs[1].delivered == []
      && w.subs[1].stream in w.store.streams
      && var st := w.store.streams[w.subs[1].stream];
      && !st.closed && |st.ch| == 2 && !Match(st.ch[0], w.subs[1].key) && !Match(st.ch[1], w.subs[1].key)
  {
    hide Inv, Open, Snapshot, EntriesOf;
    TombstoneOnly(s, k);
    OpenedTwo(s);
  }

  lemma FourEvents(h: seq<Event>, k: Key, j: Key)
    requires |h| == 4 && h[0].key == h[1].key == k && h[2].key == h[3].key == j && k != j
    ensures Answer(h, k, 1) == Some(VersionOf(h[0])) && Answer(h, k, 4) == Some(VersionOf(h[1]))
  {
    assert LatestRev(h, k, 2) == 2 && LatestRev(h, k, 3) == 2;
  }

  lemma TruncatedStart(s: StoreState)
    requires Inv(s) && s.logStart == 3 && s.logSize == 1 && s.Head() == 4 && |s.log| >= MIN_LOG_CAPACITY
    ensures StreamStart(s, 1) == 2 && ReplayFrom(s, 2) == 2
  {
  }

  lemma OpenedTwo(s: StoreState)
    requires Inv(s) && s.logStart == 3 && s.logSize == 1 && s.Head() == 4 && |s.log| >= MIN_LOG_CAPACITY
    ensures |s.log| > 0
    ensures var (s', r) := Open(s, 1);
      && r.Ok? && r.value in s'.streams && s'.history == s.history && s'.streams[r.value].snapshot == Snapshot(s, 2)
      && s'.streams[r.value].ch == s.history[2..] && !s'.streams[r.value].closed && |s'.log| == |s.log|
  {
    TruncatedStart(s);
    OpenStreamExact(s, 1);
    TruncatedOpen(s, 1);
    hide Inv, LogEvents, Snapshot, ReplayFrom;
  }
}
