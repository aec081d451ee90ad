/** Properties of watches over every run. */
module WatchTheorems {
  import opened Model
  import opened History
  import opened StoreSpec
  import opened StoreInvariant
  import opened StoreTheorems
  import opened Decimal
  import opened WatchSpec

  // ---------- what every run keeps ----------

  /** What a watch has passed on is in strictly increasing revision order, above
      its start, and its cursor is the last of it. */
  ghost predicate Ordered(sub: Sub) {
    var evs := sub.Passed();
    && (forall i, j :: 0 <= i < j < |evs| ==> evs[i].rev < evs[j].rev)
    && (forall i :: 0 <= i < |evs| ==> sub.start < evs[i].rev)
    && sub.cursor == (if evs == [] then sub.start else evs[|evs| - 1].rev)
    && sub.consumed <= |sub.delivered| <= sub.consumed + CHANNEL_CAPACITY
  }

  ghost predicate WatchInv(w: WatchState) {
    && Inv(w.store)
    && (forall id :: id in w.subs ==> id <= w.nextID && w.subs[id].stream in w.store.streams && Ordered(w.subs[id]))
    && (forall i, j :: i in w.subs && j in w.subs && i != j ==> w.subs[i].stream != w.subs[j].stream)
  }

  lemma ConsiderOrdered(sub: Sub, sub': Sub, ev: Event)
    requires Ordered(sub) && sub.held == None && sub' == Consider(sub, ev)
    ensures Ordered(sub')
  {
    var evs := sub.Passed();
    if ev.rev > sub.cursor && Match(ev, sub.key) {
      assert sub'.Passed() == evs + [ev] && sub'.delivered == sub.delivered;
      assert forall i :: 0 <= i < |evs| ==> evs[i].rev <= sub.cursor;
    } else {
      assert sub' == sub;
    }
  }

  lemma SendOrdered(sub: Sub)
    requires Ordered(sub) && sub.held.Some? && |sub.delivered| < sub.consumed + CHANNEL_CAPACITY
    ensures sub.(delivered := sub.delivered + [sub.held.value], held := None).Passed() == sub.Passed()
    ensures Ordered(sub.(delivered := sub.delivered + [sub.held.value], held := None))
  {
  }

  /** Neither what is still pending, nor how far the client has read, nor closing
      a watch affects the order. */
  lemma OrderedRest(sub: Sub, sub': Sub)
    requires Ordered(sub) && sub' == sub.(pending := sub'.pending, consumed := sub'.consumed, closed := sub'.closed)
    requires sub'.consumed <= |sub.delivered| <= sub'.consumed + CHANNEL_CAPACITY
    ensures Ordered(sub')
  {
    assert sub'.Passed() == sub.Passed();
  }

  lemma OrderedChannel(sub: Sub)
    requires Ordered(sub)
    ensures sub.consumed <= |sub.delivered| <= sub.consumed + CHANNEL_CAPACITY
  {
  }

  /** A step that changes one watch and nothing about which streams exist. */
  lemma OneWatchChanged(w: WatchState, w': WatchState, id: nat)
    requires WatchInv(w) && Inv(w'.store) && id in w.subs && w.subs.Keys == w'.subs.Keys && w'.nextID == w.nextID
    requires w'.store.streams.Keys == w.store.streams.Keys
    requires forall i :: i in w.subs && i != id ==> w'.subs[i] == w.subs[i]
    requires w'.subs[id].stream == w.subs[id].stream && Ordered(w'.subs[id])
    ensures WatchInv(w')
  {
    hide Inv, Ordered;
    forall i | i in w'.subs
      ensures i <= w'.nextID && w'.subs[i].stream in w'.store.streams && Ordered(w'.subs[i])
    {
      assert i in w.subs.Keys;
      assert w.subs[i].stream in w.store.streams.Keys;
    }
  }

  lemma OpenShape(s: StoreState, startRev: nat)
    requires |s.log| > 0 && s.nextStream + 1 !in s.streams
    ensures var (s', r) := Open(s, startRev);
      && s'.history == s.history && s'.logStart == s.logStart && s.nextStream <= s'.nextStream
      && (r.Ok? ==> r.value !in s.streams && r.value in s'.streams
                    && s'.streams == s.streams[r.value := s'.streams[r.value]])
      && (r.Err? ==> s'.streams == s.streams)
  {
    hide LogEvents, Snapshot, StreamStart;
  }

  lemma OpenKeeps(s: StoreState, startRev: nat)
    requires Inv(s) && |s.log| > 0
    ensures Inv(Open(s, startRev).0) && s.nextStream + 1 !in s.streams
  {
    hide Inv, OpenStream, OpenLiveStream;
    FreshStreamId(s);
    OpenStreamKeeps(s, startRev);
    OpenLiveStreamKeeps(s);
  }

  lemma WatchKeeps(w: WatchState, key: Key, startRev: nat, entries: seq<Event>)
    requires WatchInv(w) && |w.store.log| > 0
    ensures WatchInv(Watch(w, key, startRev, entries).0)
  {
    hide Inv, Open, Ordered;
    OpenKeeps(w.store, startRev);
    OpenShape(w.store, startRev);
    var (s', r) := Open(w.store, startRev);
    if r.Ok? {
      NewSubOrdered(key, startRev, r.value, entries);
    }
  }

  lemma LiveShape(s: StoreState)
    requires Inv(s)
    ensures var (s', id) := OpenLiveStream(s);
      && Inv(s') && s'.history == s.history && id !in s.streams && id in s'.streams
      && s'.streams == s.streams[id := Stream(Snapshot(s, s.Head()), s.Head(), [], [], false)]
  {
    FreshStreamId(s);
    OpenLiveStreamKeeps(s);
    hide Inv, Snapshot;
  }

  lemma WatchLateKeeps(w: WatchState, key: Key, startRev: nat, entries: seq<Event>)
    requires WatchInv(w)
    ensures WatchInv(WatchLate(w, key, startRev, entries).0)
  {
    hide Inv, OpenLiveStream, Ordered;
    LiveShape(w.store);
    NewSubOrdered(key, startRev, OpenLiveStream(w.store).1, entries);
  }

  lemma NewSubOrdered(key: Key, startRev: nat, stream: nat, entries: seq<Event>)
    ensures Ordered(Sub(key, startRev, stream, entries, startRev, None, [], 0, false))
  {
  }

  lemma StoreOpStreams(s: StoreState, op: StoreOp, id: nat)
    requires Inv(s) && |s.log| > 0 && id in s.streams
    ensures id in Step(s, op).streams
  {
    hide WellFormed, RecordsInv, ReadersInv, RingInv, Step;
    StreamStep(s, op, id);
  }

  lemma StoreOpKeepsWatches(w: WatchState, op: StoreOp)
    requires WatchInv(w) && |w.store.log| > 0
    ensures WatchInv(w.(store := Step(w.store, op)))
  {
    hide Inv, Ordered, Step;
    StepKeeps(w.store, op);
    forall id | id in w.subs
      ensures w.subs[id].stream in Step(w.store, op).streams
    {
      StoreOpStreams(w.store, op, w.subs[id].stream);
    }
  }

  lemma NextEntryKeeps(w: WatchState, id: nat)
    requires WatchInv(w)
    ensures WatchInv(NextEntry(w, id))
  {
    hide Inv, Ordered;
    var w' := NextEntry(w, id);
    if w' != w {
      var sub := w.subs[id];
      OrderedChannel(sub);
      OrderedRest(sub, sub.(pending := sub.pending[1..]));
      ConsiderOrdered(sub.(pending := sub.pending[1..]), w'.subs[id], sub.pending[0]);
      OneWatchChanged(w, w', id);
    }
  }

  lemma ReceiveFrame(s: StoreState, stream: nat)
    requires Inv(s)
    ensures var s' := Receive(s, stream);
      Inv(s') && s'.history == s.history && s'.streams.Keys == s.streams.Keys && s'.nextStream == s.nextStream
  {
    ReceiveKeeps(s, stream);
    hide Inv;
  }

  lemma NextEventKeeps(w: WatchState, id: nat)
    requires WatchInv(w)
    ensures WatchInv(NextEvent(w, id))
  {
    hide Inv, Ordered, Receive;
    var w' := NextEvent(w, id);
    if w' != w {
      var sub := w.subs[id];
      ConsiderOrdered(sub, w'.subs[id], w.store.streams[sub.stream].ch[0]);
      ReceiveFrame(w.store, sub.stream);
      OneWatchChanged(w, w', id);
    }
  }

  lemma SendKeeps(w: WatchState, id: nat)
    requires WatchInv(w)
    ensures WatchInv(Send(w, id))
  {
    hide Inv, Ordered;
    if Send(w, id) != w {
      SendOrdered(w.subs[id]);
      OneWatchChanged(w, Send(w, id), id);
    }
  }

  lemma ConsumeKeeps(w: WatchState, id: nat)
    requires WatchInv(w)
    ensures WatchInv(Consume(w, id))
  {
    hide Inv, Ordered;
    if Consume(w, id) != w {
      OrderedChannel(w.subs[id]);
      OrderedRest(w.subs[id], Consume(w, id).subs[id]);
      OneWatchChanged(w, Consume(w, id), id);
    }
  }

  lemma CancelKeeps(w: WatchState, id: nat)
    requires WatchInv(w)
    ensures WatchInv(Cancel(w, id))
  {
    hide Inv, Ordered;
    if Cancel(w, id) != w {
      CloseStreamKeeps(w.store, w.subs[id].stream);
      OrderedChannel(w.subs[id]);
      OrderedRest(w.subs[id], Cancel(w, id).subs[id]);
      OneWatchChanged(w, Cancel(w, id), id);
    }
  }

  lemma AckKeepsWatches(w: WatchState, id: nat, rev: nat)
    requires WatchInv(w)
    ensures WatchInv(Ack(w, id, rev)) && Ack(w, id, rev).store == w.store && Ack(w, id, rev).subs == w.subs
  {
    hide Inv, Ordered;
  }

  lemma WatchStepKeeps(w: WatchState, op: WatchOp)
    requires WatchInv(w) && |w.store.log| > 0
    ensures WatchInv(WatchStep(w, op))
  {
    hide WatchInv, Watch, WatchLate, NextEntry, NextEvent, Send, Consume, Ack, Cancel, Step;
    match op
    case OpStore(o) => StoreOpKeepsWatches(w, o);
    case OpWatch(key, startRev, entries) => WatchKeeps(w, key, startRev, entries);
    case OpWatchLate(key, startRev, entries) => WatchLateKeeps(w, key, startRev, entries);
    case OpNextEntry(id) => NextEntryKeeps(w, id);
    case OpNextEvent(id) => NextEventKeeps(w, id);
    case OpSend(id) => SendKeeps(w, id);
    case OpConsume(id) => ConsumeKeeps(w, id);
    case OpAck(id, rev) => AckKeepsWatches(w, id, rev);
    case OpCancel(id) => CancelKeeps(w, id);
  }

  ghost function WatchRun(w: WatchState, ops: seq<WatchOp>): (w': WatchState)
    requires |w.store.log| > 0
    ensures |w'.store.log| == |w.store.log|
  {
    if ops == [] then w else WatchStep(WatchRun(w, ops[..|ops| - 1]), ops[|ops| - 1])
  }

  lemma {:induction false} WatchRunKeeps(w: WatchState, ops: seq<WatchOp>)
    requires WatchInv(w) && |w.store.log| > 0
    ensures WatchInv(WatchRun(w, ops))
  {
    hide WatchInv, WatchStep;
    if ops != [] {
      WatchRunKeeps(w, ops[..|ops| - 1]);
      WatchStepKeeps(WatchRun(w, ops[..|ops| - 1]), ops[|ops| - 1]);
    }
  }

  function NewWatcher(store: StoreState): WatchState {
    WatchState(store, map[], 0, map[])
  }

  /** Every watch delivers strictly increasing revisions above its start, through
      its snapshot and live phases, wherever its stream had to start. */
  lemma CursorsIncrease(logCapacity: int, ops: seq<WatchOp>, id: nat)
    ensures |New(logCapacity).log| > 0
    ensures var w := WatchRun(NewWatcher(New(logCapacity)), ops);
      id in w.subs ==>
        var evs := w.subs[id].delivered;
        && (forall i, j :: 0 <= i < j < |evs| ==> evs[i].rev < evs[j].rev)
        && (forall i :: 0 <= i < |evs| ==> w.subs[id].start < evs[i].rev <= w.subs[id].cursor)
  {
    ReachableInv(logCapacity, []);
    hide Inv, Ordered, WatchStep;
    WatchRunKeeps(NewWatcher(New(logCapacity)), ops);
    var w := WatchRun(NewWatcher(New(logCapacity)), ops);
    if id in w.subs {
      OrderedDelivered(w.subs[id]);
    }
  }

  lemma OrderedDelivered(sub: Sub)
    requires Ordered(sub)
    ensures forall i, j :: 0 <= i < j < |sub.delivered| ==> sub.delivered[i].rev < sub.delivered[j].rev
    ensures forall i :: 0 <= i < |sub.delivered| ==> sub.start < sub.delivered[i].rev <= sub.cursor
  {
    assert forall i :: 0 <= i < |sub.delivered| ==> sub.Passed()[i] == sub.delivered[i];
  }

  // ---------- exact delivery ----------

  /** The watch has passed on exactly the matching events between its start and
      the point its stream has been read to. */
  ghost predicate Exact(h: seq<Event>, st: Stream, sub: Sub) {
    var read := st.start + |st.taken|;
    && st.start <= sub.start && SentFrom(h, st, st.start)
    && (forall e :: e in sub.pending ==> e.rev <= sub.start)
    && sub.Passed() == Select(h, sub.key, sub.start, read)
    && (sub.cursor == sub.start || sub.start < sub.cursor <= read)
  }

  ghost predicate ExactWatch(w: WatchState, id: nat) {
    id in w.subs && w.subs[id].stream in w.store.streams
    && Exact(w.store.history, w.store.streams[w.subs[id].stream], w.subs[id])
  }

  /** A watch opened at or above the log start begins exact. */
  lemma WatchOpensExact(w: WatchState, key: Key, startRev: nat, entries: seq<Event>)
    requires WatchInv(w) && |w.store.log| > 0 && WatchAllowed(w, OpWatch(key, startRev, entries))
    requires w.store.logStart <= startRev && Watch(w, key, startRev, entries).1.Ok?
    ensures var (w', r) := Watch(w, key, startRev, entries);
      ExactWatch(w', r.value) && w'.subs[r.value].start == startRev && w'.subs[r.value].key == key
      && !w'.subs[r.value].closed && w'.subs[r.value].delivered == [] && w'.subs[r.value].held == None
  {
    hide Inv, Open, EntriesOf, SentFrom, WellFormed, Faithful, Ordered, Select;
    var (s', r) := Open(w.store, startRev);
    OpenKeeps(w.store, startRev);
    OpenShape(w.store, startRev);
    OpenStart(w.store, startRev);
    var st := s'.streams[r.value];
    EntriesAreOld(s'.history, st, entries);
    SelectAbove(s'.history, key, startRev, st.start);
  }

  lemma OpenStart(s: StoreState, startRev: nat)
    requires Inv(s) && |s.log| > 0 && s.logStart <= startRev && Open(s, startRev).1.Ok?
    ensures var (s', r) := Open(s, startRev);
      && r.value in s'.streams && WellFormed(s'.history)
      && s'.streams[r.value].start <= startRev && s'.streams[r.value].taken == []
      && s'.streams[r.value].start <= |s'.history|
      && SentFrom(s'.history, s'.streams[r.value], s'.streams[r.value].start)
      && Faithful(s'.history, s'.streams[r.value])
  {
    if startRev < s.Head() {
      OpenGapFree(s, startRev);
      OpenedFaithful(OpenStream(s, startRev).0, OpenStream(s, startRev).1.value);
    } else {
      OpenLiveStreamKeeps(s);
      OpenedFaithful(OpenLiveStream(s).0, OpenLiveStream(s).1);
    }
  }

  lemma OpenedFaithful(s: StoreState, id: nat)
    requires Inv(s) && id in s.streams
    ensures WellFormed(s.history) && s.streams[id].start <= |s.history| && Faithful(s.history, s.streams[id])
  {
    hide WellFormed, RecordsInv, ReadersInv, RingInv, Faithful;
  }

  /** Snapshot entries never lie above the stream's start, so a watch whose stream
      could start where it asked delivers none of them. */
  lemma EntriesAreOld(h: seq<Event>, st: Stream, entries: seq<Event>)
    requires WellFormed(h) && st.start <= |h| && Faithful(h, st) && EntriesOf(entries, st.snapshot)
    ensures forall e :: e in entries ==> e.rev <= st.start
  {
    forall e | e in entries
      ensures e.rev <= st.start
    {
      assert Answer(h, e.key, st.start) == Some(st.snapshot[e.key]);
    }
  }

  lemma ReadNext(h: seq<Event>, st: Stream)
    requires SentFrom(h, st, st.start) && st.ch != []
    ensures st.start + |st.taken| < |h| && st.ch[0] == h[st.start + |st.taken|]
  {
    assert st.Sent()[|st.taken|] == st.ch[0];
  }

  lemma ExactNextEvent(h: seq<Event>, st: Stream, st': Stream, sub: Sub)
    requires WellFormed(h) && Exact(h, st, sub) && st.ch != [] && sub.held == None
    requires st' == st.(taken := st.taken + [st.ch[0]], ch := st.ch[1..])
    ensures Exact(h, st', Consider(sub, st.ch[0]))
  {
    var ev, read := st.ch[0], st.start + |st.taken|;
    var sub' := Consider(sub, ev);
    ReadNext(h, st);
    SelectOne(h, sub.key, sub.start, read);
    assert ev.rev == read + 1;
    assert st'.Sent() == st.Sent();
    assert sub'.Passed() == sub.Passed() + (if sub' == sub then [] else [ev]);
    hide Select, WellFormed, SentFrom;
    assert SentFrom(h, st', st.start) by {
      SameSent(h, st, st');
    }
  }

  lemma SameSent(h: seq<Event>, st: Stream, st': Stream)
    requires SentFrom(h, st, st.start) && st'.Sent() == st.Sent() && st'.start == st.start && (st.closed ==> st'.closed)
    ensures SentFrom(h, st', st'.start)
  {
  }

  /** Changes to the store that leave what the stream has handed out alone. */
  lemma ExactAdvances(h: seq<Event>, st: Stream, h': seq<Event>, st': Stream, sub: Sub)
    requires WellFormed(h') && Exact(h, st, sub) && Advanced(h, st, h', st') && st'.taken == st.taken
    ensures Exact(h', st', sub)
  {
    AdvancedKeepsSentFrom(h, st, h', st', st.start);
    SelectStable(h, h', sub.key, sub.start, st.start + |st.taken|);
  }

  lemma TakenUnchanged(s: StoreState, op: StoreOp, id: nat)
    requires Inv(s) && |s.log| > 0 && id in s.streams && !op.OpReceive?
    ensures id in Step(s, op).streams && Step(s, op).streams[id].taken == s.streams[id].taken
    ensures Advanced(s.history, s.streams[id], Step(s, op).history, Step(s, op).streams[id])
  {
    hide WellFormed, RecordsInv, ReadersInv, RingInv, StreamInv, Advanced;
    StreamStep(s, op, id);
    TakenSame(s, op, id);
  }

  lemma TakenSame(s: StoreState, op: StoreOp, id: nat)
    requires |s.log| > 0 && id in s.streams && !op.OpReceive?
    requires s.nextStream + 1 != id
    ensures id in Step(s, op).streams && Step(s, op).streams[id].taken == s.streams[id].taken
  {
    hide LogEvents, Snapshot, ReclaimRecords;
  }

  lemma WellFormedOf(s: StoreState)
    requires Inv(s)
    ensures WellFormed(s.history)
  {
  }

  lemma ExactStoreOp(w: WatchState, op: StoreOp, id: nat)
    requires Inv(w.store) && |w.store.log| > 0 && ExactWatch(w, id) && !op.OpReceive?
    ensures ExactWatch(w.(store := Step(w.store, op)), id)
  {
    hide Inv, WellFormed, Exact, Advanced, Step;
    StepKeeps(w.store, op);
    WellFormedOf(Step(w.store, op));
    var stream := w.subs[id].stream;
    TakenUnchanged(w.store, op, stream);
    ExactAdvances(w.store.history, w.store.streams[stream],
                  Step(w.store, op).history, Step(w.store, op).streams[stream], w.subs[id]);
  }

  /** Still the same watch, with nothing it delivered taken back. */
  ghost predicate SameWatch(sub: Sub, sub': Sub) {
    sub'.key == sub.key && sub'.start == sub.start && sub'.stream == sub.stream && sub.delivered <= sub'.delivered
    && (sub.closed ==> sub'.closed)
  }

  lemma ExactNextEntry(w: WatchState, id: nat)
    requires WatchInv(w) && ExactWatch(w, id)
    ensures ExactWatch(NextEntry(w, id), id)
    ensures SameWatch(w.subs[id], NextEntry(w, id).subs[id])
  {
    hide Inv, SentFrom, Select;
    var w' := NextEntry(w, id);
    if w' != w {
      var sub := w.subs[id];
      assert sub.pending[0] in sub.pending;
      assert w'.subs[id] == sub.(pending := sub.pending[1..]);
      assert w'.subs[id].Passed() == sub.Passed();
    }
  }

  /** One step of anything keeps a watch exact, except its own cancelling, which
      stops it where it is. */
  lemma ExactStep(w: WatchState, op: WatchOp, id: nat)
    requires WatchInv(w) && |w.store.log| > 0 && ExactWatch(w, id) && WatchAllowed(w, op)
    ensures ExactWatch(WatchStep(w, op), id)
    ensures SameWatch(w.subs[id], WatchStep(w, op).subs[id])
  {
    hide WatchInv, ExactWatch, WatchAllowed;
    ExactHasStream(w, id);
    if op.OpNextEvent? && op.id == id {
      ExactOwnEvent(w, id);
    } else if op.OpNextEntry? && op.id == id {
      ExactNextEntry(w, id);
    } else {
      ExactOtherStep(w, op, id);
    }
  }

  lemma OwnEventShape(w: WatchState, id: nat)
    requires id in w.subs && w.subs[id].stream in w.store.streams && NextEvent(w, id) != w
    ensures var w' := NextEvent(w, id);
      var sub, st := w.subs[id], w.store.streams[w.subs[id].stream];
      && st.ch != [] && sub.held == None && id in w'.subs && w'.subs[id] == Consider(sub, st.ch[0])
      && sub.stream in w'.store.streams && w'.store.history == w.store.history
      && w'.store.streams[sub.stream] == st.(taken := st.taken + [st.ch[0]], ch := st.ch[1..])
  {
  }

  lemma ExactOwnEvent(w: WatchState, id: nat)
    requires WatchInv(w) && ExactWatch(w, id)
    ensures ExactWatch(NextEvent(w, id), id)
    ensures SameWatch(w.subs[id], NextEvent(w, id).subs[id])
  {
    WellFormedOf(w.store);
    hide Inv, WatchInv, WellFormed, Exact, NextEvent;
    if NextEvent(w, id) != w {
      OwnEventShape(w, id);
      var st := w.store.streams[w.subs[id].stream];
      ExactNextEvent(w.store.history, st, st.(taken := st.taken + [st.ch[0]], ch := st.ch[1..]), w.subs[id]);
    }
  }

  lemma ExactSameWatch(w: WatchState, w': WatchState, id: nat)
    requires ExactWatch(w, id) && id in w'.subs && w'.store.history == w.store.history
    requires MovesAlong(w.subs[id], w'.subs[id])
    requires w.subs[id].stream in w'.store.streams
    requires var st, st' := w.store.streams[w.subs[id].stream], w'.store.streams[w.subs[id].stream];
      st' == st || st' == st.(closed := true)
    ensures ExactWatch(w', id)
  {
    var st, st' := w.store.streams[w.subs[id].stream], w'.store.streams[w.subs[id].stream];
    assert st'.Sent() == st.Sent();
    SameSent(w.store.history, st, st');
    hide SentFrom, Select;
  }

  /** Another watch's step, or a step of this one that only moves events along. */
  lemma ExactOtherStep(w: WatchState, op: WatchOp, id: nat)
    requires WatchInv(w) && |w.store.log| > 0 && ExactWatch(w, id) && WatchAllowed(w, op)
    requires !(op.OpNextEvent? && op.id == id) && !(op.OpNextEntry? && op.id == id)
    ensures ExactWatch(WatchStep(w, op), id)
    ensures SameWatch(w.subs[id], WatchStep(w, op).subs[id])
  {
    if op.OpStore? {
      hide Inv, Ordered, ExactWatch, Step;
      ExactHasStream(w, id);
      ExactStoreOp(w, op.op, id);
    } else {
      hide WatchInv, ExactWatch, WatchStep;
      ExactHasStream(w, id);
      OtherStepFrame(w, op, id);
      ExactSameWatch(w, WatchStep(w, op), id);
    }
  }

  lemma OtherStepFrame(w: WatchState, op: WatchOp, id: nat)
    requires WatchInv(w) && |w.store.log| > 0 && id in w.subs && w.subs[id].stream in w.store.streams
    requires !op.OpStore? && !(op.OpNextEvent? && op.id == id) && !(op.OpNextEntry? && op.id == id)
    ensures var w' := WatchStep(w, op); var stream := w.subs[id].stream;
      && id in w'.subs && w'.store.history == w.store.history
      && MovesAlong(w.subs[id], w'.subs[id]) && SameWatch(w.subs[id], w'.subs[id])
      && stream in w'.store.streams
      && (w'.store.streams[stream] == w.store.streams[stream]
          || w'.store.streams[stream] == w.store.streams[stream].(closed := true))
  {
    hide WatchInv, Watch, WatchLate, NextEvent, Cancel;
    match op
    case OpWatch(key, startRev, entries) => WatchFrame(w, key, startRev, entries, id);
    case OpWatchLate(key, startRev, entries) => WatchLateFrame(w, key, startRev, entries, id);
    case OpNextEvent(i) => OtherEventFrame(w, i, id);
    case OpCancel(i) => CancelFrame(w, i, id);
    case OpSend(i) => assert i == id ==> Send(w, i).subs[id].Passed() == w.subs[id].Passed();
    case _ =>
  }

  lemma OtherEventFrame(w: WatchState, i: nat, id: nat)
    requires WatchInv(w) && i != id && id in w.subs && w.subs[id].stream in w.store.streams
    ensures var w' := NextEvent(w, i); var stream := w.subs[id].stream;
      && id in w'.subs && w'.subs[id] == w.subs[id] && w'.store.history == w.store.history
      && stream in w'.store.streams && w'.store.streams[stream] == w.store.streams[stream]
  {
    hide Inv, Ordered;
  }

  lemma CancelFrame(w: WatchState, i: nat, id: nat)
    requires id in w.subs && w.subs[id].stream in w.store.streams
    ensures var w' := Cancel(w, i); var stream := w.subs[id].stream;
      && id in w'.subs && w'.store.history == w.store.history
      && MovesAlong(w.subs[id], w'.subs[id]) && SameWatch(w.subs[id], w'.subs[id])
      && stream in w'.store.streams
      && (w'.store.streams[stream] == w.store.streams[stream]
          || w'.store.streams[stream] == w.store.streams[stream].(closed := true))
  {
    assert w.subs[id].(closed := true).Passed() == w.subs[id].Passed();
  }

  /** A new watch leaves the others and their streams alone. */
  lemma WatchFrame(w: WatchState, key: Key, startRev: nat, entries: seq<Event>, id: nat)
    requires WatchInv(w) && |w.store.log| > 0 && id in w.subs && w.subs[id].stream in w.store.streams
    ensures var w' := Watch(w, key, startRev, entries).0; var stream := w.subs[id].stream;
      && id in w'.subs && w'.subs[id] == w.subs[id] && w'.store.history == w.store.history
      && stream in w'.store.streams && w'.store.streams[stream] == w.store.streams[stream]
  {
    hide Inv, Ordered, Open;
    OpenKeeps(w.store, startRev);
    OpenShape(w.store, startRev);
  }

  lemma WatchLateFrame(w: WatchState, key: Key, startRev: nat, entries: seq<Event>, id: nat)
    requires WatchInv(w) && id in w.subs && w.subs[id].stream in w.store.streams
    ensures var w' := WatchLate(w, key, startRev, entries).0; var stream := w.subs[id].stream;
      && id in w'.subs && w'.subs[id] == w.subs[id] && w'.store.history == w.store.history
      && stream in w'.store.streams && w'.store.streams[stream] == w.store.streams[stream]
  {
    hide Inv, Ordered, OpenLiveStream;
    LiveShape(w.store);
  }

  ghost predicate MovesAlong(sub: Sub, sub': Sub) {
    && sub'.Passed() == sub.Passed()
    && sub' == sub.(delivered := sub'.delivered, held := sub'.held, consumed := sub'.consumed, closed := sub'.closed)
  }

  lemma ExactHasStream(w: WatchState, id: nat)
    requires ExactWatch(w, id)
    ensures id in w.subs && w.subs[id].stream in w.store.streams
  {
  }

  /** The delivery loop has nothing it can do: the channel is full, the watch is
      cancelled, or everything sent so far has been read. */
  ghost predicate Idle(w: WatchState, id: nat)
    requires id in w.subs
  {
    var sub := w.subs[id];
    if sub.held.Some? then |sub.delivered| >= sub.consumed + CHANNEL_CAPACITY
    else sub.closed || (sub.pending == [] && !HasEvent(w.store, sub.stream))
  }

  /** A watch whose loop has come to rest with room on its channel, and whose
      stream is still registered, has delivered every matching event there is. */
  lemma IdleIsComplete(w: WatchState, id: nat)
    requires WatchInv(w) && ExactWatch(w, id) && Idle(w, id)
    requires !w.subs[id].closed && !w.store.streams[w.subs[id].stream].closed
    requires |w.subs[id].delivered| < w.subs[id].consumed + CHANNEL_CAPACITY
    ensures w.subs[id].delivered == Select(w.store.history, w.subs[id].key, w.subs[id].start, w.store.Head())
  {
    hide Inv, Select, Ordered;
    var st := w.store.streams[w.subs[id].stream];
    assert st.Sent() == st.taken;
  }

  // ---------- the history a watch sees ----------

  lemma WatchHistory(w: WatchState, key: Key, startRev: nat, entries: seq<Event>)
    requires WatchInv(w) && |w.store.log| > 0
    ensures Watch(w, key, startRev, entries).0.store.history == w.store.history
  {
    hide Inv, Open, Ordered;
    OpenKeeps(w.store, startRev);
    OpenShape(w.store, startRev);
  }

  lemma HistoryGrows(w: WatchState, op: WatchOp)
    requires WatchInv(w) && |w.store.log| > 0
    ensures w.store.history <= WatchStep(w, op).store.history
    ensures WellFormed(WatchStep(w, op).store.history)
  {
    hide WatchInv, Step, Watch;
    WatchStepKeeps(w, op);
    WellFormedWatch(WatchStep(w, op));
    match op
    case OpStore(o) => StepExtendsHistory(w.store, o);
    case OpWatch(key, startRev, entries) => WatchHistory(w, key, startRev, entries);
    case _ =>
  }

  lemma WellFormedWatch(w: WatchState)
    requires WatchInv(w)
    ensures WellFormed(w.store.history)
  {
    WellFormedOf(w.store);
    hide Inv, WellFormed;
  }

  // ---------- watch ids ----------

  function WatchID(n: nat): string {
    "watch-" + Digits(n)
  }

  /** Different watches get different names. */
  lemma WatchIDsDiffer(a: nat, b: nat)
    ensures WatchID(a) == WatchID(b) <==> a == b
  {
    DigitsInjective(a, b);
    assert WatchID(a)[6..] == Digits(a) && WatchID(b)[6..] == Digits(b);
  }
}
