/** One watch of a session followed through every operation on the session. */
module SessionTheorems {
  import opened Model
  import opened StoreSpec
  import opened StoreInvariant
  import opened WatchSpec
  import opened WatchTheorems
  import opened Transcript
  import opened Resume
  import opened SessionSpec

  /** A session, and the line of the watch being followed. `id` is what the watch is
      currently called; the session has dropped it when it is `None`. */
  datatype World = World(s: Session, l: Line, id: Option<nat>)

  ghost predicate Follows(l: Line, id: Option<nat>) {
    LineInv(l) && l.live == id && (id.Some? ==> id.value <= l.w.nextID)
  }

  ghost predicate WorldInv(x: World) {
    && Follows(x.l, x.id)
    && (x.id.Some? ==>
          && x.id.value in x.s.watches && x.s.watches[x.id.value] == x.l.cursor
          && x.s.KeyOf(x.id.value) == x.l.key)
  }

  function LeaveOps(id: Option<nat>, order: seq<nat>): seq<LineOp> {
    if order == [] then []
    else
      var o := order[|order| - 1];
      LeaveOps(id, order[..|order| - 1]) + [if id == Some(o) then Disconnect else Elsewhere(OpCancel(o))]
  }

  ghost function ReturnOp(id: Option<nat>, s: Session, o: nat, entries: seq<Event>): LineOp
    requires o in s.watches
  {
    if id == Some(o) then Reconnect(entries) else Elsewhere(OpWatch(s.KeyOf(o), s.watches[o], entries))
  }

  ghost function ReturnOps(id: Option<nat>, s: Session, order: seq<nat>, entries: seq<seq<Event>>): (ops: seq<LineOp>)
    requires |entries| == |order| && forall o :: o in order ==> o in s.watches
  {
    if order == [] then []
    else
      var n := |order| - 1;
      ReturnOps(id, s, order[..n], entries[..n]) + [ReturnOp(id, s, order[n], entries[n])]
  }

  /** What an operation on the session means for the line. */
  ghost function LineOps(x: World, op: SessionOp): seq<LineOp>
    requires |x.l.w.store.log| > 0 && SessionAllowed(x.l.w, x.s, op)
  {
    match op
    case OpElsewhere(o) => [Elsewhere(o)]
    case OpRegister(key, startRev, entries) => [Elsewhere(OpWatch(key, startRev, entries))]
    case OpAckWatch(id, rev, _) => [if x.id == Some(id) then AckWatch(id, rev) else Elsewhere(OpAck(id, rev))]
    case OpDisconnect(order, _) => LeaveOps(x.id, order)
    case OpReconnect(order, entries, _) => ReturnOps(x.id, x.s, order, entries)
  }

  ghost function WorldStep(x: World, op: SessionOp): (x': World)
    requires |x.l.w.store.log| > 0 && SessionAllowed(x.l.w, x.s, op)
    ensures |x'.l.w.store.log| == |x.l.w.store.log|
  {
    var l := LineRun(x.l, LineOps(x, op));
    World(SessionStep(x.l.w, x.s, op).1, l, if op.OpReconnect? && x.id.Some? then l.live else x.id)
  }

  /** Following needs the watch's cursor to be in the log still on a reconnect. */
  ghost predicate WorldAllowed(x: World, op: SessionOp)
    requires |x.l.w.store.log| > 0
  {
    && SessionAllowed(x.l.w, x.s, op)
    && (op.OpReconnect? && x.id.Some? ==> x.l.w.store.logStart <= x.l.cursor)
  }

  // ---------- one step of the line ----------

  /** Only cancelling a watch changes whether it is open. */
  lemma StillOpen(w: WatchState, op: WatchOp, id: nat)
    requires WatchInv(w) && |w.store.log| > 0 && id <= w.nextID && !(op.OpCancel? && op.id == id)
    ensures id <= WatchStep(w, op).nextID && (IsOpen(WatchStep(w, op), id) <==> IsOpen(w, id))
  {
    hide Inv, Ordered, Open, Step, Receive, CloseStream;
  }

  lemma IdsGrow(w: WatchState, op: WatchOp)
    requires |w.store.log| > 0
    ensures w.nextID <= WatchStep(w, op).nextID
  {
    hide Open, Step, Receive, CloseStream;
  }

  lemma ElsewhereFollows(l: Line, id: Option<nat>, o: WatchOp)
    requires |l.w.store.log| > 0 && Follows(l, id) && WatchAllowed(l.w, o)
    ensures LineAllowed(l, Elsewhere(o)) && Follows(LineStep(l, Elsewhere(o)), id)
    ensures LineStep(l, Elsewhere(o)) == l.(w := WatchStep(l.w, o))
  {
    FollowsWatches(l, id);
    hide LineInv, WatchInv, WatchAllowed, WatchStep, IsOpen;
    LineStepKeeps(l, Elsewhere(o));
    IdsGrow(l.w, o);
  }

  lemma FollowsID(l: Line, id: Option<nat>)
    requires Follows(l, id)
    ensures LineInv(l) && l.live == id && (id.Some? ==> id.value <= l.w.nextID)
  {
    hide LineInv;
  }

  lemma FollowsWatches(l: Line, id: Option<nat>)
    requires Follows(l, id)
    ensures WatchInv(l.w)
  {
    hide WatchInv, LiveInv;
  }

  lemma CancelNoId(w: WatchState, id: nat)
    ensures WatchSpec.Cancel(w, id).nextID == w.nextID
  {
  }

  lemma DisconnectFollows(l: Line, id: nat)
    requires |l.w.store.log| > 0 && Follows(l, Some(id))
    ensures LineAllowed(l, Disconnect) && Follows(LineStep(l, Disconnect), Some(id))
    ensures LineStep(l, Disconnect).w == WatchSpec.Cancel(l.w, id)
    ensures LineStep(l, Disconnect).cursor == l.cursor && LineStep(l, Disconnect).key == l.key
  {
    FollowsWatches(l, Some(id));
    hide LineInv, WatchInv, WatchSpec.Cancel, Select;
    LineStepKeeps(l, Disconnect);
    CancelNoId(l.w, id);
  }

  lemma ReconnectFollows(l: Line, id: nat, entries: seq<Event>)
    requires |l.w.store.log| > 0 && Follows(l, Some(id)) && l.w.store.logStart <= l.cursor
    requires WatchAllowed(l.w, OpWatch(l.key, l.cursor, entries))
    ensures LineAllowed(l, Reconnect(entries))
    ensures var (w', r) := WatchSpec.Watch(l.w, l.key, l.cursor, entries);
            var l' := LineStep(l, Reconnect(entries));
      && l'.w == w' && l'.live == (if r.Ok? then Some(r.value) else None)
      && l'.cursor == l.cursor && l'.key == l.key
      && Follows(l', l'.live) && (r.Ok? ==> r.value == l.w.nextID + 1)
  {
    FollowsWatches(l, Some(id));
    hide LineInv, LineStep, LineAllowed, WatchInv, WatchAllowed, WatchSpec.Watch, IsOpen;
    WatchOpens(l.w, l.key, l.cursor, entries);
    ReconnectShape(l, entries);
    LineStepKeeps(l, Reconnect(entries));
  }

  lemma ReconnectShape(l: Line, entries: seq<Event>)
    requires |l.w.store.log| > 0 && l.w.store.logStart <= l.cursor
    requires WatchAllowed(l.w, OpWatch(l.key, l.cursor, entries))
    ensures LineAllowed(l, Reconnect(entries))
    ensures var (w', r) := WatchSpec.Watch(l.w, l.key, l.cursor, entries);
      LineStep(l, Reconnect(entries)) ==
      l.(w := w', live := if r.Ok? then Some(r.value) else None, confirmed := l.confirmed + Acknowledged(l),
         past := Connections(l))
  {
    hide WatchAllowed, WatchSpec.Watch, Acknowledged, Connections;
  }

  lemma WatchOpens(w: WatchState, key: Key, startRev: nat, entries: seq<Event>)
    requires |w.store.log| > 0
    ensures var (w', r) := WatchSpec.Watch(w, key, startRev, entries);
      && w'.nextID == w.nextID + 1
      && (r.Ok? ==> r.value == w'.nextID && IsOpen(w', r.value))
  {
    hide Open;
  }

  lemma AckFollows(l: Line, id: nat, rev: nat)
    requires |l.w.store.log| > 0 && Follows(l, Some(id)) && LineAllowed(l, AckWatch(id, rev))
    ensures Follows(LineStep(l, AckWatch(id, rev)), Some(id))
  {
    hide LineInv;
    LineStepKeeps(l, AckWatch(id, rev));
  }

  // ---------- what a reconnect records ----------

  /** The new record after watching `order` again, starting above the ids up to `base`. */
  ghost predicate RecordExact(b: Rebuild, s: Session, order: seq<nat>, base: nat)
    requires forall o :: o in order ==> o in s.watches
  {
    && b.w.nextID == base + |order| && b.keys.Keys == b.watches.Keys
    && (forall id :: id in b.watches ==> base < id <= base + |order|)
    && (forall i :: 0 <= i < |order| ==> RecordedAs(b, s, order[i], base + 1 + i))
  }

  /** `id` is on record exactly when it could be opened, with what `was` had. */
  predicate RecordedAs(b: Rebuild, s: Session, was: nat, id: nat)
    requires was in s.watches && b.keys.Keys == b.watches.Keys
  {
    && (id in b.watches <==> IsOpen(b.w, id))
    && (id in b.watches ==> b.watches[id] == s.watches[was]
                            && b.keys[id] == if was in s.keys then s.keys[was] else "")
  }

  ghost predicate NoneStopped(w: WatchState, b: Rebuild) {
    forall id: nat :: id <= w.nextID ==> (IsOpen(b.w, id) <==> IsOpen(w, id)) && id !in b.watches
  }

  /** One watch more: it gets the next id, and no other watch is touched. */
  ghost predicate OneMore(b: Rebuild, b': Rebuild, s: Session, was: nat)
    requires was in s.watches
  {
    var id := b.w.nextID + 1;
    && b'.w.nextID == id
    && b'.watches == (if IsOpen(b'.w, id) then b.watches[id := s.watches[was]] else b.watches)
    && b'.keys == (if IsOpen(b'.w, id) then b.keys[id := s.KeyOf(was)] else b.keys)
    && forall i: nat :: i <= b.w.nextID ==> (IsOpen(b'.w, i) <==> IsOpen(b.w, i))
  }

  lemma RebuildOneMore(b: Rebuild, s: Session, id: nat, entries: seq<Event>)
    requires WatchInv(b.w) && |b.w.store.log| > 0 && id in s.watches
    ensures WatchInv(RebuildOne(b, s, id, entries).w) && OneMore(b, RebuildOne(b, s, id, entries), s, id)
  {
    hide WatchInv, IsOpen, WatchStep, WatchSpec.Watch;
    var op := OpWatch(s.KeyOf(id), s.watches[id], entries);
    WatchStepKeeps(b.w, op);
    WatchOpensNew(b.w, op.key, op.startRev, entries);
    forall i: nat | i <= b.w.nextID
      ensures IsOpen(WatchStep(b.w, op), i) <==> IsOpen(b.w, i)
    {
      StillOpen(b.w, op, i);
    }
  }

  lemma RecordOneMore(w: WatchState, b: Rebuild, b': Rebuild, s: Session, order: seq<nat>)
    requires order != [] && forall o :: o in order ==> o in s.watches
    requires RecordExact(b, s, order[..|order| - 1], w.nextID) && NoneStopped(w, b)
    requires OneMore(b, b', s, order[|order| - 1])
    ensures RecordExact(b', s, order, w.nextID) && NoneStopped(w, b')
  {
    hide IsOpen;
    forall i | 0 <= i < |order|
      ensures RecordedAs(b', s, order[i], w.nextID + 1 + i)
    {
      assert i < |order| - 1 ==> order[..|order| - 1][i] == order[i];
    }
  }

  /** A reconnect gives each recorded watch an id of its own and, when it can be
      opened, records it with its old cursor and key. It forgets every earlier id
      but stops none: reconnecting without having disconnected leaves the session's
      old watches running with nothing on record to cancel them by. */
  lemma {:induction false} ReconnectRecords(w: WatchState, s: Session, order: seq<nat>, entries: seq<seq<Event>>)
    requires WatchInv(w) && |w.store.log| > 0 && |entries| == |order| && forall o :: o in order ==> o in s.watches
    ensures WatchInv(RebuildAll(w, s, order, entries).w)
    ensures RecordExact(RebuildAll(w, s, order, entries), s, order, w.nextID)
    ensures NoneStopped(w, RebuildAll(w, s, order, entries))
  {
    hide WatchInv, IsOpen, RebuildOne, OneMore;
    if order != [] {
      var n := |order| - 1;
      ReconnectRecords(w, s, order[..n], entries[..n]);
      var b := RebuildAll(w, s, order[..n], entries[..n]);
      RebuildOneMore(b, s, order[n], entries[n]);
      RecordOneMore(w, b, RebuildOne(b, s, order[n], entries[n]), s, order);
    }
  }

  lemma WatchOpensNew(w: WatchState, key: Key, startRev: nat, entries: seq<Event>)
    requires WatchInv(w) && |w.store.log| > 0
    ensures var (w', r) := WatchSpec.Watch(w, key, startRev, entries);
      && w' == WatchStep(w, OpWatch(key, startRev, entries)) && w'.nextID == w.nextID + 1
      && (r.Ok? ==> r.value == w'.nextID) && (r.Ok? <==> IsOpen(w', w'.nextID))
  {
    hide Inv, Open, Ordered;
  }

  // ---------- one operation on the session ----------

  lemma {:induction false} LeaveRun(l: Line, id: Option<nat>, order: seq<nat>)
    requires |l.w.store.log| > 0 && Follows(l, id)
    ensures LineRunAllowed(l, LeaveOps(id, order))
    ensures var l' := LineRun(l, LeaveOps(id, order));
      && Follows(l', id) && l'.w == CancelAll(l.w, order) && l'.cursor == l.cursor && l'.key == l.key
  {
    hide LineInv, IsOpen, WatchSpec.Cancel, WatchAllowed, LineAllowed, LineStep, LineRun, LineRunAllowed;
    LineMore(l, [], Disconnect);
    if order != [] {
      var most, o := order[..|order| - 1], order[|order| - 1];
      LeaveRun(l, id, most);
      var m := LineRun(l, LeaveOps(id, most));
      if id == Some(o) {
        LineMore(l, LeaveOps(id, most), Disconnect);
        DisconnectFollows(m, o);
      } else {
        LineMore(l, LeaveOps(id, most), Elsewhere(OpCancel(o)));
        CancelAllowed(m.w, o);
        ElsewhereFollows(m, id, OpCancel(o));
      }
    }
  }

  lemma CancelAllowed(w: WatchState, o: nat)
    requires |w.store.log| > 0
    ensures WatchAllowed(w, OpCancel(o)) && WatchStep(w, OpCancel(o)) == WatchSpec.Cancel(w, o)
  {
  }

  lemma WatchKeepsLog(w: WatchState, key: Key, startRev: nat, entries: seq<Event>)
    requires WatchInv(w) && |w.store.log| > 0
    ensures var (w', r) := WatchSpec.Watch(w, key, startRev, entries);
      && w' == WatchStep(w, OpWatch(key, startRev, entries))
      && w'.store.logStart == w.store.logStart && (r.Ok? ==> r.value == w.nextID + 1)
  {
    hide Inv, Open, Ordered;
    OpenKeeps(w.store, startRev);
    OpenShape(w.store, startRev);
  }

  /** What the followed watch is called once `order` has been dealt with. */
  function NowCalled(l: Line, id: Option<nat>, order: seq<nat>): Option<nat> {
    if id.Some? && id.value in order then l.live else id
  }

  /** The line after reconnecting, and what the session then has on record. */
  ghost predicate Returned(l: Line, l': Line, id: Option<nat>, order: seq<nat>, b: Rebuild) {
    && l'.w == b.w && l'.cursor == l.cursor && l'.key == l.key && b.w.store.logStart == l.w.store.logStart
    && Follows(l', NowCalled(l', id, order))
    && (id.Some? && id.value in order && l'.live.Some? ==>
          && l'.live.value in b.watches && b.watches[l'.live.value] == l.cursor
          && l'.live.value in b.keys && b.keys[l'.live.value] == l.key)
  }

  /** One more watch of the session is opened again. */
  lemma ReturnOne(l: Line, m: Line, id: Option<nat>, s: Session, most: seq<nat>, b: Rebuild,
                  o: nat, entries: seq<Event>)
    requires |m.w.store.log| > 0 && Returned(l, m, id, most, b) && o in s.watches && o !in most
    requires WatchAllowed(b.w, OpWatch(s.KeyOf(o), s.watches[o], entries))
    requires id == Some(o) ==> s.watches[o] == l.cursor && s.KeyOf(o) == l.key && l.w.store.logStart <= l.cursor
    ensures LineAllowed(m, ReturnOp(id, s, o, entries))
    ensures Returned(l, LineStep(m, ReturnOp(id, s, o, entries)), id, most + [o], RebuildOne(b, s, o, entries))
  {
    hide LineInv, IsOpen, WatchInv, WatchSpec.Watch, WatchAllowed, LineAllowed, LineStep, WatchStep;
    FollowsWatches(m, NowCalled(m, id, most));
    WatchKeepsLog(m.w, s.KeyOf(o), s.watches[o], entries);
    if id == Some(o) {
      ReconnectFollows(m, o, entries);
    } else {
      ElsewhereFollows(m, NowCalled(m, id, most), OpWatch(s.KeyOf(o), s.watches[o], entries));
    }
  }

  lemma {:induction false} ReturnRun(l: Line, id: Option<nat>, s: Session, order: seq<nat>, entries: seq<seq<Event>>)
    requires |l.w.store.log| > 0 && Follows(l, id)
    requires |entries| == |order| && forall o :: o in order ==> o in s.watches
    requires forall i, j :: 0 <= i < j < |order| ==> order[i] != order[j]
    requires RebuildAllowed(l.w, s, order, entries)
    requires id.Some? && id.value in s.watches ==>
      s.watches[id.value] == l.cursor && s.KeyOf(id.value) == l.key && l.w.store.logStart <= l.cursor
    ensures LineRunAllowed(l, ReturnOps(id, s, order, entries))
    ensures Returned(l, LineRun(l, ReturnOps(id, s, order, entries)), id, order, RebuildAll(l.w, s, order, entries))
  {
    hide Follows, WatchAllowed, LineAllowed, LineStep, LineRun, LineRunAllowed, RebuildOne, Returned;
    LineMore(l, [], Disconnect);
    if order == [] {
      NothingToReturn(l, id, order);
    } else {
      var n := |order| - 1;
      ReturnRun(l, id, s, order[..n], entries[..n]);
      var ops := ReturnOps(id, s, order[..n], entries[..n]);
      LineMore(l, ops, ReturnOp(id, s, order[n], entries[n]));
      ReturnOne(l, LineRun(l, ops), id, s, order[..n], RebuildAll(l.w, s, order[..n], entries[..n]),
                order[n], entries[n]);
      assert order == order[..n] + [order[n]];
    }
  }

  lemma NothingToReturn(l: Line, id: Option<nat>, order: seq<nat>)
    requires Follows(l, id) && order == []
    ensures Returned(l, l, id, order, Rebuild(l.w, map[], map[]))
  {
    hide LineInv, IsOpen;
  }

  lemma OneLineOp(l: Line, op: LineOp)
    requires |l.w.store.log| > 0
    ensures LineRun(l, [op]) == LineStep(l, op) && (LineAllowed(l, op) ==> LineRunAllowed(l, [op]))
  {
    hide LineStep, LineAllowed;
    LineMore(l, [], op);
    assert [] + [op] == [op];
  }

  lemma ElsewhereStep(x: World, op: SessionOp)
    requires |x.l.w.store.log| > 0 && WorldInv(x) && WorldAllowed(x, op) && op.OpElsewhere?
    ensures WorldInv(WorldStep(x, op)) && LineRunAllowed(x.l, LineOps(x, op))
    ensures (WorldStep(x, op).l.w, WorldStep(x, op).s) == SessionStep(x.l.w, x.s, op)
  {
    hide Follows, LineAllowed, LineStep, LineRun, LineRunAllowed, WatchAllowed, WatchStep;
    OneLineOp(x.l, Elsewhere(op.op));
    ElsewhereFollows(x.l, x.id, op.op);
  }

  lemma RegisterStep(x: World, op: SessionOp)
    requires |x.l.w.store.log| > 0 && WorldInv(x) && WorldAllowed(x, op) && op.OpRegister?
    ensures WorldInv(WorldStep(x, op)) && LineRunAllowed(x.l, LineOps(x, op))
    ensures (WorldStep(x, op).l.w, WorldStep(x, op).s) == SessionStep(x.l.w, x.s, op)
  {
    hide Follows, WatchInv, LineAllowed, LineStep, LineRun, LineRunAllowed, WatchAllowed, WatchStep, WatchSpec.Watch;
    FollowsWatches(x.l, x.id);
    FollowsID(x.l, x.id);
    var o := OpWatch(op.key, op.startRev, op.entries);
    OneLineOp(x.l, Elsewhere(o));
    ElsewhereFollows(x.l, x.id, o);
    WatchKeepsLog(x.l.w, op.key, op.startRev, op.entries);
  }

  lemma AckStep(x: World, op: SessionOp)
    requires |x.l.w.store.log| > 0 && WorldInv(x) && WorldAllowed(x, op) && op.OpAckWatch?
    ensures WorldInv(WorldStep(x, op)) && LineRunAllowed(x.l, LineOps(x, op))
    ensures (WorldStep(x, op).l.w, WorldStep(x, op).s) == SessionStep(x.l.w, x.s, op)
  {
    hide LineInv, LineRun, LineRunAllowed, WatchSpec.Ack;
    if x.id == Some(op.id) {
      OneLineOp(x.l, AckWatch(op.id, op.rev));
      AckFollows(x.l, op.id, op.rev);
    } else {
      OneLineOp(x.l, Elsewhere(OpAck(op.id, op.rev)));
      ElsewhereFollows(x.l, x.id, OpAck(op.id, op.rev));
    }
  }

  lemma DisconnectStep(x: World, op: SessionOp)
    requires |x.l.w.store.log| > 0 && WorldInv(x) && WorldAllowed(x, op) && op.OpDisconnect?
    ensures WorldInv(WorldStep(x, op)) && LineRunAllowed(x.l, LineOps(x, op))
    ensures (WorldStep(x, op).l.w, WorldStep(x, op).s) == SessionStep(x.l.w, x.s, op)
  {
    hide Follows, LineRun, LineRunAllowed, CancelAll, LeaveOps;
    LeaveRun(x.l, x.id, op.order);
  }

  lemma ReconnectStep(x: World, op: SessionOp)
    requires |x.l.w.store.log| > 0 && WorldInv(x) && WorldAllowed(x, op) && op.OpReconnect?
    ensures WorldInv(WorldStep(x, op)) && LineRunAllowed(x.l, LineOps(x, op))
    ensures (WorldStep(x, op).l.w, WorldStep(x, op).s) == SessionStep(x.l.w, x.s, op)
  {
    hide LineInv, LineRun, LineRunAllowed, IsOpen, RebuildAll, RebuildAllowed, ReturnOps;
    ReturnRun(x.l, x.id, x.s, op.order, op.snapshots);
  }

  /** Every operation on the session is what it means for the line, and keeps the
      session's record of the followed watch right. */
  lemma WorldStepKeeps(x: World, op: SessionOp)
    requires |x.l.w.store.log| > 0 && WorldInv(x) && WorldAllowed(x, op)
    ensures WorldInv(WorldStep(x, op)) && LineRunAllowed(x.l, LineOps(x, op))
    ensures (WorldStep(x, op).l.w, WorldStep(x, op).s) == SessionStep(x.l.w, x.s, op)
  {
    hide WorldInv, WorldAllowed, LineOps, LineRunAllowed, WorldStep;
    match op
    case OpElsewhere(_) => ElsewhereStep(x, op);
    case OpRegister(_, _, _) => RegisterStep(x, op);
    case OpAckWatch(_, _, _) => AckStep(x, op);
    case OpDisconnect(_, _) => DisconnectStep(x, op);
    case OpReconnect(_, _, _) => ReconnectStep(x, op);
  }

  lemma WorldStepNames(x: World, op: SessionOp)
    requires |x.l.w.store.log| > 0 && SessionAllowed(x.l.w, x.s, op)
    ensures WorldStep(x, op).l.key == x.l.key && WorldStep(x, op).l.origin == x.l.origin
  {
    hide SessionAllowed, LineRun, LineOps, SessionStep;
    LineNames(x.l, LineOps(x, op));
  }

  lemma WorldStepPast(x: World, op: SessionOp)
    requires |x.l.w.store.log| > 0 && WorldInv(x) && PastInv(x.l) && WorldAllowed(x, op)
    ensures PastInv(WorldStep(x, op).l)
  {
    WorldStepKeeps(x, op);
    FollowsID(x.l, x.id);
    hide LineInv, PastInv, SessionAllowed, LineRun, LineRunAllowed, LineOps, SessionStep;
    LineRunKeepsPast(x.l, LineOps(x, op));
  }

  // ---------- runs ----------

  /** The run, as long as it is allowed. */
  ghost function WorldRun(x: World, ops: seq<SessionOp>): (out: Option<World>)
    requires |x.l.w.store.log| > 0
    ensures out.Some? ==> |out.value.l.w.store.log| == |x.l.w.store.log|
  {
    if ops == [] then Some(x)
    else
      var most := WorldRun(x, ops[..|ops| - 1]);
      if most == None || !WorldAllowed(most.value, ops[|ops| - 1]) then None
      else Some(WorldStep(most.value, ops[|ops| - 1]))
  }

  lemma {:induction false} WorldRunKeeps(x: World, ops: seq<SessionOp>)
    requires |x.l.w.store.log| > 0 && WorldInv(x) && PastInv(x.l)
    ensures var out := WorldRun(x, ops);
      out.Some? ==>
        && WorldInv(out.value) && PastInv(out.value.l)
        && out.value.l.key == x.l.key && out.value.l.origin == x.l.origin
  {
    hide WorldInv, PastInv, SessionAllowed, WorldStep;
    if ops != [] {
      WorldRunKeeps(x, ops[..|ops| - 1]);
      var most := WorldRun(x, ops[..|ops| - 1]);
      if most.Some? && WorldAllowed(most.value, ops[|ops| - 1]) {
        WorldStepKeeps(most.value, ops[|ops| - 1]);
        WorldStepNames(most.value, ops[|ops| - 1]);
        WorldStepPast(most.value, ops[|ops| - 1]);
      }
    }
  }

  /** A session registers a watch; from here on it is followed. */
  ghost function Begin(w: WatchState, s: Session, key: Key, startRev: nat, entries: seq<Event>): (x: World)
    requires |w.store.log| > 0 && SessionAllowed(w, s, OpRegister(key, startRev, entries))
    ensures |x.l.w.store.log| == |w.store.log|
  {
    var l := LineStep(NewLine(w, key, startRev), Reconnect(entries));
    World(SessionStep(w, s, OpRegister(key, startRev, entries)).1, l, l.live)
  }

  lemma BeginKeeps(w: WatchState, s: Session, key: Key, startRev: nat, entries: seq<Event>)
    requires WatchInv(w) && |w.store.log| > 0 && SessionAllowed(w, s, OpRegister(key, startRev, entries))
    requires w.store.logStart <= startRev
    ensures WorldInv(Begin(w, s, key, startRev, entries)) && PastInv(Begin(w, s, key, startRev, entries).l)
  {
    var l := NewLine(w, key, startRev);
    SelectEmpty(w.store.history, key, startRev);
    hide WatchInv, WatchAllowed, Open, LiveInv, Select;
    LineStepKeeps(l, Reconnect(entries));
    WatchOpens(w, key, startRev, entries);
  }

  /** Resume is exact for every watch a session registers at or above the log's
      start: through any acknowledgements, disconnects, reconnects, deliveries and
      writes, with any number of other watches, whoever cancels them, what the client
      acknowledged before and what its current connection delivers are together a
      prefix of the matching history after the revision it asked from; what it is
      sent more than once is only what it had not acknowledged; and the session's
      record still names the watch with the client's cursor. */
  lemma SessionResumeIsExact(w: WatchState, s: Session, key: Key, startRev: nat, entries: seq<Event>,
                             ops: seq<SessionOp>)
    requires WatchInv(w) && |w.store.log| > 0 && SessionAllowed(w, s, OpRegister(key, startRev, entries))
    requires w.store.logStart <= startRev
    ensures var out := WorldRun(Begin(w, s, key, startRev, entries), ops);
      out.Some? ==>
        var x := out.value;
        && View(x.l) == Select(x.l.w.store.history, key, startRev, ServedTo(x.l))
        && Resumed(x.l) <= View(x.l) <= Select(x.l.w.store.history, key, startRev, x.l.w.store.Head())
        && TranscriptExact(Connections(x.l))
        && (x.id.Some? ==>
              x.id.value in x.s.watches && x.s.watches[x.id.value] == x.l.cursor
              && key == if x.id.value in x.s.keys then x.s.keys[x.id.value] else "")
  {
    hide LineInv, PastInv, WatchInv, WorldAllowed, SessionAllowed, LineStep, WorldStep, Select, TranscriptExact;
    BeginKeeps(w, s, key, startRev, entries);
    var x := Begin(w, s, key, startRev, entries);
    BeginNames(w, s, key, startRev, entries);
    WorldRunKeeps(x, ops);
    var out := WorldRun(x, ops);
    if out.Some? {
      FollowsID(out.value.l, out.value.id);
      LineIsExact(out.value.l);
      LineTranscript(out.value.l);
    }
  }

  lemma BeginNames(w: WatchState, s: Session, key: Key, startRev: nat, entries: seq<Event>)
    requires |w.store.log| > 0 && SessionAllowed(w, s, OpRegister(key, startRev, entries))
    ensures Begin(w, s, key, startRev, entries).l.key == key && Begin(w, s, key, startRev, entries).l.origin == startRev
  {
    hide SessionAllowed, SessionStep, WatchSpec.Watch;
  }
}
