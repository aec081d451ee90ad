/** Client sessions: the watches a session has on record with their acknowledged
    cursors, and what disconnecting and reconnecting do with them. */
module SessionSpec {
  import opened Model
  import opened LockSpec
  import opened WatchSpec

  type SessionID = string

  datatype SessionState = Connected | Disconnected | Closed

  datatype Session = Session(
    state: SessionState, leaseIDs: seq<LeaseID>, watches: map<nat, nat>, keys: map<nat, Key>, lastSeen: int)
  {
    /** A watch without a recorded key is rebuilt for the empty one. */
    function KeyOf(id: nat): Key {
      if id in keys then keys[id] else ""
    }
  }

  function NewSession(now: int): Session {
    Session(Connected, [], map[], map[], now)
  }

  function Record(s: Session, id: nat, key: Key, startRev: nat): Session {
    s.(watches := s.watches[id := startRev], keys := s.keys[id := key])
  }

  /** The cursor only moves forward; an unknown watch counts as cursor zero. */
  function Acked(s: Session, id: nat, rev: nat, now: int): Session {
    s.(watches := if rev > (if id in s.watches then s.watches[id] else 0) then s.watches[id := rev] else s.watches,
       lastSeen := now)
  }

  /** Cancels watches one after another. */
  function CancelAll(w: WatchState, ids: seq<nat>): WatchState {
    if ids == [] then w else WatchSpec.Cancel(CancelAll(w, ids[..|ids| - 1]), ids[|ids| - 1])
  }

  /** What reconnecting has put together so far. */
  datatype Rebuild = Rebuild(w: WatchState, watches: map<nat, nat>, keys: map<nat, Key>)

  /** Watches again, from its recorded cursor, one watch on record. It is dropped
      when it cannot be opened. */
  ghost function RebuildOne(b: Rebuild, s: Session, id: nat, entries: seq<Event>): (b': Rebuild)
    requires |b.w.store.log| > 0 && id in s.watches
    ensures |b'.w.store.log| == |b.w.store.log|
  {
    var key, cursor := s.KeyOf(id), s.watches[id];
    var w' := WatchStep(b.w, OpWatch(key, cursor, entries));
    var r := WatchSpec.Watch(b.w, key, cursor, entries).1;
    if r.Ok? then Rebuild(w', b.watches[r.value := cursor], b.keys[r.value := key]) else b.(w := w')
  }

  ghost function RebuildAll(w: WatchState, s: Session, order: seq<nat>, entries: seq<seq<Event>>): (b: Rebuild)
    requires |w.store.log| > 0 && |entries| == |order| && forall id :: id in order ==> id in s.watches
    ensures |b.w.store.log| == |w.store.log|
  {
    if order == [] then Rebuild(w, map[], map[])
    else
      var n := |order| - 1;
      RebuildOne(RebuildAll(w, s, order[..n], entries[..n]), s, order[n], entries[n])
  }

  /** The entries given are those of the snapshots the new streams capture. */
  ghost predicate RebuildAllowed(w: WatchState, s: Session, order: seq<nat>, entries: seq<seq<Event>>)
    requires |w.store.log| > 0 && |entries| == |order| && forall id :: id in order ==> id in s.watches
  {
    order != [] ==>
      var n := |order| - 1;
      && RebuildAllowed(w, s, order[..n], entries[..n])
      && WatchAllowed(RebuildAll(w, s, order[..n], entries[..n]).w,
                      OpWatch(s.KeyOf(order[n]), s.watches[order[n]], entries[n]))
  }

  datatype SessionOp =
    | OpElsewhere(op: WatchOp)
    | OpRegister(key: Key, startRev: nat, entries: seq<Event>)
    | OpAckWatch(id: nat, rev: nat, now: int)
    | OpDisconnect(order: seq<nat>, now: int)
    | OpReconnect(order: seq<nat>, snapshots: seq<seq<Event>>, now: int)

  /** The client acknowledges only what has been delivered to it. */
  ghost predicate SessionAllowed(w: WatchState, s: Session, op: SessionOp)
    requires |w.store.log| > 0
  {
    match op
    case OpElsewhere(o) => WatchAllowed(w, o)
    case OpRegister(key, startRev, entries) => WatchAllowed(w, OpWatch(key, startRev, entries))
    case OpAckWatch(id, rev, _) =>
      id in s.watches && rev > s.watches[id] ==>
        id in w.subs && w.subs[id].delivered != [] && rev <= w.subs[id].delivered[|w.subs[id].delivered| - 1].rev
    case OpDisconnect(order, _) => IsOrderOf(order, s.watches.Keys)
    case OpReconnect(order, entries, _) =>
      IsOrderOf(order, s.watches.Keys) && |entries| == |order| && RebuildAllowed(w, s, order, entries)
  }

  ghost function SessionStep(w: WatchState, s: Session, op: SessionOp): (out: (WatchState, Session))
    requires |w.store.log| > 0 && SessionAllowed(w, s, op)
  {
    match op
    case OpElsewhere(o) => (WatchStep(w, o), s)
    case OpRegister(key, startRev, entries) =>
      var r := WatchSpec.Watch(w, key, startRev, entries).1;
      (WatchStep(w, OpWatch(key, startRev, entries)), if r.Ok? then Record(s, r.value, key, startRev) else s)
    case OpAckWatch(id, rev, now) => (WatchSpec.Ack(w, id, rev), Acked(s, id, rev, now))
    case OpDisconnect(order, now) => (CancelAll(w, order), s.(state := Disconnected, lastSeen := now))
    case OpReconnect(order, entries, now) =>
      var b := RebuildAll(w, s, order, entries);
      (b.w, s.(state := Connected, lastSeen := now, watches := b.watches, keys := b.keys))
  }
}
