/** Watches as a state machine over the store. A watch has a stream, the snapshot
    entries still to be considered, a cursor, the event its delivery loop has in
    hand, and the events it has put on its channel. */
module WatchSpec {
  import opened Model
  import opened History
  import opened StoreSpec

  const CHANNEL_CAPACITY := 256

  /** `consumed` of the `delivered` events have been read from the channel. */
  datatype Sub = Sub(
    key: Key, start: nat, stream: nat, pending: seq<Event>, cursor: nat,
    held: Option<Event>, delivered: seq<Event>, consumed: nat, closed: bool)
  {
    function Passed(): seq<Event> {
      delivered + (if held == None then [] else [held.value])
    }
  }

  datatype WatchState = WatchState(store: StoreState, subs: map<nat, Sub>, nextID: nat, acks: map<nat, nat>)

  predicate IsOpen(w: WatchState, id: nat) {
    id in w.subs && !w.subs[id].closed
  }

  /** The live entries of a snapshot as put events, in revision order. */
  ghost predicate EntriesOf(entries: seq<Event>, snapshot: map<Key, Version>) {
    && (forall i, j :: 0 <= i < j < |entries| ==>
          entries[i].rev <= entries[j].rev && entries[i].key != entries[j].key)
    && (forall e :: e in entries ==>
          e.key in snapshot && !snapshot[e.key].deleted
          && e == Event(Put, e.key, snapshot[e.key].value, snapshot[e.key].rev))
    && (forall k :: k in snapshot && !snapshot[k].deleted ==>
          Event(Put, k, snapshot[k].value, snapshot[k].rev) in entries)
  }

  /** From the head on a live stream is enough; below it the log is replayed. */
  function Open(s: StoreState, startRev: nat): (StoreState, Result<nat>)
    requires |s.log| > 0
  {
    if startRev >= s.Head() then (OpenLiveStream(s).0, Ok(OpenLiveStream(s).1)) else OpenStream(s, startRev)
  }

  /** `entries` are the snapshot's entries in the order the watch will see them. */
  function Watch(w: WatchState, key: Key, startRev: nat, entries: seq<Event>): (WatchState, Result<nat>)
    requires |w.store.log| > 0
  {
    var id := w.nextID + 1;
    var (s', r) := Open(w.store, startRev);
    match r
    case Err(e) => (w.(store := s', nextID := id), Err(e))
    case Ok(stream) =>
      (w.(store := s', nextID := id,
          subs := w.subs[id := Sub(key, startRev, stream, entries, startRev, None, [], 0, false)]),
       Ok(id))
  }

  /** The same when a write has come between reading the head and opening the stream:
      what was the head then is below it now, and still a live stream is opened. */
  function WatchLate(w: WatchState, key: Key, startRev: nat, entries: seq<Event>): (WatchState, nat) {
    var id := w.nextID + 1;
    var (s', stream) := OpenLiveStream(w.store);
    (w.(store := s', nextID := id,
        subs := w.subs[id := Sub(key, startRev, stream, entries, startRev, None, [], 0, false)]),
     id)
  }

  /** The delivery loop takes an event in hand unless it is filtered out. */
  function Consider(sub: Sub, ev: Event): Sub {
    if ev.rev <= sub.cursor || !Match(ev, sub.key) then sub else sub.(cursor := ev.rev, held := Some(ev))
  }

  predicate Ready(sub: Sub) {
    !sub.closed && sub.held == None
  }

  function NextEntry(w: WatchState, id: nat): WatchState {
    if id in w.subs && Ready(w.subs[id]) && w.subs[id].pending != [] then
      var sub := w.subs[id];
      w.(subs := w.subs[id := Consider(sub.(pending := sub.pending[1..]), sub.pending[0])])
    else w
  }

  predicate HasEvent(s: StoreState, stream: nat) {
    stream in s.streams && s.streams[stream].ch != []
  }

  function NextEvent(w: WatchState, id: nat): WatchState {
    if id in w.subs && Ready(w.subs[id]) && w.subs[id].pending == [] && HasEvent(w.store, w.subs[id].stream) then
      var sub := w.subs[id];
      w.(store := Receive(w.store, sub.stream),
         subs := w.subs[id := Consider(sub, w.store.streams[sub.stream].ch[0])])
    else w
  }

  /** Puts the event in hand on the channel; a full channel blocks. The send may
      still win against a cancel that comes while the event is in hand. */
  function Send(w: WatchState, id: nat): WatchState {
    if id in w.subs && w.subs[id].held.Some?
       && |w.subs[id].delivered| < w.subs[id].consumed + CHANNEL_CAPACITY then
      var sub := w.subs[id];
      w.(subs := w.subs[id := sub.(delivered := sub.delivered + [sub.held.value], held := None)])
    else w
  }

  function Consume(w: WatchState, id: nat): WatchState {
    if id in w.subs && w.subs[id].consumed < |w.subs[id].delivered| then
      w.(subs := w.subs[id := w.subs[id].(consumed := w.subs[id].consumed + 1)])
    else w
  }

  function Ack(w: WatchState, id: nat, rev: nat): WatchState {
    if rev > (if id in w.acks then w.acks[id] else 0) then w.(acks := w.acks[id := rev]) else w
  }

  function Cancel(w: WatchState, id: nat): WatchState {
    if id in w.subs && !w.subs[id].closed then
      w.(subs := w.subs[id := w.subs[id].(closed := true)],
         acks := w.acks - {id},
         store := CloseStream(w.store, w.subs[id].stream))
    else w
  }

  datatype WatchOp =
    | OpStore(op: StoreOp)
    | OpWatch(key: Key, startRev: nat, entries: seq<Event>)
    | OpWatchLate(key: Key, startRev: nat, entries: seq<Event>)
    | OpNextEntry(id: nat)
    | OpNextEvent(id: nat)
    | OpSend(id: nat)
    | OpConsume(id: nat)
    | OpAck(id: nat, rev: nat)
    | OpCancel(id: nat)

  /** Streams are read and closed only by the watch that owns them. */
  ghost predicate WatchAllowed(w: WatchState, op: WatchOp)
    requires |w.store.log| > 0
  {
    && (op.OpStore? ==> !op.op.OpReceive? && !op.op.OpCloseStream?)
    && (op.OpWatchLate? ==>
          && op.startRev < w.store.Head()
          && EntriesOf(op.entries, Snapshot(w.store, w.store.Head())))
    && (op.OpWatch? && Open(w.store, op.startRev).1.Ok? ==>
          var (s', r) := Open(w.store, op.startRev);
          r.value in s'.streams && EntriesOf(op.entries, s'.streams[r.value].snapshot))
  }

  ghost function WatchStep(w: WatchState, op: WatchOp): (w': WatchState)
    requires |w.store.log| > 0
    ensures |w'.store.log| == |w.store.log|
  {
    match op
    case OpStore(o) => w.(store := Step(w.store, o))
    case OpWatch(key, startRev, entries) => Watch(w, key, startRev, entries).0
    case OpWatchLate(key, startRev, entries) => WatchLate(w, key, startRev, entries).0
    case OpNextEntry(id) => NextEntry(w, id)
    case OpNextEvent(id) => NextEvent(w, id)
    case OpSend(id) => Send(w, id)
    case OpConsume(id) => Consume(w, id)
    case OpAck(id, rev) => Ack(w, id, rev)
    case OpCancel(id) => Cancel(w, id)
  }

  // ---------- what a watch should deliver ----------

  /** The events of interest with a revision above `a` and at most `b`. */
  function Select(evs: seq<Event>, key: Key, a: nat, b: nat): seq<Event> {
    if evs == [] then []
    else
      var ev := evs[|evs| - 1];
      Select(evs[..|evs| - 1], key, a, b) + (if a < ev.rev <= b && Match(ev, key) then [ev] else [])
  }

  lemma {:induction false} SelectSplit(h: seq<Event>, key: Key, a: nat, b: nat, c: nat)
    requires WellFormed(h) && a <= b <= c
    ensures Select(h, key, a, c) == Select(h, key, a, b) + Select(h, key, b, c)
  {
    if h != [] {
      SelectSplit(h[..|h| - 1], key, a, b, c);
      SelectAbove(h[..|h| - 1], key, b, c);
    }
  }

  /** Nothing above the length of a history can be selected from it. */
  lemma {:induction false} SelectAbove(h: seq<Event>, key: Key, a: nat, b: nat)
    requires WellFormed(h)
    ensures |h| <= a || b <= a ==> Select(h, key, a, b) == []
  {
    if h != [] {
      SelectAbove(h[..|h| - 1], key, a, b);
    }
  }

  /** Later events do not change a selection that lies within the history. */
  lemma {:induction false} SelectStable(h: seq<Event>, h': seq<Event>, key: Key, a: nat, b: nat)
    requires WellFormed(h') && h <= h' && (b <= |h| || b <= a)
    ensures Select(h', key, a, b) == Select(h, key, a, b)
  {
    if |h'| > |h| {
      SelectStable(h, h'[..|h'| - 1], key, a, b);
    } else {
      assert h == h';
    }
  }

  /** Selecting one revision further adds that event if it is of interest. */
  lemma {:induction false} SelectOne(h: seq<Event>, key: Key, a: nat, p: nat)
    requires WellFormed(h) && p < |h|
    ensures Select(h, key, a, p + 1) ==
            Select(h, key, a, p) + (if a < p + 1 && Match(h[p], key) then [h[p]] else [])
  {
    if p == |h| - 1 {
      SelectStable(h[..p], h, key, a, p);
      SelectWhole(h[..p], key, a, p, p + 1);
    } else {
      SelectOne(h[..|h| - 1], key, a, p);
    }
  }

  lemma {:induction false} SelectWhole(h: seq<Event>, key: Key, a: nat, b: nat, c: nat)
    requires WellFormed(h) && |h| <= b && |h| <= c
    ensures Select(h, key, a, b) == Select(h, key, a, c)
  {
    if h != [] {
      SelectWhole(h[..|h| - 1], key, a, b, c);
    }
  }

  lemma {:induction false} SelectRevs(h: seq<Event>, key: Key, a: nat, b: nat)
    requires WellFormed(h)
    ensures forall i :: 0 <= i < |Select(h, key, a, b)| ==> a < Select(h, key, a, b)[i].rev <= b
    ensures forall i :: 0 <= i < |Select(h, key, a, b)| ==> Select(h, key, a, b)[i].rev <= |h|
  {
    if h != [] {
      SelectRevs(h[..|h| - 1], key, a, b);
    }
  }

  lemma {:induction false} SelectAgain(evs: seq<Event>, key: Key, a: nat, b: nat, c: nat)
    requires c <= b
    ensures Select(Select(evs, key, a, b), "", a, c) == Select(evs, key, a, c)
  {
    if evs != [] {
      var most, ev := evs[..|evs| - 1], evs[|evs| - 1];
      SelectAgain(most, key, a, b, c);
      if a < ev.rev <= b && Match(ev, key) {
        assert (Select(most, key, a, b) + [ev])[..|Select(most, key, a, b)|] == Select(most, key, a, b);
      } else {
        assert Select(evs, key, a, b) == Select(most, key, a, b);
      }
    }
  }
}
