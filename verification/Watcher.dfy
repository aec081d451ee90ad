/** The watcher itself: a mutable table of watches over a store. Each method is
    one critical section; `DeliverLoop` is the loop that serves one watch. */
module Watcher {
  import opened Model
  import opened StoreSpec
  import opened StoreInvariant
  import opened WatchSpec
  import opened WatchTheorems
  import opened Decimal
  import Store

  ghost predicate ByRev(entries: seq<Event>) {
    forall i, j :: 0 <= i < j < |entries| ==> entries[i].rev <= entries[j].rev
  }

  /** Puts one more entry where its revision belongs. */
  method Insert(entries: seq<Event>, e: Event) returns (out: seq<Event>, ghost i: nat)
    requires ByRev(entries)
    ensures i <= |entries| && out == entries[..i] + [e] + entries[i..]
    ensures ByRev(out)
  {
    var n: nat := |entries|;
    while n > 0 && entries[n - 1].rev > e.rev
      invariant n <= |entries| && forall j :: n <= j < |entries| ==> e.rev < entries[j].rev
    {
      n := n - 1;
    }
    return entries[..n] + [e] + entries[n..], n;
  }

  /** The live entries of a snapshot, collected in whatever order the map yields
      them and sorted by revision. */
  method SnapshotEntries(snapshot: map<Key, Version>) returns (entries: seq<Event>)
    ensures EntriesOf(entries, snapshot)
  {
    entries := [];
    var todo := snapshot.Keys;
    while todo != {}
      invariant todo <= snapshot.Keys && ByRev(entries)
      invariant forall i, j :: 0 <= i < j < |entries| ==> entries[i].key != entries[j].key
      invariant forall e :: e in entries ==>
        e.key in snapshot && e.key !in todo && !snapshot[e.key].deleted
        && e == Event(Put, e.key, snapshot[e.key].value, snapshot[e.key].rev)
      invariant forall k :: k in snapshot && k !in todo && !snapshot[k].deleted ==>
        Event(Put, k, snapshot[k].value, snapshot[k].rev) in entries
    {
      var k :| k in todo;
      todo := todo - {k};
      if !snapshot[k].deleted {
        ghost var was := entries;
        ghost var i;
        assert forall e :: e in was ==> e.key != k;
        entries, i := Insert(entries, Event(Put, k, snapshot[k].value, snapshot[k].rev));
        assert forall e :: e in was <==> e in was[..i] || e in was[i..];
      }
    }
  }

  class Watcher {
    var subs: map<nat, Sub>
    var nextID: nat
    var acks: map<nat, nat>
    const store: Store.Store

    ghost function State(): WatchState
      reads this, store, store.log
    {
      WatchState(store.State(), subs, nextID, acks)
    }

    ghost predicate Valid()
      reads this, store, store.log
    {
      store.Valid() && WatchInv(State())
    }

    constructor (store: Store.Store)
      requires store.Valid()
      ensures Valid() && this.store == store
      ensures State() == NewWatcher(store.State())
    {
      this.store := store;
      subs, nextID, acks := map[], 0, map[];
    }

    /** The name of a watch, as its client sees it. */
    method Name(id: nat) returns (name: string)
      requires id <= MAX_UINT64
      ensures name == "watch-" + Digits(id)
    {
      var digits := Itoa(id);
      return "watch-" + digits;
    }

    /** Subscribes to a key from a revision on. The head is read first; the stream is
        opened in a second critical section of the store. */
    method Watch(key: Key, startRev: nat) returns (r: Result<nat>, ghost entries: seq<Event>)
      requires Valid()
      modifies this, store
      ensures Valid()
      ensures |old(State()).store.log| > 0 && WatchAllowed(old(State()), OpWatch(key, startRev, entries))
      ensures (State(), r) == WatchSpec.Watch(old(State()), key, startRev, entries)
    {
      hide Inv, Ordered, Open, EntriesOf, WatchSpec.Watch, WatchAllowed;
      var head := store.CurrentRev();
      r, entries := Subscribe(key, startRev, startRev < head);
    }

    /** The second part, on a decision that may be out of date: the head can have
        moved since, but only up. */
    method Subscribe(key: Key, startRev: nat, replay: bool) returns (r: Result<nat>, ghost entries: seq<Event>)
      requires Valid() && (replay ==> startRev < store.State().Head())
      modifies this, store
      ensures Valid() && |old(State()).store.log| > 0
      ensures replay || startRev >= old(State()).store.Head() ==>
        && (State(), r) == WatchSpec.Watch(old(State()), key, startRev, entries)
        && WatchAllowed(old(State()), OpWatch(key, startRev, entries))
      ensures !replay && startRev < old(State()).store.Head() ==>
        && r.Ok? && (State(), r.value) == WatchLate(old(State()), key, startRev, entries)
        && WatchAllowed(old(State()), OpWatchLate(key, startRev, entries))
    {
      hide Inv, Ordered, Open, EntriesOf, OpenLiveStream, WatchSpec.Watch, WatchLate, WatchAllowed;
      LogNonempty(store.State());
      ghost var was := State();
      OpenKeeps(was.store, startRev);
      OpenShape(was.store, startRev);
      LiveShape(was.store);
      nextID := nextID + 1;
      var stream := OpenStream(startRev, replay);
      entries := [];
      if stream.Err? {
        r := Err(stream.error);
      } else {
        var found := SnapshotEntries(store.streams[stream.value].snapshot);
        entries := found;
        subs := subs[nextID := Sub(key, startRev, stream.value, found, startRev, None, [], 0, false)];
        r := Ok(nextID);
      }
      if replay || startRev >= was.store.Head() {
        WatchKeeps(was, key, startRev, entries);
        Watched(was, key, startRev, entries, State(), r);
      } else {
        WatchLateKeeps(was, key, startRev, entries);
        WatchedLate(was, key, startRev, entries, State(), r);
      }
    }

    method OpenStream(startRev: nat, replay: bool) returns (r: Result<nat>)
      requires store.Valid() && |store.State().log| > 0
      requires replay ==> startRev < store.State().Head()
      modifies store
      ensures store.Valid()
      ensures replay || startRev >= old(store.State()).Head() ==>
        (store.State(), r) == Open(old(store.State()), startRev)
      ensures !replay ==> r.Ok? && (store.State(), r.value) == OpenLiveStream(old(store.State()))
    {
      hide Inv, StoreSpec.OpenStream, StoreSpec.OpenLiveStream;
      if !replay {
        var stream := store.OpenLiveStream();
        return Ok(stream);
      }
      r := store.OpenStream(startRev);
    }

    /** Advances the acknowledged cursor of a watch. */
    method Ack(id: nat, rev: nat)
      requires Valid()
      modifies this`acks
      ensures Valid()
      ensures State() == WatchSpec.Ack(old(State()), id, rev)
    {
      hide Inv, Ordered;
      if rev > (if id in acks then acks[id] else 0) {
        acks := acks[id := rev];
      }
    }

    /** Stops a watch and closes its stream. */
    method Cancel(id: nat)
      requires Valid()
      modifies this, store
      ensures Valid()
      ensures State() == WatchSpec.Cancel(old(State()), id)
    {
      hide Inv, Ordered, CloseStream;
      CancelKeeps(State(), id);
      if id !in subs || subs[id].closed {
        return;
      }
      acks := acks - {id};
      subs := subs[id := subs[id].(closed := true)];
      store.CloseStream(subs[id].stream);
    }

    /** The delivery loop's next step on a snapshot entry. */
    method NextEntry(id: nat)
      requires Valid() && id in subs && Ready(subs[id]) && subs[id].pending != []
      modifies this`subs
      ensures Valid()
      ensures State() == WatchSpec.NextEntry(old(State()), id)
    {
      hide Inv, Ordered;
      NextEntryKeeps(State(), id);
      var sub := subs[id];
      var ev := sub.pending[0];
      sub := sub.(pending := sub.pending[1..]);
      if Match(ev, sub.key) && ev.rev > sub.cursor {
        sub := sub.(cursor := ev.rev, held := Some(ev));
      }
      subs := subs[id := sub];
    }

    /** The delivery loop's next step on its stream; waits for nothing. */
    method NextEvent(id: nat) returns (some: bool)
      requires Valid() && id in subs && Ready(subs[id]) && subs[id].pending == []
      modifies this`subs, store
      ensures Valid()
      ensures some <==> HasEvent(old(store.State()), old(subs)[id].stream)
      ensures State() == WatchSpec.NextEvent(old(State()), id)
    {
      hide Inv, Ordered, StoreSpec.Receive;
      NextEventKeeps(State(), id);
      var sub := subs[id];
      var ev := store.Receive(sub.stream);
      if ev == None {
        NothingReceived(old(store.State()), sub.stream);
        return false;
      }
      if ev.value.rev > sub.cursor && Match(ev.value, sub.key) {
        sub := sub.(cursor := ev.value.rev, held := Some(ev.value));
      }
      subs := subs[id := sub];
      assert State() == WatchSpec.NextEvent(old(State()), id);
      return true;
    }

    /** Puts the event in hand on the channel, unless the channel is full. */
    method Send(id: nat) returns (sent: bool)
      requires Valid() && id in subs && subs[id].held.Some?
      modifies this`subs
      ensures Valid()
      ensures sent <==> |old(subs)[id].delivered| < old(subs)[id].consumed + CHANNEL_CAPACITY
      ensures State() == WatchSpec.Send(old(State()), id)
    {
      hide Inv, Ordered;
      SendKeeps(State(), id);
      var sub := subs[id];
      if |sub.delivered| >= sub.consumed + CHANNEL_CAPACITY {
        return false;
      }
      subs := subs[id := sub.(delivered := sub.delivered + [sub.held.value], held := None)];
      return true;
    }

    /** One turn of the delivery loop, if there is anything it can do. */
    method Serve(id: nat) returns (more: bool, ghost op: WatchOp)
      requires Valid() && id in subs
      modifies this`subs, store
      ensures Valid() && id in subs
      ensures |old(State()).store.log| > 0 && op in {OpNextEntry(id), OpNextEvent(id), OpSend(id)}
      ensures more ==> State() == WatchStep(old(State()), op) && Backlog(State(), id) < old(Backlog(State(), id))
      ensures !more ==> State() == old(State()) && Idle(State(), id)
    {
      hide Inv, WatchInv, StoreSpec.Receive, WatchSpec.NextEntry, WatchSpec.NextEvent, WatchSpec.Send, Backlog;
      ghost var was := State();
      LogNonempty(was.store);
      op := OpSend(id);
      if subs[id].held.Some? {
        more := Send(id);
        SendProgress(was, id);
      } else if subs[id].closed {
        more := false;
      } else if subs[id].pending != [] {
        op := OpNextEntry(id);
        NextEntry(id);
        more := true;
        NextEntryProgress(was, id);
      } else {
        op := OpNextEvent(id);
        more := NextEvent(id);
        NextEventProgress(was, id);
      }
    }

    /** Serves one watch until its loop can do nothing more for now. */
    method DeliverLoop(id: nat) returns (ghost ops: seq<WatchOp>)
      requires Valid() && id in subs
      modifies this`subs, store
      ensures Valid() && id in subs
      ensures |old(State()).store.log| > 0 && State() == WatchRun(old(State()), ops)
      ensures forall op :: op in ops ==> op in {OpNextEntry(id), OpNextEvent(id), OpSend(id)}
      ensures Idle(State(), id)
    {
      hide Inv, WatchInv, WatchStep, Idle, Backlog;
      ghost var was := State();
      LogNonempty(was.store);
      ops := [];
      var more := true;
      while more
        invariant Valid() && id in subs
        invariant State() == WatchRun(was, ops)
        invariant forall op :: op in ops ==> op in {OpNextEntry(id), OpNextEvent(id), OpSend(id)}
        invariant !more ==> Idle(State(), id)
        decreases if more then 1 + Backlog(State(), id) else 0
      {
        ghost var op;
        more, op := Serve(id);
        if more {
          assert (ops + [op])[..|ops|] == ops;
          ops := ops + [op];
        }
      }
    }

    /** The consumer's side of the channel. */
    method Consume(id: nat) returns (ev: Option<Event>)
      requires Valid()
      modifies this`subs
      ensures Valid()
      ensures State() == WatchSpec.Consume(old(State()), id)
      ensures ev == if id in old(subs) && old(subs)[id].consumed < |old(subs)[id].delivered|
                    then Some(old(subs)[id].delivered[old(subs)[id].consumed]) else None
    {
      hide Inv, Ordered;
      ConsumeKeeps(State(), id);
      if id !in subs || subs[id].consumed >= |subs[id].delivered| {
        return None;
      }
      ev := Some(subs[id].delivered[subs[id].consumed]);
      subs := subs[id := subs[id].(consumed := subs[id].consumed + 1)];
    }
  }

  /** What a delivery loop still has to handle; an event not yet in hand counts
      twice, as it must be taken and sent. */
  ghost function Backlog(w: WatchState, id: nat): nat
    requires id in w.subs
  {
    var sub := w.subs[id];
    2 * |sub.pending| + (if sub.held.Some? then 1 else 0)
    + (if sub.stream in w.store.streams then 2 * |w.store.streams[sub.stream].ch| else 0)
  }

  lemma SendProgress(w: WatchState, id: nat)
    requires id in w.subs && w.subs[id].held.Some?
    ensures var w' := WatchSpec.Send(w, id);
      if |w.subs[id].delivered| < w.subs[id].consumed + CHANNEL_CAPACITY
      then id in w'.subs && Backlog(w', id) < Backlog(w, id) else w' == w
  {
  }

  lemma NextEntryProgress(w: WatchState, id: nat)
    requires id in w.subs && Ready(w.subs[id]) && w.subs[id].pending != []
    ensures id in WatchSpec.NextEntry(w, id).subs && Backlog(WatchSpec.NextEntry(w, id), id) < Backlog(w, id)
  {
  }

  lemma NextEventProgress(w: WatchState, id: nat)
    requires id in w.subs && Ready(w.subs[id]) && w.subs[id].pending == []
    ensures var w' := WatchSpec.NextEvent(w, id);
      if HasEvent(w.store, w.subs[id].stream)
      then id in w'.subs && Backlog(w', id) < Backlog(w, id) else w' == w
  {
  }

  lemma NothingReceived(s: StoreState, stream: nat)
    requires !HasEvent(s, stream)
    ensures StoreSpec.Receive(s, stream) == s
  {
  }

  lemma Watched(w: WatchState, key: Key, startRev: nat, entries: seq<Event>, w': WatchState, r: Result<nat>)
    requires |w.store.log| > 0
    requires var (s', out) := Open(w.store, startRev);
      && w' == w.(store := s', nextID := w.nextID + 1,
                  subs := if out.Ok? then
                      w.subs[w.nextID + 1 := Sub(key, startRev, out.value, entries, startRev, None, [], 0, false)]
                    else w.subs)
      && r == (if out.Ok? then Ok(w.nextID + 1) else Err(out.error))
      && (out.Ok? ==> out.value in s'.streams && EntriesOf(entries, s'.streams[out.value].snapshot))
    ensures (w', r) == WatchSpec.Watch(w, key, startRev, entries)
    ensures WatchAllowed(w, OpWatch(key, startRev, entries))
  {
    hide Open, EntriesOf;
  }

  lemma WatchedLate(w: WatchState, key: Key, startRev: nat, entries: seq<Event>, w': WatchState, r: Result<nat>)
    requires Inv(w.store) && |w.store.log| > 0 && startRev < w.store.Head() && r == Ok(w.nextID + 1)
    requires var (s', stream) := OpenLiveStream(w.store);
      && w' == w.(store := s', nextID := w.nextID + 1,
                  subs := w.subs[w.nextID + 1 := Sub(key, startRev, stream, entries, startRev, None, [], 0, false)])
      && stream in s'.streams && EntriesOf(entries, s'.streams[stream].snapshot)
    ensures (w', r.value) == WatchLate(w, key, startRev, entries)
    ensures WatchAllowed(w, OpWatchLate(key, startRev, entries))
  {
    LiveShape(w.store);
    hide Inv, EntriesOf, OpenLiveStream;
  }
}
