/** What each operation on a watch does, said of its events, its channel, its cursor
    and its stream themselves. */
module WatchEffects {
  import opened Model
  import opened StoreSpec
  import opened StoreInvariant
  import opened StoreTheorems
  import opened WatchSpec
  import opened WatchTheorems

  // ---------- opening ----------

  /** The number of events before the first one a watch from `startRev` is replayed. */
  function FirstKept(s: StoreState, startRev: nat): nat {
    if startRev >= |s.history| || s.logSize == 0 then |s.history|
    else if startRev >= s.logStart then startRev
    else if s.logSize < |s.log| then s.logStart - 1
    else s.logStart
  }

  lemma ReplayFromFirstKept(s: StoreState, startRev: nat)
    requires startRev < |s.history| && s.logStart + s.logSize == |s.history|
    ensures ReplayFrom(s, StreamStart(s, startRev)) == FirstKept(s, startRev)
    ensures StreamStart(s, startRev) ==
            if s.logSize > 0 && startRev + 1 < s.logStart then s.logStart - 1 else startRev
  {
  }

  lemma ReplayedStream(s: StoreState, startRev: nat)
    requires Inv(s) && |s.log| > 0 && startRev < |s.history|
    ensures FirstKept(s, startRev) <= |s.history|
    ensures var (s', r) := OpenStream(s, startRev);
      && (r.Ok? <==> |s.history| - FirstKept(s, startRev) <= 512)
      && (r.Err? ==> r == Err(ErrVersionReclaimed))
      && (r.Ok? ==>
            && r.value !in s.streams && r.value in s'.streams
            && var st := s'.streams[r.value];
            && !st.closed && st.taken == [] && st.Sent() == s.history[FirstKept(s, startRev)..]
            && st.start == if s.logSize > 0 && startRev + 1 < s.logStart then s.logStart - 1 else startRev)
  {
    FreshStreamId(s);
    LogEventsExact(s, StreamStart(s, startRev));
    ReplayFromFirstKept(s, startRev);
    hide Inv, LogEvents, ReplayFrom, Snapshot, FirstKept, StreamStart;
    var (s', r) := OpenStream(s, startRev);
    if r.Ok? {
      assert s'.streams[r.value].Sent() == LogEvents(s, StreamStart(s, startRev));
    }
  }

  lemma OpenReplays(s: StoreState, startRev: nat)
    requires Inv(s) && |s.log| > 0
    ensures FirstKept(s, startRev) <= |s.history|
    ensures var (s', r) := Open(s, startRev);
      && (r.Ok? <==> |s.history| - FirstKept(s, startRev) <= 512)
      && (r.Err? ==> r == Err(ErrVersionReclaimed))
      && (r.Ok? ==>
            && r.value !in s.streams && r.value in s'.streams
            && var st := s'.streams[r.value];
            && !st.closed && st.taken == [] && st.Sent() == s.history[FirstKept(s, startRev)..]
            && st.start == (if startRev >= |s.history| then |s.history|
                            else if s.logSize > 0 && startRev + 1 < s.logStart then s.logStart - 1 else startRev))
  {
    if startRev < |s.history| {
      ReplayedStream(s, startRev);
    } else {
      LiveShape(s);
      hide Inv, OpenLiveStream;
    }
  }

  /** When a watch can be opened, and that it is then new: from the head on it gets a
      live stream, below it the log is replayed from the revision asked for, or from
      where the log still reaches, and it fails if that is more than 512 events. */
  lemma WatchBegins(w: WatchState, key: Key, startRev: nat, entries: seq<Event>)
    requires WatchInv(w) && |w.store.log| > 0
    ensures FirstKept(w.store, startRev) <= |w.store.history|
    ensures var (w', r) := Watch(w, key, startRev, entries); var h := w.store.history;
      && (r.Ok? <==> |h| - FirstKept(w.store, startRev) <= 512)
      && w'.store.history == h && w'.acks == w.acks
      && (r.Err? ==> r == Err(ErrVersionReclaimed) && w'.subs == w.subs && w'.store.streams == w.store.streams)
      && (r.Ok? ==>
            && r.value !in w.subs && (forall i :: i in w.subs ==> i < r.value)
            && w'.subs == w.subs[r.value := w'.subs[r.value]]
            && var sub := w'.subs[r.value];
            && sub == Sub(key, startRev, sub.stream, entries, startRev, None, [], 0, false)
            && sub.stream !in w.store.streams && sub.stream in w'.store.streams
            && w'.store.streams == w.store.streams[sub.stream := w'.store.streams[sub.stream]]
            && var st := w'.store.streams[sub.stream];
            && !st.closed && st.taken == [] && st.Sent() == h[FirstKept(w.store, startRev)..]
            && st.start == (if startRev >= |h| then |h|
                            else if w.store.logSize > 0 && startRev + 1 < w.store.logStart
                            then w.store.logStart - 1 else startRev))
  {
    hide Inv, Open, Ordered, FirstKept;
    OpenKeeps(w.store, startRev);
    OpenShape(w.store, startRev);
    OpenReplays(w.store, startRev);
  }

  // ---------- the channel ----------

  /** What is in hand goes on the channel, last and whole, unless 256 events are
      there unread; and the client takes them off it one by one in that order. */
  lemma ChannelIsFifo(w: WatchState, id: nat)
    requires WatchInv(w) && id in w.subs
    ensures var sub := w.subs[id]; var unread := |sub.delivered| - sub.consumed;
      && 0 <= unread <= 256
      && Send(w, id) ==
         (if sub.held == None || unread == 256 then w
          else w.(subs := w.subs[id := sub.(delivered := sub.delivered + [sub.held.value], held := None)]))
      && Consume(w, id) == (if unread == 0 then w else w.(subs := w.subs[id := sub.(consumed := sub.consumed + 1)]))
  {
    hide Inv;
    assert Ordered(w.subs[id]);
  }

  // ---------- acknowledging ----------

  /** An acknowledgement raises the cursor of its own watch to the revision given, or
      leaves it where it is if that is no higher; nothing else changes. */
  lemma AckRaises(w: WatchState, id: nat, rev: nat)
    ensures var w' := Ack(w, id, rev); var was := if id in w.acks then w.acks[id] else 0;
      && w' == w.(acks := w'.acks)
      && (if id in w'.acks then w'.acks[id] else 0) == (if rev > was then rev else was)
      && forall other :: other != id ==> (other in w'.acks <==> other in w.acks)
                                         && (other in w.acks ==> w'.acks[other] == w.acks[other])
  {
  }

  // ---------- cancelling ----------

  lemma StoppedStep(w: WatchState, op: WatchOp, id: nat)
    requires WatchInv(w) && |w.store.log| > 0 && id in w.subs && w.subs[id].closed
    ensures var w' := WatchStep(w, op);
      && id in w'.subs && w'.subs[id].closed && w'.subs[id].Passed() == w.subs[id].Passed()
      && w.subs[id].delivered <= w'.subs[id].delivered
  {
    hide WatchInv, WatchStep;
    HasStream(w, id);
    if op.OpStore? || op == OpNextEvent(id) || op == OpNextEntry(id) {
      StoppedOwnStep(w, op, id);
    } else {
      OtherStepFrame(w, op, id);
    }
  }

  lemma StoppedOwnStep(w: WatchState, op: WatchOp, id: nat)
    requires |w.store.log| > 0 && id in w.subs && w.subs[id].closed
    requires op.OpStore? || op == OpNextEvent(id) || op == OpNextEntry(id)
    ensures WatchStep(w, op).subs == w.subs
  {
    hide Step;
  }

  lemma HasStream(w: WatchState, id: nat)
    requires WatchInv(w) && id in w.subs
    ensures w.subs[id].stream in w.store.streams
  {
    hide Inv, Ordered;
  }

  lemma {:induction false} StoppedRun(w: WatchState, ops: seq<WatchOp>, id: nat)
    requires WatchInv(w) && |w.store.log| > 0 && id in w.subs && w.subs[id].closed
    ensures var w' := WatchRun(w, ops);
      && id in w'.subs && w'.subs[id].closed && w'.subs[id].Passed() == w.subs[id].Passed()
      && w.subs[id].delivered <= w'.subs[id].delivered
  {
    hide WatchInv, WatchStep;
    if ops != [] {
      StoppedRun(w, ops[..|ops| - 1], id);
      WatchRunKeeps(w, ops[..|ops| - 1]);
      StoppedStep(WatchRun(w, ops[..|ops| - 1]), ops[|ops| - 1], id);
    }
  }

  lemma OnlyHeldIsLeft(sub: Sub, sub': Sub)
    requires sub'.Passed() == sub.Passed() && sub.delivered <= sub'.delivered
    ensures sub'.delivered == sub.delivered || (sub.held.Some? && sub'.delivered == sub.delivered + [sub.held.value])
  {
    assert |sub'.delivered| <= |sub.delivered| + 1;
    assert sub'.delivered == sub.Passed()[..|sub'.delivered|];
  }

  /** Cancelling ends the watch, its stream and its cursor, and touches no other. From
      then on, whatever happens, it delivers nothing but an event it had in hand. */
  lemma CancelEnds(w: WatchState, id: nat, ops: seq<WatchOp>)
    requires WatchInv(w) && |w.store.log| > 0
    ensures !IsOpen(w, id) ==> Cancel(w, id) == w
    ensures IsOpen(w, id) ==>
      var w1 := Cancel(w, id); var stream := w.subs[id].stream;
      && w1.subs == w.subs[id := w.subs[id].(closed := true)] && w1.acks == w.acks - {id}
      && w1.nextID == w.nextID && w1.store.history == w.store.history
      && stream in w.store.streams && stream in w1.store.streams && w1.store.streams[stream].closed
      && (forall other :: other in w.store.streams && other != stream ==>
            other in w1.store.streams && w1.store.streams[other] == w.store.streams[other])
      && var w2 := WatchRun(w1, ops);
      && id in w2.subs && w2.subs[id].closed
      && (w2.subs[id].delivered == w.subs[id].delivered
          || (w.subs[id].held.Some? && w2.subs[id].delivered == w.subs[id].delivered + [w.subs[id].held.value]))
  {
    hide Inv, Ordered, WatchRun;
    CancelKeeps(w, id);
    if IsOpen(w, id) {
      var w1 := Cancel(w, id);
      assert w1.subs[id].Passed() == w.subs[id].Passed();
      StoppedRun(w1, ops, id);
      OnlyHeldIsLeft(w.subs[id], WatchRun(w1, ops).subs[id]);
    }
  }
}
