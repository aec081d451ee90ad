/** What each operation on a session does with its watches, said of the watches, the
    cursors and the record themselves. */
module SessionEffects {
  import opened Model
  import opened StoreInvariant
  import opened WatchSpec
  import opened WatchTheorems
  import opened WatchEffects
  import opened SessionSpec

  /** An acknowledgement raises the cursor on record to the revision given, or leaves
      it if that is no higher, and nothing else on record changes but the time. */
  lemma AckedRaises(s: Session, id: nat, rev: nat, now: int)
    ensures var s' := Acked(s, id, rev, now); var was := if id in s.watches then s.watches[id] else 0;
      && s' == s.(watches := s'.watches, lastSeen := now)
      && (if id in s'.watches then s'.watches[id] else 0) == (if rev > was then rev else was)
      && (forall other :: other != id ==>
            && (other in s'.watches <==> other in s.watches)
            && (other in s.watches ==> s'.watches[other] == s.watches[other]))
  {
  }

  // ---------- disconnecting ----------

  /** The watch has ended, with its stream and its cursor. */
  ghost predicate EndedAt(w: WatchState, w': WatchState, id: nat)
    requires id in w.subs && id in w'.subs
  {
    var stream := w.subs[id].stream;
    && w'.subs[id] == w.subs[id].(closed := true)
    && (!w.subs[id].closed ==> id !in w'.acks && stream in w'.store.streams && w'.store.streams[stream].closed)
  }

  /** The watch, its stream and its cursor are as they were. */
  ghost predicate KeptAt(w: WatchState, w': WatchState, id: nat)
    requires id in w.subs && id in w'.subs
  {
    var stream := w.subs[id].stream;
    && w'.subs[id] == w.subs[id]
    && (id in w'.acks <==> id in w.acks) && (id in w.acks ==> w'.acks[id] == w.acks[id])
    && (stream in w.store.streams ==>
          stream in w'.store.streams && w'.store.streams[stream] == w.store.streams[stream])
  }

  /** Nothing is written or opened, and what has ended stays so. */
  ghost predicate OnlyEnds(w: WatchState, w': WatchState) {
    && w'.subs.Keys == w.subs.Keys && w'.nextID == w.nextID && w'.store.history == w.store.history
    && (forall id :: id in w'.acks ==> id in w.acks)
    && (forall id :: id in w.store.streams ==>
          id in w'.store.streams && (w.store.streams[id].closed ==> w'.store.streams[id].closed))
  }

  /** All watches in `ids` have ended, and no other was touched. */
  ghost predicate Ended(w: WatchState, w': WatchState, ids: seq<nat>) {
    && OnlyEnds(w, w')
    && forall id :: id in w.subs && id in w'.subs ==> if id in ids then EndedAt(w, w', id) else KeptAt(w, w', id)
  }

  lemma OneEnded(w: WatchState, id: nat)
    requires WatchInv(w)
    ensures Ended(w, WatchSpec.Cancel(w, id), [id])
  {
    hide Inv, Ordered;
  }

  lemma EndedMoreAt(w: WatchState, m: WatchState, w': WatchState, id: nat, first: bool, second: bool)
    requires id in w.subs && id in m.subs && id in w'.subs && OnlyEnds(w, m) && OnlyEnds(m, w')
    requires if first then EndedAt(w, m, id) else KeptAt(w, m, id)
    requires if second then EndedAt(m, w', id) else KeptAt(m, w', id)
    ensures if first || second then EndedAt(w, w', id) else KeptAt(w, w', id)
  {
  }

  lemma EndedMore(w: WatchState, m: WatchState, w': WatchState, most: seq<nat>, id: nat)
    requires Ended(w, m, most) && Ended(m, w', [id])
    ensures Ended(w, w', most + [id])
  {
    hide EndedAt, KeptAt;
    forall i | i in w.subs && i in w'.subs
      ensures if i in most + [id] then EndedAt(w, w', i) else KeptAt(w, w', i)
    {
      assert i in m.subs.Keys;
      EndedMoreAt(w, m, w', i, i in most, i == id);
    }
  }

  /** Cancelling watches one after another ends exactly those, each with its stream
      and its cursor. */
  lemma {:induction false} CancelAllEnds(w: WatchState, ids: seq<nat>)
    requires WatchInv(w)
    ensures WatchInv(CancelAll(w, ids)) && Ended(w, CancelAll(w, ids), ids)
  {
    hide WatchInv, Ended, WatchSpec.Cancel;
    if ids == [] {
      NoneEnded(w);
    } else {
      var most, id := ids[..|ids| - 1], ids[|ids| - 1];
      CancelAllEnds(w, most);
      CancelKeeps(CancelAll(w, most), id);
      OneEnded(CancelAll(w, most), id);
      EndedMore(w, CancelAll(w, most), CancelAll(w, ids), most, id);
      assert most + [id] == ids;
    }
  }

  lemma NoneEnded(w: WatchState)
    ensures Ended(w, w, [])
  {
  }

  /** Disconnecting ends every watch on record, with its stream, and no other; the
      record keeps all its cursors and keys. */
  lemma DisconnectEnds(w: WatchState, s: Session, order: seq<nat>, now: int)
    requires WatchInv(w) && |w.store.log| > 0 && SessionAllowed(w, s, OpDisconnect(order, now))
    ensures var (w', s') := SessionStep(w, s, OpDisconnect(order, now));
      && s' == s.(state := Disconnected, lastSeen := now)
      && w'.store.history == w.store.history
      && (forall id :: id in w.subs ==>
            id in w'.subs && if id in s.watches then EndedAt(w, w', id) else KeptAt(w, w', id))
  {
    hide WatchInv, EndedAt, KeptAt;
    CancelAllEnds(w, order);
    assert forall id :: id in w.subs ==> id in CancelAll(w, order).subs.Keys;
  }

  // ---------- reconnecting ----------

  /** Every watch on record is a watch of its own for the recorded key from the
      recorded cursor, that has delivered nothing yet. */
  ghost predicate AsRecorded(b: Rebuild) {
    b.keys.Keys == b.watches.Keys &&
    forall id :: id in b.watches ==>
      && id in b.w.subs && !b.w.subs[id].closed
      && b.w.subs[id].key == b.keys[id] && b.w.subs[id].start == b.watches[id]
      && b.w.subs[id].cursor == b.watches[id] && b.w.subs[id].delivered == []
  }

  lemma OneRecorded(b: Rebuild, b': Rebuild, id: nat)
    requires AsRecorded(b) && id !in b.w.subs && id in b'.w.subs && id in b'.watches && id in b'.keys
    requires b'.w.subs == b.w.subs[id := b'.w.subs[id]]
    requires b'.watches == b.watches[id := b'.watches[id]] && b'.keys == b.keys[id := b'.keys[id]]
    requires var sub := b'.w.subs[id];
      && !sub.closed && sub.key == b'.keys[id] && sub.start == b'.watches[id]
      && sub.cursor == b'.watches[id] && sub.delivered == []
    ensures AsRecorded(b')
  {
    assert b'.keys.Keys == b.keys.Keys + {id} && b'.watches.Keys == b.watches.Keys + {id};
  }

  lemma FailedAsRecorded(b: Rebuild, b': Rebuild)
    requires AsRecorded(b) && b'.w.subs == b.w.subs && b'.watches == b.watches && b'.keys == b.keys
    ensures AsRecorded(b')
  {
  }

  lemma RebuildOneAsRecorded(b: Rebuild, s: Session, id: nat, entries: seq<Event>)
    requires WatchInv(b.w) && |b.w.store.log| > 0 && id in s.watches && AsRecorded(b)
    ensures WatchInv(RebuildOne(b, s, id, entries).w) && AsRecorded(RebuildOne(b, s, id, entries))
  {
    hide WatchInv, WatchStep, WatchSpec.Watch, AsRecorded;
    var op := OpWatch(s.KeyOf(id), s.watches[id], entries);
    WatchStepKeeps(b.w, op);
    BeginsAsAsked(b.w, op.key, op.startRev, entries);
    var r := WatchSpec.Watch(b.w, op.key, op.startRev, entries).1;
    if r.Ok? {
      OneRecorded(b, RebuildOne(b, s, id, entries), r.value);
    } else {
      FailedAsRecorded(b, RebuildOne(b, s, id, entries));
    }
  }

  lemma BeginsAsAsked(w: WatchState, key: Key, startRev: nat, entries: seq<Event>)
    requires WatchInv(w) && |w.store.log| > 0
    ensures var (w', r) := WatchSpec.Watch(w, key, startRev, entries);
      && w' == WatchStep(w, OpWatch(key, startRev, entries))
      && (r.Err? ==> w'.subs == w.subs)
      && (r.Ok? ==>
            && r.value !in w.subs && w'.subs == w.subs[r.value := w'.subs[r.value]]
            && var sub := w'.subs[r.value];
            && !sub.closed && sub.key == key && sub.start == startRev && sub.cursor == startRev && sub.delivered == [])
  {
    hide WatchInv, WatchSpec.Watch;
    WatchBegins(w, key, startRev, entries);
  }

  /** After a reconnect what is on record is what is being watched. */
  lemma {:induction false} ReconnectedAsRecorded(
    w: WatchState, s: Session, order: seq<nat>, entries: seq<seq<Event>>)
    requires WatchInv(w) && |w.store.log| > 0 && |entries| == |order| && forall o :: o in order ==> o in s.watches
    ensures WatchInv(RebuildAll(w, s, order, entries).w) && AsRecorded(RebuildAll(w, s, order, entries))
  {
    hide WatchInv, RebuildOne;
    if order != [] {
      var n := |order| - 1;
      ReconnectedAsRecorded(w, s, order[..n], entries[..n]);
      RebuildOneAsRecorded(RebuildAll(w, s, order[..n], entries[..n]), s, order[n], entries[n]);
    }
  }
}
