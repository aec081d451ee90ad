/** The session manager itself: a mutable table of sessions over a watcher and a
    lease manager. */
module Session {
  import opened Model
  import opened StoreSpec
  import opened StoreInvariant
  import opened LockSpec
  import opened WatchSpec
  import opened WatchTheorems
  import opened SessionSpec
  import LeaseSpec
  import Lease
  import Watcher

  class Manager {
    var sessions: map<SessionID, SessionSpec.Session>
    const watcher: Watcher.Watcher
    const leases: Lease.Manager

    ghost function Watches(): WatchState
      reads watcher, watcher.store, watcher.store.log
    {
      watcher.State()
    }

    ghost predicate Valid()
      reads this, leases, watcher, watcher.store, watcher.store.log
    {
      watcher.Valid() && leases.Valid()
    }

    constructor (watcher: Watcher.Watcher, leases: Lease.Manager)
      requires watcher.Valid() && leases.Valid()
      ensures Valid() && this.watcher == watcher && this.leases == leases && sessions == map[]
    {
      sessions, this.watcher, this.leases := map[], watcher, leases;
    }

    /** Registers a session; one that exists is left as it is. */
    method Connect(id: SessionID, now: int)
      modifies this
      ensures sessions == if id in old(sessions) then old(sessions)
        else old(sessions)[id := SessionSpec.Session(Connected, [], map[], map[], now)]
    {
      if id in sessions {
        return;
      }
      sessions := sessions[id := NewSession(now)];
    }

    /** Binds a lease once. */
    method BindLease(id: SessionID, lease: LeaseID) returns (found: bool)
      modifies this
      ensures found <==> id in old(sessions)
      ensures sessions.Keys == old(sessions).Keys
      ensures forall i :: i in sessions && i != id ==> sessions[i] == old(sessions)[i]
      ensures found ==>
        var s := old(sessions)[id];
        sessions[id] == s.(leaseIDs := if lease in s.leaseIDs then s.leaseIDs else s.leaseIDs + [lease])
    {
      if id !in sessions {
        return false;
      }
      var s := sessions[id];
      var i := 0;
      while i < |s.leaseIDs|
        invariant i <= |s.leaseIDs| && lease !in s.leaseIDs[..i]
      {
        if s.leaseIDs[i] == lease {
          return true;
        }
        i := i + 1;
      }
      sessions := sessions[id := s.(leaseIDs := s.leaseIDs + [lease])];
      return true;
    }

    /** Watches a key for a session; the watch exists even if the session does not. */
    method RegisterWatch(id: SessionID, key: Key, startRev: nat) returns (r: Result<nat>, ghost entries: seq<Event>)
      requires Valid()
      modifies this, watcher, watcher.store
      ensures Valid() && |old(Watches()).store.log| > 0
      ensures WatchAllowed(old(Watches()), OpWatch(key, startRev, entries))
      ensures (Watches(), r) == WatchSpec.Watch(old(Watches()), key, startRev, entries)
      ensures sessions == if id in old(sessions) && r.Ok?
        then
          var s := old(sessions)[id];
          old(sessions)[id := s.(watches := s.watches[r.value := startRev], keys := s.keys[r.value := key])]
        else old(sessions)
    {
      hide Inv, WatchInv, WatchSpec.Watch, WatchAllowed;
      r, entries := watcher.Watch(key, startRev);
      if r.Ok? && id in sessions {
        var s := sessions[id];
        sessions := sessions[id := s.(watches := s.watches[r.value := startRev], keys := s.keys[r.value := key])];
      }
    }

    /** Advances a watch's acknowledged cursor, in the watcher and on record. */
    method AckWatch(id: SessionID, watch: nat, rev: nat, now: int)
      requires Valid()
      modifies this, watcher
      ensures Valid()
      ensures Watches() == WatchSpec.Ack(old(Watches()), watch, rev)
      ensures sessions == if id in old(sessions)
        then old(sessions)[id := Acked(old(sessions)[id], watch, rev, now)] else old(sessions)
    {
      hide Inv, WatchInv, WatchSpec.Ack;
      watcher.Ack(watch, rev);
      if id in sessions {
        var s := sessions[id];
        if rev > (if watch in s.watches then s.watches[watch] else 0) {
          s := s.(watches := s.watches[watch := rev]);
        }
        sessions := sessions[id := s.(lastSeen := now)];
      }
    }

    /** Cancels everything in `ids`. */
    method CancelEach(ids: seq<nat>)
      requires Valid()
      modifies watcher, watcher.store
      ensures Valid() && Watches() == CancelAll(old(Watches()), ids)
    {
      hide Inv, WatchInv, WatchSpec.Cancel;
      ghost var was := Watches();
      var i := 0;
      while i < |ids|
        invariant i <= |ids| && Valid() && Watches() == CancelAll(was, ids[..i])
      {
        assert ids[..i + 1][..i] == ids[..i];
        watcher.Cancel(ids[i]);
        i := i + 1;
      }
      assert ids[..i] == ids;
    }

    /** The ids of a table, in whatever order it yields them. */
    method Listed(watches: map<nat, nat>) returns (ids: seq<nat>)
      ensures IsOrderOf(ids, watches.Keys)
    {
      ids := [];
      var todo := watches.Keys;
      while todo != {}
        invariant todo <= watches.Keys && IsOrderOf(ids, watches.Keys - todo)
      {
        var id :| id in todo;
        todo := todo - {id};
        ids := ids + [id];
      }
    }

    /** Cancels the session's watches and keeps their cursors. */
    method Disconnect(id: SessionID, now: int) returns (found: bool, ghost order: seq<nat>)
      requires Valid()
      modifies this, watcher, watcher.store
      ensures Valid() && |old(Watches()).store.log| > 0
      ensures found <==> id in old(sessions)
      ensures !found ==> sessions == old(sessions) && Watches() == old(Watches())
      ensures found ==>
        && SessionAllowed(old(Watches()), old(sessions)[id], OpDisconnect(order, now))
        && id in sessions && sessions == old(sessions)[id := sessions[id]]
        && (Watches(), sessions[id]) == SessionStep(old(Watches()), old(sessions)[id], OpDisconnect(order, now))
        && sessions[id] == old(sessions)[id].(state := Disconnected, lastSeen := now)
    {
      hide Inv, WatchInv, CancelAll;
      LogNonempty(watcher.store.State());
      order := [];
      if id !in sessions {
        return false, [];
      }
      var s := sessions[id];
      var ids := Listed(s.watches);
      sessions := sessions[id := s.(state := Disconnected, lastSeen := now)];
      CancelEach(ids);
      return true, ids;
    }

    /** Cancels the session's watches for good. */
    method Close(id: SessionID) returns (ghost order: seq<nat>)
      requires Valid()
      modifies this, watcher, watcher.store
      ensures Valid()
      ensures id !in old(sessions) ==> sessions == old(sessions) && Watches() == old(Watches())
      ensures id in old(sessions) ==>
        && IsOrderOf(order, old(sessions)[id].watches.Keys)
        && Watches() == CancelAll(old(Watches()), order)
        && sessions == old(sessions)[id := old(sessions)[id].(state := Closed)]
    {
      hide Inv, WatchInv, CancelAll;
      order := [];
      if id !in sessions {
        return [];
      }
      var ids := Listed(sessions[id].watches);
      sessions := sessions[id := sessions[id].(state := Closed)];
      CancelEach(ids);
      return ids;
    }

    /** Opens every recorded watch again from its cursor. */
    method Rebuild(s: SessionSpec.Session)
      returns (watches: map<nat, nat>, keys: map<nat, Key>, ghost order: seq<nat>, ghost snapshots: seq<seq<Event>>)
      requires Valid()
      modifies watcher, watcher.store
      ensures Valid() && |old(Watches()).store.log| > 0
      ensures IsOrderOf(order, s.watches.Keys) && |snapshots| == |order|
      ensures RebuildAllowed(old(Watches()), s, order, snapshots)
      ensures RebuildAll(old(Watches()), s, order, snapshots) == SessionSpec.Rebuild(Watches(), watches, keys)
    {
      hide Inv, WatchInv, WatchSpec.Watch, WatchAllowed;
      ghost var was := Watches();
      LogNonempty(was.store);
      var ids := Listed(s.watches);
      order, snapshots := ids, [];
      watches, keys := map[], map[];
      var i := 0;
      while i < |ids|
        invariant i <= |ids| && Valid() && |snapshots| == i
        invariant RebuildAllowed(was, s, ids[..i], snapshots)
        invariant RebuildAll(was, s, ids[..i], snapshots) == SessionSpec.Rebuild(Watches(), watches, keys)
      {
        assert ids[..i + 1][..i] == ids[..i];
        var key := if ids[i] in s.keys then s.keys[ids[i]] else "";
        var cursor := s.watches[ids[i]];
        ghost var entries;
        var r;
        r, entries := watcher.Watch(key, cursor);
        assert (snapshots + [entries])[..i] == snapshots;
        snapshots := snapshots + [entries];
        if r.Ok? {
          watches := watches[r.value := cursor];
          keys := keys[r.value := key];
        }
        i := i + 1;
      }
      assert ids[..i] == ids;
    }

    /** Renews the session's leases and rebuilds its watches from their cursors. */
    method Reconnect(id: SessionID, now: int)
      returns (restored: Option<set<nat>>, ghost order: seq<nat>, ghost snapshots: seq<seq<Event>>)
      requires Valid()
      modifies this, leases, watcher, watcher.store
      ensures Valid() && |old(Watches()).store.log| > 0
      ensures id !in old(sessions) ==>
        restored == None && sessions == old(sessions) && Watches() == old(Watches())
        && leases.Table() == old(leases.Table())
      ensures id in old(sessions) ==>
        var s := old(sessions)[id];
        && IsOrderOf(order, s.watches.Keys) && |snapshots| == |order|
        && RebuildAllowed(old(Watches()), s, order, snapshots)
        && var b := RebuildAll(old(Watches()), s, order, snapshots);
        && Watches() == b.w && restored == Some(b.watches.Keys)
        && sessions == old(sessions)[
             id := s.(state := Connected, lastSeen := now, watches := b.watches, keys := b.keys)]
        && leases.Table() == LeaseSpec.RenewAll(old(leases.Table()), s.leaseIDs, now)
    {
      hide Inv, WatchInv, RebuildAll, RebuildAllowed;
      LogNonempty(watcher.store.State());
      order, snapshots := [], [];
      if id !in sessions {
        return None, [], [];
      }
      var s := sessions[id];
      var _ := leases.RenewMany(s.leaseIDs, now);
      sessions := sessions[id := s.(state := Connected, lastSeen := now)];
      var watches, keys;
      watches, keys, order, snapshots := Rebuild(s);
      sessions := sessions[id := sessions[id].(watches := watches, keys := keys)];
      restored := Some(watches.Keys);
    }
  }
}
