/** The lease manager itself: a mutable table of leases. */
module Lease {
  import opened Model
  import opened LockSpec
  import opened LeaseSpec

  class Manager {
    var leases: map<LeaseID, LeaseRecord>
    ghost var notified: seq<LeaseID>
    // Every creation has a number of its own, so that a lease can be told from a
    // later one under the same id.
    ghost var births: nat
    ghost var born: map<LeaseID, nat>

    ghost function Table(): LeaseTable
      reads this
    {
      LeaseTable(leases, notified)
    }

    ghost predicate Valid()
      reads this
    {
      && AllAlive(Table())
      && leases.Keys <= born.Keys && forall id :: id in born ==> born[id] <= births
    }

    constructor ()
      ensures Valid() && Table() == LeaseTable(map[], [])
    {
      leases, notified, births, born := map[], [], 0, map[];
    }

    method Create(id: LeaseID, ttl: int, holder: string, now: int) returns (ok: bool)
      requires Valid()
      modifies this
      ensures Valid()
      ensures (Table(), ok) == LeaseSpec.Create(old(Table()), id, ttl, holder, now)
      ensures ok ==> EndsAt(Table(), id, now + ttl) && leases[id].holder == holder
      ensures births == (if ok then old(births) + 1 else old(births))
      ensures born == if ok then old(born)[id := births] else old(born)
    {
      if id in leases {
        return false;
      }
      leases := leases[id := LeaseRecord(ttl, now + ttl, 0, holder, LeaseState.Alive)];
      births := births + 1;
      born := born[id := births];
      return true;
    }

    method Alive(id: LeaseID) returns (alive: bool)
      requires Valid()
      ensures alive <==> id in Table().leases
    {
      return id in leases && leases[id].state == LeaseState.Alive;
    }

    method Renew(id: LeaseID, now: int) returns (ok: bool)
      requires Valid()
      modifies this`leases, this`notified
      ensures Valid()
      ensures (Table(), ok) == LeaseSpec.Renew(old(Table()), id, now)
    {
      if id !in leases || leases[id].state != LeaseState.Alive {
        return false;
      }
      var l := leases[id];
      if l.expiresAt <= now {
        leases := leases - {id};
        notified := notified + [id];
        return false;
      }
      leases := leases[id := l.(renewSeq := l.renewSeq + 1, expiresAt := now + l.ttl)];
      return true;
    }

    method Revoke(id: LeaseID) returns (ok: bool)
      requires Valid()
      modifies this`leases, this`notified
      ensures Valid()
      ensures (Table(), ok) == LeaseSpec.Revoke(old(Table()), id)
    {
      if id !in leases {
        return false;
      }
      leases := leases - {id};
      notified := notified + [id];
      return true;
    }

    method BatchRenew(ids: seq<LeaseID>, now: int) returns (results: map<LeaseID, bool>)
      requires Valid()
      modifies this`leases, this`notified
      ensures Valid()
      ensures Table() == RenewAll(old(Table()), ids, now)
      ensures results == Verdicts(old(Table()), ids, now)
    {
      results := map[];
      var i := 0;
      while i < |ids|
        invariant i <= |ids| && Valid()
        invariant Table() == RenewAll(old(Table()), ids[..i], now)
        invariant results == Verdicts(old(Table()), ids[..i], now)
      {
        assert ids[..i + 1][..i] == ids[..i];
        var ok := Renew(ids[i], now);
        results := results[ids[i] := ok];
        i := i + 1;
      }
      assert ids[..i] == ids;
    }

    method RenewMany(ids: seq<LeaseID>, now: int) returns (renewed: seq<LeaseID>)
      requires Valid()
      modifies this`leases, this`notified
      ensures Valid()
      ensures Table() == RenewAll(old(Table()), ids, now)
      ensures renewed == Successes(old(Table()), ids, now)
    {
      renewed := [];
      var i := 0;
      while i < |ids|
        invariant i <= |ids| && Valid()
        invariant Table() == RenewAll(old(Table()), ids[..i], now)
        invariant renewed == Successes(old(Table()), ids[..i], now)
      {
        assert ids[..i + 1][..i] == ids[..i];
        var ok := Renew(ids[i], now);
        if ok {
          renewed := renewed + [ids[i]];
        }
        i := i + 1;
      }
      assert ids[..i] == ids;
    }

    /** Removes every overdue lease in one critical section, then reports them. */
    method ExpireOnce(now: int) returns (released: seq<LeaseID>)
      requires Valid()
      modifies this`leases, this`notified
      ensures Valid()
      ensures Table() == Expire(old(Table()), now)
      ensures IsOrderOf(released, Overdue(old(Table()), now))
    {
      var ids := RemoveOverdue(now);
      released := Report(ids);
      NoneBack(leases, ids);
      assert notified == old(notified);
    }

    /** Looks every removed id up again: the callback runs only for one that has
        been created again meanwhile, and every id is reported. */
    method Report(ids: seq<LeaseID>) returns (released: seq<LeaseID>)
      requires Valid()
      modifies this`notified
      ensures notified == old(notified) + BackAgain(leases, ids)
      ensures released == ids
    {
      released := [];
      var i := 0;
      while i < |ids|
        invariant i <= |ids| && released == ids[..i]
        invariant notified == old(notified) + BackAgain(leases, ids[..i])
      {
        assert ids[..i + 1][..i] == ids[..i];
        if ids[i] in leases && leases[ids[i]].state == LeaseState.Alive {
          notified := notified + [ids[i]];
        }
        released := released + [ids[i]];
        i := i + 1;
      }
      assert ids[..i] == ids;
    }

    method RemoveOverdue(now: int) returns (ids: seq<LeaseID>)
      requires Valid()
      modifies this`leases
      ensures Valid() && leases == Expire(old(Table()), now).leases
      ensures IsOrderOf(ids, Overdue(old(Table()), now))
    {
      ids := [];
      var todo := leases.Keys;
      ghost var overdue := Overdue(Table(), now);
      while todo != {}
        invariant todo <= old(leases).Keys
        invariant leases == old(leases) - (overdue - todo)
        invariant forall i, j :: 0 <= i < j < |ids| ==> ids[i] != ids[j]
        invariant forall i :: 0 <= i < |ids| ==> ids[i] in overdue - todo
        invariant forall id :: id in overdue - todo ==> id in ids
      {
        var id :| id in todo;
        var l := leases[id];
        if l.expiresAt <= now && l.state == LeaseState.Alive {
          leases := leases - {id};
          ids := ids + [id];
        }
        todo := todo - {id};
      }
    }
  }
}
