/** Every step of the lock manager keeps the invariants. */
module LockSteps {
  import opened Model
  import opened StoreSpec
  import opened StoreInvariant
  import opened LockCodec
  import opened LockSpec
  import opened LockInvariant

  lemma PersistKeeps(s: StoreState, id: LockID, holder: string, lease: LeaseID, phase: Phase)
    requires Inv(s) && |s.log| > 0
    ensures Inv(Persist(s, id, holder, lease, phase)) && |Persist(s, id, holder, lease, phase).log| == |s.log|
  {
    hide Inv;
    StepKeeps(s, OpPut(LockKey(id), Bytes(Encode(LockRecord(holder, lease, phase.Code())))));
  }

  lemma IncreasingAppend(qs: seq<nat>, q: nat)
    requires Increasing(qs) && forall x :: x in qs ==> x < q
    ensures Increasing(qs + [q])
  {
    assert forall i :: 0 <= i < |qs| ==> qs[i] in qs;
  }

  // ---------- acquiring ----------

  lemma TryAcquireKeeps(t: LockTable, id: LockID, client: string, lease: LeaseID)
    requires TableInv(t) && |t.store.log| > 0
    ensures TableInv(TryAcquire(t, id, client, lease).0)
    ensures TryAcquire(t, id, client, lease).1 <==> id !in t.locks
    ensures id in t.locks ==> TryAcquire(t, id, client, lease).0 == t
  {
    if id in t.locks {
      assert EntryInv(t, id, t.locks[id]);
      assert t.locks[id := t.locks[id]] == t.locks;
    } else {
      hide Inv, Persist;
      PersistKeeps(t.store, id, client, lease, Held);
      NewEntryTable(t, TryAcquire(t, id, client, lease).0, id);
    }
  }

  lemma NewEntryTable(t: LockTable, t': LockTable, id: LockID)
    requires EntriesInv(t) && PoolInv(t) && GrantsInv(t) && id !in t.locks
    requires id in t'.locks && EntryInv(t', id, t'.locks[id]) && t'.locks[id].queue == []
    requires t' == t.(locks := t.locks[id := t'.locks[id]], store := t'.store)
    ensures EntriesInv(t') && PoolInv(t') && GrantsInv(t')
  {
    forall q
      ensures IsQueued(t', q) <==> IsQueued(t, q)
    {
    }
    assert forall i :: GrantInv(t, i) ==> GrantInv(t', i);
  }

  lemma EnqueueKeeps(t: LockTable, id: LockID, client: string, lease: LeaseID)
    requires TableInv(t)
    ensures TableInv(Enqueue(t, id, client, lease).0)
  {
    hide Inv;
    if id in t.locks {
      EnqueueEntries(t, id, client, lease);
      EnqueuePool(t, id, client, lease);
      EnqueueGrants(t, id, client, lease);
    }
  }

  lemma EnqueueEntries(t: LockTable, id: LockID, client: string, lease: LeaseID)
    requires EntriesInv(t) && PoolInv(t) && id in t.locks
    ensures EntriesInv(Enqueue(t, id, client, lease).0)
  {
    hide WaiterInv;
    var t' := Enqueue(t, id, client, lease).0;
    assert EntryInv(t, id, t.locks[id]);
    assert forall x :: x in t.locks[id].queue ==> x in t.pool;
    IncreasingAppend(t.locks[id].queue, t.issued + 1);
    hide Increasing;
    forall i | i in t'.locks
      ensures EntryInv(t', i, t'.locks[i])
    {
      assert EntryInv(t, i, t.locks[i]);
    }
  }

  lemma EnqueuePool(t: LockTable, id: LockID, client: string, lease: LeaseID)
    requires EntriesInv(t) && PoolInv(t) && id in t.locks
    ensures PoolInv(Enqueue(t, id, client, lease).0)
  {
    var t' := Enqueue(t, id, client, lease).0;
    assert EntryInv(t, id, t.locks[id]);
    forall q | q in t'.pool
      ensures WaiterInv(t', q, t'.pool[q])
    {
      if q in t.pool {
        assert WaiterInv(t, q, t.pool[q]);
        assert IsQueued(t', q) <==> IsQueued(t, q);
      }
    }
  }

  lemma EnqueueGrants(t: LockTable, id: LockID, client: string, lease: LeaseID)
    requires PoolInv(t) && GrantsInv(t) && id in t.locks
    ensures GrantsInv(Enqueue(t, id, client, lease).0)
  {
    hide WaiterInv;
    var t' := Enqueue(t, id, client, lease).0;
    forall i
      ensures GrantInv(t', i)
    {
      assert GrantInv(t, i);
    }
  }

  // ---------- giving up ----------

  lemma {:induction false} WithoutShape(pool: map<nat, Waiter>, queue: seq<nat>, client: string)
    requires Increasing(queue)
    ensures var kept := Without(pool, queue, client);
      && Increasing(kept)
      && (forall q :: q in kept <==> q in queue && !IsFrom(pool, q, client))
  {
    if queue != [] {
      var last := |queue| - 1;
      WithoutShape(pool, queue[..last], client);
      assert queue == queue[..last] + [queue[last]];
      assert forall q :: q in queue[..last] ==> q < queue[last];
      IncreasingAppend(Without(pool, queue[..last], client), queue[last]);
      hide Increasing;
    }
  }

  lemma CancelKeeps(t: LockTable, id: LockID, client: string)
    requires TableInv(t)
    ensures TableInv(Cancel(t, id, client))
  {
    hide Inv, Without;
    if id in t.locks {
      CancelEntries(t, id, client);
      CancelPool(t, id, client);
      CancelGrants(t, id, client);
    }
  }

  lemma CancelEntries(t: LockTable, id: LockID, client: string)
    requires EntriesInv(t) && PoolInv(t) && id in t.locks
    ensures EntriesInv(Cancel(t, id, client))
  {
    hide WaiterInv, Without;
    var t' := Cancel(t, id, client);
    WithoutShape(t.pool, t.locks[id].queue, client);
    forall i | i in t'.locks
      ensures EntryInv(t', i, t'.locks[i])
    {
      assert EntryInv(t, i, t.locks[i]);
      assert EntryInv(t, id, t.locks[id]);
    }
  }

  lemma CancelPool(t: LockTable, id: LockID, client: string)
    requires EntriesInv(t) && PoolInv(t) && id in t.locks
    ensures PoolInv(Cancel(t, id, client))
  {
    hide Without, Increasing;
    var t' := Cancel(t, id, client);
    assert EntryInv(t, id, t.locks[id]);
    WithoutShape(t.pool, t.locks[id].queue, client);
    forall q | q in t'.pool
      ensures WaiterInv(t', q, t'.pool[q])
    {
      assert WaiterInv(t, q, t.pool[q]);
      if q in t.locks[id].queue && IsFrom(t.pool, q, client) {
        assert IsQueued(t, q);
      } else {
        assert IsQueued(t', q) <==> IsQueued(t, q);
      }
    }
  }

  lemma CancelGrants(t: LockTable, id: LockID, client: string)
    requires EntriesInv(t) && GrantsInv(t) && id in t.locks
    ensures GrantsInv(Cancel(t, id, client))
  {
    hide Without;
    var t' := Cancel(t, id, client);
    assert EntryInv(t, id, t.locks[id]);
    WithoutShape(t.pool, t.locks[id].queue, client);
    forall i
      ensures GrantInv(t', i)
    {
      assert GrantInv(t, i);
    }
  }

  // ---------- releasing ----------

  lemma GrantEntries(t: LockTable, id: LockID, n: nat)
    requires EntriesInv(t) && PoolInv(t) && id in t.locks && n < |t.locks[id].queue| && |t.store.log| > 0
    ensures t.locks[id].queue[n] in t.pool
    ensures EntriesInv(Grant(t, id, n))
  {
    hide Persist;
    assert EntryInv(t, id, t.locks[id]);
    var t' := Grant(t, id, n);
    forall i | i in t'.locks
      ensures EntryInv(t', i, t'.locks[i])
    {
      assert EntryInv(t, i, t.locks[i]);
    }
  }

  lemma GrantPool(t: LockTable, id: LockID, n: nat)
    requires EntriesInv(t) && PoolInv(t) && id in t.locks && n < |t.locks[id].queue| && |t.store.log| > 0
    requires t.locks[id].queue[n] in t.pool
    ensures PoolInv(Grant(t, id, n))
  {
    hide Persist;
    var queue := t.locks[id].queue;
    assert EntryInv(t, id, t.locks[id]);
    var t' := Grant(t, id, n);
    QueueSplit(queue, n, n + 1);
    forall p | p in t'.pool
      ensures WaiterInv(t', p, t'.pool[p])
    {
      assert WaiterInv(t, p, t.pool[p]);
      if p in queue {
        assert IsQueued(t, p);
      } else {
        assert IsQueued(t', p) <==> IsQueued(t, p);
      }
    }
  }

  lemma QueueSplit(queue: seq<nat>, n: nat, m: nat)
    requires Increasing(queue) && n < |queue| && m == n + 1
    ensures forall p :: p in queue <==> p in queue[..n] || p == queue[n] || p in queue[m..]
    ensures forall p :: p in queue[..n] ==> p < queue[n]
    ensures forall p :: p in queue[m..] ==> queue[n] < p
  {
    assert queue == queue[..n] + [queue[n]] + queue[m..];
  }

  lemma GrantGrants(t: LockTable, id: LockID, n: nat)
    requires EntriesInv(t) && PoolInv(t) && GrantsInv(t)
    requires id in t.locks && n < |t.locks[id].queue| && |t.store.log| > 0
    requires t.locks[id].queue[n] in t.pool
    ensures GrantsInv(Grant(t, id, n))
  {
    hide Persist, WaiterInv;
    assert EntryInv(t, id, t.locks[id]);
    var t' := Grant(t, id, n);
    QueueSplit(t.locks[id].queue, n, n + 1);
    assert GrantInv(t, id);
    IncreasingAppend(GrantsAt(t, id), t.locks[id].queue[n]);
    hide Increasing;
    forall i
      ensures GrantInv(t', i)
    {
      assert GrantInv(t, i);
      assert i != id ==> GrantsAt(t', i) == GrantsAt(t, i);
    }
  }

  lemma FreeTable(t: LockTable, id: LockID)
    requires EntriesInv(t) && PoolInv(t) && GrantsInv(t) && id in t.locks && |t.store.log| > 0
    ensures EntriesInv(Free(t, id)) && PoolInv(Free(t, id)) && GrantsInv(Free(t, id))
  {
    hide Persist, Increasing;
    var t' := Free(t, id);
    assert EntryInv(t, id, t.locks[id]);
    forall i | i in t'.locks
      ensures EntryInv(t', i, t'.locks[i])
    {
      assert EntryInv(t, i, t.locks[i]);
    }
    forall p | p in t'.pool
      ensures WaiterInv(t', p, t'.pool[p])
    {
      assert WaiterInv(t, p, t.pool[p]);
      assert IsQueued(t', p) <==> IsQueued(t, p) && p !in t.locks[id].queue;
      assert p in t.locks[id].queue ==> IsQueued(t, p);
    }
    forall i
      ensures GrantInv(t', i)
    {
      assert GrantInv(t, i);
    }
  }

  lemma ReleaseStoreKeeps(s: StoreState, id: LockID, holder: string, lease: LeaseID)
    requires Inv(s) && |s.log| > 0
    ensures var m := Persist(s, id, "", "", Releasing);
      && Inv(Persist(m, id, holder, lease, Held))
      && Inv(Remove(Persist(m, id, "", "", Waiting), LockKey(id)))
  {
    hide Inv, Persist;
    var m := Persist(s, id, "", "", Releasing);
    PersistKeeps(s, id, "", "", Releasing);
    PersistKeeps(m, id, holder, lease, Held);
    PersistKeeps(m, id, "", "", Waiting);
    StepKeeps(Persist(m, id, "", "", Waiting), OpDelete(LockKey(id)));
  }

  lemma ReleaseLockedKeeps(t: LockTable, id: LockID, leases: Leases)
    requires TableInv(t) && |t.store.log| > 0 && id in t.locks
    ensures TableInv(ReleaseLocked(t, id, leases))
  {
    hide Inv, EntriesInv, PoolInv, GrantsInv, Persist, Remove;
    var n := PassedOver(t.pool, leases, t.locks[id].queue);
    if n < |t.locks[id].queue| {
      var q := t.locks[id].queue[n];
      GrantEntries(t, id, n);
      GrantPool(t, id, n);
      GrantGrants(t, id, n);
      ReleaseStoreKeeps(t.store, id, t.pool[q].request.client, t.pool[q].request.lease);
    } else {
      FreeTable(t, id);
      ReleaseStoreKeeps(t.store, id, "", "");
    }
  }

  lemma {:induction false} ReleaseAllKeeps(t: LockTable, order: seq<LockID>, leases: Leases)
    requires TableInv(t) && |t.store.log| > 0
    ensures TableInv(ReleaseAll(t, order, leases))
  {
    hide TableInv, ReleaseLocked;
    if order != [] {
      var m := ReleaseAll(t, order[..|order| - 1], leases);
      ReleaseAllKeeps(t, order[..|order| - 1], leases);
      if order[|order| - 1] in m.locks {
        ReleaseLockedKeeps(m, order[|order| - 1], leases);
      }
    }
  }

  // ---------- other writers ----------

  lemma StoreOpKeeps(t: LockTable, op: StoreOp)
    requires TableInv(t) && |t.store.log| > 0
    ensures TableInv(t.(store := Step(t.store, op)))
  {
    hide Inv, EntriesInv, PoolInv, GrantsInv, Step;
    StepKeeps(t.store, op);
    TableOnly(t, Step(t.store, op));
  }

  lemma TableOnly(t: LockTable, s': StoreState)
    ensures EntriesInv(t) ==> EntriesInv(t.(store := s'))
    ensures PoolInv(t) ==> PoolInv(t.(store := s'))
    ensures GrantsInv(t) ==> GrantsInv(t.(store := s'))
  {
    var t' := t.(store := s');
    assert forall q :: IsQueued(t', q) <==> IsQueued(t, q);
    assert forall q :: q in t.pool && WaiterInv(t, q, t.pool[q]) ==> WaiterInv(t', q, t.pool[q]);
    assert forall i :: GrantInv(t, i) ==> GrantInv(t', i);
  }

  // ---------- every step, every run ----------

  lemma StepKeepsTable(t: LockTable, op: LockOp)
    requires TableInv(t) && |t.store.log| > 0
    ensures TableInv(LockStep(t, op))
  {
    hide TableInv, TryAcquire, Enqueue, Cancel, ReleaseLocked, Step;
    match op
    case OpTryAcquire(id, client, lease) => TryAcquireKeeps(t, id, client, lease);
    case OpEnqueue(id, client, lease) => EnqueueKeeps(t, id, client, lease);
    case OpCancel(id, client) => CancelKeeps(t, id, client);
    case OpRelease(id, client, leases) =>
      if Release(t, id, client, leases).1 == Released {
        ReleaseLockedKeeps(t, id, leases);
      }
    case OpReleaseByLease(lease, order, leases) => ReleaseAllKeeps(t, order, leases);
    case OpStore(o) => StoreOpKeeps(t, o);
  }

  lemma {:induction false} RunKeepsTable(t: LockTable, ops: seq<LockOp>)
    requires TableInv(t) && |t.store.log| > 0
    ensures TableInv(LockRun(t, ops))
  {
    hide TableInv, LockStep;
    if ops != [] {
      RunKeepsTable(t, ops[..|ops| - 1]);
      StepKeepsTable(LockRun(t, ops[..|ops| - 1]), ops[|ops| - 1]);
    }
  }

  lemma NewTableInv(logCapacity: int)
    ensures TableInv(NewTable(New(logCapacity))) && |New(logCapacity).log| > 0
  {
    var t := NewTable(New(logCapacity));
    ReachableInv(logCapacity, []);
    assert forall q :: !IsQueued(t, q);
    assert forall i :: GrantInv(t, i);
  }
}
