/** What the store records about locks agrees with the lock table after every
    step, as long as names are free of separators and nobody else writes under
    the lock prefix. */
module LockRecords {
  import opened Model
  import opened StoreSpec
  import opened StoreInvariant
  import opened LockCodec
  import opened LockSpec
  import opened LockInvariant
  import opened LockSteps

  // ---------- the table's own steps ----------

  lemma NewEntryRecords(t: LockTable, id: LockID, client: string, lease: LeaseID)
    requires Inv(t.store) && RecordsAgree(t) && id !in t.locks && |t.store.log| > 0
    requires NulFree(client) && NulFree(lease)
    ensures RecordsAgree(TryAcquire(t, id, client, lease).0)
  {
    hide Inv, Persist;
    var t' := TryAcquire(t, id, client, lease).0;
    PersistEffect(t.store, id, client, lease, Held);
    assert RecordedInv(t.store.history, t.locks, id);
    AgreeAfter(t.store.history, t'.store.history, t.locks, t'.locks, id);
  }

  /** Only holders and leases are recorded, so changing queues records nothing. */
  lemma SameRecords(t: LockTable, t': LockTable)
    requires RecordsAgree(t) && t'.store == t.store && t'.locks.Keys == t.locks.Keys
    requires forall i :: i in t.locks ==>
      t'.locks[i].holder == t.locks[i].holder && t'.locks[i].lease == t.locks[i].lease
    ensures RecordsAgree(t')
  {
    hide Encode, LockWord, Recorded, LockKey;
    forall i
      ensures RecordedInv(t'.store.history, t'.locks, i)
    {
      assert RecordedInv(t.store.history, t.locks, i);
      assert i in t'.locks <==> i in t'.locks.Keys;
    }
  }

  /** Releasing then Held bring a held lock's records to the next holder. */
  lemma GrantStore(s: StoreState, id: LockID, holder: string, lease: LeaseID)
    requires Inv(s) && |s.log| > 0 && LockWord(s.history, LockKey(id)) == IsHeld
    requires NulFree(holder) && NulFree(lease)
    ensures var s' := Persist(Persist(s, id, "", "", Releasing), id, holder, lease, Held);
      && OnlyKey(s.history, s'.history, LockKey(id)) && LockWord(s'.history, LockKey(id)) == IsHeld
      && Recorded(s'.history, LockKey(id)) == Some(Bytes(Encode(LockRecord(holder, lease, Held.Code()))))
  {
    hide Inv, Persist, NulFree, Recorded, LockWord, OnlyKey, Encode, LockKey;
    NulFreeEmpty();
    PersistEffect(s, id, "", "", Releasing);
    var m := Persist(s, id, "", "", Releasing);
    PersistEffect(m, id, holder, lease, Held);
    OnlyKeyTwice(s.history, m.history, Persist(m, id, holder, lease, Held).history, LockKey(id));
  }

  lemma NulFreeEmpty()
    ensures NulFree("")
  {
  }

  /** Releasing, Waiting and the delete bring a held lock's records back to free. */
  lemma FreeStore(s: StoreState, id: LockID)
    requires Inv(s) && |s.log| > 0 && LockWord(s.history, LockKey(id)) == IsHeld
    ensures var s' := Remove(Persist(Persist(s, id, "", "", Releasing), id, "", "", Waiting), LockKey(id));
      && OnlyKey(s.history, s'.history, LockKey(id))
      && Recorded(s'.history, LockKey(id)) == None && LockWord(s'.history, LockKey(id)) == IsFree
  {
    hide Inv, Persist, Remove, NulFree, Recorded, LockWord, OnlyKey, Encode, LockKey;
    NulFreeEmpty();
    var k := LockKey(id);
    PersistEffect(s, id, "", "", Releasing);
    var m := Persist(s, id, "", "", Releasing);
    PersistEffect(m, id, "", "", Waiting);
    var w := Persist(m, id, "", "", Waiting);
    RemoveEffect(w, id);
    OnlyKeyTwice(s.history, m.history, w.history, k);
    OnlyKeyTwice(s.history, w.history, Remove(w, k).history, k);
  }

  lemma ReleaseLockedRecords(t: LockTable, id: LockID, leases: Leases)
    requires Inv(t.store) && EntriesInv(t) && NamesInv(t) && RecordsAgree(t) && id in t.locks && |t.store.log| > 0
    ensures RecordsAgree(ReleaseLocked(t, id, leases))
  {
    assert EntryInv(t, id, t.locks[id]);
    assert RecordedInv(t.store.history, t.locks, id);
    var n := PassedOver(t.pool, leases, t.locks[id].queue);
    hide Inv, EntryInv, NulFree, Persist, Remove, Recorded, LockWord, OnlyKey, Encode, LockKey;
    var t' := ReleaseLocked(t, id, leases);
    if n < |t.locks[id].queue| {
      var r := t.pool[t.locks[id].queue[n]].request;
      GrantStore(t.store, id, r.client, r.lease);
    } else {
      FreeStore(t.store, id);
    }
    AgreeAfter(t.store.history, t'.store.history, t.locks, t'.locks, id);
  }

  lemma ReleaseLockedNames(t: LockTable, id: LockID, leases: Leases)
    requires NamesInv(t) && id in t.locks && |t.store.log| > 0
    ensures NamesInv(ReleaseLocked(t, id, leases))
  {
    hide Persist, Remove, NulFree;
  }

  lemma {:induction false} ReleaseAllRecords(t: LockTable, order: seq<LockID>, leases: Leases)
    requires LockInv(t) && |t.store.log| > 0
    ensures LockInv(ReleaseAll(t, order, leases))
  {
    hide ReleaseLocked, RecordsAgree, NamesInv, Inv, EntriesInv, PoolInv, GrantsInv;
    if order != [] {
      var m, id := ReleaseAll(t, order[..|order| - 1], leases), order[|order| - 1];
      ReleaseAllRecords(t, order[..|order| - 1], leases);
      if id in m.locks {
        ReleaseLockedKeeps(m, id, leases);
        ReleaseLockedRecords(m, id, leases);
        ReleaseLockedNames(m, id, leases);
      }
    }
  }

  // ---------- other writers ----------

  lemma ForeignRecords(s: StoreState, op: StoreOp)
    requires |s.log| > 0 && !WritesLockKey(op)
    ensures forall k :: "locks/" <= k ==>
      LockWord(Step(s, op).history, k) == LockWord(s.history, k)
      && Recorded(Step(s, op).history, k) == Recorded(s.history, k)
  {
    hide LockWord, Recorded, LogEvents, Snapshot, ReclaimRecords;
    if (op.OpPut? && op.value != Nil) || op.OpDelete? {
      var ev := if op.OpPut? then Event(Put, op.key, op.value, s.Head() + 1)
                else Event(Delete, op.key, Nil, s.Head() + 1);
      assert Step(s, op).history == s.history + [ev];
      forall k | "locks/" <= k {
        OneMore(s.history, ev, k);
      }
    } else {
      assert Step(s, op).history == s.history;
    }
  }

  lemma StoreOpRecords(t: LockTable, op: StoreOp)
    requires RecordsAgree(t) && |t.store.log| > 0 && !WritesLockKey(op)
    ensures RecordsAgree(t.(store := Step(t.store, op)))
  {
    hide Step, LockWord, Recorded, Encode;
    var s, s' := t.store, Step(t.store, op);
    ForeignRecords(s, op);
    forall id
      ensures RecordedInv(s'.history, t.locks, id)
    {
      assert RecordedInv(s.history, t.locks, id);
      assert LockKey(id)[..6] == "locks/";
    }
  }

  // ---------- every step, every run ----------

  lemma StepKeepsNames(t: LockTable, op: LockOp)
    requires NamesInv(t) && |t.store.log| > 0 && Allowed(op) && (op.OpTryAcquire? || op.OpEnqueue? || op.OpCancel?)
    ensures NamesInv(LockStep(t, op))
  {
    hide Persist, NulFree;
    NulFreeEmpty();
  }

  lemma StepKeepsRecords(t: LockTable, op: LockOp)
    requires LockInv(t) && |t.store.log| > 0 && Allowed(op)
    ensures LockInv(LockStep(t, op))
  {
    hide RecordsAgree, NamesInv, Inv, EntriesInv, PoolInv, GrantsInv, ReleaseLocked, Step;
    StepKeepsTable(t, op);
    if op.OpTryAcquire? || op.OpEnqueue? || op.OpCancel? {
      StepKeepsNames(t, op);
    }
    match op
    case OpTryAcquire(id, client, lease) =>
      TryAcquireKeeps(t, id, client, lease);
      if id !in t.locks {
        NewEntryRecords(t, id, client, lease);
      }
    case OpEnqueue(id, client, lease) => EnqueueRecords(t, id, client, lease);
    case OpCancel(id, client) => SameRecords(t, Cancel(t, id, client));
    case OpRelease(id, client, leases) =>
      if Release(t, id, client, leases).1 == Released {
        ReleaseLockedRecords(t, id, leases);
        ReleaseLockedNames(t, id, leases);
      }
    case OpReleaseByLease(lease, order, leases) => ReleaseAllRecords(t, order, leases);
    case OpStore(o) =>
      StoreOpRecords(t, o);
      StoreOpNames(t, Step(t.store, o));
  }

  lemma EnqueueRecords(t: LockTable, id: LockID, client: string, lease: LeaseID)
    requires RecordsAgree(t)
    ensures RecordsAgree(Enqueue(t, id, client, lease).0)
  {
    SameRecords(t, Enqueue(t, id, client, lease).0);
  }

  lemma StoreOpNames(t: LockTable, s': StoreState)
    requires NamesInv(t)
    ensures NamesInv(t.(store := s'))
  {
  }

  lemma {:induction false} RunKeepsRecords(t: LockTable, ops: seq<LockOp>)
    requires LockInv(t) && |t.store.log| > 0 && (forall op :: op in ops ==> Allowed(op))
    ensures LockInv(LockRun(t, ops))
  {
    hide LockInv, LockStep, Allowed;
    if ops != [] {
      RunKeepsRecords(t, ops[..|ops| - 1]);
      StepKeepsRecords(LockRun(t, ops[..|ops| - 1]), ops[|ops| - 1]);
    }
  }

  lemma NewTableClean(logCapacity: int)
    ensures NamesInv(NewTable(New(logCapacity))) && RecordsAgree(NewTable(New(logCapacity)))
  {
  }
}
