/** What each lock operation does, said of holders, leases, queues and records
    themselves, and what a request keeps from the call that issued it onwards. */
module LockEffects {
  import opened Model
  import opened StoreSpec
  import opened StoreInvariant
  import opened LockCodec
  import opened LockSpec
  import opened LockInvariant
  import opened LockSteps
  import opened LockRecords
  import opened LockTheorems

  // ---------- records ----------

  /** An event that records a lock with this holder, lease and numeric state. */
  ghost predicate RecordsAs(ev: Event, id: LockID, holder: string, lease: LeaseID, code: nat) {
    && ev.kind == Put && ev.key == "locks/" + id && ev.value.Bytes?
    && Decode(ev.value.bytes) == Some(LockRecord(holder, lease, code))
  }

  lemma PersistRecords(s: StoreState, id: LockID, holder: string, lease: LeaseID, phase: Phase)
    requires |s.log| > 0
    ensures var s' := Persist(s, id, holder, lease, phase);
      && |s'.log| == |s.log| && |s'.history| == |s.history| + 1 && s.history <= s'.history
      && (NulFree(holder) && NulFree(lease) ==>
            RecordsAs(s'.history[|s.history|], id, holder, lease,
                      if phase == Waiting then 1 else if phase == Granted then 2 else if phase == Held then 3
                      else if phase == Releasing then 4 else 5))
  {
    hide Encode, Decode, NulFree;
    RoundTrip(LockRecord(holder, lease, phase.Code()));
  }

  // ---------- taking, queueing, giving up ----------

  /** A lock nobody tracks goes to the caller, and nothing else in the table
      changes; any other call is refused and changes nothing at all. */
  lemma TryAcquireTakes(t: LockTable, id: LockID, client: string, lease: LeaseID)
    requires Reachable(t)
    ensures |t.store.log| > 0
    ensures var (t', granted) := TryAcquire(t, id, client, lease);
      && (granted <==> id !in t.locks)
      && (!granted ==> t' == t)
      && (granted ==>
            && t' == t.(locks := t.locks[id := Entry(client, lease, Held, [])], store := t'.store)
            && |t'.store.history| == |t.store.history| + 1 && t.store.history <= t'.store.history
            && (NulFree(client) && NulFree(lease) ==>
                  RecordsAs(t'.store.history[|t.store.history|], id, client, lease, 3)))
  {
    ReachableTable(t);
    TryAcquireKeeps(t, id, client, lease);
    hide Reachable, TableInv, Persist, RecordsAs, NulFree;
    PersistRecords(t.store, id, client, lease, Held);
  }

  /** A request is queued last behind the holder, for this lock, client and lease;
      only a lock that is tracked has a queue. */
  lemma EnqueueQueues(t: LockTable, id: LockID, client: string, lease: LeaseID)
    requires Reachable(t)
    ensures var (t', r) := Enqueue(t, id, client, lease);
      && (r.Some? <==> id in t.locks)
      && (r == None ==> t' == t)
      && (r.Some? ==>
            var q := r.value;
            && q !in t.pool && (forall p :: p in t.pool ==> p < q)
            && t'.locks == t.locks[id := t.locks[id].(queue := t.locks[id].queue + [q])]
            && t'.pool.Keys == t.pool.Keys + {q} && (forall p :: p in t.pool ==> t'.pool[p] == t.pool[p])
            && t'.pool[q].request == Request(id, client, lease, Waiting)
            && !t'.pool[q].granted && t'.pool[q].closes == 0 && t'.waiters == t.waiters + {q}
            && t'.store == t.store && t'.grants == t.grants && t'.skipped == t.skipped)
  {
    ReachableTable(t);
    hide Reachable, Inv, EntriesInv, GrantsInv, WaiterInv;
  }

  /** Cancelling takes every queued request of that client for that lock out of the
      queue, and closes its channel without a grant. Nothing else changes. */
  lemma CancelRemoves(t: LockTable, id: LockID, client: string)
    requires Reachable(t)
    ensures id !in t.locks ==> Cancel(t, id, client) == t
    ensures id in t.locks ==>
      var t' := Cancel(t, id, client); var queue := t.locks[id].queue;
      && t' == t.(locks := t'.locks, waiters := t'.waiters, pool := t'.pool)
      && id in t'.locks && t'.locks == t.locks[id := t.locks[id].(queue := t'.locks[id].queue)]
      && Increasing(t'.locks[id].queue) && t'.pool.Keys == t.pool.Keys
      && (forall q :: q in t'.locks[id].queue <==> q in queue && q in t.pool && t.pool[q].request.client != client)
      && (forall q :: q in t.pool ==>
            if q in queue && t.pool[q].request.client == client then
              && t'.pool[q].request == t.pool[q].request.(state := Cancelled)
              && !t'.pool[q].granted && t'.pool[q].closes == 1 && q !in t'.waiters
            else t'.pool[q] == t.pool[q] && (q in t'.waiters <==> q in t.waiters))
  {
    hide Inv, Without, Increasing, GrantsInv, Reachable;
    if id in t.locks {
      ReachableTable(t);
      assert EntryInv(t, id, t.locks[id]);
      WithoutShape(t.pool, t.locks[id].queue, client);
      forall q | q in t.pool
        ensures WaiterInv(t, q, t.pool[q])
      {
      }
    }
  }

  // ---------- a request keeps what it was issued with ----------

  /** The request is for the same lock, client and lease. */
  ghost predicate SameRequest(t: LockTable, t': LockTable, q: nat) {
    && q in t.pool && q in t'.pool
    && t'.pool[q].request.lock == t.pool[q].request.lock
    && t'.pool[q].request.client == t.pool[q].request.client
    && t'.pool[q].request.lease == t.pool[q].request.lease
  }

  lemma ReleaseLockedSame(t: LockTable, id: LockID, leases: Leases, q: nat)
    requires |t.store.log| > 0 && id in t.locks && q in t.pool
    ensures SameRequest(t, ReleaseLocked(t, id, leases), q)
  {
    hide Persist, Remove;
  }

  lemma {:induction false} ReleaseAllSame(t: LockTable, order: seq<LockID>, leases: Leases, q: nat)
    requires |t.store.log| > 0 && q in t.pool
    ensures SameRequest(t, ReleaseAll(t, order, leases), q)
  {
    hide ReleaseLocked;
    if order != [] {
      var m := ReleaseAll(t, order[..|order| - 1], leases);
      ReleaseAllSame(t, order[..|order| - 1], leases, q);
      if order[|order| - 1] in m.locks {
        ReleaseLockedSame(m, order[|order| - 1], leases, q);
      }
    }
  }

  lemma StepKeepsRequest(t: LockTable, op: LockOp, q: nat)
    requires TableInv(t) && |t.store.log| > 0 && q in t.pool
    ensures SameRequest(t, LockStep(t, op), q)
  {
    hide TableInv, ReleaseAll, ReleaseLocked, Persist, Step, Without;
    match op
    case OpRelease(id, client, leases) =>
      ReleaseOne(t, id, leases);
      ReleaseAllSame(t, [id], leases, q);
    case OpReleaseByLease(lease, order, leases) => ReleaseAllSame(t, order, leases, q);
    case OpEnqueue(id, client, lease) => IssuedBefore(t, q);
    case _ =>
  }

  /** Over any run a request stays for the lock, client and lease it was issued for. */
  lemma {:induction false} RunKeepsRequest(t: LockTable, ops: seq<LockOp>, q: nat)
    requires TableInv(t) && |t.store.log| > 0 && q in t.pool
    ensures SameRequest(t, LockRun(t, ops), q)
  {
    hide TableInv, LockStep;
    if ops != [] {
      RunKeepsRequest(t, ops[..|ops| - 1], q);
      RunKeepsTable(t, ops[..|ops| - 1]);
      StepKeepsRequest(LockRun(t, ops[..|ops| - 1]), ops[|ops| - 1], q);
    }
  }

  // ---------- who holds a lock that a request was granted ----------

  /** A release visits a lock at most once. */
  predicate VisitsOnce(op: LockOp) {
    op.OpReleaseByLease? ==> forall i, j :: 0 <= i < j < |op.order| ==> op.order[i] != op.order[j]
  }

  /** Request `q` has just been granted: it holds its lock under its own name and lease. */
  ghost predicate HoldsBy(t: LockTable, q: nat) {
    && q in t.pool && t.pool[q].request.lock in t.locks
    && var r := t.pool[q].request;
    t.locks[r.lock].holder == r.client && t.locks[r.lock].lease == r.lease && t.locks[r.lock].state == Held
  }

  ghost predicate Grants(t: LockTable, t': LockTable, q: nat) {
    q in t.pool && q in t'.pool && !t.pool[q].granted && t'.pool[q].granted
  }

  lemma ReleaseLockedGrants(t: LockTable, id: LockID, leases: Leases, q: nat)
    requires TableInv(t) && |t.store.log| > 0 && id in t.locks && Grants(t, ReleaseLocked(t, id, leases), q)
    ensures t.pool[q].request.lock == id && HoldsBy(ReleaseLocked(t, id, leases), q)
  {
    assert EntryInv(t, id, t.locks[id]);
    hide TableInv, Persist, Remove, Increasing;
    var n := PassedOver(t.pool, leases, t.locks[id].queue);
    assert n < |t.locks[id].queue| ==> t.locks[id].queue[n] in t.locks[id].queue;
  }

  lemma HoldsApart(t: LockTable, t': LockTable, q: nat)
    requires HoldsBy(t, q) && LockApart(t, t', t.pool[q].request.lock)
    ensures HoldsBy(t', q) && t'.pool[q] == t.pool[q]
  {
    hide Untouched;
  }

  lemma {:induction false} ReleaseAllGrants(t: LockTable, order: seq<LockID>, leases: Leases, q: nat)
    requires TableInv(t) && |t.store.log| > 0
    requires forall i, j :: 0 <= i < j < |order| ==> order[i] != order[j]
    requires Grants(t, ReleaseAll(t, order, leases), q)
    ensures t.pool[q].request.lock in order && HoldsBy(ReleaseAll(t, order, leases), q)
  {
    hide TableInv, HoldsBy, LockApart, ReleaseLocked;
    if order != [] {
      var most, last := order[..|order| - 1], order[|order| - 1];
      var m := ReleaseAll(t, most, leases);
      ReleaseAllKeeps(t, most, leases);
      ReleaseAllSame(t, most, leases, q);
      if m.pool[q].granted {
        ReleaseAllGrants(t, most, leases, q);
        if last in m.locks {
          ReleaseLockedApart(m, last, leases, m.pool[q].request.lock);
          HoldsApart(m, ReleaseLocked(m, last, leases), q);
        }
      } else {
        ReleaseLockedGrants(m, last, leases, q);
      }
    }
  }

  /** Only a release grants a request, and what it grants it is the lock. */
  lemma StepGrants(t: LockTable, op: LockOp, q: nat)
    requires TableInv(t) && |t.store.log| > 0 && VisitsOnce(op) && Grants(t, LockStep(t, op), q)
    ensures (op.OpRelease? || op.OpReleaseByLease?) && HoldsBy(LockStep(t, op), q)
  {
    hide TableInv, ReleaseAll, ReleaseLocked, HoldsBy, Persist, Step, Without;
    match op
    case OpRelease(id, client, leases) =>
      ReleaseOne(t, id, leases);
      ReleaseAllGrants(t, [id], leases, q);
    case OpReleaseByLease(lease, order, leases) => ReleaseAllGrants(t, order, leases, q);
    case OpEnqueue(id, client, lease) => IssuedBefore(t, q);
    case _ =>
  }

  lemma CleanStep(t: LockTable, op: LockOp)
    requires CleanlyReachable(t) && |t.store.log| > 0 && Allowed(op)
    ensures CleanlyReachable(LockStep(t, op))
  {
    hide LockStep, Allowed;
    var logCapacity: int, ops: seq<LockOp> :|
      t == LockRun(NewTable(New(logCapacity)), ops) && forall op :: op in ops ==> Allowed(op);
    var next := ops + [op];
    assert next[..|ops|] == ops;
    assert LockStep(t, op) == LockRun(NewTable(New(logCapacity)), next);
  }

  lemma {:induction false} CleanRun(t: LockTable, ops: seq<LockOp>)
    requires CleanlyReachable(t) && |t.store.log| > 0 && forall op :: op in ops ==> Allowed(op)
    ensures CleanlyReachable(LockRun(t, ops))
  {
    hide CleanlyReachable, LockStep, Allowed;
    if ops != [] {
      CleanRun(t, ops[..|ops| - 1]);
      CleanStep(LockRun(t, ops[..|ops| - 1]), ops[|ops| - 1]);
    }
  }

  lemma CleanTable(t: LockTable)
    requires CleanlyReachable(t)
    ensures TableInv(t) && |t.store.log| > 0 && Reachable(t)
  {
    hide TableInv, NamesInv, RecordsAgree, Reachable;
    CleanlyReachableTable(t);
  }

  /** From the call that queues it, however much happens in between, a request
      stands for that client and that lease; and the step that grants it makes that
      client the holder under that lease, in the table and in the store. */
  lemma GrantedAsEnqueued(t: LockTable, id: LockID, client: string, lease: LeaseID, ops: seq<LockOp>, op: LockOp)
    requires CleanlyReachable(t) && id in t.locks && NulFree(client) && NulFree(lease)
    requires (forall op :: op in ops ==> Allowed(op)) && Allowed(op) && VisitsOnce(op)
    ensures |t.store.log| > 0 && Enqueue(t, id, client, lease).1.Some?
    ensures var (t1, r) := Enqueue(t, id, client, lease); var q := r.value;
      var m := LockRun(t1, ops); var t' := LockStep(m, op);
      && q !in t.pool && q in m.pool && q in t'.pool
      && m.pool[q].request == Request(id, client, lease, m.pool[q].request.state)
      && t'.pool[q].request == Request(id, client, lease, t'.pool[q].request.state)
      && (!m.pool[q].granted && t'.pool[q].granted ==>
            && id in t'.locks && t'.locks[id] == Entry(client, lease, Held, t'.locks[id].queue)
            && GetLockState(t'.store, id).Some?
            && GetLockState(t'.store, id).value.0 == LockRecord(client, lease, 3))
  {
    hide CleanlyReachable, Reachable, LockStep, LockRun, GetLockState, TableInv, NulFree;
    CleanTable(t);
    EnqueueQueues(t, id, client, lease);
    EnqueueClean(t, id, client, lease);
    var (t1, r) := Enqueue(t, id, client, lease);
    CleanTable(t1);
    CleanRun(t1, ops);
    var m := LockRun(t1, ops);
    CleanTable(m);
    RunKeepsRequest(t1, ops, r.value);
    CleanStep(m, op);
    StepKeepsRequest(m, op, r.value);
    var t' := LockStep(m, op);
    if !m.pool[r.value].granted && t'.pool[r.value].granted {
      StepGrants(m, op, r.value);
      TableMatchesStore(t', id);
    }
  }

  lemma EnqueueClean(t: LockTable, id: LockID, client: string, lease: LeaseID)
    requires CleanlyReachable(t) && |t.store.log| > 0 && NulFree(client) && NulFree(lease)
    ensures CleanlyReachable(Enqueue(t, id, client, lease).0)
  {
    hide CleanlyReachable, Enqueue, NulFree;
    CleanStep(t, OpEnqueue(id, client, lease));
  }

  // ---------- releasing ----------

  /** The three verdicts, and that a refused release changes nothing. */
  lemma ReleaseVerdict(t: LockTable, id: LockID, client: string, leases: Leases)
    requires Reachable(t)
    ensures |t.store.log| > 0
    ensures var (t', r) := Release(t, id, client, leases);
      && r == (if id !in t.locks then ErrUnlocked else if t.locks[id].holder != client then ErrNotHolder else Released)
      && (r != Released ==> t' == t)
      && (forall other :: other in t.locks && other != id ==> other in t'.locks && t'.locks[other] == t.locks[other])
  {
    hide Reachable, ReleaseLocked, Inv;
    ReachableTable(t);
    assert EntriesInv(t);
    assert id in t.locks ==> EntryInv(t, id, t.locks[id]);
    hide TableInv, EntriesInv;
    if Release(t, id, client, leases).1 == Released {
      forall other | other in t.locks && other != id
        ensures LockApart(t, ReleaseLocked(t, id, leases), other)
      {
        ReleaseLockedApart(t, id, leases, other);
      }
    }
  }

  lemma TwoRecords(s: StoreState, id: LockID, holder: string, lease: LeaseID, phase: Phase)
    requires |s.log| > 0 && NulFree(holder) && NulFree(lease)
    ensures |Persist(s, id, "", "", Releasing).log| > 0
    ensures var s' := Persist(Persist(s, id, "", "", Releasing), id, holder, lease, phase);
      var h, h' := s.history, s'.history;
      && |s'.log| > 0 && |h'| == |h| + 2 && h <= h' && RecordsAs(h'[|h|], id, "", "", 4)
      && RecordsAs(h'[|h| + 1], id, holder, lease,
                   if phase == Waiting then 1 else if phase == Granted then 2 else if phase == Held then 3
                   else if phase == Releasing then 4 else 5)
  {
    hide Persist, RecordsAs, NulFree;
    NulFreeEmpty();
    PersistRecords(s, id, "", "", Releasing);
    PersistRecords(Persist(s, id, "", "", Releasing), id, holder, lease, phase);
  }

  lemma DeleteRecords(s: StoreState, id: LockID)
    requires |s.log| > 0
    ensures Remove(s, LockKey(id)).history == s.history + [Event(Delete, "locks/" + id, Nil, |s.history| + 1)]
  {
  }

  lemma ReleasedTable(t: LockTable, id: LockID, leases: Leases)
    requires |t.store.log| > 0 && id in t.locks && NamesInv(t)
    ensures |Persist(t.store, id, "", "", Releasing).log| > 0
    ensures var t' := ReleaseLocked(t, id, leases); var m := Persist(t.store, id, "", "", Releasing);
      if id in t'.locks then
        && NulFree(t'.locks[id].holder) && NulFree(t'.locks[id].lease)
        && t'.store == Persist(m, id, t'.locks[id].holder, t'.locks[id].lease, Held)
      else
        |Persist(m, id, "", "", Waiting).log| > 0 && t'.store == Remove(Persist(m, id, "", "", Waiting), LockKey(id))
  {
    hide NulFree, Encode;
    NulFreeEmpty();
  }

  lemma CleanNames(t: LockTable)
    requires CleanlyReachable(t)
    ensures NamesInv(t) && |t.store.log| > 0
  {
    CleanlyReachableTable(t);
    hide NamesInv, TableInv, RecordsAgree;
  }

  /** A release writes two records when somebody is woken, Releasing with no holder
      and then Held with the new one, and otherwise Releasing, Waiting and a delete. */
  lemma ReleaseRecords(t: LockTable, id: LockID, leases: Leases)
    requires CleanlyReachable(t) && id in t.locks
    ensures |t.store.log| > 0
    ensures var t' := ReleaseLocked(t, id, leases); var h, h' := t.store.history, t'.store.history;
      && h <= h' && |h'| > |h| + 1 && RecordsAs(h'[|h|], id, "", "", 4)
      && (if id in t'.locks then
            |h'| == |h| + 2 && RecordsAs(h'[|h| + 1], id, t'.locks[id].holder, t'.locks[id].lease, 3)
          else
            && |h'| == |h| + 3 && RecordsAs(h'[|h| + 1], id, "", "", 1)
            && h'[|h| + 2] == Event(Delete, "locks/" + id, Nil, |h| + 3))
  {
    hide *;
    CleanNames(t);
    NulFreeEmpty();
    ReleasedTable(t, id, leases);
    var t', m := ReleaseLocked(t, id, leases), Persist(t.store, id, "", "", Releasing);
    if id in t'.locks {
      TwoRecords(t.store, id, t'.locks[id].holder, t'.locks[id].lease, Held);
    } else {
      TwoRecords(t.store, id, "", "", Waiting);
      DeleteRecords(Persist(m, id, "", "", Waiting), id);
    }
  }

  /** Ending a lease that is alive, or that nobody looks up, releases exactly the
      locks taken under it; the entry, the requests and the records of every other
      lock are left alone. */
  lemma LeaseReleases(t: LockTable, lease: LeaseID, order: seq<LockID>, leases: Leases, id: LockID)
    requires Reachable(t) && IsOrderOf(order, Affected(t, lease)) && (leases.Checker? ==> lease in leases.alive)
    ensures |t.store.log| > 0
    ensures var t' := ReleaseByLease(t, lease, order, leases);
      if id in t.locks && t.locks[id].lease == lease then
        ReleasedSince(t.store.history, t'.store.history, id) && WakesNext(t, t', id, leases)
      else LockApart(t, t', id)
  {
    hide Reachable, ReleasedSince, WakesNext, LockApart, Inv, PoolInv, GrantsInv;
    ReachableTable(t);
    assert id in t.locks ==> EntryInv(t, id, t.locks[id]);
    hide TableInv, ReleaseAll;
    if id in t.locks && t.locks[id].lease == lease {
      assert id in Affected(t, lease);
      ReleaseByLeaseExact(t, lease, order, leases);
      NoLostWakeupByLease(t, lease, order, leases, id);
    } else {
      ReleaseAllApart(t, order, leases, id);
    }
  }
}
