/** Leases and locks wired together as the service does: the lease manager is the
    locks' checker, and its expiry callback releases by lease. A lease is removed
    in one critical section and its callback runs in a later one. */
module Expiry {
  import opened Model
  import opened StoreSpec
  import opened StoreInvariant
  import opened LockSpec
  import opened LockInvariant
  import opened LockSteps
  import opened LockTheorems
  import opened LeaseSpec

  /** `scanned` are the leases removed by expiry scans that are still to be looked
      up again; `pending` are the callbacks that are due but have not run. */
  datatype System = System(
    leases: LeaseTable, locks: LockTable, scanned: multiset<LeaseID>, pending: multiset<LeaseID>)

  /** `order` is the order in which a callback visits the locks, and `found` the
      requests whose leases it finds alive while it runs. */
  datatype SystemOp =
    | OfLease(leaseOp: LeaseOp)
    | LookUp(id: LeaseID)
    | Callback(id: LeaseID, order: seq<LockID>, found: set<nat>)
    | OfLock(lockOp: LockOp)

  function NewSystem(logCapacity: int): System {
    System(LeaseTable(map[], []), NewTable(New(logCapacity)), multiset{}, multiset{})
  }

  function Checking(s: System, found: set<nat>): Leases {
    Checker(s.leases.leases.Keys, found)
  }

  /** Whichever requests a release finds alive. */
  function Found(leases: Leases): set<nat> {
    if leases.Checker? then leases.found else {}
  }

  /** The lock manager always asks the lease manager. */
  function Wired(s: System, o: LockOp): LockOp {
    if o.OpRelease? then OpRelease(o.id, o.client, Checking(s, Found(o.leases))) else o
  }

  /** Locks are released by lease only from the callback. */
  ghost function SystemStep(s: System, op: SystemOp): (s': System)
    requires |s.locks.store.log| > 0
    ensures |s'.locks.store.log| == |s.locks.store.log|
  {
    match op
    case OfLease(o) =>
      var leases := LeaseStep(s.leases, o);
      s.(leases := leases,
         pending := s.pending + multiset(leases.notified[|s.leases.notified|..]),
         scanned := if o.OpExpireOnce? then s.scanned + multiset(Overdue(s.leases, o.now)) else s.scanned)
    case LookUp(id) =>
      if id in s.scanned then
        s.(scanned := s.scanned - multiset{id},
           pending := if id in s.leases.leases then s.pending + multiset{id} else s.pending)
      else s
    case Callback(id, order, found) =>
      if id in s.pending then
        s.(pending := s.pending - multiset{id}, locks := ReleaseByLease(s.locks, id, order, Checking(s, found)))
      else s
    case OfLock(o) => if o.OpReleaseByLease? then s else s.(locks := LockStep(s.locks, Wired(s, o)))
  }

  /** A callback visits exactly the locks held under its lease, and nobody but the
      lock manager writes under the lock prefix. */
  ghost predicate SystemAllowed(s: System, op: SystemOp) {
    && (op.Callback? ==> IsOrderOf(op.order, Affected(s.locks, op.id)))
    && (op.OfLock? && op.lockOp.OpStore? ==> !WritesLockKey(op.lockOp.op))
  }

  ghost function SystemRun(s: System, ops: seq<SystemOp>): (s': System)
    requires |s.locks.store.log| > 0
    ensures |s'.locks.store.log| == |s.locks.store.log|
  {
    if ops == [] then s else SystemStep(SystemRun(s, ops[..|ops| - 1]), ops[|ops| - 1])
  }

  ghost predicate SystemRunAllowed(s: System, ops: seq<SystemOp>)
    requires |s.locks.store.log| > 0
  {
    ops != [] ==>
      && SystemRunAllowed(s, ops[..|ops| - 1])
      && SystemAllowed(SystemRun(s, ops[..|ops| - 1]), ops[|ops| - 1])
  }

  predicate IsReleaseBy(op: SystemOp, id: LockID, client: string) {
    op.OfLock? && op.lockOp.OpRelease? && op.lockOp.id == id && op.lockOp.client == client
  }

  ghost predicate HeldBy(t: LockTable, id: LockID, client: string, lease: LeaseID) {
    id in t.locks && t.locks[id].holder == client && t.locks[id].lease == lease
  }

  /** A callback naming the lock's lease runs while that lease is in the table. */
  predicate FreedBy(s: System, op: SystemOp, id: LockID, lease: LeaseID) {
    && op.Callback? && op.id == lease && lease in s.pending && lease in s.leases.leases
    && id in s.locks.locks && s.locks.locks[id].lease == lease
  }

  /** Some step of a run frees the lock that way. */
  ghost predicate SomeStepFrees(s: System, ops: seq<SystemOp>, id: LockID, lease: LeaseID)
    requires |s.locks.store.log| > 0
  {
    ops != [] &&
      (SomeStepFrees(s, ops[..|ops| - 1], id, lease)
       || FreedBy(SystemRun(s, ops[..|ops| - 1]), ops[|ops| - 1], id, lease))
  }

  /** Where a callback comes from: its lease has just been removed, and an expiry
      scan owes no callback itself. Run against any later table, it changes the
      locks exactly when its lease is in that table again and holds any. */
  lemma EndedLeasesFreeNoLocks(t: LeaseTable, op: LeaseOp, i: nat, later: LeaseTable,
                               locks: LockTable, order: seq<LockID>, found: set<nat>)
    requires AllAlive(t) && |locks.store.log| > 0
    requires |t.notified| <= i < |LeaseStep(t, op).notified|
    requires IsOrderOf(order, Affected(locks, LeaseStep(t, op).notified[i]))
    ensures var id := LeaseStep(t, op).notified[i];
      && !op.OpExpireOnce? && id in t.leases && id !in LeaseStep(t, op).leases
      && (ReleaseByLease(locks, id, order, Checker(later.leases.Keys, found)) != locks <==>
          id in later.leases && Affected(locks, id) != {})
  {
    var id := LeaseStep(t, op).notified[i];
    hide LeaseStep, ReleaseAll;
    if id in later.leases {
      if order == [] {
        NothingReleased(locks, Checker(later.leases.Keys, found));
      } else {
        FirstOf(order, Affected(locks, id));
        ReleaseAllWrites(locks, order, Checker(later.leases.Keys, found));
        assert ReleasedSince(locks.store.history,
                             ReleaseAll(locks, order, Checker(later.leases.Keys, found)).store.history, order[0]);
      }
    }
    assert !op.OpExpireOnce? && id in t.leases && id !in LeaseStep(t, op).leases by {
      NoticeOfRemoved(t, op, i);
    }
  }

  /** The lease is removed by this step, not by a scan. */
  predicate RemovedBy(s: System, op: SystemOp, id: LeaseID) {
    && op.OfLease? && !op.leaseOp.OpExpireOnce?
    && id in s.leases.leases && id !in LeaseStep(s.leases, op.leaseOp).leases
  }

  /** Exactly when a callback becomes due: its lease has just been removed other than
      by a scan, or the lookup after a scan finds that the lease exists again. */
  lemma CallbacksDue(s: System, op: SystemOp, id: LeaseID)
    requires AllAlive(s.leases) && |s.locks.store.log| > 0
    ensures SystemStep(s, op).pending[id] == s.pending[id]
      + (if RemovedBy(s, op, id) || (op == LookUp(id) && id in s.scanned && id in s.leases.leases) then 1 else 0)
      - (if op.Callback? && op.id == id && id in s.pending then 1 else 0)
  {
    hide LockStep, ReleaseByLease;
    if op.OfLease? {
      var notified, n := LeaseStep(s.leases, op.leaseOp).notified, |s.leases.notified|;
      assert notified == s.leases.notified || notified[n..] == [notified[n]];
    }
  }

  lemma FirstOf(order: seq<LockID>, items: set<LockID>)
    requires IsOrderOf(order, items) && order != []
    ensures order[0] in items
  {
  }

  lemma NothingReleased(t: LockTable, leases: Leases)
    requires |t.store.log| > 0
    ensures ReleaseAll(t, [], leases) == t
  {
  }

  lemma NoticeOfRemoved(t: LeaseTable, op: LeaseOp, i: nat)
    requires AllAlive(t) && |t.notified| <= i < |LeaseStep(t, op).notified|
    ensures var id := LeaseStep(t, op).notified[i];
      !op.OpExpireOnce? && id in t.leases && id !in LeaseStep(t, op).leases
  {
  }

  // ---------- one step ----------

  ghost predicate SystemInv(s: System) {
    AllAlive(s.leases) && TableInv(s.locks)
  }

  lemma SystemStepKeeps(s: System, op: SystemOp)
    requires SystemInv(s) && |s.locks.store.log| > 0
    ensures SystemInv(SystemStep(s, op))
  {
    hide TableInv, LockStep, ReleaseByLease;
    match op
    case OfLease(o) =>
    case LookUp(id) =>
    case Callback(id, order, found) =>
      StepKeepsTable(s.locks, OpReleaseByLease(id, order, Checking(s, found)));
      CallbackIsStep(s.locks, id, order, Checking(s, found));
    case OfLock(o) => StepKeepsTable(s.locks, Wired(s, o));
  }

  lemma CallbackIsStep(t: LockTable, lease: LeaseID, order: seq<LockID>, leases: Leases)
    requires |t.store.log| > 0
    ensures LockStep(t, OpReleaseByLease(lease, order, leases)) == ReleaseByLease(t, lease, order, leases)
  {
  }

  /** A lock the step leaves with its holder, and of which it writes no record. */
  ghost predicate Kept(t: LockTable, t': LockTable, id: LockID) {
    && id in t.locks && id in t'.locks
    && t'.locks[id].holder == t.locks[id].holder && t'.locks[id].lease == t.locks[id].lease
    && Untouched(t.store.history, t'.store.history, LockKey(id))
  }

  lemma ApartIsKept(t: LockTable, t': LockTable, id: LockID)
    requires id in t.locks && LockApart(t, t', id)
    ensures Kept(t, t', id)
  {
    hide Untouched;
  }

  lemma TryAcquireKeepsLock(t: LockTable, op: LockOp, id: LockID)
    requires TableInv(t) && |t.store.log| > 0 && id in t.locks && op.OpTryAcquire?
    ensures Kept(t, LockStep(t, op), id)
  {
    assert EntryInv(t, id, t.locks[id]);
    hide TableInv, Persist, Untouched;
    if op.id != id {
      PersistUntouched(t.store, op.id, op.client, op.lease, Held, id);
    }
    SameUntouched(t.store.history, LockKey(id));
  }

  lemma SameUntouched(h: seq<Event>, k: Key)
    ensures Untouched(h, h, k)
  {
  }

  lemma StoreOpKeepsLock(t: LockTable, op: StoreOp, id: LockID)
    requires |t.store.log| > 0 && id in t.locks && !WritesLockKey(op)
    ensures Kept(t, LockStep(t, OpStore(op)), id)
  {
    hide LogEvents, Snapshot, ReclaimRecords;
    assert "locks/" <= LockKey(id);
  }

  lemma LockStepKeepsHolder(t: LockTable, op: LockOp, id: LockID, client: string)
    requires TableInv(t) && |t.store.log| > 0 && id in t.locks && t.locks[id].holder == client
    requires !op.OpReleaseByLease? && !(op.OpRelease? && op.id == id && op.client == client)
    requires op.OpStore? ==> !WritesLockKey(op.op)
    ensures Kept(t, LockStep(t, op), id)
  {
    hide TableInv, ReleaseLocked, Untouched, Step, Without, CancelWaiter, LockApart, TryAcquire;
    SameUntouched(t.store.history, LockKey(id));
    match op
    case OpTryAcquire(_, _, _) => TryAcquireKeepsLock(t, op, id);
    case OpRelease(other, _, leases) =>
      if LockStep(t, op) != t {
        ReleaseLockedApart(t, other, leases, id);
        ApartIsKept(t, ReleaseLocked(t, other, leases), id);
      }
    case OpStore(o) => StoreOpKeepsLock(t, o, id);
    case _ =>
  }

  lemma CallbackKeepsHolder(s: System, lease': LeaseID, order: seq<LockID>, found: set<nat>, id: LockID)
    requires TableInv(s.locks) && |s.locks.store.log| > 0 && id in s.locks.locks
    requires IsOrderOf(order, Affected(s.locks, lease'))
    requires lease' !in s.leases.leases || s.locks.locks[id].lease != lease'
    ensures Kept(s.locks, ReleaseByLease(s.locks, lease', order, Checking(s, found)), id)
  {
    hide TableInv, ReleaseAll, Untouched, LockApart;
    SameUntouched(s.locks.store.history, LockKey(id));
    if lease' in s.leases.leases {
      ReleaseAllApart(s.locks, order, Checking(s, found), id);
      ApartIsKept(s.locks, ReleaseAll(s.locks, order, Checking(s, found)), id);
    }
  }

  lemma SystemStepKeepsHolder(s: System, op: SystemOp, id: LockID, client: string, lease: LeaseID)
    requires SystemInv(s) && |s.locks.store.log| > 0 && SystemAllowed(s, op)
    requires HeldBy(s.locks, id, client, lease) && !IsReleaseBy(op, id, client) && !FreedBy(s, op, id, lease)
    ensures Kept(s.locks, SystemStep(s, op).locks, id)
  {
    hide TableInv, LockStep, ReleaseByLease, Untouched, WritesLockKey;
    SameUntouched(s.locks.store.history, LockKey(id));
    match op
    case OfLease(_) =>
    case LookUp(_) =>
    case Callback(lease', order, found) =>
      if lease' in s.pending {
        CallbackKeepsHolder(s, lease', order, found, id);
      }
    case OfLock(o) =>
      if !o.OpReleaseByLease? {
        LockStepKeepsHolder(s.locks, Wired(s, o), id, client);
      }
  }

  lemma FreedIsReleased(s: System, op: SystemOp, id: LockID, lease: LeaseID)
    requires SystemInv(s) && |s.locks.store.log| > 0 && SystemAllowed(s, op) && FreedBy(s, op, id, lease)
    ensures ReleasedSince(s.locks.store.history, SystemStep(s, op).locks.store.history, id)
  {
    assert EntryInv(s.locks, id, s.locks.locks[id]);
    assert id in Affected(s.locks, lease);
    hide TableInv, ReleaseAll, ReleasedSince;
    ReleaseAllWrites(s.locks, op.order, Checking(s, op.found));
  }

  lemma LockHistoryGrows(t: LockTable, op: LockOp)
    requires |t.store.log| > 0 && !op.OpReleaseByLease?
    ensures t.store.history <= LockStep(t, op).store.history
  {
    hide Step, ReleaseLocked, Without, CancelWaiter;
    match op
    case OpStore(o) => StepExtendsHistory(t.store, o);
    case OpRelease(id, client, leases) =>
      if id in t.locks {
        ReleaseLockedWrites(t, id, leases);
      }
    case _ =>
  }

  lemma SystemHistoryGrows(s: System, op: SystemOp)
    requires |s.locks.store.log| > 0 && SystemAllowed(s, op)
    ensures s.locks.store.history <= SystemStep(s, op).locks.store.history
  {
    hide LockStep, ReleaseAll, ReleasedSince;
    match op
    case OfLease(_) =>
    case LookUp(_) =>
    case Callback(id, order, found) => ReleaseAllWrites(s.locks, order, Checking(s, found));
    case OfLock(o) =>
      if !o.OpReleaseByLease? {
        LockHistoryGrows(s.locks, Wired(s, o));
      }
  }

  // ---------- runs ----------

  /** A lock outlives its lease unless the lease comes back. Over any run without a
      release by its holder, a lock is released exactly when a callback naming its
      lease runs while that lease is in the table again; as long as none does, the
      lock stays with its holder, whatever leases are created, renewed, revoked or
      expire. */
  lemma {:induction false} LocksOutliveLeases(s: System, ops: seq<SystemOp>, id: LockID, client: string, lease: LeaseID)
    requires SystemInv(s) && |s.locks.store.log| > 0 && SystemRunAllowed(s, ops)
    requires HeldBy(s.locks, id, client, lease)
    requires forall op :: op in ops ==> !IsReleaseBy(op, id, client)
    ensures var s' := SystemRun(s, ops);
      && SystemInv(s') && s.locks.store.history <= s'.locks.store.history
      && (SomeStepFrees(s, ops, id, lease) <==>
          ReleasedSince(s.locks.store.history, s'.locks.store.history, id))
      && (!SomeStepFrees(s, ops, id, lease) ==> Kept(s.locks, s'.locks, id))
  {
    var h := s.locks.store.history;
    if ops == [] {
      SameUntouched(h, LockKey(id));
    } else {
      var most, op := ops[..|ops| - 1], ops[|ops| - 1];
      LocksOutliveLeases(s, most, id, client, lease);
      var m := SystemRun(s, most);
      hide SystemInv, SystemAllowed, SystemStep, FreedBy, ReleasedSince, Untouched, IsReleaseBy;
      SystemStepKeeps(m, op);
      SystemHistoryGrows(m, op);
      ReleasedLonger(h, m.locks.store.history, SystemStep(m, op).locks.store.history, id);
      if FreedBy(m, op, id, lease) {
        FreedIsReleased(m, op, id, lease);
      } else if !SomeStepFrees(s, most, id, lease) {
        SystemStepKeepsHolder(m, op, id, client, lease);
        UntouchedTwice(h, m.locks.store.history, SystemStep(m, op).locks.store.history, LockKey(id));
        UntouchedNotReleased(h, SystemStep(m, op).locks.store.history, id);
      }
    }
  }

  lemma UntouchedNotReleased(h: seq<Event>, h': seq<Event>, id: LockID)
    requires Untouched(h, h', LockKey(id))
    ensures !ReleasedSince(h, h', id)
  {
  }

  // ---------- it does happen ----------

  /** A renewal finds the lease overdue and removes it; before its callback runs the
      lease is created again. */
  function ComesBack(lease: LeaseID, ttl: int, holder: string, now: int, order: seq<LockID>): seq<SystemOp> {
    [OfLease(OpRenew(lease, now)), OfLease(OpCreate(lease, ttl, holder, now)), Callback(lease, order, {})]
  }

  lemma OneStepMore(s: System, ops: seq<SystemOp>, op: SystemOp)
    requires |s.locks.store.log| > 0
    ensures SystemRun(s, ops + [op]) == SystemStep(SystemRun(s, ops), op)
    ensures SystemRunAllowed(s, ops) && SystemAllowed(SystemRun(s, ops), op) ==> SystemRunAllowed(s, ops + [op])
    ensures SystemRun(s, []) == s && SystemRunAllowed(s, [])
  {
    hide SystemStep, SystemAllowed;
    assert (ops + [op])[..|ops|] == ops;
  }

  lemma ThreeSteps(s: System, a: SystemOp, b: SystemOp, c: SystemOp)
    requires |s.locks.store.log| > 0
    ensures var s2 := SystemStep(SystemStep(s, a), b);
      && SystemRun(s, [a, b]) == s2 && SystemRun(s, [a, b, c]) == SystemStep(s2, c)
      && (SystemAllowed(s, a) && SystemAllowed(SystemStep(s, a), b) ==> SystemRunAllowed(s, [a, b]))
      && (SystemRunAllowed(s, [a, b]) && SystemAllowed(s2, c) ==> SystemRunAllowed(s, [a, b, c]))
  {
    hide SystemStep, SystemAllowed, SystemRun, SystemRunAllowed;
    OneStepMore(s, [], a);
    OneStepMore(s, [a], b);
    OneStepMore(s, [a, b], c);
    assert [] + [a] == [a] && [a] + [b] == [a, b] && [a, b] + [c] == [a, b, c];
  }

  /** In any state, a lock whose lease is overdue is lost that way. */
  lemma RecreatedLeaseFreesLock(
    s: System, id: LockID, client: string, lease: LeaseID, ttl: int, holder: string, now: int, order: seq<LockID>)
    requires SystemInv(s) && |s.locks.store.log| > 0 && HeldBy(s.locks, id, client, lease)
    requires lease in s.leases.leases && s.leases.leases[lease].expiresAt <= now
    requires IsOrderOf(order, Affected(s.locks, lease))
    ensures var ops := ComesBack(lease, ttl, holder, now, order);
      && SystemRunAllowed(s, ops)
      && ReleasedSince(s.locks.store.history, SystemRun(s, ops).locks.store.history, id)
      && SystemRun(s, ops).locks == ReleaseAll(s.locks, order, Checker(s.leases.leases.Keys, {}))
  {
    hide SystemInv, SystemStep, SystemRun, SystemRunAllowed, ReleaseAll, ReleasedSince, Affected;
    var a, b, c := OfLease(OpRenew(lease, now)), OfLease(OpCreate(lease, ttl, holder, now)), Callback(lease, order, {});
    var s1 := SystemStep(s, a);
    var s2 := SystemStep(s1, b);
    LeaseComesBack(s, lease, ttl, holder, now);
    ThreeSteps(s, a, b, c);
    SystemStepKeeps(s, a);
    SystemStepKeeps(s1, b);
    FreedIsReleased(s2, c, id, lease);
    CallbackRuns(s2, lease, order);
  }

  lemma LeaseComesBack(s: System, lease: LeaseID, ttl: int, holder: string, now: int)
    requires SystemInv(s) && |s.locks.store.log| > 0
    requires lease in s.leases.leases && s.leases.leases[lease].expiresAt <= now
    ensures var s1 := SystemStep(s, OfLease(OpRenew(lease, now)));
            var s2 := SystemStep(s1, OfLease(OpCreate(lease, ttl, holder, now)));
      && s1.locks == s.locks && s2.locks == s.locks && lease in s2.pending
      && s2.leases.leases.Keys == s.leases.leases.Keys
  {
    hide TableInv;
    var s1 := SystemStep(s, OfLease(OpRenew(lease, now)));
    assert s1.leases.leases == s.leases.leases - {lease} && s1.leases.notified == s.leases.notified + [lease];
    assert s1.leases.notified[|s.leases.notified|..] == [lease];
  }

  lemma CallbackRuns(s: System, lease: LeaseID, order: seq<LockID>)
    requires |s.locks.store.log| > 0 && lease in s.pending && lease in s.leases.leases
    ensures SystemStep(s, Callback(lease, order, {})).locks == ReleaseAll(s.locks, order, Checking(s, {}))
  {
    hide ReleaseAll;
  }

  /** From an empty system: a client takes a lock under a lease and never releases
      it, and yet the lock ends up free. */
  lemma LockLostToOldCallback(logCapacity: int, id: LockID, client: string, lease: LeaseID)
    ensures |NewSystem(logCapacity).locks.store.log| > 0
    ensures var held := SystemRun(NewSystem(logCapacity),
                                  [OfLease(OpCreate(lease, 1, client, 0)), OfLock(OpTryAcquire(id, client, lease))]);
      && HeldBy(held.locks, id, client, lease)
      && id !in SystemRun(held, ComesBack(lease, 1, client, 1, [id])).locks.locks
  {
    var a, b := OfLease(OpCreate(lease, 1, client, 0)), OfLock(OpTryAcquire(id, client, lease));
    NewTableInv(logCapacity);
    FirstHolder(logCapacity, id, client, lease);
    hide New, NewTable, Persist, TableInv, SystemStep, SystemRun, ReleaseAll, ComesBack;
    var s := NewSystem(logCapacity);
    ThreeSteps(s, a, b, b);
    var held := SystemStep(SystemStep(s, a), b);
    SystemStepKeeps(s, a);
    SystemStepKeeps(SystemStep(s, a), b);
    assert Affected(held.locks, lease) == {id};
    RecreatedLeaseFreesLock(held, id, client, lease, 1, client, 1, [id]);
    OneReleased(held.locks, id, Checker(held.leases.leases.Keys, {}));
  }

  lemma FirstHolder(logCapacity: int, id: LockID, client: string, lease: LeaseID)
    requires |NewSystem(logCapacity).locks.store.log| > 0
    ensures var s := NewSystem(logCapacity);
      var held := SystemStep(SystemStep(s, OfLease(OpCreate(lease, 1, client, 0))),
                             OfLock(OpTryAcquire(id, client, lease)));
      && held.locks.locks == map[id := Entry(client, lease, Held, [])]
      && held.leases.leases == map[lease := LeaseRecord(1, 1, 0, client, Alive)]
  {
    hide New, Persist;
  }

  lemma OneReleased(t: LockTable, id: LockID, leases: Leases)
    requires |t.store.log| > 0 && id in t.locks && t.locks[id].queue == []
    ensures id !in ReleaseAll(t, [id], leases).locks
  {
    ReleaseOne(t, id, leases);
    hide Persist, Remove;
  }
}
