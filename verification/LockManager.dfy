/** The lock manager itself: a mutable table of locks over a store. Requests are
    referred to by their sequence numbers; `pool` holds the request objects and
    `waiters` the table of registered ones. */
module LockManager {
  import opened Model
  import opened StoreSpec
  import opened StoreInvariant
  import opened LockSpec
  import opened LockInvariant
  import opened LockSteps
  import Store

  ghost predicate IsWaiting(pool: map<nat, Waiter>, q: nat) {
    q in pool && pool[q].request.state == Waiting
  }

  /** The position of the smallest request that is still waiting, or -1. */
  method Earliest(pool: map<nat, Waiter>, queue: seq<nat>) returns (best: int)
    requires forall q :: q in queue ==> q in pool
    ensures -1 <= best < |queue|
    ensures best == -1 <==> forall q :: q in queue ==> !IsWaiting(pool, q)
    ensures best >= 0 ==> IsWaiting(pool, queue[best])
    ensures best >= 0 ==> forall q :: q in queue && IsWaiting(pool, q) ==> queue[best] <= q
  {
    best := -1;
    var i := 0;
    while i < |queue|
      invariant i <= |queue| && -1 <= best < i
      invariant best == -1 ==> forall j :: 0 <= j < i ==> !IsWaiting(pool, queue[j])
      invariant best >= 0 ==> IsWaiting(pool, queue[best])
      invariant best >= 0 ==> forall j :: 0 <= j < i && IsWaiting(pool, queue[j]) ==> queue[best] <= queue[j]
    {
      assert queue[i] in queue;
      if pool[queue[i]].request.state == Waiting {
        if best < 0 || queue[i] < queue[best] {
          best := i;
        }
      }
      i := i + 1;
    }
  }

  /** `r` is the smallest waiting request of a queue and `rest` the queue without it. */
  ghost predicate Takes(pool: map<nat, Waiter>, queue: seq<nat>, r: Option<nat>, rest: seq<nat>) {
    match r
    case None => rest == queue && forall q :: q in queue ==> !IsWaiting(pool, q)
    case Some(w) =>
      && IsWaiting(pool, w) && (forall q :: q in queue && IsWaiting(pool, q) ==> w <= q)
      && exists i :: 0 <= i < |queue| && queue[i] == w && rest == queue[..i] + queue[i + 1..]
  }

  /** Takes the waiting request with the smallest number out of a queue; requests
      that no longer wait are passed by and left in it. */
  method EarliestWaiter(pool: map<nat, Waiter>, queue: seq<nat>) returns (r: Option<nat>, rest: seq<nat>)
    requires forall q :: q in queue ==> q in pool
    ensures Takes(pool, queue, r, rest)
  {
    var best := Earliest(pool, queue);
    if best < 0 {
      return None, queue;
    }
    return Some(queue[best]), queue[..best] + queue[best + 1..];
  }

  /** From an ordered queue of waiting requests it is the first that is taken. */
  lemma FirstIsTaken(pool: map<nat, Waiter>, queue: seq<nat>, r: Option<nat>, rest: seq<nat>)
    requires Takes(pool, queue, r, rest) && Increasing(queue)
    requires forall q :: q in queue ==> IsWaiting(pool, q)
    ensures queue == [] ==> r == None && rest == []
    ensures queue != [] ==> r == Some(queue[0]) && rest == queue[1..]
  {
    if queue != [] {
      assert queue[0] in queue;
      if r.Some? {
        var i :| 0 <= i < |queue| && queue[i] == r.value && rest == queue[..i] + queue[i + 1..];
        assert i == 0;
      }
    }
  }

  lemma RestOfQueue(pool: map<nat, Waiter>, queue: seq<nat>, n: nat)
    requires Increasing(queue) && n <= |queue| && forall q :: q in queue ==> IsWaiting(pool, q)
    ensures Increasing(queue[n..]) && forall q :: q in queue[n..] ==> q in pool && IsWaiting(pool, q)
  {
    forall q | q in queue[n..]
      ensures q in queue
    {
      assert queue == queue[..n] + queue[n..];
    }
  }

  /** What the request found is: the first one that nobody asks about, that has no
      lease, or whose lease is found alive. */
  lemma FirstToWake(pool: map<nat, Waiter>, queue: seq<nat>, leases: Leases, n: nat)
    requires Increasing(queue) && (forall q :: q in queue ==> IsWaiting(pool, q))
    requires n == PassedOver(pool, leases, queue)
    ensures n < |queue| ==>
      queue[n] in pool && (leases.NoChecker? || pool[queue[n]].request.lease == "" || queue[n] in leases.found)
    ensures forall q :: q in queue && (n < |queue| ==> q < queue[n]) ==>
      q in pool && leases.Checker? && pool[q].request.lease != "" && q !in leases.found
  {
    if n < |queue| {
      assert forall i :: n <= i < |queue| ==> queue[n] <= queue[i];
    }
  }

  /** Takes requests off a queue up to the first whose lease is alive. */
  method NextWaiter(pool: map<nat, Waiter>, queue: seq<nat>, leases: Leases)
    returns (r: Option<nat>, rest: seq<nat>)
    requires Increasing(queue)
    requires forall q :: q in queue ==> IsWaiting(pool, q)
    ensures var n := PassedOver(pool, leases, queue);
      if n == |queue| then r == None && rest == [] else r == Some(queue[n]) && rest == queue[n + 1..]
    ensures r.Some? ==>
      && r.value in queue && r.value in pool
      && (leases.NoChecker? || pool[r.value].request.lease == "" || r.value in leases.found)
    ensures forall q :: q in queue && (r.Some? ==> q < r.value) ==>
      q in pool && leases.Checker? && pool[q].request.lease != "" && q !in leases.found
  {
    hide Takes, Increasing, IsWaiting, IsEligible, PassedOver;
    rest := queue;
    ghost var n := 0;
    while true
      invariant n <= |queue| && n <= PassedOver(pool, leases, queue)
      invariant rest == queue[n..]
      decreases |queue| - n
    {
      var before := rest;
      RestOfQueue(pool, queue, n);
      r, rest := EarliestWaiter(pool, before);
      FirstIsTaken(pool, before, r, rest);
      if r == None {
        FirstToWake(pool, queue, leases, n);
        return;
      }
      AskedNext(pool, leases, queue, n);
      if IsEligible(pool, leases, r.value) {
        FirstToWake(pool, queue, leases, n);
        return;
      }
      n := n + 1;
    }
  }

  lemma AskedNext(pool: map<nat, Waiter>, leases: Leases, queue: seq<nat>, n: nat)
    requires n < |queue| && n <= PassedOver(pool, leases, queue)
    ensures if IsEligible(pool, leases, queue[n]) then n == PassedOver(pool, leases, queue)
            else n < PassedOver(pool, leases, queue)
  {
  }

  /** The table while a release is under way and `n` waiters have been passed over. */
  ghost function Between(was: LockTable, id: LockID, n: nat): LockTable
    requires |was.store.log| > 0 && id in was.locks && n <= |was.locks[id].queue|
  {
    was.(locks := was.locks[id := Entry("", "", Releasing, was.locks[id].queue[n..])],
         store := Persist(was.store, id, "", "", Releasing))
  }

  /** Filters one client's requests out of a queue, cancelling each of them. */
  method DropClient(queue: seq<nat>, pool0: map<nat, Waiter>, waiters0: set<nat>, client: string)
    returns (kept: seq<nat>, pool: map<nat, Waiter>, waiters: set<nat>)
    requires Increasing(queue) && forall q :: q in queue ==> q in pool0
    ensures kept == Without(pool0, queue, client)
    ensures Increasing(kept) && forall q :: q in kept <==> q in queue && pool0[q].request.client != client
    ensures pool.Keys == pool0.Keys
    ensures forall q :: q in pool ==>
      (pool[q] == if q in queue && pool0[q].request.client == client then CancelWaiter(pool0[q], q in waiters0)
                  else pool0[q])
    ensures forall q :: q in waiters <==> q in waiters0 && !(q in queue && pool0[q].request.client == client)
  {
    hide CancelWaiter, Increasing;
    kept, pool, waiters := [], pool0, waiters0;
    ghost var gone: set<nat> := {};
    var i := 0;
    while i < |queue|
      invariant i <= |queue| && kept == Without(pool0, queue[..i], client)
      invariant pool.Keys == pool0.Keys
      invariant forall q :: q in gone <==> q in queue[..i] && IsFrom(pool0, q, client)
      invariant forall q :: q in pool ==>
        pool[q] == if q in gone then CancelWaiter(pool0[q], q in waiters0) else pool0[q]
      invariant waiters == waiters0 - gone
    {
      var q := queue[i];
      assert queue[..i + 1] == queue[..i] + [q] && queue[..i + 1][..i] == queue[..i];
      NotBefore(queue, i);
      if pool[q].request.client == client {
        pool := pool[q := CancelWaiter(pool[q], q in waiters)];
        waiters := waiters - {q};
        gone := gone + {q};
      } else {
        kept := kept + [q];
      }
      i := i + 1;
    }
    assert queue[..i] == queue;
    WithoutShape(pool0, queue, client);
  }

  lemma NotBefore(queue: seq<nat>, i: nat)
    requires Increasing(queue) && i < |queue|
    ensures queue[i] in queue && queue[i] !in queue[..i]
  {
  }

  lemma QueueOf(t: LockTable, id: LockID)
    requires TableInv(t) && id in t.locks
    ensures Increasing(t.locks[id].queue) && forall q :: q in t.locks[id].queue ==> q in t.pool
  {
    assert EntryInv(t, id, t.locks[id]);
    hide Inv, Increasing, PoolInv, GrantsInv;
  }

  lemma NothingToCancel(t: LockTable, id: LockID, client: string)
    requires id !in t.locks
    ensures LockSpec.Cancel(t, id, client) == t
  {
  }

  lemma ClientCancelled(t: LockTable, id: LockID, client: string,
                        kept: seq<nat>, pool: map<nat, Waiter>, waiters: set<nat>)
    requires id in t.locks && kept == Without(t.pool, t.locks[id].queue, client) && pool.Keys == t.pool.Keys
    requires forall q :: q in pool ==>
      pool[q] == if q in t.locks[id].queue && IsFrom(t.pool, q, client) then CancelWaiter(t.pool[q], q in t.waiters)
                 else t.pool[q]
    requires forall q :: q in waiters <==> q in t.waiters && !(q in t.locks[id].queue && IsFrom(t.pool, q, client))
    ensures LockSpec.Cancel(t, id, client) ==
            t.(locks := t.locks[id := t.locks[id].(queue := kept)], pool := pool, waiters := waiters)
  {
    hide Without, CancelWaiter;
    assert waiters == LockSpec.Cancel(t, id, client).waiters;
    assert pool == LockSpec.Cancel(t, id, client).pool;
  }

  class Manager {
    var locks: map<LockID, Entry>
    var waiters: set<nat>
    var pool: map<nat, Waiter>
    var issued: nat
    ghost var grants: map<LockID, seq<nat>>
    ghost var skipped: set<nat>
    const store: Store.Store

    ghost function Table(): LockTable
      reads this, store, store.log
    {
      LockTable(locks, waiters, pool, issued, grants, skipped, store.State())
    }

    ghost predicate Valid()
      reads this, store, store.log
    {
      store.Valid() && TableInv(Table())
    }

    constructor (store: Store.Store)
      requires store.Valid()
      ensures Valid() && this.store == store
      ensures Table() == NewTable(store.State())
    {
      this.store := store;
      locks, waiters, pool, issued := map[], {}, map[], 0;
      grants, skipped := map[], {};
      new;
      assert forall q :: !IsQueued(Table(), q);
      assert forall i :: GrantInv(Table(), i);
    }

    /** Takes the lock if nobody holds it. */
    method TryAcquire(id: LockID, client: string, lease: LeaseID) returns (granted: bool)
      requires Valid()
      modifies this, store, store.log
      ensures Valid()
      ensures |old(store.State()).log| > 0
      ensures (Table(), granted) == LockSpec.TryAcquire(old(Table()), id, client, lease)
    {
      ghost var was := Table();
      hide Inv;
      LogNonempty(was.store);
      TryAcquireKeeps(was, id, client, lease);
      hide TableInv, Persist;
      var entry := if id in locks then locks[id] else Entry("", "", Waiting, []);
      locks := locks[id := entry];
      assert Table() == was.(locks := was.locks[id := entry]);
      if entry.state == Held || entry.state == Releasing || entry.state == Granted {
        return false;
      }
      if entry.holder != "" {
        return false;
      }
      locks := locks[id := entry.(state := Held, holder := client, lease := lease)];
      var _ := store.PutLockState(id, client, lease, Held);
      assert locks == was.locks[id := Entry(client, lease, Held, entry.queue)];
      return true;
    }

    /** Queues behind the holder; `None` when the entry has vanished. */
    method Enqueue(id: LockID, client: string, lease: LeaseID) returns (r: Option<nat>)
      requires Valid()
      modifies this
      ensures Valid()
      ensures (Table(), r) == LockSpec.Enqueue(old(Table()), id, client, lease)
      ensures r.Some? ==> r.value in pool && pool[r.value].request == Request(id, client, lease, Waiting)
    {
      hide Inv;
      EnqueueKeeps(Table(), id, client, lease);
      hide TableInv;
      if id !in locks {
        return None;
      }
      issued := issued + 1;
      pool := pool[issued := Waiter(Request(id, client, lease, Waiting), false, 0)];
      locks := locks[id := locks[id].(queue := locks[id].queue + [issued])];
      waiters := waiters + {issued};
      return Some(issued);
    }

    /** Removes a client's requests from a queue, closing their channels. */
    method Cancel(id: LockID, client: string)
      requires Valid()
      modifies this
      ensures Valid()
      ensures Table() == LockSpec.Cancel(old(Table()), id, client)
    {
      hide Inv, TableInv, Without, CancelWaiter, EntryInv, LockSpec.Cancel;
      ghost var was := Table();
      CancelKeeps(was, id, client);
      if id !in locks {
        NothingToCancel(was, id, client);
        return;
      }
      QueueOf(was, id);
      var queue := locks[id].queue;
      var kept: seq<nat>;
      kept, pool, waiters := DropClient(queue, pool, waiters, client);
      locks := locks[id := locks[id].(queue := kept)];
      ClientCancelled(was, id, client, kept, pool, waiters);
    }

    /** Gives the lock up; only its holder may. */
    method Release(id: LockID, client: string, leases: Leases) returns (r: ReleaseResult)
      requires Valid()
      modifies this, store, store.log
      ensures Valid()
      ensures |old(store.State()).log| > 0
      ensures (Table(), r) == LockSpec.Release(old(Table()), id, client, leases)
    {
      LogNonempty(store.State());
      if id !in locks || locks[id].state == Waiting {
        return ErrUnlocked;
      }
      if locks[id].holder != client {
        return ErrNotHolder;
      }
      ReleaseEntry(id, leases);
      return Released;
    }

    /** Steps the holder down, then wakes the next waiter. */
    method ReleaseEntry(id: LockID, leases: Leases)
      requires Valid() && id in locks
      modifies this, store, store.log
      ensures Valid()
      ensures |old(store.State()).log| > 0
      ensures Table() == ReleaseLocked(old(Table()), id, leases)
    {
      ghost var was := Table();
      LogNonempty(was.store);
      ReleaseLockedKeeps(was, id, leases);
      assert EntryInv(was, id, was.locks[id]);
      hide TableInv, Persist, Remove;
      assert locks[id].queue[0..] == locks[id].queue;
      locks := locks[id := Entry("", "", Releasing, locks[id].queue)];
      var _ := store.PutLockState(id, "", "", Releasing);
      assert Table() == Between(was, id, 0);
      WakeNext(id, leases, was);
    }

    /** Grants the lock to the earliest waiter whose lease is alive; with nobody
        left the entry disappears. */
    method WakeNext(id: LockID, leases: Leases, ghost was: LockTable)
      requires store.Valid() && |was.store.log| > 0 && id in was.locks && EntryInv(was, id, was.locks[id])
      requires Table() == Between(was, id, 0)
      modifies this, store, store.log
      ensures store.Valid()
      ensures Table() == ReleaseLocked(was, id, leases)
    {
      hide Inv, Persist, Remove, Grant, Free, PassedOver, Increasing;
      assert was.locks[id].queue[0..] == was.locks[id].queue;
      ghost var n := PassedOver(pool, leases, locks[id].queue);
      var r, rest := NextWaiter(pool, locks[id].queue, leases);
      locks := locks[id := locks[id].(queue := rest)];
      ghost var passed := if r == None then n else n + 1;
      assert rest == was.locks[id].queue[passed..];
      assert locks == Between(was, id, passed).locks;
      assert Table() == Between(was, id, passed);
      if r == None {
        FreeEntry(id, was);
      } else {
        HandOver(id, r.value, n, was);
      }
    }

    method HandOver(id: LockID, q: nat, ghost n: nat, ghost was: LockTable)
      requires store.Valid() && |was.store.log| > 0 && id in was.locks
      requires n < |was.locks[id].queue| && q == was.locks[id].queue[n] && q in was.pool
      requires Table() == Between(was, id, n + 1)
      modifies this, store, store.log
      ensures store.Valid()
      ensures Table() == Grant(was, id, n)
    {
      hide Inv, Persist;
      var request := pool[q].request;
      locks := locks[id := locks[id].(state := Held, holder := request.client, lease := request.lease)];
      pool := pool[q := pool[q].(request := request.(state := Granted))];
      var _ := store.PutLockState(id, request.client, request.lease, Held);
      Signal(q);
      grants := grants[id := GrantsAt(was, id) + [q]];
      skipped := skipped + (set p | p in was.locks[id].queue[..n]);
      assert locks == Grant(was, id, n).locks;
      assert pool == Grant(was, id, n).pool;
    }

    method FreeEntry(id: LockID, ghost was: LockTable)
      requires store.Valid() && |was.store.log| > 0 && id in was.locks
      requires Table() == Between(was, id, |was.locks[id].queue|)
      modifies this, store, store.log
      ensures store.Valid()
      ensures Table() == Free(was, id)
    {
      hide Inv, Persist, Remove;
      locks := locks[id := locks[id].(state := Waiting, holder := "", lease := "")];
      var _ := store.PutLockState(id, "", "", Waiting);
      locks := locks - {id};
      var _ := store.DeleteLockState(id);
      skipped := skipped + (set p | p in was.locks[id].queue);
      assert locks == Free(was, id).locks;
    }

    /** Marks a registered request as granted and closes its channel. */
    method Signal(q: nat)
      requires q in pool
      modifies this`pool, this`waiters
      ensures waiters == old(waiters) - {q}
      ensures pool == if q in old(waiters)
        then old(pool)[q := old(pool)[q].(granted := true, closes := old(pool)[q].closes + 1)] else old(pool)
    {
      if q in waiters {
        waiters := waiters - {q};
        pool := pool[q := pool[q].(granted := true, closes := pool[q].closes + 1)];
      }
    }

    /** Releases what a lease holds. The locks found are collected first, in
        whatever order the table yields them, and then released one by one. */
    method ReleaseByLease(lease: LeaseID, leases: Leases) returns (ghost order: seq<LockID>)
      requires Valid()
      modifies this, store, store.log
      ensures Valid()
      ensures |old(store.State()).log| > 0
      ensures leases.NoChecker? || lease in leases.alive ==> IsOrderOf(order, Affected(old(Table()), lease))
      ensures Table() == LockSpec.ReleaseByLease(old(Table()), lease, order, leases)
    {
      hide Inv, TableInv, ReleaseLocked;
      ghost var was := Table();
      LogNonempty(was.store);
      order := [];
      if leases.Checker? && lease !in leases.alive {
        return;
      }
      var affected := CollectAffected(lease);
      order := affected;
      var i := 0;
      while i < |affected|
        invariant i <= |affected| && Valid() && |was.store.log| > 0
        invariant Table() == ReleaseAll(was, affected[..i], leases)
      {
        assert affected[..i + 1][..i] == affected[..i];
        LogNonempty(store.State());
        if affected[i] in locks {
          ReleaseEntry(affected[i], leases);
        }
        i := i + 1;
      }
      assert affected[..i] == affected;
    }

    method CollectAffected(lease: LeaseID) returns (affected: seq<LockID>)
      ensures IsOrderOf(affected, Affected(Table(), lease))
    {
      affected := [];
      var todo := locks.Keys;
      while todo != {}
        invariant todo <= locks.Keys
        invariant forall i, j :: 0 <= i < j < |affected| ==> affected[i] != affected[j]
        invariant forall i :: 0 <= i < |affected| ==> affected[i] in Affected(Table(), lease) - todo
        invariant forall id :: id in Affected(Table(), lease) - todo ==> id in affected
      {
        var id :| id in todo;
        todo := todo - {id};
        if locks[id].lease == lease && (locks[id].state == Held || locks[id].state == Granted) {
          affected := affected + [id];
        }
      }
    }
  }
}
