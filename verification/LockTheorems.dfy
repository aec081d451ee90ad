/** Properties of the lock manager over every run. */
module LockTheorems {
  import opened Model
  import opened History
  import opened StoreSpec
  import opened StoreInvariant
  import StoreTheorems
  import opened LockCodec
  import opened LockSpec
  import opened LockInvariant
  import opened LockSteps
  import opened LockRecords

  /** Reached from an empty table and store by any operations at all. */
  ghost predicate Reachable(t: LockTable) {
    exists logCapacity: int, ops: seq<LockOp> :: t == LockRun(NewTable(New(logCapacity)), ops)
  }

  /** Reached with separator-free names and no foreign writes to lock keys. */
  ghost predicate CleanlyReachable(t: LockTable) {
    exists logCapacity: int, ops: seq<LockOp> ::
      t == LockRun(NewTable(New(logCapacity)), ops) && forall op :: op in ops ==> Allowed(op)
  }

  lemma ReachableTable(t: LockTable)
    requires Reachable(t)
    ensures TableInv(t) && |t.store.log| > 0
  {
    var logCapacity, ops :| t == LockRun(NewTable(New(logCapacity)), ops);
    NewTableInv(logCapacity);
    RunKeepsTable(NewTable(New(logCapacity)), ops);
  }

  lemma CleanlyReachableTable(t: LockTable)
    requires CleanlyReachable(t)
    ensures Reachable(t) && LockInv(t) && |t.store.log| > 0
  {
    var logCapacity: int, ops: seq<LockOp> :|
      t == LockRun(NewTable(New(logCapacity)), ops) && forall op :: op in ops ==> Allowed(op);
    NewTableInv(logCapacity);
    NewTableClean(logCapacity);
    hide TableInv, NamesInv, RecordsAgree, NewTable, New, Allowed;
    RunKeepsRecords(NewTable(New(logCapacity)), ops);
  }

  // ---------- observable mutual exclusion ----------

  predicate Records(ev: Event, id: LockID, phase: Phase) {
    ev.key == LockKey(id) && RecordedState(ev) == Some(phase.Code())
  }

  lemma {:induction false} PrefixNotBroken(h: seq<Event>, k: Key, n: nat)
    requires LockWord(h, k) != Broken && n <= |h|
    ensures LockWord(h[..n], k) != Broken
    decreases |h|
  {
    if n < |h| {
      assert h[..|h| - 1][..n] == h[..n];
      PrefixNotBroken(h[..|h| - 1], k, n);
    } else {
      assert h[..n] == h;
    }
  }

  lemma WordStep(h: seq<Event>, k: Key, j: nat)
    requires 0 < j <= |h|
    ensures LockWord(h[..j], k) ==
            if h[j - 1].key == k then NextWord(LockWord(h[..j - 1], k), h[j - 1]) else LockWord(h[..j - 1], k)
  {
    assert h[..j][..j - 1] == h[..j - 1];
  }

  /** A held lock can only be released, and only a free or released one be held. */
  lemma NextFromHeld(w: Word, ev: Event, id: LockID)
    requires ev.key == LockKey(id) && NextWord(w, ev) != Broken
    ensures Records(ev, id, Held) ==> NextWord(w, ev) == IsHeld && w != IsHeld
    ensures w == IsHeld ==> Records(ev, id, Releasing)
  {
  }

  /** Without a release in between a held lock stays held in the log. */
  lemma {:induction false} StaysHeld(h: seq<Event>, id: LockID, i: nat, j: nat)
    requires i < j <= |h| && Records(h[i], id, Held)
    requires forall n :: i < n <= j ==> LockWord(h[..n], LockKey(id)) != Broken
    requires forall m :: i < m < j ==> !Records(h[m], id, Releasing)
    ensures LockWord(h[..j], LockKey(id)) == IsHeld
  {
    hide NextWord, LockWord, Records;
    assert h[i].key == LockKey(id) by {
      RecordsKey(h[i], id, Held);
    }
    WordStep(h, LockKey(id), j);
    if h[j - 1].key == LockKey(id) {
      NextFromHeld(LockWord(h[..j - 1], LockKey(id)), h[j - 1], id);
    }
    if i < j - 1 {
      StaysHeld(h, id, i, j - 1);
    }
  }

  lemma RecordsKey(ev: Event, id: LockID, phase: Phase)
    requires Records(ev, id, phase)
    ensures ev.key == LockKey(id)
  {
  }

  /** In the change log, every prefix of a lock's records spells a prefix of
      (Held (Releasing Held)* Releasing Waiting Delete)*, and two Held records
      always have a release between them. */
  lemma ObservableMutualExclusion(t: LockTable, id: LockID)
    requires CleanlyReachable(t)
    ensures forall n :: 0 <= n <= t.store.Head() ==> LockWord(t.store.history[..n], LockKey(id)) != Broken
    ensures var h := t.store.history;
      forall i, j :: 0 <= i < j < |h| && Records(h[i], id, Held) && Records(h[j], id, Held) ==>
        exists m :: i < m < j && Records(h[m], id, Releasing)
  {
    CleanlyReachableTable(t);
    assert RecordedInv(t.store.history, t.locks, id);
    WordGivesExclusion(t.store.history, id);
  }

  lemma WordGivesExclusion(h: seq<Event>, id: LockID)
    requires LockWord(h, LockKey(id)) != Broken
    ensures forall n :: 0 <= n <= |h| ==> LockWord(h[..n], LockKey(id)) != Broken
    ensures
      forall i, j :: 0 <= i < j < |h| && Records(h[i], id, Held) && Records(h[j], id, Held) ==>
        exists m :: i < m < j && Records(h[m], id, Releasing)
  {
    forall n | 0 <= n <= |h|
      ensures LockWord(h[..n], LockKey(id)) != Broken
    {
      PrefixNotBroken(h, LockKey(id), n);
    }
    forall i, j | 0 <= i < j < |h| && Records(h[i], id, Held) && Records(h[j], id, Held)
      ensures exists m :: i < m < j && Records(h[m], id, Releasing)
    {
      HeldTwice(h, id, i, j);
    }
  }

  lemma HeldTwice(h: seq<Event>, id: LockID, i: nat, j: nat)
    requires forall n :: 0 <= n <= |h| ==> LockWord(h[..n], LockKey(id)) != Broken
    requires i < j < |h| && Records(h[i], id, Held) && Records(h[j], id, Held)
    ensures exists m :: i < m < j && Records(h[m], id, Releasing)
  {
    hide NextWord, LockWord, Records;
    if forall m :: i < m < j ==> !Records(h[m], id, Releasing) {
      StaysHeld(h, id, i, j);
      RecordsKey(h[j], id, Held);
      WordStep(h, LockKey(id), j + 1);
      NextFromHeld(LockWord(h[..j], LockKey(id)), h[j], id);
      assert false;
    }
  }

  // ---------- the table and the store agree ----------

  lemma {:induction false} RecordedIsLatest(h: seq<Event>, k: Key)
    ensures var r := LatestRev(h, k, |h|);
      Recorded(h, k) == if r == 0 || h[r - 1].kind == Delete then None else Some(h[r - 1].value)
  {
    if h != [] {
      var init := h[..|h| - 1];
      RecordedIsLatest(init, k);
      LatestRevExtend(init, h, k, |init|);
    }
  }

  lemma GetRecorded(s: StoreState, k: Key)
    requires WellFormed(s.history) && RecordsInv(s)
    ensures Get(s, k) == None <==> Recorded(s.history, k) == None
    ensures Get(s, k).Some? ==> Recorded(s.history, k) == Some(Get(s, k).value.value)
  {
    hide RecordsInv, Get, Recorded;
    StoreTheorems.GetIsLatest(s, k);
    RecordedIsLatest(s.history, k);
  }

  /** Reading a lock's state gives back the last record written for it. */
  lemma GetLockStateOf(s: StoreState, id: LockID, r: LockRecord)
    requires Inv(s) && NulFree(r.holder) && NulFree(r.lease) && r.state < 256
    ensures Recorded(s.history, LockKey(id)) == None ==> GetLockState(s, id) == None
    ensures Recorded(s.history, LockKey(id)) == Some(Bytes(Encode(r))) ==>
      GetLockState(s, id).Some? && GetLockState(s, id).value.0 == r
  {
    hide WellFormed, RecordsInv, Get, Encode, Decode, Recorded, NulFree, LockKey;
    RoundTrip(r);
    GetRecorded(s, LockKey(id));
  }

  /** A lock's state comes with the revision its record was written under. */
  lemma GetLockStateRev(s: StoreState, id: LockID)
    requires Inv(s) && GetLockState(s, id).Some?
    ensures GetLockState(s, id).value.1 == LatestRev(s.history, "locks/" + id, |s.history|)
  {
    StoreTheorems.InvRecords(s);
    hide Inv, RecordsInv, WellFormed, Get, LatestRev, Decode;
    StoreTheorems.GetIsLatest(s, LockKey(id));
    StoreTheorems.AnswerRev(s.history, LockKey(id), |s.history|);
  }

  lemma CleanRecords(t: LockTable, id: LockID)
    requires CleanlyReachable(t)
    ensures Inv(t.store) && 3 == Held.Code() && LockKey(id) == "locks/" + id
    ensures id in t.locks ==> NulFree(t.locks[id].holder) && NulFree(t.locks[id].lease)
    ensures Recorded(t.store.history, LockKey(id)) ==
            if id in t.locks then Some(Bytes(Encode(LockRecord(t.locks[id].holder, t.locks[id].lease, 3)))) else None
  {
    CleanlyReachableTable(t);
    hide Inv, EntriesInv, PoolInv, GrantsInv, Recorded, LockWord, Encode, NulFree, CleanlyReachable, Reachable;
    assert RecordedInv(t.store.history, t.locks, id);
  }

  /** The store reports exactly the tracked locks, each with its holder and lease
      and as held, whatever has been reclaimed meanwhile. */
  lemma TableMatchesStore(t: LockTable, id: LockID)
    requires CleanlyReachable(t)
    ensures var r := GetLockState(t.store, id);
      && (r.Some? <==> id in t.locks)
      && (r.Some? ==> r.value == (LockRecord(t.locks[id].holder, t.locks[id].lease, 3),
                                  LatestRev(t.store.history, "locks/" + id, |t.store.history|)))
  {
    hide *;
    CleanRecords(t, id);
    NulFreeEmpty();
    GetLockStateOf(t.store, id, if id in t.locks then LockRecord(t.locks[id].holder, t.locks[id].lease, 3)
                                else LockRecord("", "", 0));
    if id in t.locks {
      GetLockStateRev(t.store, id);
    }
  }

  // ---------- queues ----------

  /** No barging: a lock can be taken without waiting only when nobody holds it,
      and then nobody is queued for it. */
  lemma NoBarging(t: LockTable, id: LockID, client: string, lease: LeaseID, q: nat)
    requires Reachable(t)
    ensures |t.store.log| > 0
    ensures TryAcquire(t, id, client, lease).1 <==> id !in t.locks
    ensures TryAcquire(t, id, client, lease).1 && q in t.pool && t.pool[q].request.lock == id ==> !IsQueued(t, q)
  {
    ReachableTable(t);
    TryAcquireKeeps(t, id, client, lease);
  }

  /** The n-th request in the queue has been woken and now holds the lock: nobody
      asks about leases, it has none, or its lease was found alive. Everyone before
      it has a lease that was looked up and found dead, and was passed over. */
  ghost predicate Woken(t: LockTable, t': LockTable, id: LockID, leases: Leases, n: nat)
    requires id in t.locks && id in t'.locks
  {
    var queue := t.locks[id].queue;
    && n < |queue| && queue[n] in t.pool && queue[n] in t'.pool
    && (leases.NoChecker? || t.pool[queue[n]].request.lease == "" || queue[n] in leases.found)
    && (forall m :: 0 <= m < n ==>
          && queue[m] in t.pool && leases.Checker?
          && t.pool[queue[m]].request.lease != "" && queue[m] !in leases.found && queue[m] in t'.skipped)
    && t'.pool[queue[n]].granted && t'.pool[queue[n]].closes == 1 && queue[n] !in t'.waiters
    && var r := t.pool[queue[n]].request;
    t'.locks[id] == Entry(r.client, r.lease, Held, queue[n + 1..])
  }

  /** A release of a lock has gone to the first request in its queue that has no
      lease or one found alive, and the entry is gone exactly when there was none:
      then all of the queue has been passed over. */
  ghost predicate WakesNext(t: LockTable, t': LockTable, id: LockID, leases: Leases)
    requires id in t.locks
  {
    && (id in t'.locks <==>
          exists q :: q in t.locks[id].queue && q in t.pool
                      && (leases.NoChecker? || t.pool[q].request.lease == "" || q in leases.found))
    && (id in t'.locks ==> exists n :: Woken(t, t', id, leases, n))
    && (id !in t'.locks ==> forall q :: q in t.locks[id].queue ==> q in t'.skipped)
  }

  lemma ReleaseLockedWakes(t: LockTable, id: LockID, leases: Leases)
    requires TableInv(t) && |t.store.log| > 0 && id in t.locks
    ensures WakesNext(t, ReleaseLocked(t, id, leases), id, leases)
  {
    hide Inv, Persist, Remove, GrantsInv, PoolInv, Increasing, Woken;
    assert EntryInv(t, id, t.locks[id]);
    var queue := t.locks[id].queue;
    var n := PassedOver(t.pool, leases, queue);
    if n < |queue| {
      assert queue[n] in queue;
      GrantWakes(t, id, leases, n);
    }
  }

  /** No lost wakeup and no stranded waiter: when its holder releases a lock, the
      first queued request whose lease is alive (or that has none) holds it next
      and is told so; the entry goes away exactly when there is no such request. */
  lemma NoLostWakeup(t: LockTable, id: LockID, client: string, leases: Leases)
    requires Reachable(t) && id in t.locks && t.locks[id].holder == client
    ensures |t.store.log| > 0 && Release(t, id, client, leases).1 == Released
    ensures WakesNext(t, Release(t, id, client, leases).0, id, leases)
  {
    hide Reachable, Inv, Persist, Remove, GrantsInv, PoolInv, Increasing, WakesNext, ReleaseLocked;
    ReachableTable(t);
    assert EntryInv(t, id, t.locks[id]);
    ReleaseLockedWakes(t, id, leases);
  }

  lemma GrantWakes(t: LockTable, id: LockID, leases: Leases, n: nat)
    requires TableInv(t) && |t.store.log| > 0 && id in t.locks
    requires n < |t.locks[id].queue| && n == PassedOver(t.pool, leases, t.locks[id].queue)
    ensures t.locks[id].queue[n] in t.pool && Woken(t, Grant(t, id, n), id, leases, n)
  {
    hide TableInv, Grant;
    HasEntries(t);
    GrantTells(t, id, n);
  }

  lemma GrantTells(t: LockTable, id: LockID, n: nat)
    requires TableInv(t) && |t.store.log| > 0 && id in t.locks && n < |t.locks[id].queue|
    ensures var queue := t.locks[id].queue; var q := queue[n];
      && (forall p :: p in queue ==> p in t.pool)
      && var t' := Grant(t, id, n);
      && q in t'.pool && t'.pool[q].granted && t'.pool[q].closes == 1 && q !in t'.waiters
      && (forall m :: 0 <= m < n ==> queue[m] in t'.skipped)
      && id in t'.locks
      && t'.locks[id] == Entry(t.pool[q].request.client, t.pool[q].request.lease, Held, queue[n + 1..])
  {
    assert EntryInv(t, id, t.locks[id]);
    hide Inv, Persist, Remove, GrantsInv, Increasing;
    var q := t.locks[id].queue[n];
    assert q in t.locks[id].queue && WaiterInv(t, q, t.pool[q]);
    forall m | 0 <= m < n
      ensures t.locks[id].queue[m] in Grant(t, id, n).skipped
    {
      assert t.locks[id].queue[m] in t.locks[id].queue[..n];
    }
  }

  datatype Fate = Queued | WasGranted | WasCancelled | WasSkipped

  ghost predicate HasFate(t: LockTable, q: nat, f: Fate) {
    match f
    case Queued => IsQueued(t, q)
    case WasGranted => q in t.pool && q in GrantsAt(t, t.pool[q].request.lock)
    case WasCancelled => q in t.pool && t.pool[q].request.state == Cancelled
    case WasSkipped => q in t.skipped
  }

  /** Waiter conservation: every issued request has exactly one fate, its channel
      has been closed once if it was granted or cancelled and never otherwise, and
      the wake-up table still lists a request that was passed over. */
  lemma WaiterConservation(t: LockTable, q: nat)
    requires Reachable(t)
    ensures 1 <= q <= t.issued <==> exists f :: HasFate(t, q, f)
    ensures forall f, g :: HasFate(t, q, f) && HasFate(t, q, g) ==> f == g
    ensures 1 <= q <= t.issued ==>
      && q in t.pool
      && (t.pool[q].granted <==> HasFate(t, q, WasGranted))
      && t.pool[q].closes == (if HasFate(t, q, WasGranted) || HasFate(t, q, WasCancelled) then 1 else 0)
      && (q in t.waiters <==> HasFate(t, q, Queued) || HasFate(t, q, WasSkipped))
  {
    ReachableTable(t);
    hide Inv, Increasing, Reachable;
    if q in t.pool {
      var w := t.pool[q];
      assert WaiterInv(t, q, w);
      assert GrantInv(t, w.request.lock);
      if IsQueued(t, q) {
        assert EntryInv(t, w.request.lock, t.locks[w.request.lock]);
      }
      assert HasFate(t, q, if w.request.state == Granted then WasGranted
                           else if w.request.state == Cancelled then WasCancelled
                           else if IsQueued(t, q) then Queued else WasSkipped);
    }
  }

  /** FIFO: over the whole life of a lock, however often its entry is dropped and
      made again, the requests granted from its queue come in the order in which
      they were issued, and all of them before anyone still queued. */
  lemma GrantsAreFifo(t: LockTable, id: LockID)
    requires Reachable(t)
    ensures Increasing(GrantsAt(t, id))
    ensures forall g, q :: g in GrantsAt(t, id) && IsQueued(t, q) && t.pool[q].request.lock == id ==> g < q
  {
    ReachableTable(t);
    assert GrantInv(t, id);
  }

  // ---------- bounded waiting ----------

  /** The number of queued requests with a smaller sequence number. */
  function CountBelow(queue: seq<nat>, q: nat): nat {
    if queue == [] then 0
    else CountBelow(queue[..|queue| - 1], q) + (if queue[|queue| - 1] < q then 1 else 0)
  }

  function Ahead(t: LockTable, q: nat): nat {
    if q in t.pool && t.pool[q].request.lock in t.locks then CountBelow(t.locks[t.pool[q].request.lock].queue, q)
    else 0
  }

  function ReleasesIn(t: LockTable, order: seq<LockID>, leases: Leases, id: LockID): nat
    requires |t.store.log| > 0
  {
    if order == [] then 0
    else
      var last := |order| - 1;
      ReleasesIn(t, order[..last], leases, id)
      + (if order[last] == id && id in ReleaseAll(t, order[..last], leases).locks then 1 else 0)
  }

  /** How often a step releases a given lock. */
  function Releases(t: LockTable, op: LockOp, id: LockID): nat
    requires |t.store.log| > 0
  {
    match op
    case OpRelease(i, client, leases) =>
      if i == id && Release(t, i, client, leases).1 == Released then 1 else 0
    case OpReleaseByLease(lease, order, leases) =>
      if leases.Checker? && lease !in leases.alive then 0 else ReleasesIn(t, order, leases, id)
    case _ => 0
  }

  ghost function ReleasesOver(t: LockTable, ops: seq<LockOp>, id: LockID): nat
    requires |t.store.log| > 0
  {
    if ops == [] then 0
    else
      var most := ops[..|ops| - 1];
      ReleasesOver(t, most, id) + Releases(LockRun(t, most), ops[|ops| - 1], id)
  }

  lemma {:induction false} CountBelowSplit(a: seq<nat>, b: seq<nat>, q: nat)
    ensures CountBelow(a + b, q) == CountBelow(a, q) + CountBelow(b, q)
  {
    if b == [] {
      assert a + b == a;
    } else {
      assert (a + b)[..|a + b| - 1] == a + b[..|b| - 1];
      CountBelowSplit(a, b[..|b| - 1], q);
    }
  }

  lemma {:induction false} CountBelowWithout(pool: map<nat, Waiter>, queue: seq<nat>, client: string, q: nat)
    ensures CountBelow(Without(pool, queue, client), q) <= CountBelow(queue, q)
  {
    if queue != [] {
      var last := |queue| - 1;
      CountBelowWithout(pool, queue[..last], client, q);
      CountBelowOne(queue[last], q);
      assert Without(pool, queue[..last], client) + [] == Without(pool, queue[..last], client);
      CountBelowSplit(Without(pool, queue[..last], client), [queue[last]], q);
    }
  }

  /** A request left in the queue after a hand-over had the new holder ahead of it. */
  lemma CountBelowTail(queue: seq<nat>, n: nat, q: nat)
    requires n < |queue| && queue[n] < q
    ensures CountBelow(queue[n + 1..], q) < CountBelow(queue, q)
  {
    assert queue == queue[..n] + ([queue[n]] + queue[n + 1..]);
    CountBelowSplit(queue[..n], [queue[n]] + queue[n + 1..], q);
    CountBelowSplit([queue[n]], queue[n + 1..], q);
  }

  /** The request is still the same one, and if it is still queued it was queued
      before and has moved up by at least `k`. */
  ghost predicate MovedUp(t: LockTable, t': LockTable, q: nat, k: nat) {
    && q in t.pool && q in t'.pool && t'.pool[q].request.lock == t.pool[q].request.lock
    && (IsQueued(t', q) ==> IsQueued(t, q) && Ahead(t', q) + k <= Ahead(t, q))
  }

  lemma MovedUpTwice(t: LockTable, m: LockTable, t': LockTable, q: nat, j: nat, k: nat)
    requires MovedUp(t, m, q, j) && MovedUp(m, t', q, k)
    ensures MovedUp(t, t', q, j + k)
  {
  }

  lemma GrantMoves(t: LockTable, id: LockID, n: nat, q: nat)
    requires EntriesInv(t) && |t.store.log| > 0 && id in t.locks && q in t.pool
    requires n < |t.locks[id].queue| && t.locks[id].queue[n] in t.pool
    ensures MovedUp(t, Grant(t, id, n), q, if t.pool[q].request.lock == id then 1 else 0)
  {
    hide Persist, CountBelow;
    var queue := t.locks[id].queue;
    assert EntryInv(t, id, t.locks[id]);
    if t.pool[q].request.lock == id && q in queue[n + 1..] {
      QueueSplit(queue, n, n + 1);
      CountBelowTail(queue, n, q);
    }
  }

  lemma FreeMoves(t: LockTable, id: LockID, q: nat)
    requires |t.store.log| > 0 && id in t.locks && q in t.pool
    ensures MovedUp(t, Free(t, id), q, if t.pool[q].request.lock == id then 1 else 0)
  {
    hide Persist, Remove, CountBelow;
  }

  lemma ReleaseLockedMoves(t: LockTable, id: LockID, leases: Leases, q: nat)
    requires EntriesInv(t) && |t.store.log| > 0 && id in t.locks && q in t.pool
    ensures MovedUp(t, ReleaseLocked(t, id, leases), q, if t.pool[q].request.lock == id then 1 else 0)
  {
    hide MovedUp, Grant, Free, EntriesInv, Persist, Remove;
    var n := PassedOver(t.pool, leases, t.locks[id].queue);
    if n < |t.locks[id].queue| {
      GrantMoves(t, id, n, q);
    } else {
      FreeMoves(t, id, q);
    }
  }

  lemma {:induction false} ReleaseAllMoves(t: LockTable, order: seq<LockID>, leases: Leases, q: nat)
    requires TableInv(t) && |t.store.log| > 0 && q in t.pool
    ensures MovedUp(t, ReleaseAll(t, order, leases), q, ReleasesIn(t, order, leases, t.pool[q].request.lock))
  {
    hide TableInv, ReleaseLocked, MovedUp;
    if order == [] {
      MovedUpReflexive(t, q);
    } else {
      var most, id := order[..|order| - 1], order[|order| - 1];
      var m := ReleaseAll(t, most, leases);
      ReleaseAllMoves(t, most, leases, q);
      ReleaseAllKeeps(t, most, leases);
      MovedUpKeepsLock(t, m, q, ReleasesIn(t, most, leases, t.pool[q].request.lock));
      if id in m.locks {
        HasEntries(m);
        ReleaseLockedMoves(m, id, leases, q);
        MovedUpTwice(t, m, ReleaseLocked(m, id, leases), q,
                     ReleasesIn(t, most, leases, t.pool[q].request.lock),
                     if t.pool[q].request.lock == id then 1 else 0);
      }
    }
  }

  lemma HasEntries(t: LockTable)
    requires TableInv(t)
    ensures EntriesInv(t)
  {
  }

  lemma MovedUpReflexive(t: LockTable, q: nat)
    requires q in t.pool
    ensures MovedUp(t, t, q, 0)
  {
  }

  lemma MovedUpKeepsLock(t: LockTable, m: LockTable, q: nat, k: nat)
    requires MovedUp(t, m, q, k)
    ensures q in t.pool && q in m.pool && m.pool[q].request.lock == t.pool[q].request.lock
  {
  }

  lemma EnqueueMoves(t: LockTable, id: LockID, client: string, lease: LeaseID, q: nat)
    requires PoolInv(t) && q in t.pool
    ensures MovedUp(t, Enqueue(t, id, client, lease).0, q, 0)
  {
    hide WaiterInv, CountBelow;
    if id in t.locks {
      CountBelowSplit(t.locks[id].queue, [t.issued + 1], q);
      CountBelowOne(t.issued + 1, q);
    }
  }

  lemma CountBelowOne(x: nat, q: nat)
    ensures CountBelow([x], q) == if x < q then 1 else 0
  {
    assert [x][..0] == [];
  }

  lemma CancelMoves(t: LockTable, id: LockID, client: string, q: nat)
    requires EntriesInv(t) && q in t.pool
    ensures MovedUp(t, Cancel(t, id, client), q, 0)
  {
    hide CountBelow, Without;
    if id in t.locks {
      assert EntryInv(t, id, t.locks[id]);
      WithoutShape(t.pool, t.locks[id].queue, client);
      CountBelowWithout(t.pool, t.locks[id].queue, client, q);
    }
  }

  lemma TryAcquireMoves(t: LockTable, id: LockID, client: string, lease: LeaseID, q: nat)
    requires |t.store.log| > 0 && q in t.pool
    ensures MovedUp(t, TryAcquire(t, id, client, lease).0, q, 0)
  {
    hide Persist, CountBelow;
  }

  lemma StepMoves(t: LockTable, op: LockOp, q: nat)
    requires TableInv(t) && |t.store.log| > 0 && q in t.pool
    ensures MovedUp(t, LockStep(t, op), q, Releases(t, op, t.pool[q].request.lock))
  {
    HasEntries(t);
    assert PoolInv(t);
    hide TableInv, MovedUp, ReleaseLocked, ReleaseAll, EntriesInv, PoolInv, TryAcquire, Enqueue, Cancel, Step;
    match op
    case OpTryAcquire(id, client, lease) => TryAcquireMoves(t, id, client, lease, q);
    case OpEnqueue(id, client, lease) => EnqueueMoves(t, id, client, lease, q);
    case OpCancel(id, client) => CancelMoves(t, id, client, q);
    case OpRelease(id, client, leases) =>
      if Release(t, id, client, leases).1 == Released {
        ReleaseLockedMoves(t, id, leases, q);
      } else {
        MovedUpReflexive(t, q);
      }
    case OpReleaseByLease(lease, order, leases) =>
      ReleaseAllMoves(t, order, leases, q);
      MovedUpReflexive(t, q);
    case OpStore(o) => StoreOpMoves(t, Step(t.store, o), q);
  }

  lemma StoreOpMoves(t: LockTable, s': StoreState, q: nat)
    requires q in t.pool
    ensures MovedUp(t, t.(store := s'), q, 0)
  {
  }

  /** Bounded waiting: over any run, a request that is still queued has moved up
      by at least one place for every release of its lock. With k requests ahead
      of it, it is out of the queue after at most k + 1 releases, and it never
      comes back. */
  lemma {:induction false} BoundedWaiting(t: LockTable, ops: seq<LockOp>, q: nat)
    requires TableInv(t) && |t.store.log| > 0 && q in t.pool
    ensures MovedUp(t, LockRun(t, ops), q, ReleasesOver(t, ops, t.pool[q].request.lock))
    ensures ReleasesOver(t, ops, t.pool[q].request.lock) > Ahead(t, q) ==> !IsQueued(LockRun(t, ops), q)
  {
    if ops == [] {
      MovedUpReflexive(t, q);
    } else {
      var most, op := ops[..|ops| - 1], ops[|ops| - 1];
      BoundedWaiting(t, most, q);
      var m := LockRun(t, most);
      RunKeepsTable(t, most);
      hide TableInv, LockStep, Releases;
      StepMoves(m, op, q);
      MovedUpTwice(t, m, LockStep(m, op), q, ReleasesOver(t, most, t.pool[q].request.lock),
                   Releases(m, op, t.pool[q].request.lock));
    }
  }

  // ---------- who is passed over ----------

  lemma SkippedByRelease(t: LockTable, id: LockID, leases: Leases, q: nat)
    requires |t.store.log| > 0 && id in t.locks && EntriesInv(t)
    requires q in ReleaseLocked(t, id, leases).skipped && q !in t.skipped
    ensures q in t.locks[id].queue && q in t.pool
    ensures leases.Checker? && t.pool[q].request.lease != "" && q !in leases.found
  {
    hide Persist, Remove;
    assert EntryInv(t, id, t.locks[id]);
    var queue := t.locks[id].queue;
    var n := PassedOver(t.pool, leases, queue);
    assert queue[..|queue|] == queue;
    assert q in queue[..n];
    var i :| 0 <= i < n && queue[i] == q;
    assert queue[i] in queue;
  }

  lemma SameLease(t: LockTable, id: LockID, leases: Leases, q: nat)
    requires |t.store.log| > 0 && id in t.locks
    ensures q in ReleaseLocked(t, id, leases).pool <==> q in t.pool
    ensures q in t.pool ==> ReleaseLocked(t, id, leases).pool[q].request.lease == t.pool[q].request.lease
  {
    hide Persist, Remove;
  }

  lemma {:induction false} SameLock(t: LockTable, order: seq<LockID>, leases: Leases, q: nat)
    requires |t.store.log| > 0 && q in t.pool
    ensures var m := ReleaseAll(t, order, leases);
      q in m.pool && m.pool[q].request.lock == t.pool[q].request.lock
  {
    if order != [] {
      SameLock(t, order[..|order| - 1], leases, q);
      hide Persist, Remove;
    }
  }

  lemma {:induction false} ReleaseAllSkips(t: LockTable, order: seq<LockID>, leases: Leases, q: nat)
    requires TableInv(t) && |t.store.log| > 0
    ensures var t' := ReleaseAll(t, order, leases);
      && (q in t'.pool <==> q in t.pool)
      && (q in t.pool ==> t'.pool[q].request.lease == t.pool[q].request.lease)
      && (q in t'.skipped && q !in t.skipped ==>
            q in t.pool && leases.Checker? && t.pool[q].request.lease != "" && q !in leases.found)
  {
    hide TableInv, ReleaseLocked;
    if order != [] {
      var most, id := order[..|order| - 1], order[|order| - 1];
      var m := ReleaseAll(t, most, leases);
      ReleaseAllSkips(t, most, leases, q);
      ReleaseAllKeeps(t, most, leases);
      if id in m.locks {
        HasEntries(m);
        SameLease(m, id, leases, q);
        if q in ReleaseLocked(m, id, leases).skipped && q !in m.skipped {
          SkippedByRelease(m, id, leases, q);
        }
      }
    }
  }

  /** The state of the leases while a step looks for someone to wake. */
  function LeasesOf(op: LockOp): Option<Leases> {
    match op
    case OpRelease(_, _, leases) => Some(leases)
    case OpReleaseByLease(_, _, leases) => Some(leases)
    case _ => None
  }

  /** The step asks about the request's lease and does not find it alive. */
  ghost predicate SkippedBy(t: LockTable, op: LockOp, q: nat) {
    && q in t.pool && t.pool[q].request.lease != ""
    && LeasesOf(op).Some? && LeasesOf(op).value.Checker? && q !in LeasesOf(op).value.found
  }

  lemma StepSkips(t: LockTable, op: LockOp, q: nat)
    requires TableInv(t) && |t.store.log| > 0
    ensures var t' := LockStep(t, op);
      && (q in t.pool ==> q in t'.pool && t'.pool[q].request.lease == t.pool[q].request.lease)
      && (q in t'.skipped && q !in t.skipped ==> SkippedBy(t, op, q))
  {
    hide TableInv, ReleaseAll, ReleaseLocked, Persist, Step, Without, CancelWaiter;
    match op
    case OpRelease(id, client, leases) =>
      ReleaseOne(t, id, leases);
      ReleaseAllSkips(t, [id], leases, q);
    case OpReleaseByLease(lease, order, leases) =>
      ReleaseAllSkips(t, order, leases, q);
    case OpCancel(id, client) => CancelSkips(t, id, client, q);
    case OpEnqueue(id, client, lease) => IssuedBefore(t, q);
    case _ =>
  }

  lemma CancelSkips(t: LockTable, id: LockID, client: string, q: nat)
    ensures var t' := Cancel(t, id, client);
      && t'.skipped == t.skipped
      && (q in t.pool ==> q in t'.pool && t'.pool[q].request.lease == t.pool[q].request.lease)
  {
  }

  lemma IssuedBefore(t: LockTable, q: nat)
    requires TableInv(t)
    ensures q in t.pool ==> q <= t.issued
  {
    hide Inv, EntriesInv, GrantsInv;
  }

  lemma ReleaseOne(t: LockTable, id: LockID, leases: Leases)
    requires |t.store.log| > 0
    ensures ReleaseAll(t, [id], leases) == if id in t.locks then ReleaseLocked(t, id, leases) else t
  {
    hide ReleaseLocked;
    assert [id][..0] == [];
  }

  /** The step passes the request over, having found its lease dead. */
  ghost predicate PassedOverBy(t: LockTable, op: LockOp, q: nat)
    requires |t.store.log| > 0
  {
    q !in t.skipped && q in LockStep(t, op).skipped && SkippedBy(t, op, q)
  }

  /** A request is passed over only when its lease is found dead by the very step
      that passes it over; over a whole run, in any state of the table. */
  lemma {:induction false} SkippedOnlyWhenDead(t: LockTable, ops: seq<LockOp>, q: nat)
    requires TableInv(t) && |t.store.log| > 0
    ensures q in LockRun(t, ops).skipped && q !in t.skipped ==>
      exists i :: 0 <= i < |ops| && PassedOverBy(LockRun(t, ops[..i]), ops[i], q)
  {
    hide TableInv, LockStep, SkippedBy;
    if ops != [] {
      var last := |ops| - 1;
      SkippedOnlyWhenDead(t, ops[..last], q);
      RunKeepsTable(t, ops[..last]);
      StepSkips(LockRun(t, ops[..last]), ops[last], q);
      if q in LockRun(t, ops[..last]).skipped && q !in t.skipped {
        var i :| 0 <= i < last && PassedOverBy(LockRun(t, ops[..last][..i]), ops[..last][i], q);
        assert ops[..last][..i] == ops[..i];
      } else if q in LockRun(t, ops).skipped && q !in t.skipped {
        assert PassedOverBy(LockRun(t, ops[..last]), ops[last], q);
      }
    }
  }

  // ---------- releasing by lease ----------

  /** Nothing has been written under a key since the history was `h`. */
  ghost predicate Untouched(h: seq<Event>, h': seq<Event>, k: Key) {
    h <= h' && forall m :: |h| <= m < |h'| ==> h'[m].key != k
  }

  /** What a step on other locks leaves of a lock: its entry, its requests and its
      records. */
  ghost predicate LockApart(t: LockTable, t': LockTable, id: LockID) {
    && (id in t'.locks <==> id in t.locks) && (id in t.locks ==> t'.locks[id] == t.locks[id])
    && t'.pool.Keys == t.pool.Keys && t.skipped <= t'.skipped
    && (forall q :: q in t.pool ==>
          && t'.pool[q].request.lock == t.pool[q].request.lock
          && t'.pool[q].request.lease == t.pool[q].request.lease)
    && (forall q :: q in t.pool && t.pool[q].request.lock == id ==>
          t'.pool[q] == t.pool[q] && (q in t'.waiters <==> q in t.waiters))
    && Untouched(t.store.history, t'.store.history, LockKey(id))
  }

  lemma UntouchedTwice(h: seq<Event>, h1: seq<Event>, h2: seq<Event>, k: Key)
    requires Untouched(h, h1, k) && Untouched(h1, h2, k)
    ensures Untouched(h, h2, k)
  {
    assert forall i :: |h| <= i < |h1| ==> h2[i] == h1[i];
  }

  lemma PersistUntouched(s: StoreState, other: LockID, holder: string, lease: LeaseID, phase: Phase, id: LockID)
    requires |s.log| > 0 && other != id
    ensures Untouched(s.history, Persist(s, other, holder, lease, phase).history, LockKey(id))
    ensures Untouched(s.history, Remove(s, LockKey(other)).history, LockKey(id))
    ensures |Persist(s, other, holder, lease, phase).log| == |s.log|
  {
    LockKeysDiffer(other, id);
    hide Encode, LockKey;
  }

  lemma GrantApart(t: LockTable, other: LockID, n: nat, id: LockID)
    requires TableInv(t) && |t.store.log| > 0 && other in t.locks && other != id
    requires n < |t.locks[other].queue| && t.locks[other].queue[n] in t.pool
    ensures LockApart(t, Grant(t, other, n), id)
  {
    hide Inv, PoolInv, GrantsInv, Persist, Untouched, Increasing;
    assert EntryInv(t, other, t.locks[other]);
    var q := t.locks[other].queue[n];
    assert q in t.locks[other].queue;
    var r := t.pool[q].request;
    PersistUntouched(t.store, other, "", "", Releasing, id);
    var m := Persist(t.store, other, "", "", Releasing);
    PersistUntouched(m, other, r.client, r.lease, Held, id);
    UntouchedTwice(t.store.history, m.history, Grant(t, other, n).store.history, LockKey(id));
  }

  lemma FreeApart(t: LockTable, other: LockID, id: LockID)
    requires |t.store.log| > 0 && other in t.locks && other != id
    ensures LockApart(t, Free(t, other), id)
  {
    hide Persist, Remove, Untouched;
    PersistUntouched(t.store, other, "", "", Releasing, id);
    var m := Persist(t.store, other, "", "", Releasing);
    PersistUntouched(m, other, "", "", Waiting, id);
    var m' := Persist(m, other, "", "", Waiting);
    PersistUntouched(m', other, "", "", Waiting, id);
    UntouchedTwice(t.store.history, m.history, m'.history, LockKey(id));
    UntouchedTwice(t.store.history, m'.history, Free(t, other).store.history, LockKey(id));
  }

  lemma ReleaseLockedApart(t: LockTable, other: LockID, leases: Leases, id: LockID)
    requires TableInv(t) && |t.store.log| > 0 && other in t.locks && other != id
    ensures LockApart(t, ReleaseLocked(t, other, leases), id)
  {
    var n := PassedOver(t.pool, leases, t.locks[other].queue);
    hide TableInv, LockApart, Grant, Free;
    if n < |t.locks[other].queue| {
      GrantApart(t, other, n, id);
    } else {
      FreeApart(t, other, id);
    }
  }

  lemma ApartTwice(t: LockTable, m: LockTable, t': LockTable, id: LockID)
    requires LockApart(t, m, id) && LockApart(m, t', id)
    ensures LockApart(t, t', id)
  {
    hide Untouched;
    UntouchedTwice(t.store.history, m.store.history, t'.store.history, LockKey(id));
  }

  lemma {:induction false} ReleaseAllApart(t: LockTable, order: seq<LockID>, leases: Leases, id: LockID)
    requires TableInv(t) && |t.store.log| > 0 && id !in order
    ensures LockApart(t, ReleaseAll(t, order, leases), id)
  {
    if order != [] {
      var most, last := order[..|order| - 1], order[|order| - 1];
      var m := ReleaseAll(t, most, leases);
      ReleaseAllApart(t, most, leases, id);
      ReleaseAllKeeps(t, most, leases);
      hide TableInv, LockApart, ReleaseLocked;
      if last in m.locks {
        ReleaseLockedApart(m, last, leases, id);
        ApartTwice(t, m, ReleaseLocked(m, last, leases), id);
      }
    }
  }

  /** A lock has been released since the history was `h`. */
  ghost predicate ReleasedSince(h: seq<Event>, h': seq<Event>, id: LockID) {
    exists m :: |h| <= m < |h'| && Records(h'[m], id, Releasing)
  }

  lemma ReleaseLockedWrites(t: LockTable, id: LockID, leases: Leases)
    requires |t.store.log| > 0 && id in t.locks
    ensures var h, h' := t.store.history, ReleaseLocked(t, id, leases).store.history;
      h <= h' && ReleasedSince(h, h', id)
    ensures forall i :: i != id && i in t.locks ==> i in ReleaseLocked(t, id, leases).locks
  {
    hide Encode, Decode;
    var h, h' := t.store.history, ReleaseLocked(t, id, leases).store.history;
    var r := LockRecord("", "", Releasing.Code());
    NulFreeEmpty();
    RoundTrip(r);
    assert h'[|h|] == Event(Put, LockKey(id), Bytes(Encode(r)), |h| + 1);
    assert Records(h'[|h|], id, Releasing);
  }

  lemma {:induction false} ReleaseAllWrites(t: LockTable, order: seq<LockID>, leases: Leases)
    requires |t.store.log| > 0
    requires forall i, j :: 0 <= i < j < |order| ==> order[i] != order[j]
    requires forall i :: 0 <= i < |order| ==> order[i] in t.locks
    ensures var t' := ReleaseAll(t, order, leases);
      && t.store.history <= t'.store.history
      && (forall id :: id in order ==> ReleasedSince(t.store.history, t'.store.history, id))
      && (forall id :: id in t.locks && id !in order ==> id in t'.locks)
  {
    hide ReleaseLocked, ReleasedSince;
    if order != [] {
      var most, id := order[..|order| - 1], order[|order| - 1];
      ReleaseAllWrites(t, most, leases);
      var m := ReleaseAll(t, most, leases);
      ReleaseLockedWrites(m, id, leases);
      var h, h1, h2 := t.store.history, m.store.history, ReleaseLocked(m, id, leases).store.history;
      forall i | i in order
        ensures ReleasedSince(h, h2, i)
      {
        assert i in most || i == id;
        ReleasedLonger(h, h1, h2, i);
      }
    }
  }

  lemma ReleasedLonger(h: seq<Event>, h1: seq<Event>, h2: seq<Event>, id: LockID)
    requires h <= h1 <= h2
    ensures ReleasedSince(h, h1, id) || ReleasedSince(h1, h2, id) ==> ReleasedSince(h, h2, id)
  {
    if ReleasedSince(h, h1, id) {
      var m :| |h| <= m < |h1| && Records(h1[m], id, Releasing);
      assert Records(h2[m], id, Releasing);
    }
  }

  /** Releasing by lease frees every lock held under the lease exactly when the
      lease still counts as alive, there is no checker, or nothing was held. A
      lease that has expired frees none of its locks. */
  lemma ReleaseByLeaseExact(t: LockTable, lease: LeaseID, order: seq<LockID>, leases: Leases)
    requires |t.store.log| > 0 && IsOrderOf(order, Affected(t, lease))
    ensures var t' := ReleaseByLease(t, lease, order, leases);
      && ((forall id :: id in Affected(t, lease) ==> ReleasedSince(t.store.history, t'.store.history, id)) <==>
          leases.NoChecker? || lease in leases.alive || Affected(t, lease) == {})
      && (leases.Checker? && lease !in leases.alive ==> t' == t)
  {
    if leases.NoChecker? || lease in leases.alive {
      ReleaseAllWrites(t, order, leases);
    }
  }

  lemma WakesAfterApart(t: LockTable, m: LockTable, t': LockTable, id: LockID, leases: Leases)
    requires id in t.locks && EntryInv(t, id, t.locks[id]) && LockApart(t, m, id) && WakesNext(m, t', id, leases)
    ensures WakesNext(t, t', id, leases)
  {
    hide Increasing, Untouched;
    forall q | q in t.locks[id].queue
      ensures q in m.pool <==> q in t.pool
      ensures q in t.pool ==> m.pool[q].request.lease == t.pool[q].request.lease
    {
    }
    if id in t'.locks {
      var n: nat :| Woken(m, t', id, leases, n);
      WokenAfterApart(t, m, t', id, leases, n);
    }
  }

  lemma WokenAfterApart(t: LockTable, m: LockTable, t': LockTable, id: LockID, leases: Leases, n: nat)
    requires id in t.locks && EntryInv(t, id, t.locks[id]) && LockApart(t, m, id)
    requires id in t'.locks && Woken(m, t', id, leases, n)
    ensures Woken(t, t', id, leases, n)
  {
    hide Increasing, Untouched;
    var queue := t.locks[id].queue;
    assert queue[n] in queue;
    forall i | 0 <= i < n
      ensures queue[i] in t.pool && m.pool[queue[i]] == t.pool[queue[i]]
    {
      assert queue[i] in queue;
    }
  }

  lemma WakesThenApart(t: LockTable, m: LockTable, t': LockTable, id: LockID, leases: Leases)
    requires id in t.locks && EntryInv(t, id, t.locks[id]) && WakesNext(t, m, id, leases) && LockApart(m, t', id)
    requires forall q :: q in t.locks[id].queue ==> q in m.pool && m.pool[q].request.lock == id
    ensures WakesNext(t, t', id, leases)
  {
    hide Increasing, Untouched;
    if id in t'.locks {
      var n: nat :| Woken(t, m, id, leases, n);
      WokenThenApart(t, m, t', id, leases, n);
    }
  }

  lemma WokenThenApart(t: LockTable, m: LockTable, t': LockTable, id: LockID, leases: Leases, n: nat)
    requires id in t.locks && id in m.locks && Woken(t, m, id, leases, n) && LockApart(m, t', id) && id in t'.locks
    requires m.pool[t.locks[id].queue[n]].request.lock == id
    ensures Woken(t, t', id, leases, n)
  {
    var queue := t.locks[id].queue;
    assert queue[n] in t'.pool.Keys && t'.pool[queue[n]] == m.pool[queue[n]];
    forall i | 0 <= i < n
      ensures queue[i] in t.pool && leases.Checker? && t.pool[queue[i]].request.lease != ""
      ensures queue[i] !in leases.found && queue[i] in t'.skipped
    {
      assert queue[i] in m.skipped;
    }
  }

  lemma QueuedStaysFor(t: LockTable, order: seq<LockID>, leases: Leases, id: LockID)
    requires TableInv(t) && |t.store.log| > 0 && id in t.locks
    ensures var m := ReleaseAll(t, order, leases);
      forall q :: q in t.locks[id].queue ==> q in m.pool && m.pool[q].request.lock == id
  {
    assert EntryInv(t, id, t.locks[id]);
    var m := ReleaseAll(t, order, leases);
    hide Inv, PoolInv, GrantsInv, EntriesInv, Increasing;
    forall q | q in t.locks[id].queue
      ensures q in m.pool && m.pool[q].request.lock == id
    {
      SameLock(t, order, leases, q);
    }
  }

  lemma {:induction false} ReleaseAllWakes(t: LockTable, order: seq<LockID>, leases: Leases, id: LockID)
    requires TableInv(t) && |t.store.log| > 0 && id in t.locks && id in order
    requires forall i, j :: 0 <= i < j < |order| ==> order[i] != order[j]
    requires forall i :: 0 <= i < |order| ==> order[i] in t.locks
    ensures WakesNext(t, ReleaseAll(t, order, leases), id, leases)
  {
    var most, last := order[..|order| - 1], order[|order| - 1];
    var m := ReleaseAll(t, most, leases);
    assert EntryInv(t, id, t.locks[id]);
    hide TableInv, LockApart, WakesNext, ReleaseLocked, EntryInv;
    ReleaseAllKeeps(t, most, leases);
    if last == id {
      ReleaseAllApart(t, most, leases, id);
      StillTracked(t, m, id);
      ReleaseLockedWakes(m, id, leases);
      WakesAfterApart(t, m, ReleaseLocked(m, id, leases), id, leases);
    } else {
      ReleaseAllWakes(t, most, leases, id);
      if last in m.locks {
        ReleaseLockedApart(m, last, leases, id);
        QueuedStaysFor(t, most, leases, id);
        WakesThenApart(t, m, ReleaseLocked(m, last, leases), id, leases);
      }
    }
  }

  lemma StillTracked(t: LockTable, t': LockTable, id: LockID)
    requires LockApart(t, t', id)
    ensures id in t'.locks <==> id in t.locks
  {
  }

  /** No lost wakeup when a lease's locks are released together: each of them goes
      to the first eligible request in its own queue. */
  lemma NoLostWakeupByLease(t: LockTable, lease: LeaseID, order: seq<LockID>, leases: Leases, id: LockID)
    requires Reachable(t) && id in Affected(t, lease) && IsOrderOf(order, Affected(t, lease))
    requires leases.NoChecker? || lease in leases.alive
    ensures |t.store.log| > 0 && WakesNext(t, ReleaseByLease(t, lease, order, leases), id, leases)
  {
    hide Reachable, WakesNext, TableInv, ReleaseAll;
    ReachableTable(t);
    ReleaseAllWakes(t, order, leases, id);
  }
}
