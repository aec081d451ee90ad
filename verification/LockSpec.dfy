/** The lock manager as a state machine over the store: one pure step per
    critical section. Requests are referred to by their sequence numbers. */
module LockSpec {
  import opened Model
  import opened StoreSpec
  import opened LockCodec

  type LockID = string
  type LeaseID = string

  datatype Phase = Waiting | Granted | Held | Releasing | Cancelled {
    function Code(): nat {
      match this
      case Waiting => 1
      case Granted => 2
      case Held => 3
      case Releasing => 4
      case Cancelled => 5
    }
  }

  /** What the lease manager answers while a step runs: `alive` are the leases alive
      when the step begins, `found` the requests whose lease is alive at the moment it
      is asked about. Leases may end or come back between two questions, and a step
      asks about a request at most once. */
  datatype Leases = NoChecker | Checker(alive: set<LeaseID>, found: set<nat>)

  datatype Request = Request(lock: LockID, client: string, lease: LeaseID, state: Phase)

  /** A request with its completion channel; `closes` counts the closes of it. */
  datatype Waiter = Waiter(request: Request, granted: bool, closes: nat)

  datatype Entry = Entry(holder: string, lease: LeaseID, state: Phase, queue: seq<nat>)

  /** `pool` holds every request ever issued and `waiters` those still registered
      for a wake-up. `grants` and `skipped` are not held by the program: they
      record, per lock, the order of grants from the queue, and the requests
      passed over because their lease was dead. */
  datatype LockTable = LockTable(
    locks: map<LockID, Entry>, waiters: set<nat>, pool: map<nat, Waiter>, issued: nat,
    grants: map<LockID, seq<nat>>, skipped: set<nat>, store: StoreState)

  function NewTable(store: StoreState): LockTable {
    LockTable(map[], {}, map[], 0, map[], {}, store)
  }

  function LockKey(id: LockID): Key {
    "locks/" + id
  }

  function Persist(s: StoreState, id: LockID, holder: string, lease: LeaseID, phase: Phase): StoreState
    requires |s.log| > 0
  {
    Write(s, LockKey(id), Bytes(Encode(LockRecord(holder, lease, phase.Code()))))
  }

  /** What the store reports for a lock, with the revision of the record. */
  function GetLockState(s: StoreState, id: LockID): Option<(LockRecord, nat)> {
    match Get(s, LockKey(id))
    case None => None
    case Some(v) =>
      match (if v.value.Bytes? then Decode(v.value.bytes) else None)
      case None => None
      case Some(r) => Some((r, v.rev))
  }

  // ---------- acquiring ----------

  function TryAcquire(t: LockTable, id: LockID, client: string, lease: LeaseID): (LockTable, bool)
    requires |t.store.log| > 0
  {
    var entry := if id in t.locks then t.locks[id] else Entry("", "", Waiting, []);
    if entry.state == Held || entry.state == Releasing || entry.state == Granted || entry.holder != "" then
      (t.(locks := t.locks[id := entry]), false)
    else
      (t.(locks := t.locks[id := Entry(client, lease, Held, entry.queue)],
          store := Persist(t.store, id, client, lease, Held)),
       true)
  }

  /** Queues a request behind the holder; there must be an entry to queue on. */
  function Enqueue(t: LockTable, id: LockID, client: string, lease: LeaseID): (LockTable, Option<nat>) {
    if id !in t.locks then (t, None)
    else
      var q := t.issued + 1;
      (t.(issued := q,
          pool := t.pool[q := Waiter(Request(id, client, lease, Waiting), false, 0)],
          locks := t.locks[id := t.locks[id].(queue := t.locks[id].queue + [q])],
          waiters := t.waiters + {q}),
       Some(q))
  }

  predicate IsFrom(pool: map<nat, Waiter>, q: nat, client: string) {
    q in pool && pool[q].request.client == client
  }

  /** The queue without one client's requests. */
  function Without(pool: map<nat, Waiter>, queue: seq<nat>, client: string): seq<nat> {
    if queue == [] then []
    else
      var last := |queue| - 1;
      Without(pool, queue[..last], client) + (if IsFrom(pool, queue[last], client) then [] else [queue[last]])
  }

  function CancelWaiter(w: Waiter, registered: bool): Waiter {
    w.(request := w.request.(state := Cancelled), closes := if registered then w.closes + 1 else w.closes)
  }

  function Cancel(t: LockTable, id: LockID, client: string): LockTable {
    if id !in t.locks then t
    else
      var queue := t.locks[id].queue;
      t.(locks := t.locks[id := t.locks[id].(queue := Without(t.pool, queue, client))],
         waiters := (set q | q in t.waiters && !(q in queue && IsFrom(t.pool, q, client))),
         pool := map q | q in t.pool ::
                   if q in queue && IsFrom(t.pool, q, client) then CancelWaiter(t.pool[q], q in t.waiters)
                   else t.pool[q])
  }

  // ---------- releasing ----------

  predicate Eligible(leases: Leases, q: nat, lease: LeaseID) {
    leases.NoChecker? || lease == "" || q in leases.found
  }

  predicate IsEligible(pool: map<nat, Waiter>, leases: Leases, q: nat) {
    q in pool && Eligible(leases, q, pool[q].request.lease)
  }

  /** How many requests at the front of a queue are passed over. */
  function PassedOver(pool: map<nat, Waiter>, leases: Leases, queue: seq<nat>): (n: nat)
    ensures n <= |queue|
    ensures forall i :: 0 <= i < n && queue[i] in pool ==>
      leases.Checker? && pool[queue[i]].request.lease != "" && queue[i] !in leases.found
    ensures n < |queue| ==>
      queue[n] in pool && (leases.NoChecker? || pool[queue[n]].request.lease == "" || queue[n] in leases.found)
  {
    if queue == [] || IsEligible(pool, leases, queue[0]) then 0
    else 1 + PassedOver(pool, leases, queue[1..])
  }

  function GrantsAt(t: LockTable, id: LockID): seq<nat> {
    if id in t.grants then t.grants[id] else []
  }

  function Signalled(w: Waiter, registered: bool): Waiter {
    Waiter(w.request.(state := Granted),
           if registered then true else w.granted,
           if registered then w.closes + 1 else w.closes)
  }

  /** Hands the lock to request `q`, the n-th in the queue. */
  function Grant(t: LockTable, id: LockID, n: nat): LockTable
    requires id in t.locks && n < |t.locks[id].queue| && t.locks[id].queue[n] in t.pool && |t.store.log| > 0
  {
    var queue := t.locks[id].queue;
    var q := queue[n];
    var r := t.pool[q].request;
    t.(locks := t.locks[id := Entry(r.client, r.lease, Held, queue[n + 1..])],
       pool := t.pool[q := Signalled(t.pool[q], q in t.waiters)],
       waiters := t.waiters - {q},
       grants := t.grants[id := GrantsAt(t, id) + [q]],
       skipped := t.skipped + (set p | p in queue[..n]),
       store := Persist(Persist(t.store, id, "", "", Releasing), id, r.client, r.lease, Held))
  }

  /** Nobody is left to wake: the entry and its record disappear. */
  function Free(t: LockTable, id: LockID): LockTable
    requires id in t.locks && |t.store.log| > 0
  {
    t.(locks := t.locks - {id},
       skipped := t.skipped + (set p | p in t.locks[id].queue),
       store := Remove(Persist(Persist(t.store, id, "", "", Releasing), id, "", "", Waiting), LockKey(id)))
  }

  function ReleaseLocked(t: LockTable, id: LockID, leases: Leases): LockTable
    requires id in t.locks && |t.store.log| > 0
  {
    var n := PassedOver(t.pool, leases, t.locks[id].queue);
    if n < |t.locks[id].queue| then Grant(t, id, n) else Free(t, id)
  }

  datatype ReleaseResult = Released | ErrUnlocked | ErrNotHolder

  function Release(t: LockTable, id: LockID, client: string, leases: Leases): (LockTable, ReleaseResult)
    requires |t.store.log| > 0
  {
    if id !in t.locks || t.locks[id].state == Waiting then (t, ErrUnlocked)
    else if t.locks[id].holder != client then (t, ErrNotHolder)
    else (ReleaseLocked(t, id, leases), Released)
  }

  function Affected(t: LockTable, lease: LeaseID): set<LockID> {
    set id | id in t.locks && t.locks[id].lease == lease
             && (t.locks[id].state == Held || t.locks[id].state == Granted)
  }

  function ReleaseAll(t: LockTable, order: seq<LockID>, leases: Leases): (t': LockTable)
    requires |t.store.log| > 0
    ensures |t'.store.log| == |t.store.log|
  {
    if order == [] then t
    else
      var m := ReleaseAll(t, order[..|order| - 1], leases);
      var id := order[|order| - 1];
      if id in m.locks then ReleaseLocked(m, id, leases) else m
  }

  /** Nothing is released for a lease the checker no longer knows. `order` is the
      order in which the map of locks happens to be visited. */
  function ReleaseByLease(t: LockTable, lease: LeaseID, order: seq<LockID>, leases: Leases): LockTable
    requires |t.store.log| > 0
  {
    if leases.Checker? && lease !in leases.alive then t else ReleaseAll(t, order, leases)
  }

  // ---------- runs ----------

  datatype LockOp =
    | OpTryAcquire(id: LockID, client: string, lease: LeaseID)
    | OpEnqueue(id: LockID, client: string, lease: LeaseID)
    | OpCancel(id: LockID, client: string)
    | OpRelease(id: LockID, client: string, leases: Leases)
    | OpReleaseByLease(lease: LeaseID, order: seq<LockID>, leases: Leases)
    | OpStore(op: StoreOp)

  /** Writes by anyone but the lock manager under the lock prefix. */
  predicate WritesLockKey(op: StoreOp) {
    (op.OpPut? || op.OpDelete?) && "locks/" <= op.key
  }

  /** Names carry no separator, and nobody else writes under the lock prefix. */
  predicate Allowed(op: LockOp) {
    match op
    case OpTryAcquire(id, client, lease) => NulFree(client) && NulFree(lease)
    case OpEnqueue(id, client, lease) => NulFree(client) && NulFree(lease)
    case OpStore(op) => !WritesLockKey(op)
    case _ => true
  }

  ghost function LockStep(t: LockTable, op: LockOp): (t': LockTable)
    requires |t.store.log| > 0
    ensures |t'.store.log| == |t.store.log|
  {
    match op
    case OpTryAcquire(id, client, lease) => TryAcquire(t, id, client, lease).0
    case OpEnqueue(id, client, lease) => Enqueue(t, id, client, lease).0
    case OpCancel(id, client) => Cancel(t, id, client)
    case OpRelease(id, client, leases) => Release(t, id, client, leases).0
    case OpReleaseByLease(lease, order, leases) => ReleaseByLease(t, lease, order, leases)
    case OpStore(op) => t.(store := Step(t.store, op))
  }

  ghost function LockRun(t: LockTable, ops: seq<LockOp>): (t': LockTable)
    requires |t.store.log| > 0
    ensures |t'.store.log| == |t.store.log|
  {
    if ops == [] then t else LockStep(LockRun(t, ops[..|ops| - 1]), ops[|ops| - 1])
  }
}
