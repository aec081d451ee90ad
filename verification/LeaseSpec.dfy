/** Leases as a state machine: creation, renewal, revocation and expiry scanning.
    Time is an integer argument. */
module LeaseSpec {
  import opened Model
  import opened LockSpec

  datatype LeaseState = Alive | Expired | Revoked

  datatype LeaseRecord = LeaseRecord(ttl: int, expiresAt: int, renewSeq: nat, holder: string, state: LeaseState)

  /** `notified` records every lease the expiry callback became due for. */
  datatype LeaseTable = LeaseTable(leases: map<LeaseID, LeaseRecord>, notified: seq<LeaseID>)

  function Create(t: LeaseTable, id: LeaseID, ttl: int, holder: string, now: int): (LeaseTable, bool) {
    if id in t.leases then (t, false)
    else (t.(leases := t.leases[id := LeaseRecord(ttl, now + ttl, 0, holder, Alive)]), true)
  }

  /** At or after the deadline a renewal fails and removes the lease. */
  function Renew(t: LeaseTable, id: LeaseID, now: int): (LeaseTable, bool) {
    if id !in t.leases || t.leases[id].state != Alive then (t, false)
    else
      var l := t.leases[id];
      if l.expiresAt <= now then (LeaseTable(t.leases - {id}, t.notified + [id]), false)
      else (t.(leases := t.leases[id := l.(renewSeq := l.renewSeq + 1, expiresAt := now + l.ttl)]), true)
  }

  function Revoke(t: LeaseTable, id: LeaseID): (LeaseTable, bool) {
    if id !in t.leases then (t, false) else (LeaseTable(t.leases - {id}, t.notified + [id]), true)
  }

  function RenewAll(t: LeaseTable, ids: seq<LeaseID>, now: int): LeaseTable {
    if ids == [] then t else Renew(RenewAll(t, ids[..|ids| - 1], now), ids[|ids| - 1], now).0
  }

  /** The verdict reported for an id is that of its last occurrence. */
  function Verdicts(t: LeaseTable, ids: seq<LeaseID>, now: int): map<LeaseID, bool> {
    if ids == [] then map[]
    else
      var last := ids[|ids| - 1];
      Verdicts(t, ids[..|ids| - 1], now)[last := Renew(RenewAll(t, ids[..|ids| - 1], now), last, now).1]
  }

  function Successes(t: LeaseTable, ids: seq<LeaseID>, now: int): seq<LeaseID> {
    if ids == [] then []
    else
      var last := ids[|ids| - 1];
      Successes(t, ids[..|ids| - 1], now)
      + (if Renew(RenewAll(t, ids[..|ids| - 1], now), last, now).1 then [last] else [])
  }

  function Overdue(t: LeaseTable, now: int): set<LeaseID> {
    set id | id in t.leases && t.leases[id].expiresAt <= now && t.leases[id].state == Alive
  }

  function Expire(t: LeaseTable, now: int): LeaseTable {
    t.(leases := t.leases - Overdue(t, now))
  }

  /** Those of the given ids that are in the table. */
  function BackAgain(leases: map<LeaseID, LeaseRecord>, ids: seq<LeaseID>): seq<LeaseID> {
    if ids == [] then []
    else
      var last := ids[|ids| - 1];
      BackAgain(leases, ids[..|ids| - 1]) + (if last in leases && leases[last].state == Alive then [last] else [])
  }

  lemma {:induction false} NoneBack(leases: map<LeaseID, LeaseRecord>, ids: seq<LeaseID>)
    requires forall i :: 0 <= i < |ids| ==> ids[i] !in leases
    ensures BackAgain(leases, ids) == []
  {
    if ids != [] {
      NoneBack(leases, ids[..|ids| - 1]);
    }
  }

  /** Each of the given ids counts as often as it is given if its lease is there and
      not at all otherwise. */
  lemma {:induction false} BackAgainExact(leases: map<LeaseID, LeaseRecord>, ids: seq<LeaseID>, id: LeaseID)
    ensures Occurrences(BackAgain(leases, ids), id) ==
            if id in leases && leases[id].state == Alive then Occurrences(ids, id) else 0
  {
    if ids != [] {
      var most, last := BackAgain(leases, ids[..|ids| - 1]), ids[|ids| - 1];
      BackAgainExact(leases, ids[..|ids| - 1], id);
      assert (most + [last])[..|most|] == most && most + [] == most;
    }
  }

  /** A lease in the table is always alive: every removal also deletes it. */
  predicate AllAlive(t: LeaseTable) {
    forall id :: id in t.leases ==> t.leases[id].state == Alive
  }

  // ---------- batches ----------

  function Occurrences(ids: seq<LeaseID>, id: LeaseID): nat {
    if ids == [] then 0
    else Occurrences(ids[..|ids| - 1], id) + (if ids[|ids| - 1] == id then 1 else 0)
  }

  function Find(t: LeaseTable, id: LeaseID): Option<LeaseRecord> {
    if id in t.leases then Some(t.leases[id]) else None
  }

  /** What becomes of one lease that a batch names `n` times, whatever else the
      batch holds. A lease whose time-to-live is not positive is overdue as soon
      as it has been renewed. */
  function AfterBatch(l: Option<LeaseRecord>, n: nat, now: int): Option<LeaseRecord> {
    if n == 0 || l == None then l
    else if l.value.expiresAt <= now || (l.value.ttl <= 0 && n > 1) then None
    else Some(l.value.(renewSeq := l.value.renewSeq + n, expiresAt := now + l.value.ttl))
  }

  lemma RenewOne(t: LeaseTable, other: LeaseID, id: LeaseID, now: int)
    requires AllAlive(t)
    ensures AllAlive(Renew(t, other, now).0)
    ensures Find(Renew(t, other, now).0, id) == if id == other then AfterBatch(Find(t, id), 1, now) else Find(t, id)
    ensures Renew(t, id, now).1 <==> Find(t, id).Some? && Find(t, id).value.expiresAt > now
  {
  }

  /** Batch renewal treats every lease on its own: the result for an id depends
      only on its own lease and on how often it is named. */
  lemma {:induction false} BatchIsIndependent(t: LeaseTable, ids: seq<LeaseID>, id: LeaseID, now: int)
    requires AllAlive(t)
    ensures AllAlive(RenewAll(t, ids, now))
    ensures Find(RenewAll(t, ids, now), id) == AfterBatch(Find(t, id), Occurrences(ids, id), now)
  {
    if ids != [] {
      BatchIsIndependent(t, ids[..|ids| - 1], id, now);
      RenewOne(RenewAll(t, ids[..|ids| - 1], now), ids[|ids| - 1], id, now);
    }
  }

  /** An id in a batch is reported renewed exactly when it was present and not yet
      due, and is not a repeated lease with a time-to-live that is not positive. */
  lemma {:induction false} BatchVerdict(t: LeaseTable, ids: seq<LeaseID>, id: LeaseID, now: int)
    requires AllAlive(t)
    ensures id in Verdicts(t, ids, now) <==> Occurrences(ids, id) > 0
    ensures Occurrences(ids, id) > 0 ==>
      (Verdicts(t, ids, now)[id] <==>
        && id in t.leases && t.leases[id].expiresAt > now
        && (t.leases[id].ttl > 0 || Occurrences(ids, id) == 1))
  {
    if ids != [] {
      var most := ids[..|ids| - 1];
      BatchVerdict(t, most, id, now);
      BatchIsIndependent(t, most, id, now);
      RenewOne(RenewAll(t, most, now), ids[|ids| - 1], id, now);
    }
  }

  /** What the batch for a reconnecting session reports: an id that was present and
      not yet due as often as it is named, though only once if its time-to-live is
      not positive, and no other id at all. */
  lemma {:induction false} SuccessesExact(t: LeaseTable, ids: seq<LeaseID>, id: LeaseID, now: int)
    requires AllAlive(t)
    ensures Occurrences(Successes(t, ids, now), id) ==
            if id !in t.leases || t.leases[id].expiresAt <= now then 0
            else if t.leases[id].ttl > 0 || Occurrences(ids, id) == 0 then Occurrences(ids, id)
            else 1
  {
    if ids != [] {
      var most := ids[..|ids| - 1];
      SuccessesExact(t, most, id, now);
      BatchIsIndependent(t, most, id, now);
      RenewOne(RenewAll(t, most, now), ids[|ids| - 1], id, now);
      var sofar := Successes(t, most, now);
      assert (sofar + [ids[|ids| - 1]])[..|sofar|] == sofar && sofar + [] == sofar;
    }
  }

  /** Those of the ids whose lease is present and not yet due, in their order. */
  function NotDue(t: LeaseTable, ids: seq<LeaseID>, now: int): seq<LeaseID> {
    if ids == [] then []
    else
      var last := ids[|ids| - 1];
      NotDue(t, ids[..|ids| - 1], now)
      + (if last in t.leases && t.leases[last].expiresAt > now then [last] else [])
  }

  /** With positive times-to-live the report is exactly those ids, in their order. */
  lemma {:induction false} SuccessesInOrder(t: LeaseTable, ids: seq<LeaseID>, now: int)
    requires AllAlive(t) && forall id :: id in t.leases ==> t.leases[id].ttl > 0
    ensures Successes(t, ids, now) == NotDue(t, ids, now)
  {
    if ids != [] {
      var most, last := ids[..|ids| - 1], ids[|ids| - 1];
      SuccessesInOrder(t, most, now);
      BatchIsIndependent(t, most, last, now);
      RenewOne(RenewAll(t, most, now), last, last, now);
    }
  }

  /** Renewal and expiry agree at the deadline: an expiry scan right after a batch
      finds exactly the overdue leases the batch did not name, together with the
      leases it renewed to a deadline that has already passed. */
  lemma BatchThenExpire(t: LeaseTable, ids: seq<LeaseID>, now: int, id: LeaseID)
    requires AllAlive(t)
    ensures id in Overdue(RenewAll(t, ids, now), now) <==>
      && id in t.leases
      && (if Occurrences(ids, id) == 0 then t.leases[id].expiresAt <= now
          else Occurrences(ids, id) == 1 && t.leases[id].expiresAt > now && t.leases[id].ttl <= 0)
  {
    BatchIsIndependent(t, ids, id, now);
  }

  // ---------- steps ----------

  datatype LeaseOp =
    | OpCreate(id: LeaseID, ttl: int, holder: string, now: int)
    | OpRenew(id: LeaseID, now: int)
    | OpRevoke(id: LeaseID)
    | OpExpireOnce(now: int)

  function LeaseStep(t: LeaseTable, op: LeaseOp): (t': LeaseTable)
    ensures t.notified <= t'.notified
  {
    match op
    case OpCreate(id, ttl, holder, now) => Create(t, id, ttl, holder, now).0
    case OpRenew(id, now) => Renew(t, id, now).0
    case OpRevoke(id) => Revoke(t, id).0
    case OpExpireOnce(now) => Expire(t, now)
  }

  // ---------- the life of one lease ----------

  function LeaseRun(t: LeaseTable, ops: seq<LeaseOp>): LeaseTable {
    if ops == [] then t else LeaseStep(LeaseRun(t, ops[..|ops| - 1]), ops[|ops| - 1])
  }

  /** The operation leaves a lease with this deadline alone: it renews or revokes
      another one, or scans before the deadline. A creation is refused meanwhile. */
  predicate Spares(op: LeaseOp, id: LeaseID, deadline: int) {
    match op
    case OpCreate(_, _, _, _) => true
    case OpRenew(other, _) => other != id
    case OpRevoke(other) => other != id
    case OpExpireOnce(now) => now < deadline
  }

  /** Any operation that does not spare a lease removes it or, before its deadline,
      renews it; and one that spares it does not change it at all. */
  lemma SparedStep(t: LeaseTable, op: LeaseOp, id: LeaseID)
    requires AllAlive(t) && id in t.leases
    ensures AllAlive(LeaseStep(t, op))
    ensures var deadline := t.leases[id].expiresAt; var t' := LeaseStep(t, op);
      && (id in t'.leases <==> Spares(op, id, deadline) || (op.OpRenew? && op.now < deadline))
      && (Spares(op, id, deadline) ==> t'.leases[id] == t.leases[id])
      && (op.OpRenew? && op.id == id && op.now < deadline ==>
            && t'.leases[id].expiresAt == op.now + t.leases[id].ttl && t'.leases[id].ttl == t.leases[id].ttl
            && t'.leases[id].holder == t.leases[id].holder)
  {
  }

  lemma {:induction false} SparedRun(t: LeaseTable, ops: seq<LeaseOp>, id: LeaseID)
    requires AllAlive(t) && id in t.leases
    requires forall op :: op in ops ==> Spares(op, id, t.leases[id].expiresAt)
    ensures AllAlive(LeaseRun(t, ops))
    ensures id in LeaseRun(t, ops).leases && LeaseRun(t, ops).leases[id] == t.leases[id]
  {
    hide LeaseStep, Spares;
    if ops != [] {
      SparedRun(t, ops[..|ops| - 1], id);
      SparedStep(LeaseRun(t, ops[..|ops| - 1]), ops[|ops| - 1], id);
    }
  }

  /** When a lease ends: at any time `later` a renewal succeeds, and a scan leaves
      the lease, exactly before the given deadline. */
  ghost predicate EndsAt(t: LeaseTable, id: LeaseID, deadline: int) {
    && id in t.leases
    && forall later: int ::
         && (Renew(t, id, later).1 <==> later < deadline)
         && (id in Renew(t, id, later).0.leases <==> later < deadline)
         && (id in Expire(t, later).leases <==> later < deadline)
  }

  /** A new lease lasts for its time-to-live from the moment it was created, for as
      long as it is spared; only an id that is not in use can be created, and
      creating it touches no other lease. */
  lemma CreatedLeaseEnds(
    t: LeaseTable, id: LeaseID, ttl: int, holder: string, now: int, ops: seq<LeaseOp>)
    requires AllAlive(t) && forall op :: op in ops ==> Spares(op, id, now + ttl)
    ensures var (t', ok) := Create(t, id, ttl, holder, now);
      && (ok <==> id !in t.leases) && (!ok ==> t' == t)
      && (ok ==>
            && t'.leases.Keys == t.leases.Keys + {id} && t'.notified == t.notified
            && (forall other :: other in t.leases ==> t'.leases[other] == t.leases[other])
            && id in LeaseRun(t', ops).leases && LeaseRun(t', ops).leases[id].holder == holder
            && EndsAt(LeaseRun(t', ops), id, now + ttl))
  {
    if id !in t.leases {
      SparedRun(Create(t, id, ttl, holder, now).0, ops, id);
    }
  }

  /** A renewed lease lasts for its time-to-live from the moment it was renewed, for
      as long as it is spared; renewing it touches no other lease. */
  lemma RenewedLeaseEnds(t: LeaseTable, id: LeaseID, now: int, ops: seq<LeaseOp>)
    requires AllAlive(t) && id in t.leases && now < t.leases[id].expiresAt
    requires forall op :: op in ops ==> Spares(op, id, now + t.leases[id].ttl)
    ensures var (t', ok) := Renew(t, id, now);
      && ok && t'.leases.Keys == t.leases.Keys && t'.notified == t.notified
      && (forall other :: other in t.leases && other != id ==> t'.leases[other] == t.leases[other])
      && EndsAt(LeaseRun(t', ops), id, now + t.leases[id].ttl)
  {
    SparedRun(Renew(t, id, now).0, ops, id);
  }

  /** A lease ends for good by a revocation, a renewal that comes too late or a scan
      at or after its deadline: then no renewal succeeds until it is created anew,
      and no other lease is touched. The first two owe a callback, the scan none. */
  lemma EndedLease(t: LeaseTable, id: LeaseID, now: int)
    requires AllAlive(t)
    ensures var (t', ok) := Revoke(t, id);
      && (ok <==> id in t.leases) && t'.leases == t.leases - {id}
      && t'.notified == (if ok then t.notified + [id] else t.notified)
    ensures id in t.leases && t.leases[id].expiresAt <= now ==>
      var (t', ok) := Renew(t, id, now);
      !ok && t'.leases == t.leases - {id} && t'.notified == t.notified + [id]
    ensures var t' := Expire(t, now);
      && t'.notified == t.notified
      && (forall other :: other in t'.leases <==> other in t.leases && now < t.leases[other].expiresAt)
      && (forall other :: other in t'.leases ==> t'.leases[other] == t.leases[other])
    ensures id !in t.leases ==> forall at: int :: Renew(t, id, at) == (t, false)
  {
  }
}
