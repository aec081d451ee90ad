/** What holds of the lock table, its queues and its records after every step. */
module LockInvariant {
  import opened Model
  import opened StoreSpec
  import opened StoreInvariant
  import opened LockCodec
  import opened LockSpec

  // ---------- the change log seen through one lock's key ----------

  /** Where a lock is in its life, judged only from the records in the log. */
  datatype Word = IsFree | IsHeld | IsReleasing | IsWaiting | Broken

  function RecordedState(ev: Event): Option<nat> {
    if ev.kind == Put && ev.value.Bytes? then
      match Decode(ev.value.bytes)
      case None => None
      case Some(r) => Some(r.state)
    else None
  }

  /** (Held (Releasing Held)* Releasing Waiting Delete)*. */
  function NextWord(w: Word, ev: Event): Word {
    if ev.kind == Delete then (if w == IsWaiting then IsFree else Broken)
    else
      match RecordedState(ev)
      case None => Broken
      case Some(code) =>
        if code == Held.Code() && (w == IsFree || w == IsReleasing) then IsHeld
        else if code == Releasing.Code() && w == IsHeld then IsReleasing
        else if code == Waiting.Code() && w == IsReleasing then IsWaiting
        else Broken
  }

  function LockWord(h: seq<Event>, k: Key): Word {
    if h == [] then IsFree
    else
      var w := LockWord(h[..|h| - 1], k);
      if h[|h| - 1].key == k then NextWord(w, h[|h| - 1]) else w
  }

  /** The value most recently recorded under a key; nothing after a delete. */
  function Recorded(h: seq<Event>, k: Key): Option<Value> {
    if h == [] then None
    else if h[|h| - 1].key != k then Recorded(h[..|h| - 1], k)
    else if h[|h| - 1].kind == Delete then None
    else Some(h[|h| - 1].value)
  }

  // ---------- the invariant ----------

  predicate Increasing(qs: seq<nat>) {
    forall i, j :: 0 <= i < j < |qs| ==> qs[i] < qs[j]
  }

  ghost predicate IsQueued(t: LockTable, q: nat) {
    q in t.pool && t.pool[q].request.lock in t.locks && q in t.locks[t.pool[q].request.lock].queue
  }

  /** A tracked lock is held, and everyone in its queue is waiting, in order. */
  ghost predicate EntryInv(t: LockTable, id: LockID, e: Entry) {
    && e.state == Held
    && Increasing(e.queue)
    && (forall q :: q in e.queue ==> q in t.pool && t.pool[q].request.lock == id && t.pool[q].request.state == Waiting)
  }

  ghost predicate EntriesInv(t: LockTable) {
    forall id :: id in t.locks ==> EntryInv(t, id, t.locks[id])
  }

  /** Every issued request has one fate, and its channel is closed at most once. */
  ghost predicate WaiterInv(t: LockTable, q: nat, w: Waiter) {
    && (w.request.state == Waiting || w.request.state == Granted || w.request.state == Cancelled)
    && (w.granted <==> w.request.state == Granted)
    && w.closes == (if w.request.state == Waiting then 0 else 1)
    && (q in t.waiters <==> w.request.state == Waiting)
    && (q in t.skipped <==> w.request.state == Waiting && !IsQueued(t, q))
  }

  ghost predicate PoolInv(t: LockTable) {
    && (forall q :: q in t.pool <==> 1 <= q <= t.issued)
    && t.waiters <= t.pool.Keys && t.skipped <= t.pool.Keys
    && (forall q :: q in t.pool ==> WaiterInv(t, q, t.pool[q]))
  }

  /** Grants from a queue are in increasing order, before everyone still queued. */
  ghost predicate GrantInv(t: LockTable, id: LockID) {
    && Increasing(GrantsAt(t, id))
    && (forall q :: q in GrantsAt(t, id) <==>
          q in t.pool && t.pool[q].request.lock == id && t.pool[q].request.state == Granted)
    && (id in t.locks ==> forall g, q :: g in GrantsAt(t, id) && q in t.locks[id].queue ==> g < q)
  }

  ghost predicate GrantsInv(t: LockTable) {
    forall id :: GrantInv(t, id)
  }

  /** What the store records for a lock is the lock's entry, and nothing otherwise. */
  ghost predicate RecordedInv(h: seq<Event>, locks: map<LockID, Entry>, id: LockID) {
    if id in locks then
      && Recorded(h, LockKey(id)) == Some(Bytes(Encode(LockRecord(locks[id].holder, locks[id].lease, Held.Code()))))
      && LockWord(h, LockKey(id)) == IsHeld
    else
      Recorded(h, LockKey(id)) == None && LockWord(h, LockKey(id)) == IsFree
  }

  ghost predicate RecordsAgree(t: LockTable) {
    forall id :: RecordedInv(t.store.history, t.locks, id)
  }

  /** No name contains the separator used in the records. */
  ghost predicate NamesInv(t: LockTable) {
    && (forall id :: id in t.locks ==> NulFree(t.locks[id].holder) && NulFree(t.locks[id].lease))
    && (forall q :: q in t.pool ==> NulFree(t.pool[q].request.client) && NulFree(t.pool[q].request.lease))
  }

  /** Holds after any run. */
  ghost predicate TableInv(t: LockTable) {
    Inv(t.store) && EntriesInv(t) && PoolInv(t) && GrantsInv(t)
  }

  /** Holds when, in addition, names are free of separators and nobody else writes
      under the lock prefix. */
  ghost predicate LockInv(t: LockTable) {
    TableInv(t) && NamesInv(t) && RecordsAgree(t)
  }

  // ---------- what writing records does ----------

  lemma OneMore(h: seq<Event>, ev: Event, k: Key)
    ensures LockWord(h + [ev], k) == if ev.key == k then NextWord(LockWord(h, k), ev) else LockWord(h, k)
    ensures Recorded(h + [ev], k) ==
            if ev.key != k then Recorded(h, k) else if ev.kind == Delete then None else Some(ev.value)
  {
    assert (h + [ev])[..|h|] == h;
  }

  /** The records of all other locks are untouched. */
  ghost predicate OnlyKey(h: seq<Event>, h': seq<Event>, k: Key) {
    forall j :: j != k ==> LockWord(h', j) == LockWord(h, j) && Recorded(h', j) == Recorded(h, j)
  }

  lemma PersistEffect(s: StoreState, id: LockID, holder: string, lease: LeaseID, phase: Phase)
    requires Inv(s) && NulFree(holder) && NulFree(lease)
    ensures var s' := Persist(s, id, holder, lease, phase); var k := LockKey(id);
      && Inv(s') && |s'.log| == |s.log|
      && OnlyKey(s.history, s'.history, k)
      && Recorded(s'.history, k) == Some(Bytes(Encode(LockRecord(holder, lease, phase.Code()))))
      && (phase == Held && (LockWord(s.history, k) == IsFree || LockWord(s.history, k) == IsReleasing) ==>
            LockWord(s'.history, k) == IsHeld)
      && (phase == Releasing && LockWord(s.history, k) == IsHeld ==> LockWord(s'.history, k) == IsReleasing)
      && (phase == Waiting && LockWord(s.history, k) == IsReleasing ==> LockWord(s'.history, k) == IsWaiting)
  {
    hide Inv;
    var r := LockRecord(holder, lease, phase.Code());
    var ev := Event(Put, LockKey(id), Bytes(Encode(r)), s.Head() + 1);
    StepKeeps(s, OpPut(LockKey(id), Bytes(Encode(r))));
    RoundTrip(r);
    hide Encode, Decode;
    assert RecordedState(ev) == Some(phase.Code());
    forall k {
      OneMore(s.history, ev, k);
    }
  }

  lemma RemoveEffect(s: StoreState, id: LockID)
    requires Inv(s)
    ensures var s' := Remove(s, LockKey(id)); var k := LockKey(id);
      && Inv(s') && |s'.log| == |s.log|
      && OnlyKey(s.history, s'.history, k)
      && Recorded(s'.history, k) == None
      && (LockWord(s.history, k) == IsWaiting ==> LockWord(s'.history, k) == IsFree)
  {
    hide Inv;
    StepKeeps(s, OpDelete(LockKey(id)));
    forall k {
      OneMore(s.history, Event(Delete, LockKey(id), Nil, s.Head() + 1), k);
    }
  }

  lemma LockKeysDiffer(a: LockID, b: LockID)
    ensures LockKey(a) == LockKey(b) <==> a == b
  {
    assert LockKey(a)[6..] == a && LockKey(b)[6..] == b;
  }

  /** Changing one lock's entry together with its own records keeps the store in
      agreement with the table. */
  lemma AgreeAfter(h: seq<Event>, h': seq<Event>, locks: map<LockID, Entry>, locks': map<LockID, Entry>, id: LockID)
    requires forall i :: RecordedInv(h, locks, i)
    requires OnlyKey(h, h', LockKey(id)) && RecordedInv(h', locks', id)
    requires forall i :: i != id ==> (i in locks' <==> i in locks) && (i in locks ==> locks'[i] == locks[i])
    ensures forall i :: RecordedInv(h', locks', i)
  {
    forall i
      ensures RecordedInv(h', locks', i)
    {
      LockKeysDiffer(i, id);
      assert RecordedInv(h, locks, i);
    }
  }

  lemma OnlyKeyTwice(h: seq<Event>, m: seq<Event>, h': seq<Event>, k: Key)
    requires OnlyKey(h, m, k) && OnlyKey(m, h', k)
    ensures OnlyKey(h, h', k)
  {
  }
}
