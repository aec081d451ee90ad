/** The background reclaimer: it reads the head and reclaims in two separate
    critical sections, so other operations can land in between. */
module RetainLoop {
  import opened Model
  import opened History
  import opened StoreSpec
  import opened StoreInvariant
  import opened StoreTheorems

  const SLACK := 8

  datatype LoopState = LoopState(store: StoreState, seen: Option<nat>)

  datatype LoopOp = Other(op: StoreOp) | ReadHead | ReclaimSeen

  /** `Other` is anything a client does; only the loop itself reclaims. */
  ghost function LoopStep(l: LoopState, retain: nat, op: LoopOp): (l': LoopState)
    requires |l.store.log| > 0
    ensures |l'.store.log| == |l.store.log|
  {
    match op
    case Other(o) => if o.OpReclaim? then l else l.(store := Step(l.store, o))
    case ReadHead => l.(seen := if l.store.Head() > retain + SLACK then Some(l.store.Head()) else None)
    case ReclaimSeen =>
      if l.seen.Some? && l.seen.value >= retain
      then LoopState(Reclaim(l.store, l.seen.value - retain), None)
      else l
  }

  ghost function LoopRun(l: LoopState, retain: nat, ops: seq<LoopOp>): (l': LoopState)
    requires |l.store.log| > 0
    ensures |l'.store.log| == |l.store.log|
  {
    if ops == [] then l else LoopStep(LoopRun(l, retain, ops[..|ops| - 1]), retain, ops[|ops| - 1])
  }

  function Min(a: int, b: int): int {
    if a < b then a else b
  }

  ghost predicate WindowInv(l: LoopState, retain: nat) {
    && Inv(l.store)
    && (l.seen.Some? ==> retain + SLACK < l.seen.value <= l.store.Head())
    && l.store.logSize >= Min(l.store.Head(), Min(|l.store.log|, retain - 1))
  }

  lemma LogSizeStep(s: StoreState, op: StoreOp)
    requires RingInv(s) && !op.OpReclaim?
    ensures var s' := Step(s, op);
      || (s'.Head() == s.Head() && s'.logSize == s.logSize)
      || (s'.Head() == s.Head() + 1 && s'.logSize == Min(s.logSize + 1, |s.log|))
  {
    hide LogEvents, Snapshot;
  }

  lemma WindowStep(l: LoopState, retain: nat, op: LoopOp)
    requires WindowInv(l, retain)
    ensures WindowInv(LoopStep(l, retain, op), retain)
  {
    hide WellFormed, RecordsInv, ReadersInv, StreamsInv, Step, Reclaim;
    RingBounds(l.store);
    match op
    case Other(o) =>
      StepKeeps(l.store, o);
      if !o.OpReclaim? {
        LogSizeStep(l.store, o);
      }
      hide Inv, RingInv;
    case ReadHead =>
    case ReclaimSeen =>
      if l.seen.Some? {
        ReclaimKeeps(l.store, l.seen.value - retain);
        LogSizeAfterReclaim(l.store, l.seen.value - retain);
      }
  }

  lemma LogSizeAfterReclaim(s: StoreState, before: nat)
    requires RingInv(s) && before <= s.Head()
    ensures var s' := Reclaim(s, before);
      s'.Head() == s.Head() && |s'.log| == |s.log| && s'.logSize >= Min(s.logSize, s.Head() - before - 1)
  {
  }

  lemma {:induction false} WindowRun(l: LoopState, retain: nat, ops: seq<LoopOp>)
    requires WindowInv(l, retain)
    ensures WindowInv(LoopRun(l, retain, ops), retain)
  {
    if ops != [] {
      WindowRun(l, retain, ops[..|ops| - 1]);
      WindowStep(LoopRun(l, retain, ops[..|ops| - 1]), retain, ops[|ops| - 1]);
    }
  }

  lemma ReclaimedSize(s: StoreState, before: nat)
    requires s.logStart + s.logSize == |s.history| && before <= |s.history|
    ensures var s' := Reclaim(s, before);
      && s'.history == s.history
      && s'.logSize == Min(s.logSize, if before == |s.history| then 0 else |s.history| - before - 1)
  {
    hide ReclaimRecords;
  }

  lemma ReadThenReclaim(l: LoopState, retain: nat)
    requires |l.store.log| > 0
    ensures LoopRun(l, retain, [ReadHead, ReclaimSeen]) == LoopStep(LoopStep(l, retain, ReadHead), retain, ReclaimSeen)
  {
    hide LoopStep;
    assert [ReadHead, ReclaimSeen][..1] == [ReadHead];
    assert LoopRun(l, retain, [ReadHead]) == LoopStep(l, retain, ReadHead);
  }

  /** One round of the loop with nothing in between: with more than `retain` and eight
      revisions written it reclaims all but the last `retain` of them, and otherwise
      nothing. What a reclaim up to a revision does to the log is its window. */
  lemma OneRound(l: LoopState, retain: nat)
    requires Inv(l.store) && l.seen == None
    ensures |l.store.log| > 0
    ensures var head := |l.store.history|;
      var l' := LoopRun(l, retain, [ReadHead, ReclaimSeen]);
      && l'.seen == None && l'.store.history == l.store.history
      && (head <= retain + 8 ==> l' == l)
      && (head > retain + 8 ==>
            && l'.store == Reclaim(l.store, head - retain)
            && l'.store.logSize == Min(l.store.logSize, if retain == 0 then 0 else retain - 1))
  {
    hide Inv, LoopRun, Reclaim;
    LogNonempty(l.store);
    FreshStreamId(l.store);
    ReadThenReclaim(l, retain);
    if |l.store.history| > retain + 8 {
      ReclaimedSize(l.store, |l.store.history| - retain);
    }
  }

  /** The resumable window: while only the loop reclaims, every cursor within
      min(capacity, retain - 1, 512) revisions of the head can always be reopened,
      with a replay that has no gap. */
  lemma ResumableWindow(logCapacity: int, retain: nat, ops: seq<LoopOp>, cursor: nat)
    ensures var s := LoopRun(LoopState(New(logCapacity), None), retain, ops).store;
      && s.logSize >= Min(s.Head(), Min(|s.log|, retain - 1))
      && (cursor <= s.Head() && s.Head() - cursor <= Min(STREAM_CAPACITY, Min(|s.log|, retain - 1)) ==>
            var (s', r) := OpenStream(s, cursor);
            r.Ok? && s'.streams[r.value].Sent() == s.history[cursor..])
  {
    var start := LoopState(New(logCapacity), None);
    ReachableInv(logCapacity, []);
    WindowRun(start, retain, ops);
    var s := LoopRun(start, retain, ops).store;
    RingBounds(s);
    OpenStreamExact(s, cursor);
  }
}
