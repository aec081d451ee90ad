/** The store itself: mutable fields, a ring-buffer array and loops. Each method
    is one critical section and is proved to take the step `StoreSpec` names.
    Streams and readers are referred to by their ids; `streams` keeps every stream
    handed to a consumer, and `closed` says it is no longer registered. */
module Store {
  import opened Model
  import opened History
  import opened StoreSpec
  import opened StoreInvariant
  import opened LockCodec
  import LockSpec

  /** The number of versions held under all keys. */
  ghost function Total(records: map<Key, seq<Version>>): nat {
    if records == map[] then 0
    else
      var k :| k in records;
      |records[k]| + Total(records - {k})
  }

  lemma {:induction false} TotalSplit(records: map<Key, seq<Version>>, k: Key)
    requires k in records
    ensures Total(records) == |records[k]| + Total(records - {k})
    decreases |records|
  {
    var p :| p in records && Total(records) == |records[p]| + Total(records - {p});
    if p != k {
      TotalSplit(records - {p}, k);
      TotalSplit(records - {k}, p);
      assert records - {p} - {k} == records - {k} - {p};
    }
  }

  lemma TotalReplace(records: map<Key, seq<Version>>, k: Key, vs: seq<Version>)
    requires k in records
    ensures Total(records[k := vs]) == Total(records) - |records[k]| + |vs|
    ensures Total(records - {k}) == Total(records) - |records[k]|
  {
    TotalSplit(records, k);
    TotalSplit(records[k := vs], k);
    assert records[k := vs] - {k} == records - {k};
  }

  /** Binary search for the number of versions with a revision of at most `q`. */
  method Search(vs: seq<Version>, q: nat) returns (n: nat)
    requires Sorted(vs)
    ensures n == SearchAfter(vs, q)
  {
    var i, j := 0, |vs|;
    while i < j
      invariant 0 <= i <= j <= |vs|
      invariant forall x :: 0 <= x < i ==> vs[x].rev <= q
      invariant forall x :: j <= x < |vs| ==> q < vs[x].rev
    {
      var h := (i + j) / 2;
      if vs[h].rev > q {
        j := h;
      } else {
        i := h + 1;
      }
    }
    SearchSplit(vs[..i], vs[i..], q);
    assert vs[..i] + vs[i..] == vs;
    return i;
  }

  /** The floor is the smaller of the head and every open reader's revision. */
  ghost predicate IsFloor(readers: map<nat, Reader>, head: nat, floor: nat) {
    && floor <= head && (forall id :: id in readers ==> floor <= readers[id].rev)
    && (floor == head || exists id :: id in readers && readers[id].rev == floor)
  }

  lemma FloorDecides(readers: map<nat, Reader>, head: nat, floor: nat, before: nat, rev: nat)
    requires IsFloor(readers, head, floor)
    ensures Survives(readers, head, before, rev) <==> rev > before || rev >= floor
  {
  }

  /** Compacts a version list inside its own buffer: survivors are moved down to
      the front while the scan reads ahead of the writes. */
  method Compact(vs: array<Version>, before: nat, floor: nat, ghost readers: map<nat, Reader>, ghost head: nat)
    returns (kept: nat)
    requires IsFloor(readers, head, floor)
    modifies vs
    ensures kept <= vs.Length
    ensures vs[..kept] == Retained(readers, head, before, old(vs[..]))
  {
    kept := 0;
    ghost var was := vs[..];
    var i := 0;
    while i < vs.Length
      invariant kept <= i <= vs.Length && |was| == vs.Length
      invariant vs[i..] == was[i..]
      invariant vs[..kept] == if i < vs.Length then Surviving(readers, head, before, was[..i])
                              else Retained(readers, head, before, was)
    {
      var v := vs[i];
      assert v == vs[i..][0] == was[i] && was[i..][1..] == was[i + 1..];
      assert was[..i + 1][..i] == was[..i];
      assert i == vs.Length - 1 ==> was[..i + 1] == was;
      FloorDecides(readers, head, floor, before, v.rev);
      if v.rev > before || v.rev >= floor || i == vs.Length - 1 {
        vs[kept] := v;
        kept := kept + 1;
      }
      i := i + 1;
    }
  }

  /** What a snapshot shows for a key with these versions. */
  predicate Shown(out: map<Key, Version>, k: Key, vs: seq<Version>, at: nat) {
    var n := SearchAfter(vs, at);
    if n > 0 then k in out && out[k] == vs[n - 1] else k !in out
  }

  method TakeSnapshot(records: map<Key, seq<Version>>, at: nat) returns (out: map<Key, Version>)
    requires forall k :: k in records ==> Sorted(records[k])
    ensures out == SnapshotAt(records, at)
  {
    hide SearchAfter, Sorted;
    out := map[];
    var todo := records.Keys;
    while todo != {}
      invariant todo <= records.Keys
      invariant forall k :: k in out ==> k in records && k !in todo
      invariant forall k :: k in records && k !in todo ==> Shown(out, k, records[k], at)
    {
      var k :| k in todo;
      todo := todo - {k};
      var n := Search(records[k], at);
      if n > 0 {
        out := out[k := records[k][n - 1]];
      }
    }
  }

  /** Pushes the replay into a fresh channel; fails if it would block. */
  method Fill(st: Stream, replay: seq<Event>) returns (out: Stream, ok: bool)
    requires st.ch == []
    ensures ok <==> |replay| <= STREAM_CAPACITY
    ensures ok ==> out == st.(ch := replay)
  {
    out, ok := st, true;
    var i := 0;
    while i < |replay|
      invariant i <= |replay| && i <= STREAM_CAPACITY
      invariant out == st.(ch := replay[..i])
    {
      if |out.ch| == STREAM_CAPACITY {
        return out, false;
      }
      out := out.(ch := out.ch + [replay[i]]);
      i := i + 1;
    }
  }

  /** A stream that was dropped or closed already stays as it is. */
  method MarkClosed(streams: map<nat, Stream>, id: nat) returns (out: map<nat, Stream>)
    requires id in streams
    ensures out == streams[id := streams[id].(closed := true)]
  {
    out := if streams[id].closed then streams else streams[id := streams[id].(closed := true)];
  }

  lemma RecordsSorted(s: StoreState)
    requires Inv(s)
    ensures forall k :: k in s.records ==> Sorted(s.records[k])
  {
    forall k | k in s.records
      ensures Sorted(s.records[k])
    {
      RecordSorted(s, k);
    }
  }

  class Store {
    ghost var history: seq<Event>
    var records: map<Key, seq<Version>>
    var head: nat
    const log: array<Event>
    var logStart: nat
    var logSize: nat
    var readers: map<nat, Reader>
    var nextReader: nat
    var streams: map<nat, Stream>
    var nextStream: nat

    ghost function State(): StoreState
      reads this, log
    {
      StoreState(history, records, log[..], logStart, logSize, readers, nextReader, streams, nextStream)
    }

    ghost predicate Valid()
      reads this, log
    {
      head == |history| && Inv(State())
    }

    constructor (logCapacity: int)
      ensures Valid() && fresh(log)
      ensures State() == New(logCapacity)
    {
      var capacity := if logCapacity < MIN_LOG_CAPACITY then MIN_LOG_CAPACITY else logCapacity;
      history, records, head, logStart, logSize := [], map[], 0, 0, 0;
      log := new Event[capacity](_ => NO_EVENT);
      readers, nextReader, streams, nextStream := map[], 0, map[], 0;
      new;
      assert log[..] == New(logCapacity).log;
      ReachableInv(logCapacity, []);
    }

    /** Upserts a key; a nil value is refused. */
    method Put(key: Key, value: Value) returns (rev: nat, ok: bool)
      requires Valid()
      modifies this, log
      ensures Valid()
      ensures State() == Write(old(State()), key, value)
      ensures ok <==> value != Nil
      ensures rev == if ok then head else 0
    {
      StepKeeps(State(), OpPut(key, value));
      if value == Nil {
        return 0, false;
      }
      Apply(Event(EventType.Put, key, value, head + 1));
      return head, true;
    }

    /** Writes a tombstone, also for a key that does not exist. */
    method Delete(key: Key) returns (rev: nat)
      requires Valid()
      modifies this, log
      ensures Valid()
      ensures State() == Remove(old(State()), key)
      ensures rev == head
    {
      StepKeeps(State(), OpDelete(key));
      Apply(Event(EventType.Delete, key, Nil, head + 1));
      return head;
    }

    method Apply(ev: Event)
      requires head == |history| && ev.rev == head + 1 && log.Length > 0
      modifies this, log
      ensures head == |history| && State() == Append(old(State()), ev)
    {
      head := head + 1;
      history := history + [ev];
      records := records[ev.key := VersionsAt(records, ev.key) + [VersionOf(ev)]];
      AppendLog(ev);
      SendToStreams(ev);
    }

    method AppendLog(ev: Event)
      requires log.Length > 0 && ev.rev > 0
      modifies this`logStart, this`logSize, log
      ensures log[..] == old(log[..])[(ev.rev - 1) % log.Length := ev]
      ensures logStart == (if old(logSize) == log.Length then old(logStart) + 1 else old(logStart))
      ensures logSize == (if old(logSize) == log.Length then old(logSize) else old(logSize) + 1)
    {
      var idx := (ev.rev - 1) % log.Length;
      if logSize == log.Length {
        logStart := logStart + 1;
        logSize := logSize - 1;
      }
      log[idx] := ev;
      logSize := logSize + 1;
    }

    method SendToStreams(ev: Event)
      modifies this`streams
      ensures streams == Broadcast(old(streams), ev)
      ensures streams.Keys == old(streams).Keys
      ensures forall id :: id in streams ==>
        var st := old(streams)[id];
        streams[id] == if st.closed || ev.rev <= st.start then st
                       else if |st.ch| < 512 then st.(ch := st.ch + [ev]) else st.(closed := true)
    {
      var todo := streams.Keys;
      while todo != {}
        invariant todo <= streams.Keys == old(streams).Keys
        invariant forall id :: id in streams ==>
          streams[id] == if id in todo then old(streams)[id] else Deliver(old(streams)[id], ev)
      {
        var id :| id in todo;
        todo := todo - {id};
        var st := streams[id];
        if !st.closed && ev.rev > st.start {
          if |st.ch| < STREAM_CAPACITY {
            streams := streams[id := st.(ch := st.ch + [ev])];
          } else {
            streams := streams[id := st.(closed := true)];
          }
        }
      }
    }

    method Get(key: Key) returns (r: Option<Version>)
      requires Valid()
      ensures r == StoreSpec.Get(State(), key)
    {
      if key !in records {
        return None;
      }
      var vs := records[key];
      if |vs| == 0 || vs[|vs| - 1].deleted {
        return None;
      }
      return Some(vs[|vs| - 1]);
    }

    /** Records a lock's state under the reserved prefix. */
    method PutLockState(id: LockSpec.LockID, holder: string, lease: LockSpec.LeaseID, phase: LockSpec.Phase)
      returns (rev: nat)
      requires Valid()
      modifies this, log
      ensures Valid()
      ensures State() == LockSpec.Persist(old(State()), id, holder, lease, phase)
      ensures rev == head
    {
      var ok;
      rev, ok := Put(LockSpec.LockKey(id), Bytes(Encode(LockRecord(holder, lease, phase.Code()))));
    }

    method GetLockState(id: LockSpec.LockID) returns (r: Option<(LockRecord, nat)>)
      requires Valid()
      ensures r == LockSpec.GetLockState(State(), id)
    {
      var v := Get(LockSpec.LockKey(id));
      if v == None || v.value.value == Nil {
        return None;
      }
      var rec := Decode(v.value.value.bytes);
      return if rec == None then None else Some((rec.value, v.value.rev));
    }

    method DeleteLockState(id: LockSpec.LockID) returns (rev: nat)
      requires Valid()
      modifies this, log
      ensures Valid()
      ensures State() == Remove(old(State()), LockSpec.LockKey(id))
      ensures rev == head
    {
      rev := Delete(LockSpec.LockKey(id));
    }

    method CurrentRev() returns (rev: nat)
      requires Valid()
      ensures rev == State().Head()
    {
      return head;
    }

    /** A point-in-time view of all keys; a revision above the head means the head. */
    method Snapshot(rev: nat) returns (out: map<Key, Version>)
      requires Valid()
      ensures out == StoreSpec.Snapshot(State(), rev)
    {
      RecordsSorted(State());
      hide Inv;
      out := TakeSnapshot(records, if rev > head then head else rev);
    }

    method LogEvents(after: nat) returns (out: seq<Event>)
      requires Valid()
      ensures out == StoreSpec.LogEvents(State(), after)
    {
      out := [];
      if logSize == 0 || after >= head {
        return;
      }
      var first := logStart;
      if after >= first {
        first := after + 1;
      }
      var rev := first;
      while rev <= head
        invariant first <= rev <= head + 1
        invariant out == Scan(log[..], first, rev - 1)
      {
        var ev := log[(rev - 1) % log.Length];
        if ev.rev == rev {
          out := out + [ev];
        }
        rev := rev + 1;
      }
    }

    /** Captures a snapshot and registers a stream that first replays the log. */
    method OpenStream(rev: nat) returns (r: Result<nat>)
      requires Valid()
      modifies this
      ensures Valid()
      ensures (State(), r) == StoreSpec.OpenStream(old(State()), rev)
    {
      hide Inv;
      OpenStreamKeeps(State(), rev);
      ghost var was := State();
      hide StoreSpec.Snapshot, StoreSpec.LogEvents;
      if rev > head {
        return Err(ErrVersionReclaimed);
      }
      var start := rev;
      if logSize > 0 && rev + 1 < logStart {
        start := logStart - 1;
      }
      var snapshot := Snapshot(start);
      var replay := LogEvents(start);
      assert start == StreamStart(was, rev) && State() == was;
      hide StreamStart;
      var st, ok := Fill(Stream(snapshot, start, [], [], false), replay);
      nextStream := nextStream + 1;
      if !ok {
        assert State() == was.(nextStream := nextStream);
        return Err(ErrVersionReclaimed);
      }
      streams := streams[nextStream := st];
      assert State() == was.(nextStream := nextStream, streams := was.streams[nextStream := st]);
      return Ok(nextStream);
    }

    method OpenLiveStream() returns (id: nat)
      requires Valid()
      modifies this
      ensures Valid()
      ensures (State(), id) == StoreSpec.OpenLiveStream(old(State()))
    {
      OpenLiveStreamKeeps(State());
      var snapshot := Snapshot(head);
      nextStream := nextStream + 1;
      streams := streams[nextStream := Stream(snapshot, head, [], [], false)];
      return nextStream;
    }

    /** The consumer's side of the channel; nothing is received from an empty one. */
    method Receive(id: nat) returns (r: Option<Event>)
      requires Valid()
      modifies this
      ensures Valid()
      ensures State() == StoreSpec.Receive(old(State()), id)
      ensures r == if id in old(streams) && old(streams)[id].ch != [] then Some(old(streams)[id].ch[0]) else None
    {
      hide Inv;
      ReceiveKeeps(State(), id);
      if id !in streams || streams[id].ch == [] {
        return None;
      }
      var st := streams[id];
      streams := streams[id := st.(taken := st.taken + [st.ch[0]], ch := st.ch[1..])];
      return Some(st.ch[0]);
    }

    method CloseStream(id: nat)
      requires Valid()
      modifies this
      ensures Valid()
      ensures State() == StoreSpec.CloseStream(old(State()), id)
    {
      hide Inv;
      CloseStreamKeeps(State(), id);
      if id in streams {
        streams := MarkClosed(streams, id);
      }
    }

    method BeginRead(rev: nat) returns (r: Result<nat>)
      requires Valid()
      modifies this
      ensures Valid()
      ensures (State(), r) == StoreSpec.BeginRead(old(State()), rev)
    {
      BeginReadKeeps(State(), rev);
      if rev > head {
        return Err(ErrVersionReclaimed);
      }
      nextReader := nextReader + 1;
      readers := readers[nextReader := Reader(rev, rev)];
      return Ok(nextReader);
    }

    method GetAt(id: nat, key: Key) returns (r: Result<Version>)
      requires Valid()
      ensures r == StoreSpec.GetAt(State(), id, key)
    {
      if id !in readers {
        return Err(ErrVersionReclaimed);
      }
      if key !in records {
        return Err(ErrKeyMissing);
      }
      RecordsSorted(State());
      var n := Search(records[key], readers[id].rev);
      if n == 0 {
        return Err(ErrKeyMissing);
      }
      var v := records[key][n - 1];
      if v.rev < readers[id].minRev {
        return Err(ErrVersionReclaimed);
      }
      return Ok(v);
    }

    method CloseReader(id: nat)
      requires Valid()
      modifies this
      ensures Valid()
      ensures State() == StoreSpec.CloseReader(old(State()), id)
    {
      CloseReaderKeeps(State(), id);
      readers := readers - {id};
    }

    method MinActiveRev() returns (floor: nat)
      ensures IsFloor(readers, head, floor)
    {
      floor := head;
      var todo := readers.Keys;
      while todo != {}
        invariant todo <= readers.Keys && floor <= head
        invariant forall id :: id in readers && id !in todo ==> floor <= readers[id].rev
        invariant floor == head || exists id :: id in readers && readers[id].rev == floor
      {
        var id :| id in todo;
        todo := todo - {id};
        if readers[id].rev < floor {
          floor := readers[id].rev;
        }
      }
    }

    /** Moves the log window and compacts every version list; reports how many
        versions were dropped. */
    method Reclaim(before: nat) returns (removed: nat)
      requires Valid()
      modifies this
      ensures Valid()
      ensures State() == StoreSpec.Reclaim(old(State()), before)
      ensures removed == Total(old(records)) - Total(records)
    {
      hide Inv, ReclaimRecords, LogDrop;
      ReclaimKeeps(State(), before);
      DropLog(before);
      var floor := MinActiveRev();
      removed := CompactAll(before, floor);
    }

    method DropLog(before: nat)
      modifies this`logStart, this`logSize
      ensures logStart == old(logStart) + LogDrop(old(State()), before)
      ensures logSize == old(logSize) - LogDrop(old(State()), before)
    {
      if logSize > 0 && before >= logStart {
        var drop := before - logStart + 1;
        if drop > logSize {
          drop := logSize;
        }
        logStart := logStart + drop;
        logSize := logSize - drop;
      }
    }

    method CompactAll(before: nat, floor: nat) returns (removed: nat)
      requires IsFloor(readers, head, floor)
      modifies this`records
      ensures records == ReclaimRecords(readers, head, before, old(records))
      ensures removed == Total(old(records)) - Total(records)
    {
      removed := 0;
      ghost var was := records;
      var todo := records.Keys;
      while todo != {}
        invariant todo <= was.Keys && records.Keys <= was.Keys
        invariant forall k :: k in todo ==> k in records && records[k] == was[k]
        invariant forall k :: k in was && k !in todo ==>
          (k in records <==> was[k] != [])
          && (k in records ==> records[k] == Retained(readers, head, before, was[k]))
        invariant removed == Total(was) - Total(records)
      {
        var k :| k in todo;
        todo := todo - {k};
        var vs := records[k];
        var buffer := new Version[|vs|](i requires 0 <= i < |vs| => vs[i]);
        assert buffer[..] == vs;
        var kept := Compact(buffer, before, floor, readers, head);
        TotalReplace(records, k, buffer[..kept]);
        removed := removed + |vs| - kept;
        if kept == 0 {
          records := records - {k};
        } else {
          records := records[k := buffer[..kept]];
        }
      }
    }
  }
}
