/** The store as a state machine: one pure step per critical section. `history`
    is the only part the program does not hold; its length is the head revision. */
module StoreSpec {
  import opened Model

  const STREAM_CAPACITY := 512
  const MIN_LOG_CAPACITY := 16

  datatype StoreError = ErrVersionReclaimed | ErrKeyMissing

  datatype Result<+T> = Ok(value: T) | Err(error: StoreError)

  /** An open read transaction. */
  datatype Reader = Reader(rev: nat, minRev: nat)

  /** A live stream. `taken` is what the consumer has received so far and `ch`
      what is still buffered in the channel. */
  datatype Stream = Stream(
    snapshot: map<Key, Version>, start: nat, taken: seq<Event>, ch: seq<Event>, closed: bool)
  {
    function Sent(): seq<Event> {
      taken + ch
    }
  }

  datatype StoreState = StoreState(
    history: seq<Event>,
    records: map<Key, seq<Version>>,
    log: seq<Event>, logStart: nat, logSize: nat,
    readers: map<nat, Reader>, nextReader: nat,
    streams: map<nat, Stream>, nextStream: nat)
  {
    function Head(): nat {
      |history|
    }
  }

  function New(logCapacity: int): StoreState {
    var capacity := if logCapacity < MIN_LOG_CAPACITY then MIN_LOG_CAPACITY else logCapacity;
    StoreState([], map[], seq(capacity, _ => NO_EVENT), 0, 0, map[], 0, map[], 0)
  }

  // ---------- writes ----------

  function VersionsAt(records: map<Key, seq<Version>>, k: Key): seq<Version> {
    if k in records then records[k] else []
  }

  /** A send that would block closes the stream instead. */
  function Deliver(st: Stream, ev: Event): Stream {
    if st.closed || ev.rev <= st.start then st
    else if |st.ch| < STREAM_CAPACITY then st.(ch := st.ch + [ev])
    else st.(closed := true)
  }

  function Broadcast(streams: map<nat, Stream>, ev: Event): map<nat, Stream> {
    map id | id in streams :: Deliver(streams[id], ev)
  }

  function Append(s: StoreState, ev: Event): StoreState
    requires |s.log| > 0
  {
    var full := s.logSize == |s.log|;
    s.(history := s.history + [ev],
       records := s.records[ev.key := VersionsAt(s.records, ev.key) + [VersionOf(ev)]],
       log := s.log[s.Head() % |s.log| := ev],
       logStart := if full then s.logStart + 1 else s.logStart,
       logSize := if full then s.logSize else s.logSize + 1,
       streams := Broadcast(s.streams, ev))
  }

  /** A nil value is rejected and changes nothing. */
  function Write(s: StoreState, k: Key, v: Value): StoreState
    requires |s.log| > 0
  {
    if v == Nil then s else Append(s, Event(Put, k, v, s.Head() + 1))
  }

  function Remove(s: StoreState, k: Key): StoreState
    requires |s.log| > 0
  {
    Append(s, Event(Delete, k, Nil, s.Head() + 1))
  }

  // ---------- reads ----------

  /** How many leading versions have a revision of at most `q`; on a sorted list
      this is what the binary search returns. */
  function SearchAfter(vs: seq<Version>, q: nat): (n: nat)
    ensures n <= |vs|
    ensures n > 0 ==> vs[n - 1].rev <= q
    ensures forall i :: n <= i < |vs| ==> q < vs[i].rev
  {
    if vs == [] || vs[|vs| - 1].rev <= q then |vs| else SearchAfter(vs[..|vs| - 1], q)
  }

  function SnapshotAt(records: map<Key, seq<Version>>, q: nat): map<Key, Version> {
    map k | k in records && SearchAfter(records[k], q) > 0 :: records[k][SearchAfter(records[k], q) - 1]
  }

  function Snapshot(s: StoreState, q: nat): map<Key, Version> {
    SnapshotAt(s.records, if q > s.Head() then s.Head() else q)
  }

  /** The newest value of a key with its revision; nothing for a tombstone. */
  function Get(s: StoreState, k: Key): Option<Version> {
    var vs := VersionsAt(s.records, k);
    if vs == [] || vs[|vs| - 1].deleted then None else Some(vs[|vs| - 1])
  }

  function BeginRead(s: StoreState, rev: nat): (StoreState, Result<nat>) {
    if rev > s.Head() then (s, Err(ErrVersionReclaimed))
    else
      var id := s.nextReader + 1;
      (s.(readers := s.readers[id := Reader(rev, rev)], nextReader := id), Ok(id))
  }

  /** A reader that is not registered has been closed. */
  function GetAt(s: StoreState, id: nat, k: Key): Result<Version> {
    if id !in s.readers then Err(ErrVersionReclaimed)
    else if k !in s.records then Err(ErrKeyMissing)
    else
      var vs := s.records[k];
      var n := SearchAfter(vs, s.readers[id].rev);
      if n == 0 then Err(ErrKeyMissing)
      else if vs[n - 1].rev < s.readers[id].minRev then Err(ErrVersionReclaimed)
      else Ok(vs[n - 1])
  }

  function CloseReader(s: StoreState, id: nat): StoreState {
    s.(readers := s.readers - {id})
  }

  // ---------- reclaim ----------

  /** A version survives a reclaim if it is newer than `before`, or not below the
      floor, which is the smaller of the head and every open reader's revision. */
  ghost predicate Survives(readers: map<nat, Reader>, head: nat, before: nat, rev: nat) {
    rev > before || rev >= head || exists id :: id in readers && readers[id].rev <= rev
  }

  ghost function Surviving(readers: map<nat, Reader>, head: nat, before: nat, vs: seq<Version>): seq<Version> {
    if vs == [] then []
    else
      var last := |vs| - 1;
      Surviving(readers, head, before, vs[..last])
      + (if Survives(readers, head, before, vs[last].rev) then [vs[last]] else [])
  }

  /** The newest version is kept whatever its revision. */
  ghost function Retained(readers: map<nat, Reader>, head: nat, before: nat, vs: seq<Version>): seq<Version> {
    if vs == [] then [] else Surviving(readers, head, before, vs[..|vs| - 1]) + [vs[|vs| - 1]]
  }

  function LogDrop(s: StoreState, before: nat): nat {
    if s.logSize > 0 && before >= s.logStart then
      if before - s.logStart + 1 > s.logSize then s.logSize else before - s.logStart + 1
    else 0
  }

  ghost function ReclaimRecords(
    readers: map<nat, Reader>, head: nat, before: nat, records: map<Key, seq<Version>>): map<Key, seq<Version>>
  {
    map k | k in records && records[k] != [] :: Retained(readers, head, before, records[k])
  }

  ghost function Reclaim(s: StoreState, before: nat): StoreState {
    s.(logStart := s.logStart + LogDrop(s, before),
       logSize := s.logSize - LogDrop(s, before),
       records := ReclaimRecords(s.readers, s.Head(), before, s.records))
  }

  // ---------- streams ----------

  /** The log scan: the slot of each revision counts only if it still holds it. */
  function Scan(log: seq<Event>, first: nat, last: nat): seq<Event>
    requires |log| > 0 && first > 0
    decreases last
  {
    if last < first then []
    else
      var ev := log[(last - 1) % |log|];
      Scan(log, first, last - 1) + (if ev.rev == last then [ev] else [])
  }

  function LogEvents(s: StoreState, after: nat): seq<Event>
    requires |s.log| > 0
  {
    if s.logSize == 0 || after >= s.Head() then []
    else Scan(s.log, if after >= s.logStart then after + 1 else s.logStart, s.Head())
  }

  function StreamStart(s: StoreState, rev: nat): nat {
    if s.logSize > 0 && rev + 1 < s.logStart then s.logStart - 1 else rev
  }

  function OpenStream(s: StoreState, rev: nat): (StoreState, Result<nat>)
    requires |s.log| > 0
  {
    if rev > s.Head() then (s, Err(ErrVersionReclaimed))
    else
      var start := StreamStart(s, rev);
      var id := s.nextStream + 1;
      var replay := LogEvents(s, start);
      if |replay| > STREAM_CAPACITY then (s.(nextStream := id), Err(ErrVersionReclaimed))
      else
        (s.(nextStream := id,
            streams := s.streams[id := Stream(Snapshot(s, start), start, [], replay, false)]),
         Ok(id))
  }

  function OpenLiveStream(s: StoreState): (StoreState, nat) {
    var id := s.nextStream + 1;
    (s.(nextStream := id,
        streams := s.streams[id := Stream(Snapshot(s, s.Head()), s.Head(), [], [], false)]),
     id)
  }

  /** The consumer takes the next buffered event; an empty channel blocks. */
  function Receive(s: StoreState, id: nat): StoreState {
    if id in s.streams && s.streams[id].ch != [] then
      var st := s.streams[id];
      s.(streams := s.streams[id := st.(taken := st.taken + [st.ch[0]], ch := st.ch[1..])])
    else s
  }

  function CloseStream(s: StoreState, id: nat): StoreState {
    if id in s.streams then s.(streams := s.streams[id := s.streams[id].(closed := true)]) else s
  }

  // ---------- runs ----------

  datatype StoreOp =
    | OpPut(key: Key, value: Value)
    | OpDelete(key: Key)
    | OpReclaim(before: nat)
    | OpBeginRead(rev: nat)
    | OpCloseReader(id: nat)
    | OpOpenStream(rev: nat)
    | OpOpenLiveStream
    | OpReceive(id: nat)
    | OpCloseStream(id: nat)

  ghost function Step(s: StoreState, op: StoreOp): (s': StoreState)
    requires |s.log| > 0
    ensures |s'.log| == |s.log|
  {
    match op
    case OpPut(k, v) => Write(s, k, v)
    case OpDelete(k) => Remove(s, k)
    case OpReclaim(before) => Reclaim(s, before)
    case OpBeginRead(rev) => BeginRead(s, rev).0
    case OpCloseReader(id) => CloseReader(s, id)
    case OpOpenStream(rev) => OpenStream(s, rev).0
    case OpOpenLiveStream => OpenLiveStream(s).0
    case OpReceive(id) => Receive(s, id)
    case OpCloseStream(id) => CloseStream(s, id)
  }

  ghost function Run(s: StoreState, ops: seq<StoreOp>): (s': StoreState)
    requires |s.log| > 0
    ensures |s'.log| == |s.log|
  {
    if ops == [] then s else Step(Run(s, ops[..|ops| - 1]), ops[|ops| - 1])
  }
}
