/** One watched key followed across any number of disconnects and reconnects, as
    a session does it: a reconnect watches again from the acknowledged cursor. */
module Resume {
  import opened Model
  import opened History
  import opened StoreSpec
  import opened StoreInvariant
  import opened WatchSpec
  import opened WatchTheorems
  import opened Transcript

  /** `cursor` is what the session has on record; `live` is the watch it names, open
      or not. `past` are the connections served by earlier watches, up to the moment
      each was replaced, and `confirmed` the events acknowledged of them. */
  datatype Line = Line(
    w: WatchState, key: Key, origin: nat, cursor: nat, live: Option<nat>, confirmed: seq<Event>,
    past: seq<Connection>)

  datatype LineOp =
    | Elsewhere(op: WatchOp)
    | AckWatch(id: nat, rev: nat)
    | Disconnect
    | Reconnect(entries: seq<Event>)

  /** What the client has acknowledged, up to now, of the current watch. */
  function Acknowledged(l: Line): seq<Event> {
    if l.live.Some? && l.live.value in l.w.subs then
      Select(l.w.subs[l.live.value].delivered, "", l.w.subs[l.live.value].start, l.cursor)
    else []
  }

  /** Every connection so far, with the current one last. */
  function Connections(l: Line): seq<Connection> {
    l.past + (if l.live.Some? && l.live.value in l.w.subs then
                [Connection(l.w.subs[l.live.value].start, l.w.subs[l.live.value].delivered)]
              else [])
  }

  ghost function LineStep(l: Line, op: LineOp): (l': Line)
    requires |l.w.store.log| > 0
    ensures |l'.w.store.log| == |l.w.store.log|
  {
    match op
    case Elsewhere(o) => l.(w := WatchStep(l.w, o))
    case AckWatch(id, rev) => l.(w := Ack(l.w, id, rev), cursor := if rev > l.cursor then rev else l.cursor)
    case Disconnect => if l.live.Some? then l.(w := Cancel(l.w, l.live.value)) else l
    case Reconnect(entries) =>
      var (w', r) := Watch(l.w, l.key, l.cursor, entries);
      l.(w := w', live := if r.Ok? then Some(r.value) else None, confirmed := l.confirmed + Acknowledged(l),
         past := Connections(l))
  }

  /** The client acknowledges only what it has been sent, at any time; and a cursor
      is still in the log when it is used again. */
  ghost predicate LineAllowed(l: Line, op: LineOp)
    requires |l.w.store.log| > 0
  {
    match op
    case Elsewhere(o) => WatchAllowed(l.w, o)
    case AckWatch(_, rev) =>
      rev <= l.cursor
      || (l.live.Some? && l.live.value in l.w.subs
          && var sub := l.w.subs[l.live.value];
             sub.delivered != [] && rev <= sub.delivered[|sub.delivered| - 1].rev)
    case Disconnect => true
    case Reconnect(entries) =>
      WatchAllowed(l.w, OpWatch(l.key, l.cursor, entries)) && l.w.store.logStart <= l.cursor
  }

  ghost function LineRun(l: Line, ops: seq<LineOp>): (l': Line)
    requires |l.w.store.log| > 0
    ensures |l'.w.store.log| == |l.w.store.log|
  {
    if ops == [] then l else LineStep(LineRun(l, ops[..|ops| - 1]), ops[|ops| - 1])
  }

  ghost predicate LineRunAllowed(l: Line, ops: seq<LineOp>)
    requires |l.w.store.log| > 0
  {
    ops != [] ==>
      LineRunAllowed(l, ops[..|ops| - 1]) && LineAllowed(LineRun(l, ops[..|ops| - 1]), ops[|ops| - 1])
  }

  lemma LineMore(l: Line, ops: seq<LineOp>, op: LineOp)
    requires |l.w.store.log| > 0
    ensures LineRun(l, ops + [op]) == LineStep(LineRun(l, ops), op)
    ensures LineRunAllowed(l, ops) && LineAllowed(LineRun(l, ops), op) ==> LineRunAllowed(l, ops + [op])
    ensures LineRun(l, []) == l && LineRunAllowed(l, [])
  {
    hide LineStep, LineAllowed;
    assert (ops + [op])[..|ops|] == ops;
  }

  // ---------- the invariant ----------

  ghost predicate LiveInv(l: Line, id: nat) {
    && ExactWatch(l.w, id)
    && var sub := l.w.subs[id];
    && sub.key == l.key && l.origin <= sub.start <= l.cursor
    && (sub.start == l.origin || sub.start <= l.w.store.Head())
    && l.confirmed == Select(l.w.store.history, l.key, l.origin, sub.start)
    && (l.cursor == sub.start
        || (sub.delivered != [] && l.cursor <= sub.delivered[|sub.delivered| - 1].rev))
  }

  ghost predicate LineInv(l: Line) {
    && WatchInv(l.w) && l.origin <= l.cursor
    && (l.live.Some? ==> LiveInv(l, l.live.value))
    && (l.live == None ==>
          && (l.cursor == l.origin || l.cursor <= l.w.store.Head())
          && l.confirmed == Select(l.w.store.history, l.key, l.origin, l.cursor))
  }

  lemma WatchOrdered(w: WatchState, id: nat)
    requires WatchInv(w) && id in w.subs
    ensures Ordered(w.subs[id])
  {
    hide Inv, Ordered;
  }

  lemma LastGrows(sub: Sub, sub': Sub)
    requires sub.delivered <= sub'.delivered && Ordered(sub')
    ensures sub.delivered != [] ==>
      sub.delivered[|sub.delivered| - 1].rev <= sub'.delivered[|sub'.delivered| - 1].rev
  {
    OrderedDelivered(sub');
  }

  lemma ElsewhereKeeps(l: Line, o: WatchOp)
    requires LineInv(l) && |l.w.store.log| > 0 && LineAllowed(l, Elsewhere(o))
    ensures LineInv(LineStep(l, Elsewhere(o)))
  {
    hide WatchInv, ExactWatch, WatchStep, WatchAllowed, WellFormed;
    WatchStepKeeps(l.w, o);
    HistoryGrows(l.w, o);
    if l.live.Some? {
      var id := l.live.value;
      ExactStep(l.w, o, id);
      ExactHasStream(l.w, id);
      ExactHasStream(WatchStep(l.w, o), id);
      WatchOrdered(WatchStep(l.w, o), id);
      LastGrows(l.w.subs[id], WatchStep(l.w, o).subs[id]);
      SelectStable(l.w.store.history, WatchStep(l.w, o).store.history, l.key, l.origin, l.w.subs[id].start);
    } else {
      SelectStable(l.w.store.history, WatchStep(l.w, o).store.history, l.key, l.origin, l.cursor);
    }
  }

  lemma AckKeeps(l: Line, id: nat, rev: nat)
    requires LineInv(l) && |l.w.store.log| > 0 && LineAllowed(l, AckWatch(id, rev))
    ensures LineInv(LineStep(l, AckWatch(id, rev)))
  {
    hide WatchInv, Exact, Select, Ack;
    AckKeepsWatches(l.w, id, rev);
  }

  /** What a watch has delivered up to an acknowledged point is what was wanted. */
  lemma DeliveredUpTo(h: seq<Event>, st: Stream, sub: Sub, c: nat)
    requires WellFormed(h) && Exact(h, st, sub) && Ordered(sub)
    requires c == sub.start || (sub.delivered != [] && c <= sub.delivered[|sub.delivered| - 1].rev)
    ensures Select(sub.delivered, "", sub.start, c) == Select(h, sub.key, sub.start, c)
    ensures c == sub.start || c <= |h|
  {
    var read := st.start + |st.taken|;
    SelectRevs(h, sub.key, sub.start, read);
    if c == sub.start {
      SelectEmpty(sub.delivered, "", c);
      SelectEmpty(h, sub.key, c);
    } else {
      var last := |sub.delivered| - 1;
      assert sub.Passed()[last] == sub.delivered[last];
      SelectAgain(h, sub.key, sub.start, read, c);
      if sub.held.Some? {
        assert sub.Passed()[last + 1] == sub.held.value;
        assert sub.Passed()[..last + 1] == sub.delivered;
      } else {
        assert sub.Passed() == sub.delivered;
      }
    }
  }

  lemma {:induction false} SelectEmpty(evs: seq<Event>, key: Key, a: nat)
    ensures Select(evs, key, a, a) == []
  {
    if evs != [] {
      SelectEmpty(evs[..|evs| - 1], key, a);
    }
  }

  lemma LiveFacts(l: Line, id: nat)
    requires WatchInv(l.w) && ExactWatch(l.w, id)
    ensures WellFormed(l.w.store.history) && Ordered(l.w.subs[id])
    ensures Exact(l.w.store.history, l.w.store.streams[l.w.subs[id].stream], l.w.subs[id])
  {
    WellFormedOf(l.w.store);
    hide Inv, Exact, Ordered;
  }

  /** Cancelling stops a watch where it is. */
  lemma CancelStops(w: WatchState, id: nat)
    requires WatchInv(w) && ExactWatch(w, id)
    ensures ExactWatch(Cancel(w, id), id) && Cancel(w, id).subs[id] == w.subs[id].(closed := true)
  {
    assert w.subs[id].(closed := true).Passed() == w.subs[id].Passed();
    ExactSameWatch(w, Cancel(w, id), id);
  }

  lemma DisconnectKeeps(l: Line)
    requires LineInv(l) && |l.w.store.log| > 0
    ensures LineInv(LineStep(l, Disconnect))
  {
    hide WatchInv, ExactWatch, Select, Cancel;
    if l.live.Some? {
      CancelKeeps(l.w, l.live.value);
      CancelStops(l.w, l.live.value);
      CancelHistory(l.w, l.live.value);
      ExactHasStream(l.w, l.live.value);
      ExactHasStream(Cancel(l.w, l.live.value), l.live.value);
    }
  }

  /** What has been acknowledged in all is the matching history up to the cursor. */
  lemma AcknowledgedInAll(l: Line)
    requires LineInv(l)
    ensures l.confirmed + Acknowledged(l) == Select(l.w.store.history, l.key, l.origin, l.cursor)
    ensures l.origin <= l.cursor && (l.cursor == l.origin || l.cursor <= l.w.store.Head())
  {
    hide WatchInv, WellFormed, Ordered, Exact, Select;
    if l.live.Some? {
      var id := l.live.value;
      var h, sub := l.w.store.history, l.w.subs[id];
      LiveFacts(l, id);
      DeliveredUpTo(h, l.w.store.streams[sub.stream], sub, l.cursor);
      SelectSplit(h, l.key, l.origin, sub.start, l.cursor);
    } else {
      assert l.confirmed + [] == l.confirmed;
    }
  }

  lemma CancelHistory(w: WatchState, id: nat)
    ensures Cancel(w, id).store.history == w.store.history
  {
  }

  lemma ReconnectKeeps(l: Line, entries: seq<Event>)
    requires LineInv(l) && |l.w.store.log| > 0 && LineAllowed(l, Reconnect(entries))
    ensures LineInv(LineStep(l, Reconnect(entries)))
  {
    AcknowledgedInAll(l);
    LineWatches(l);
    hide WatchInv, WatchAllowed, Exact, Select, Open, Acknowledged, Connections, LiveInv;
    var (w', r) := Watch(l.w, l.key, l.cursor, entries);
    WatchKeeps(l.w, l.key, l.cursor, entries);
    WatchHistory(l.w, l.key, l.cursor, entries);
    if r.Ok? {
      WatchOpensExact(l.w, l.key, l.cursor, entries);
      NewLive(l, entries);
    }
  }

  lemma NewLive(l: Line, entries: seq<Event>)
    requires |l.w.store.log| > 0 && l.origin <= l.cursor && (l.cursor == l.origin || l.cursor <= l.w.store.Head())
    requires l.confirmed + Acknowledged(l) == Select(l.w.store.history, l.key, l.origin, l.cursor)
    requires var (w', r) := Watch(l.w, l.key, l.cursor, entries);
      r.Ok? && w'.store.history == l.w.store.history && ExactWatch(w', r.value)
      && w'.subs[r.value].start == l.cursor && w'.subs[r.value].key == l.key
    ensures var (w', r) := Watch(l.w, l.key, l.cursor, entries);
      LiveInv(l.(w := w', live := Some(r.value), confirmed := l.confirmed + Acknowledged(l), past := Connections(l)),
              r.value)
  {
    hide ExactWatch, Watch, Select, Acknowledged, Connections;
  }

  lemma LineWatches(l: Line)
    requires LineInv(l)
    ensures WatchInv(l.w)
  {
    hide WatchInv, LiveInv;
  }

  lemma LineStepKeeps(l: Line, op: LineOp)
    requires LineInv(l) && |l.w.store.log| > 0 && LineAllowed(l, op)
    ensures LineInv(LineStep(l, op))
  {
    hide LineInv, LineAllowed, LineStep;
    match op
    case Elsewhere(o) => ElsewhereKeeps(l, o);
    case AckWatch(id, rev) => AckKeeps(l, id, rev);
    case Disconnect => DisconnectKeeps(l);
    case Reconnect(entries) => ReconnectKeeps(l, entries);
  }

  lemma {:induction false} LineRunKeeps(l: Line, ops: seq<LineOp>)
    requires LineInv(l) && |l.w.store.log| > 0 && LineRunAllowed(l, ops)
    ensures LineInv(LineRun(l, ops))
  {
    hide LineInv, LineAllowed, LineStep;
    if ops != [] {
      LineRunKeeps(l, ops[..|ops| - 1]);
      LineStepKeeps(LineRun(l, ops[..|ops| - 1]), ops[|ops| - 1]);
    }
  }

  // ---------- the theorem ----------

  /** What the client acknowledged on earlier connections, then what the current one
      has passed on. */
  function View(l: Line): seq<Event> {
    l.confirmed + (if l.live.Some? && l.live.value in l.w.subs then l.w.subs[l.live.value].Passed() else [])
  }

  /** The revision up to which the client has been served. */
  function ServedTo(l: Line): nat {
    if l.live.Some? && l.live.value in l.w.subs && l.w.subs[l.live.value].stream in l.w.store.streams then
      var sub := l.w.subs[l.live.value];
      var st := l.w.store.streams[sub.stream];
      if st.start + |st.taken| > sub.start then st.start + |st.taken| else sub.start
    else l.cursor
  }

  lemma LiveView(l: Line, id: nat)
    requires WatchInv(l.w) && LiveInv(l, id) && l.live == Some(id)
    ensures l.origin <= ServedTo(l) && View(l) == Select(l.w.store.history, l.key, l.origin, ServedTo(l))
  {
    hide WatchInv, Ordered;
    LiveFacts(l, id);
    var sub := l.w.subs[id];
    var st := l.w.store.streams[sub.stream];
    SelectSplit(l.w.store.history, l.key, l.origin, sub.start, ServedTo(l));
    if st.start + |st.taken| <= sub.start {
      SelectAbove(l.w.store.history, l.key, sub.start, st.start + |st.taken|);
      SelectEmpty(l.w.store.history, l.key, sub.start);
    }
  }

  /** What was acknowledged on earlier connections, then what the current one has
      delivered. */
  function Resumed(l: Line): seq<Event> {
    l.confirmed + (if l.live.Some? && l.live.value in l.w.subs then l.w.subs[l.live.value].delivered else [])
  }

  lemma SelectPrefix(h: seq<Event>, key: Key, a: nat, b: nat)
    requires WellFormed(h) && a <= b
    ensures Select(h, key, a, b) <= Select(h, key, a, |h|)
  {
    if b <= |h| {
      SelectSplit(h, key, a, b, |h|);
    } else {
      SelectWhole(h, key, a, b, |h|);
    }
  }

  /** A line that keeps its invariant has served exactly the matching history. */
  lemma LineIsExact(l: Line)
    requires LineInv(l)
    ensures l.origin <= ServedTo(l) && View(l) == Select(l.w.store.history, l.key, l.origin, ServedTo(l))
    ensures Resumed(l) <= View(l)
    ensures View(l) <= Select(l.w.store.history, l.key, l.origin, l.w.store.Head())
  {
    WellFormedWatch(l.w);
    hide WatchInv, LiveInv, Select, WellFormed;
    if l.live.Some? {
      LiveView(l, l.live.value);
    }
    SelectPrefix(l.w.store.history, l.key, l.origin, ServedTo(l));
  }

  // ---------- the transcript ----------

  /** Where the current connection began; the cursor when there is none. */
  function Since(l: Line): nat {
    if l.live.Some? && l.live.value in l.w.subs then l.w.subs[l.live.value].start else l.cursor
  }

  ghost predicate PastInv(l: Line) {
    && Served(l.w.store.history, l.key, l.past)
    && forall j :: 0 <= j < |l.past| ==> l.past[j].from <= Since(l)
  }

  lemma SelectGrows(h: seq<Event>, h': seq<Event>, key: Key, a: nat)
    requires WellFormed(h) && WellFormed(h') && h <= h'
    ensures Select(h, key, a, |h|) <= Select(h', key, a, |h'|)
  {
    if a <= |h| {
      SelectStable(h, h', key, a, |h|);
      SelectPrefix(h', key, a, |h|);
    } else {
      SelectAbove(h, key, a, |h|);
    }
  }

  lemma ServedGrows(h: seq<Event>, h': seq<Event>, key: Key, conns: seq<Connection>)
    requires WellFormed(h) && WellFormed(h') && h <= h' && Served(h, key, conns)
    ensures Served(h', key, conns)
  {
    forall j | 0 <= j < |conns|
      ensures conns[j].delivered <= Select(h', key, conns[j].from, |h'|)
    {
      SelectGrows(h, h', key, conns[j].from);
    }
  }

  lemma DeliveredServed(h: seq<Event>, st: Stream, sub: Sub)
    requires WellFormed(h) && Exact(h, st, sub)
    ensures sub.delivered <= Select(h, sub.key, sub.start, |h|)
  {
    hide WellFormed, Select;
    var read := st.start + |st.taken|;
    assert sub.delivered <= sub.Passed();
    if read >= sub.start {
      SelectPrefix(h, sub.key, sub.start, read);
    } else {
      SelectAbove(h, sub.key, sub.start, read);
    }
  }

  /** The current watch, too, has delivered a piece of the matching history. */
  lemma ConnectionsServed(l: Line)
    requires LineInv(l) && PastInv(l)
    ensures WellFormed(l.w.store.history) && Served(l.w.store.history, l.key, Connections(l))
    ensures forall j :: 0 <= j < |Connections(l)| ==> Connections(l)[j].from <= l.cursor
  {
    hide WatchInv, WellFormed, Ordered, Exact, Select;
    WellFormedWatch(l.w);
    if l.live.Some? {
      var id := l.live.value;
      LiveFacts(l, id);
      DeliveredServed(l.w.store.history, l.w.store.streams[l.w.subs[id].stream], l.w.subs[id]);
    }
  }

  lemma LineHistoryGrows(l: Line, op: LineOp)
    requires LineInv(l) && |l.w.store.log| > 0 && LineAllowed(l, op)
    ensures WellFormed(l.w.store.history) && WellFormed(LineStep(l, op).w.store.history)
    ensures l.w.store.history <= LineStep(l, op).w.store.history
  {
    LineWatches(l);
    LineStepKeeps(l, op);
    LineWatches(LineStep(l, op));
    hide LineInv, LineAllowed, WatchInv, WatchStep, Watch, WellFormed;
    WellFormedWatch(l.w);
    WellFormedWatch(LineStep(l, op).w);
    match op
    case Elsewhere(o) => HistoryGrows(l.w, o);
    case AckWatch(id, rev) => AckKeepsWatches(l.w, id, rev);
    case Disconnect =>
      if l.live.Some? {
        CancelHistory(l.w, l.live.value);
      }
    case Reconnect(entries) => WatchHistory(l.w, l.key, l.cursor, entries);
  }

  /** A connection's start does not change while it lasts. */
  lemma SinceKeeps(l: Line, op: LineOp)
    requires LineInv(l) && |l.w.store.log| > 0 && LineAllowed(l, op)
    ensures Since(LineStep(l, op)) == if op.Reconnect? then l.cursor else Since(l)
    ensures LineStep(l, op).past == if op.Reconnect? then Connections(l) else l.past
  {
    hide WatchInv, WatchAllowed, WatchStep, Exact, Select, Open, Ack;
    match op
    case Elsewhere(o) =>
      if l.live.Some? {
        ExactStep(l.w, o, l.live.value);
        ExactHasStream(WatchStep(l.w, o), l.live.value);
      }
    case AckWatch(id, rev) => AckKeepsWatches(l.w, id, rev);
    case Disconnect =>
    case Reconnect(entries) =>
  }

  lemma PastKeeps(l: Line, op: LineOp)
    requires LineInv(l) && PastInv(l) && |l.w.store.log| > 0 && LineAllowed(l, op)
    ensures PastInv(LineStep(l, op))
  {
    hide LineInv, LineAllowed, WellFormed, Served, Since, Connections;
    LineHistoryGrows(l, op);
    SinceKeeps(l, op);
    LineKey(l, op);
    var h, h' := l.w.store.history, LineStep(l, op).w.store.history;
    if op.Reconnect? {
      ConnectionsServed(l);
      ServedGrows(h, h', l.key, Connections(l));
    } else {
      ServedGrows(h, h', l.key, l.past);
    }
  }

  lemma LineKey(l: Line, op: LineOp)
    requires |l.w.store.log| > 0
    ensures LineStep(l, op).key == l.key && LineStep(l, op).origin == l.origin
  {
    hide WatchStep, Watch, Cancel, Ack, Select;
  }

  lemma {:induction false} LineRunKeepsPast(l: Line, ops: seq<LineOp>)
    requires LineInv(l) && PastInv(l) && |l.w.store.log| > 0 && LineRunAllowed(l, ops)
    ensures PastInv(LineRun(l, ops))
  {
    hide LineInv, PastInv, LineAllowed, LineStep;
    if ops != [] {
      LineRunKeepsPast(l, ops[..|ops| - 1]);
      LineRunKeeps(l, ops[..|ops| - 1]);
      PastKeeps(LineRun(l, ops[..|ops| - 1]), ops[|ops| - 1]);
    }
  }

  lemma LineTranscript(l: Line)
    requires LineInv(l) && PastInv(l)
    ensures TranscriptExact(Connections(l))
  {
    ConnectionsServed(l);
    hide LineInv, PastInv, WellFormed, Connections, Served, TranscriptExact;
    TranscriptIsExact(l.w.store.history, l.key, Connections(l));
  }

  function NewLine(w: WatchState, key: Key, origin: nat): Line {
    Line(w, key, origin, origin, None, [], [])
  }

  /** Resume is exact: however often a client disconnects and reconnects, what it
      acknowledged before and what its current connection delivers are together the
      matching part of the history from where it first asked, each event once and in
      order; and what it is sent more than once is only what it had not
      acknowledged. */
  lemma ResumeIsExact(w: WatchState, key: Key, origin: nat, ops: seq<LineOp>)
    requires WatchInv(w) && |w.store.log| > 0 && LineRunAllowed(NewLine(w, key, origin), ops)
    ensures var l := LineRun(NewLine(w, key, origin), ops);
      && View(l) == Select(l.w.store.history, key, origin, ServedTo(l))
      && Resumed(l) <= View(l) <= Select(l.w.store.history, key, origin, l.w.store.Head())
      && TranscriptExact(Connections(l))
  {
    var start := NewLine(w, key, origin);
    SelectEmpty(w.store.history, key, origin);
    hide WatchInv, LineStep, LiveInv, Select, TranscriptExact;
    LineRunKeeps(start, ops);
    LineRunKeepsPast(start, ops);
    LineNames(start, ops);
    LineIsExact(LineRun(start, ops));
    LineTranscript(LineRun(start, ops));
  }

  lemma {:induction false} LineNames(l: Line, ops: seq<LineOp>)
    requires |l.w.store.log| > 0
    ensures LineRun(l, ops).key == l.key && LineRun(l, ops).origin == l.origin
  {
    hide LineStep;
    if ops != [] {
      LineNames(l, ops[..|ops| - 1]);
      LineKey(LineRun(l, ops[..|ops| - 1]), ops[|ops| - 1]);
    }
  }
}
