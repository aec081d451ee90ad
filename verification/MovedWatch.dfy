/** Watches whose stream had to start above the revision asked for, because the log
    no longer reaches down to it: what they deliver and what they miss. */
module MovedWatch {
  import opened Model
  import opened History
  import opened StoreSpec
  import opened StoreInvariant
  import opened StoreTheorems
  import opened WatchSpec
  import opened WatchTheorems
  import opened Transcript

  // ---------- what such a watch delivers ----------

  /** The snapshot's entries that have been considered. */
  function Considered(sub: Sub, entries: seq<Event>): seq<Event>
    requires |sub.pending| <= |entries|
  {
    entries[..|entries| - |sub.pending|]
  }

  /** The watch has passed on the matching snapshot entries above the revision asked
      for, as far as it has considered them, and then the matching events its stream
      has handed out; the stream was sent the history above `f`. */
  ghost predicate Moved(h: seq<Event>, st: Stream, sub: Sub, entries: seq<Event>, f: nat) {
    && sub.start < st.start <= f && SentFrom(h, st, f)
    && EntriesOf(entries, st.snapshot) && Rising(entries) && (forall e :: e in entries ==> e.rev <= st.start)
    && |sub.pending| <= |entries| && sub.pending == entries[|entries| - |sub.pending|..]
    && (sub.pending != [] ==> st.taken == [])
    && sub.Passed() == Select(Considered(sub, entries), sub.key, sub.start, st.start)
                     + Select(h, sub.key, f, f + |st.taken|)
  }

  ghost predicate MovedWatch(w: WatchState, id: nat, entries: seq<Event>, f: nat) {
    && id in w.subs && w.subs[id].stream in w.store.streams
    && Moved(w.store.history, w.store.streams[w.subs[id].stream], w.subs[id], entries, f)
  }

  // ---------- opening ----------

  /** Two entries of a faithful snapshot never have the same revision. */
  lemma EntriesRise(h: seq<Event>, st: Stream, entries: seq<Event>)
    requires WellFormed(h) && st.start <= |h| && Faithful(h, st) && EntriesOf(entries, st.snapshot)
    ensures Rising(entries)
  {
    forall i, j | 0 <= i < j < |entries|
      ensures entries[i].rev < entries[j].rev
    {
      EntryKey(h, st, entries, entries[i]);
      EntryKey(h, st, entries, entries[j]);
    }
  }

  lemma EntryKey(h: seq<Event>, st: Stream, entries: seq<Event>, e: Event)
    requires WellFormed(h) && st.start <= |h| && Faithful(h, st) && EntriesOf(entries, st.snapshot) && e in entries
    ensures 0 < e.rev <= st.start && h[e.rev - 1].key == e.key && LatestRev(h, e.key, st.start) == e.rev
    ensures Answer(h, e.key, st.start) == Some(VersionOf(e)) && e.kind == Put && h[e.rev - 1].kind != Delete
  {
    assert Answer(h, e.key, st.start) == Some(st.snapshot[e.key]);
  }

  /** A watch from below the log: where its stream starts, and from where the stream
      is sent the history. */
  lemma WatchOpensMoved(w: WatchState, key: Key, startRev: nat, entries: seq<Event>)
    requires WatchInv(w) && |w.store.log| > 0 && WatchAllowed(w, OpWatch(key, startRev, entries))
    requires w.store.logSize > 0 && startRev + 1 < w.store.logStart && Watch(w, key, startRev, entries).1.Ok?
    ensures var (w', r) := Watch(w, key, startRev, entries);
      var f := if w.store.logSize == |w.store.log| then w.store.logStart else w.store.logStart - 1;
      && r.value in w'.subs && w'.subs[r.value].stream in w'.store.streams
      && w'.subs[r.value] == Sub(key, startRev, w'.subs[r.value].stream, entries, startRev, None, [], 0, false)
      && w'.store.streams[w'.subs[r.value].stream].start == w.store.logStart - 1
      && MovedWatch(w', r.value, entries, f)
  {
    hide Inv, Ordered, OpenStream, OpenLiveStream, EntriesOf, SentFrom, WellFormed, Faithful, Select, Rising;
    OpenKeeps(w.store, startRev);
    OpenShape(w.store, startRev);
    OpenedMoved(w.store, startRev);
    var (s', r) := Open(w.store, startRev);
    OpenedFaithful(s', r.value);
    var st := s'.streams[r.value];
    EntriesRise(s'.history, st, entries);
    EntriesAreOld(s'.history, st, entries);
    NothingSelected(s'.history, key, startRev, st.start,
                    if w.store.logSize == |w.store.log| then w.store.logStart else w.store.logStart - 1);
  }

  /** A watch whose live stream was opened late starts above what it asked for, too. */
  lemma WatchOpensLate(w: WatchState, key: Key, startRev: nat, entries: seq<Event>)
    requires WatchInv(w) && |w.store.log| > 0 && WatchAllowed(w, OpWatchLate(key, startRev, entries))
    ensures var (w', id) := WatchLate(w, key, startRev, entries);
      && id in w'.subs && w'.subs[id].stream in w'.store.streams
      && w'.subs[id] == Sub(key, startRev, w'.subs[id].stream, entries, startRev, None, [], 0, false)
      && w'.store.streams[w'.subs[id].stream].start == w.store.Head()
      && MovedWatch(w', id, entries, w.store.Head())
  {
    hide Inv, Ordered, EntriesOf, WellFormed, Faithful, Select, Rising, Snapshot;
    LiveShape(w.store);
    var (s', stream) := OpenLiveStream(w.store);
    OpenedFaithful(s', stream);
    EntriesRise(s'.history, s'.streams[stream], entries);
    EntriesAreOld(s'.history, s'.streams[stream], entries);
    NothingSelected(s'.history, key, startRev, w.store.Head(), w.store.Head());
  }

  lemma NothingSelected(h: seq<Event>, key: Key, a: nat, b: nat, f: nat)
    ensures Select([], key, a, b) == []
    ensures Select(h, key, f, f) == []
  {
    NoneBetween(h, key, f);
  }

  lemma {:induction false} NoneBetween(h: seq<Event>, key: Key, f: nat)
    ensures Select(h, key, f, f) == []
  {
    if h != [] {
      NoneBetween(h[..|h| - 1], key, f);
    }
  }

  lemma OpenedMoved(s: StoreState, startRev: nat)
    requires Inv(s) && |s.log| > 0 && s.logSize > 0 && startRev + 1 < s.logStart && Open(s, startRev).1.Ok?
    ensures var (s', r) := Open(s, startRev);
      var f := if s.logSize == |s.log| then s.logStart else s.logStart - 1;
      && r.value in s'.streams && s'.streams[r.value].start == s.logStart - 1 && s'.streams[r.value].taken == []
      && SentFrom(s'.history, s'.streams[r.value], f)
  {
    FreshStreamId(s);
    TruncatedOpen(s, startRev);
    hide Inv, LogEvents, Snapshot, ReplayFrom;
  }

  // ---------- every step ----------

  /** What has been passed on lies at or below the point reached. */
  lemma CursorBehind(h: seq<Event>, st: Stream, sub: Sub, entries: seq<Event>, f: nat)
    requires WellFormed(h) && Moved(h, st, sub, entries, f) && Ordered(sub)
    ensures sub.pending == [] ==> sub.cursor <= f + |st.taken|
    ensures sub.pending != [] ==> sub.cursor == sub.start || sub.cursor < sub.pending[0].rev
  {
    hide WellFormed, SentFrom, EntriesOf, Select, Rising, Ordered;
    CursorIsLast(sub);
    var done := Considered(sub, entries);
    var last := if sub.Passed() == [] then NO_EVENT else sub.Passed()[|sub.Passed()| - 1];
    SelectRevs(h, sub.key, f, f + |st.taken|);
    SelectIn(done, sub.key, sub.start, st.start, last);
    NoneBetween(h, sub.key, f);
    if sub.Passed() != [] && last in done && sub.pending != [] {
      BeforeNext(entries, |entries| - |sub.pending|, last);
    }
  }

  lemma CursorIsLast(sub: Sub)
    requires Ordered(sub)
    ensures sub.cursor == if sub.Passed() == [] then sub.start else sub.Passed()[|sub.Passed()| - 1].rev
  {
  }

  lemma BeforeNext(entries: seq<Event>, n: nat, e: Event)
    requires Rising(entries) && n < |entries| && e in entries[..n]
    ensures e.rev < entries[n].rev
  {
  }

  lemma MovedNextEntry(h: seq<Event>, st: Stream, sub: Sub, entries: seq<Event>, f: nat)
    requires WellFormed(h) && Moved(h, st, sub, entries, f) && Ordered(sub)
    requires sub.pending != [] && sub.held == None
    ensures Moved(h, st, Consider(sub.(pending := sub.pending[1..]), sub.pending[0]), entries, f)
  {
    hide SentFrom, EntriesOf, WellFormed, Rising, Ordered;
    CursorBehind(h, st, sub, entries, f);
    var n, ev := |entries| - |sub.pending|, sub.pending[0];
    var sub' := Consider(sub.(pending := sub.pending[1..]), ev);
    assert ev == entries[n] && sub'.pending == entries[n + 1..];
    assert entries[..n + 1][..n] == entries[..n];
    NoneBetween(h, sub.key, f);
    CursorFromStart(sub);
    assert sub'.Passed() == sub.Passed() + (if sub.start < ev.rev <= st.start && Match(ev, sub.key) then [ev] else []);
  }

  lemma CursorFromStart(sub: Sub)
    requires Ordered(sub)
    ensures sub.start <= sub.cursor
  {
  }

  lemma MovedNextEvent(h: seq<Event>, st: Stream, sub: Sub, entries: seq<Event>, f: nat)
    requires WellFormed(h) && Moved(h, st, sub, entries, f) && Ordered(sub)
    requires sub.pending == [] && sub.held == None && st.ch != []
    ensures Moved(h, st.(taken := st.taken + [st.ch[0]], ch := st.ch[1..]), Consider(sub, st.ch[0]), entries, f)
  {
    hide EntriesOf, WellFormed, Select, SentFrom, Rising, Ordered;
    CursorBehind(h, st, sub, entries, f);
    var ev, read := st.ch[0], f + |st.taken|;
    var st', sub' := st.(taken := st.taken + [st.ch[0]], ch := st.ch[1..]), Consider(sub, st.ch[0]);
    NextSent(h, st, f);
    SelectOne(h, sub.key, f, read);
    OneTaken(h, st, f);
    assert sub'.Passed() == sub.Passed() + (if Match(ev, sub.key) then [ev] else []);
  }

  lemma OneTaken(h: seq<Event>, st: Stream, f: nat)
    requires SentFrom(h, st, f) && st.ch != []
    ensures SentFrom(h, st.(taken := st.taken + [st.ch[0]], ch := st.ch[1..]), f)
  {
    assert st.(taken := st.taken + [st.ch[0]], ch := st.ch[1..]).Sent() == st.Sent();
  }

  lemma NextSent(h: seq<Event>, st: Stream, f: nat)
    requires WellFormed(h) && SentFrom(h, st, f) && st.ch != []
    ensures f + |st.taken| < |h| && st.ch[0] == h[f + |st.taken|] && st.ch[0].rev == f + |st.taken| + 1
  {
    assert st.Sent()[|st.taken|] == st.ch[0];
  }

  lemma MovedAdvances(h: seq<Event>, st: Stream, h': seq<Event>, st': Stream, sub: Sub, entries: seq<Event>, f: nat)
    requires WellFormed(h') && Moved(h, st, sub, entries, f) && Advanced(h, st, h', st') && st'.taken == st.taken
    ensures Moved(h', st', sub, entries, f)
  {
    hide WellFormed, SentFrom, EntriesOf, Rising, Select, Advanced;
    AdvancedShape(h, st, h', st');
    AdvancedKeepsSentFrom(h, st, h', st', f);
    TakenIsSent(h, st, f);
    SelectStable(h, h', sub.key, f, f + |st.taken|);
  }

  lemma AdvancedShape(h: seq<Event>, st: Stream, h': seq<Event>, st': Stream)
    requires Advanced(h, st, h', st')
    ensures h <= h' && st'.start == st.start && st'.snapshot == st.snapshot
  {
  }

  lemma TakenIsSent(h: seq<Event>, st: Stream, f: nat)
    requires SentFrom(h, st, f)
    ensures f + |st.taken| <= |h|
  {
  }

  lemma MovedAlongKeeps(h: seq<Event>, st: Stream, st': Stream, sub: Sub, sub': Sub, entries: seq<Event>, f: nat)
    requires Moved(h, st, sub, entries, f) && MovesAlong(sub, sub') && (st' == st || st' == st.(closed := true))
    ensures Moved(h, st', sub', entries, f)
  {
    assert st'.Sent() == st.Sent();
    hide EntriesOf, Select;
  }

  lemma MovedStream(w: WatchState, id: nat, entries: seq<Event>, f: nat)
    requires MovedWatch(w, id, entries, f)
    ensures id in w.subs && w.subs[id].stream in w.store.streams
  {
  }

  lemma WatchFacts(w: WatchState, id: nat)
    requires WatchInv(w) && id in w.subs
    ensures WellFormed(w.store.history) && Ordered(w.subs[id]) && Inv(w.store)
  {
    WellFormedOf(w.store);
    hide Inv, WellFormed, Ordered;
  }

  /** The same watch, on a stream with the same start and snapshot. */
  ghost predicate SameStart(w: WatchState, w': WatchState, id: nat) {
    && id in w.subs && id in w'.subs
    && w'.subs[id].key == w.subs[id].key && w'.subs[id].start == w.subs[id].start
    && w'.subs[id].stream == w.subs[id].stream
    && var stream := w.subs[id].stream;
    && stream in w.store.streams && stream in w'.store.streams
    && w'.store.streams[stream].start == w.store.streams[stream].start
    && w'.store.streams[stream].snapshot == w.store.streams[stream].snapshot
  }

  lemma MovedOwnEntry(w: WatchState, id: nat, entries: seq<Event>, f: nat)
    requires WatchInv(w) && MovedWatch(w, id, entries, f)
    ensures MovedWatch(NextEntry(w, id), id, entries, f) && SameStart(w, NextEntry(w, id), id)
  {
    hide WatchInv, Moved, WellFormed, Ordered, Inv;
    WatchFacts(w, id);
    if NextEntry(w, id) != w {
      assert NextEntry(w, id).store == w.store;
      MovedNextEntry(w.store.history, w.store.streams[w.subs[id].stream], w.subs[id], entries, f);
    }
  }

  lemma MovedOwnEvent(w: WatchState, id: nat, entries: seq<Event>, f: nat)
    requires WatchInv(w) && MovedWatch(w, id, entries, f)
    ensures MovedWatch(NextEvent(w, id), id, entries, f) && SameStart(w, NextEvent(w, id), id)
  {
    hide WatchInv, Moved, WellFormed, Ordered, Inv, NextEvent;
    WatchFacts(w, id);
    if NextEvent(w, id) != w {
      OwnEventShape(w, id);
      NothingPending(w, id);
      MovedNextEvent(w.store.history, w.store.streams[w.subs[id].stream], w.subs[id], entries, f);
    }
  }

  lemma NothingPending(w: WatchState, id: nat)
    requires id in w.subs && NextEvent(w, id) != w
    ensures w.subs[id].pending == []
  {
  }

  lemma MovedStoreOp(w: WatchState, op: StoreOp, id: nat, entries: seq<Event>, f: nat)
    requires Inv(w.store) && |w.store.log| > 0 && MovedWatch(w, id, entries, f) && !op.OpReceive?
    ensures MovedWatch(w.(store := Step(w.store, op)), id, entries, f)
    ensures SameStart(w, w.(store := Step(w.store, op)), id)
  {
    hide Inv, WellFormed, Moved, Advanced, Step;
    StepKeeps(w.store, op);
    WellFormedOf(Step(w.store, op));
    var stream := w.subs[id].stream;
    TakenUnchanged(w.store, op, stream);
    AdvancedShape(w.store.history, w.store.streams[stream],
                  Step(w.store, op).history, Step(w.store, op).streams[stream]);
    MovedAdvances(w.store.history, w.store.streams[stream],
                  Step(w.store, op).history, Step(w.store, op).streams[stream], w.subs[id], entries, f);
  }

  /** One step of anything keeps this account of the watch right. */
  lemma MovedStep(w: WatchState, op: WatchOp, id: nat, entries: seq<Event>, f: nat)
    requires WatchInv(w) && |w.store.log| > 0 && MovedWatch(w, id, entries, f) && WatchAllowed(w, op)
    ensures MovedWatch(WatchStep(w, op), id, entries, f) && SameStart(w, WatchStep(w, op), id)
  {
    hide WatchInv, Moved, Ordered, Inv, NextEntry, NextEvent, Step, SameWatch;
    MovedStream(w, id, entries, f);
    if op.OpNextEvent? && op.id == id {
      MovedOwnEvent(w, id, entries, f);
    } else if op.OpNextEntry? && op.id == id {
      MovedOwnEntry(w, id, entries, f);
    } else if op.OpStore? {
      WatchFacts(w, id);
      MovedStoreOp(w, op.op, id, entries, f);
    } else {
      OtherStepFrame(w, op, id);
      var stream := w.subs[id].stream;
      MovedAlongKeeps(w.store.history, w.store.streams[stream], WatchStep(w, op).store.streams[stream],
                      w.subs[id], WatchStep(w, op).subs[id], entries, f);
    }
  }

  // ---------- what the client ends up with ----------

  /** A tombstone reads as nothing. */
  function Visible(v: Option<Version>): Option<Version> {
    if v == None || v.value.deleted then None else v
  }

  function LastOf(evs: seq<Event>, k: Key): Option<Event> {
    if evs == [] then None
    else if evs[|evs| - 1].key == k then Some(evs[|evs| - 1])
    else LastOf(evs[..|evs| - 1], k)
  }

  lemma {:induction false} FoldLast(view: map<Key, Version>, evs: seq<Event>, k: Key)
    ensures Lookup(Fold(view, evs), k) ==
            match LastOf(evs, k) { case None => Lookup(view, k) case Some(e) => Some(VersionOf(e)) }
  {
    if evs != [] {
      FoldLast(view, evs[..|evs| - 1], k);
    }
  }

  lemma {:induction false} LastOfIn(evs: seq<Event>, k: Key)
    ensures LastOf(evs, k).Some? ==> LastOf(evs, k).value in evs && LastOf(evs, k).value.key == k
    ensures LastOf(evs, k) == None ==> forall e :: e in evs ==> e.key != k
  {
    if evs != [] {
      LastOfIn(evs[..|evs| - 1], k);
      forall e
        ensures e in evs <==> e in evs[..|evs| - 1] || e == evs[|evs| - 1]
      {
        InMost(evs, e);
      }
    }
  }

  lemma InMost(evs: seq<Event>, e: Event)
    requires evs != []
    ensures e in evs <==> e in evs[..|evs| - 1] || e == evs[|evs| - 1]
  {
    assert evs == evs[..|evs| - 1] + [evs[|evs| - 1]];
  }

  lemma {:induction false} LastOfSplit(a: seq<Event>, b: seq<Event>, k: Key)
    ensures LastOf(a + b, k) == if LastOf(b, k).Some? then LastOf(b, k) else LastOf(a, k)
  {
    if b == [] {
      assert a + b == a;
    } else {
      assert (a + b)[..|a + b| - 1] == a + b[..|b| - 1];
      LastOfSplit(a, b[..|b| - 1], k);
    }
  }

  lemma LastOfOne(ev: Event, b: bool, k: Key)
    ensures LastOf(if b then [ev] else [], k) == if b && ev.key == k then Some(ev) else None
  {
    assert [ev][..0] == [];
  }

  /** The last event for a key in a tail of the history is its newest write there. */
  lemma {:induction false} LastSelected(h: seq<Event>, key: Key, f: nat, b: nat, k: Key)
    requires WellFormed(h) && |h| <= b && (key == "" || key == k)
    ensures var r := LatestRev(h, k, |h|);
      LastOf(Select(h, key, f, b), k) == if r > f then Some(h[r - 1]) else None
  {
    hide LatestRev, LastOf;
    if h == [] {
      LastOfOne(NO_EVENT, false, k);
    } else {
      var most, ev := h[..|h| - 1], h[|h| - 1];
      var here := f < |h| && Match(ev, key);
      SelectLast(h, key, f, b);
      hide WellFormed, Select, Match;
      LastSelected(most, key, f, b, k);
      AnswerNext(h, k, |h|);
      LatestRevExtend(most, h, k, |most|);
      LastOfSplit(Select(most, key, f, b), if here then [ev] else [], k);
      LastOfOne(ev, here, k);
    }
  }

  lemma SelectLast(h: seq<Event>, key: Key, f: nat, b: nat)
    requires WellFormed(h) && h != [] && |h| <= b
    ensures var ev := h[|h| - 1];
      && WellFormed(h[..|h| - 1])
      && Select(h, key, f, b) == Select(h[..|h| - 1], key, f, b) + (if f < |h| && Match(ev, key) then [ev] else [])
      && (key == "" || key == ev.key ==> Match(ev, key))
  {
  }

  /** Whether the snapshot told the client about the key. */
  predicate Told(entries: seq<Event>, start: nat, k: Key) {
    exists e :: e in entries && e.key == k && e.rev > start
  }

  /** What the client does not learn: a delete that the snapshot leaves out, or the
      one write between snapshot and stream, of a key it shows as it was. */
  predicate Missed(h: seq<Event>, st: Stream, start: nat, entries: seq<Event>, f: nat, k: Key)
    requires start <= |h|
  {
    var r := LatestRev(h, k, |h|);
    var known := Visible(Answer(h, k, start)) != None;
    && start < r <= f
    && if r <= st.start then h[r - 1].kind == Delete && known
       else h[r - 1].kind != Delete || known || Told(entries, start, k)
  }

  /** All that has been passed on once everything sent so far has been read. */
  function AllPassed(h: seq<Event>, st: Stream, key: Key, start: nat, entries: seq<Event>, f: nat): seq<Event> {
    Select(entries, key, start, st.start) + Select(h, key, f, |h|)
  }

  lemma ToldEntry(h: seq<Event>, st: Stream, key: Key, start: nat, entries: seq<Event>, k: Key)
    requires WellFormed(h) && st.start <= |h| && Faithful(h, st) && EntriesOf(entries, st.snapshot)
    requires key == "" || key == k
    ensures var l := LastOf(Select(entries, key, start, st.start), k);
      && (l.Some? <==> Told(entries, start, k))
      && (l.Some? ==> start < LatestRev(h, k, st.start) && h[LatestRev(h, k, st.start) - 1].kind != Delete
                      && Some(VersionOf(l.value)) == Answer(h, k, st.start) && l.value.kind == Put)
  {
    var part := Select(entries, key, start, st.start);
    LastOfIn(part, k);
    hide EntriesOf, Faithful, WellFormed, Answer, LatestRev, Select;
    if LastOf(part, k).Some? {
      var e := LastOf(part, k).value;
      SelectIn(entries, key, start, st.start, e);
      EntryKey(h, st, entries, e);
    }
    if Told(entries, start, k) {
      var e :| e in entries && e.key == k && e.rev > start;
      EntryKey(h, st, entries, e);
      SelectIn(entries, key, start, st.start, e);
    }
  }

  lemma NewestInSnapshot(h: seq<Event>, st: Stream, k: Key)
    requires WellFormed(h) && st.start <= |h| && Faithful(h, st) && 0 < LatestRev(h, k, |h|) <= st.start
    ensures LatestRev(h, k, st.start) == LatestRev(h, k, |h|)
    ensures k in st.snapshot && st.snapshot[k] == VersionOf(h[LatestRev(h, k, |h|) - 1])
    ensures st.snapshot[k].rev == LatestRev(h, k, |h|)
  {
    hide LatestRev, Faithful;
    LatestRevMonotone(h, k, st.start, |h|);
    FaithfulNewest(h, st, k);
  }

  lemma FaithfulNewest(h: seq<Event>, st: Stream, k: Key)
    requires st.start <= |h| && Faithful(h, st) && 0 < LatestRev(h, k, |h|) <= st.start
    ensures k in st.snapshot && Answer(h, k, st.start) == Some(st.snapshot[k])
  {
    hide LatestRev, Answer;
  }

  /** A live key whose newest write lies at or below the stream's start is told. */
  lemma NewestIsTold(h: seq<Event>, st: Stream, start: nat, entries: seq<Event>, k: Key)
    requires WellFormed(h) && st.start <= |h| && Faithful(h, st) && EntriesOf(entries, st.snapshot)
    requires start < LatestRev(h, k, |h|) <= st.start
    ensures LatestRev(h, k, st.start) == LatestRev(h, k, |h|)
    ensures Told(entries, start, k) <==> h[LatestRev(h, k, |h|) - 1].kind != Delete
  {
    hide WellFormed, Faithful, LatestRev;
    NewestInSnapshot(h, st, k);
    if !st.snapshot[k].deleted {
      assert Event(Put, k, st.snapshot[k].value, st.snapshot[k].rev) in entries;
    }
  }

  /** What the client shows of a key after folding everything it was sent. */
  lemma ShownInTheEnd(h: seq<Event>, st: Stream, key: Key, start: nat, entries: seq<Event>, f: nat,
                      view: map<Key, Version>, k: Key)
    requires WellFormed(h) && st.start <= |h| && Faithful(h, st) && EntriesOf(entries, st.snapshot)
    requires start <= st.start <= f && (key == "" || key == k)
    ensures Lookup(Fold(view, AllPassed(h, st, key, start, entries, f)), k) ==
      if LatestRev(h, k, |h|) > f then Answer(h, k, |h|)
      else if Told(entries, start, k) then Answer(h, k, st.start)
      else Lookup(view, k)
  {
    hide WellFormed, Faithful, EntriesOf, Select, LatestRev, Told, LastOf, Fold, Lookup, Answer;
    var a, b := Select(entries, key, start, st.start), Select(h, key, f, |h|);
    FoldLast(view, a + b, k);
    LastOfSplit(a, b, k);
    LastSelected(h, key, f, |h|, k);
    ToldEntry(h, st, key, start, entries, k);
    NewestAnswer(h, k);
  }

  lemma NewestAnswer(h: seq<Event>, k: Key)
    ensures var r := LatestRev(h, k, |h|);
      r > 0 ==> Answer(h, k, |h|) == Some(VersionOf(h[r - 1]))
  {
    hide LatestRev;
  }

  /** The client's account of a key it watches is right in the end exactly when
      nothing of it was missed. `view` is what it knew at the revision it asked from. */
  lemma MovedConverges(h: seq<Event>, st: Stream, key: Key, start: nat, entries: seq<Event>, f: nat,
                       view: map<Key, Version>, k: Key)
    requires st.start <= |h| && WellFormed(h) && Faithful(h, st) && EntriesOf(entries, st.snapshot)
    requires start < st.start <= f <= |h| && f <= st.start + 1 && (key == "" || key == k)
    requires Lookup(view, k) == Answer(h, k, start)
    ensures Visible(Lookup(Fold(view, AllPassed(h, st, key, start, entries, f)), k)) == Visible(Answer(h, k, |h|))
            <==> !Missed(h, st, start, entries, f, k)
  {
    hide WellFormed, Faithful, EntriesOf, Select, LatestRev, Told, Fold, Answer, AllPassed, Visible;
    var r := LatestRev(h, k, |h|);
    ShownInTheEnd(h, st, key, start, entries, f, view, k);
    LatestRevMonotone(h, k, start, |h|);
    LatestRevMonotone(h, k, st.start, |h|);
    KindAndVisible(h, k, |h|);
    KindAndVisible(h, k, start);
    KindAndVisible(h, k, st.start);
    SameRevSameAnswer(h, k, start);
    SameRevSameAnswer(h, k, st.start);
    ToldEntry(h, st, key, start, entries, k);
    if start < r <= st.start {
      NewestIsTold(h, st, start, entries, k);
    }
  }

  lemma SameRevSameAnswer(h: seq<Event>, k: Key, q: nat)
    requires q <= |h|
    ensures LatestRev(h, k, q) == LatestRev(h, k, |h|) ==> Answer(h, k, q) == Answer(h, k, |h|)
  {
    hide LatestRev;
  }

  lemma KindAndVisible(h: seq<Event>, k: Key, q: nat)
    requires WellFormed(h) && q <= |h|
    ensures var r := LatestRev(h, k, q);
      && (Visible(Answer(h, k, q)).Some? <==> r > 0 && h[r - 1].kind != Delete)
      && (Visible(Answer(h, k, q)).Some? ==> Visible(Answer(h, k, q)).value.rev == r)
      && (r == 0 <==> Answer(h, k, q) == None)
  {
  }

  // ---------- whole runs ----------

  ghost predicate WatchRunAllowed(w: WatchState, ops: seq<WatchOp>)
    requires |w.store.log| > 0
  {
    ops != [] ==>
      && WatchRunAllowed(w, ops[..|ops| - 1])
      && WatchAllowed(WatchRun(w, ops[..|ops| - 1]), ops[|ops| - 1])
  }

  lemma {:induction false} MovedRun(w: WatchState, ops: seq<WatchOp>, id: nat, entries: seq<Event>, f: nat)
    requires WatchInv(w) && |w.store.log| > 0 && MovedWatch(w, id, entries, f) && WatchRunAllowed(w, ops)
    ensures WatchInv(WatchRun(w, ops)) && MovedWatch(WatchRun(w, ops), id, entries, f)
    ensures SameStart(w, WatchRun(w, ops), id)
  {
    MovedStream(w, id, entries, f);
    hide WatchInv, MovedWatch, WatchAllowed, WatchStep;
    WatchRunKeeps(w, ops);
    if ops != [] {
      var most := WatchRun(w, ops[..|ops| - 1]);
      MovedRun(w, ops[..|ops| - 1], id, entries, f);
      MovedStep(most, ops[|ops| - 1], id, entries, f);
    }
  }

  /** The watch is at rest with room on its channel, and its stream is registered. */
  ghost predicate AtRest(w: WatchState, id: nat)
    requires id in w.subs && w.subs[id].stream in w.store.streams
  {
    && Idle(w, id) && !w.subs[id].closed && !w.store.streams[w.subs[id].stream].closed
    && |w.subs[id].delivered| < w.subs[id].consumed + CHANNEL_CAPACITY
  }

  lemma RestDelivered(h: seq<Event>, st: Stream, sub: Sub, entries: seq<Event>, f: nat)
    requires Moved(h, st, sub, entries, f) && sub.held == None && sub.pending == [] && st.ch == [] && !st.closed
    ensures sub.delivered == AllPassed(h, st, sub.key, sub.start, entries, f) && f <= |h|
  {
    hide Select, EntriesOf;
    assert entries[..|entries|] == entries && st.Sent() == st.taken;
  }

  lemma RestConverges(w: WatchState, id: nat, entries: seq<Event>, f: nat, view: map<Key, Version>, k: Key)
    requires WatchInv(w) && MovedWatch(w, id, entries, f) && AtRest(w, id)
    requires var sub := w.subs[id]; var st := w.store.streams[sub.stream];
      && (sub.key == "" || sub.key == k) && f <= st.start + 1
      && sub.start <= |w.store.history| && Lookup(view, k) == Answer(w.store.history, k, sub.start)
    ensures var sub := w.subs[id]; var st := w.store.streams[sub.stream]; var h := w.store.history;
      Visible(Lookup(Fold(view, sub.delivered), k)) == Visible(Answer(h, k, |h|))
      <==> !Missed(h, st, sub.start, entries, f, k)
  {
    hide Inv, WellFormed, EntriesOf, Faithful, Select, SentFrom, Rising, Ordered;
    hide Missed, Visible, Fold, Answer, AllPassed;
    WatchFacts(w, id);
    var sub := w.subs[id];
    var st := w.store.streams[sub.stream];
    OpenedFaithful(w.store, sub.stream);
    RestDelivered(w.store.history, st, sub, entries, f);
    MovedConverges(w.store.history, st, sub.key, sub.start, entries, f, view, k);
  }

  lemma {:induction false} RunHistoryGrows(w: WatchState, ops: seq<WatchOp>)
    requires WatchInv(w) && |w.store.log| > 0
    ensures w.store.history <= WatchRun(w, ops).store.history
  {
    hide WatchInv, WatchStep, WellFormed;
    if ops != [] {
      RunHistoryGrows(w, ops[..|ops| - 1]);
      WatchRunKeeps(w, ops[..|ops| - 1]);
      HistoryGrows(WatchRun(w, ops[..|ops| - 1]), ops[|ops| - 1]);
    }
  }

  lemma KnownThen(h: seq<Event>, h': seq<Event>, k: Key, q: nat)
    requires h <= h' && q <= |h|
    ensures Answer(h', k, q) == Answer(h, k, q)
  {
    LatestRevExtend(h, h', k, q);
  }

  /** A new watch that has been given its snapshot's entries, on a stream from `start`
      that is sent the history above `f`. */
  ghost predicate OpenedFor(w: WatchState, id: nat, key: Key, startRev: nat, entries: seq<Event>, f: nat) {
    && MovedWatch(w, id, entries, f) && id in w.subs && w.subs[id].key == key && w.subs[id].start == startRev
    && w.subs[id].stream in w.store.streams && f <= w.store.streams[w.subs[id].stream].start + 1
  }

  /** Over any run from its opening, a watch whose stream starts above the revision it
      asked from leaves its client with the current value of a key exactly when
      nothing of it was missed, once the watch has come to rest. `view` is what the
      client knew at that revision. */
  lemma MovedWatchConverges(w: WatchState, id: nat, key: Key, startRev: nat, entries: seq<Event>, f: nat,
                            ops: seq<WatchOp>, view: map<Key, Version>, k: Key)
    requires WatchInv(w) && |w.store.log| > 0 && OpenedFor(w, id, key, startRev, entries, f)
    requires WatchRunAllowed(w, ops) && (key == "" || key == k) && startRev <= |w.store.history|
    requires Lookup(view, k) == Answer(w.store.history, k, startRev)
    ensures var w' := WatchRun(w, ops);
      && id in w'.subs && w'.subs[id].stream in w'.store.streams && startRev <= w'.store.Head()
      && (AtRest(w', id) ==>
            (Visible(Lookup(Fold(view, w'.subs[id].delivered), k))
               == Visible(Answer(w'.store.history, k, w'.store.Head()))
             <==> !Missed(w'.store.history, w'.store.streams[w'.subs[id].stream], startRev, entries, f, k)))
  {
    hide WatchInv, MovedWatch, WatchAllowed, WatchStep, Idle, Missed, Visible, Fold, Answer;
    MovedRun(w, ops, id, entries, f);
    RunHistoryGrows(w, ops);
    KnownThen(w.store.history, WatchRun(w, ops).store.history, k, startRev);
    if AtRest(WatchRun(w, ops), id) {
      RestConverges(WatchRun(w, ops), id, entries, f, view, k);
    }
  }

  /** Both ways of getting such a watch: from below the log, and by a write landing
      between reading the head and opening the stream. */
  lemma MovedWatchesOpen(w: WatchState, key: Key, startRev: nat, entries: seq<Event>)
    requires WatchInv(w) && |w.store.log| > 0
    ensures WatchAllowed(w, OpWatch(key, startRev, entries)) && w.store.logSize > 0
            && startRev + 1 < w.store.logStart && Watch(w, key, startRev, entries).1.Ok? ==>
      OpenedFor(Watch(w, key, startRev, entries).0, w.nextID + 1, key, startRev, entries,
                if w.store.logSize == |w.store.log| then w.store.logStart else w.store.logStart - 1)
    ensures WatchAllowed(w, OpWatchLate(key, startRev, entries)) ==>
      OpenedFor(WatchLate(w, key, startRev, entries).0, w.nextID + 1, key, startRev, entries, w.store.Head())
  {
    hide WatchInv, MovedWatch, WatchAllowed, Open;
    if WatchAllowed(w, OpWatch(key, startRev, entries)) && w.store.logSize > 0
       && startRev + 1 < w.store.logStart && Watch(w, key, startRev, entries).1.Ok? {
      WatchOpensMoved(w, key, startRev, entries);
    }
    if WatchAllowed(w, OpWatchLate(key, startRev, entries)) {
      WatchOpensLate(w, key, startRev, entries);
    }
  }
}
