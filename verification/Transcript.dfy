/** What a client is sent of one key over several connections, each of which serves
    it again from a cursor. */
module Transcript {
  import opened Model
  import opened History
  import opened WatchSpec

  /** A watch that served the client from a cursor, and what it delivered. */
  datatype Connection = Connection(from: nat, delivered: seq<Event>)

  /** All deliveries, connection after connection. */
  function Flat(conns: seq<Connection>): seq<Event> {
    if conns == [] then [] else Flat(conns[..|conns| - 1]) + conns[|conns| - 1].delivered
  }

  predicate NoRepeat(evs: seq<Event>) {
    forall i, j :: 0 <= i < j < |evs| ==> evs[i] != evs[j]
  }

  /** Each connection delivered a piece of the matching history right after its
      cursor, and cursors only move forward. */
  ghost predicate Served(h: seq<Event>, key: Key, conns: seq<Connection>) {
    && (forall j :: 0 <= j < |conns| ==> conns[j].delivered <= Select(h, key, conns[j].from, |h|))
    && (forall i, j :: 0 <= i < j < |conns| ==> conns[i].from <= conns[j].from)
  }

  predicate Apart(a: seq<Event>, b: seq<Event>) {
    forall e :: e in a ==> e !in b
  }

  predicate AllBelow(evs: seq<Event>, rev: nat) {
    forall e :: e in evs ==> e.rev <= rev
  }

  /** The connection delivered nothing, or everything delivered before it had been
      acknowledged when it was made. */
  predicate Fresh(conns: seq<Connection>, j: nat)
    requires j < |conns|
  {
    conns[j].delivered == [] || AllBelow(Flat(conns[..j]), conns[j].from)
  }

  // ---------- selections ----------

  predicate Rising(evs: seq<Event>) {
    forall i, j :: 0 <= i < j < |evs| ==> evs[i].rev < evs[j].rev
  }

  /** What is selected: the events after `a` up to `b` of that key, or of any key if
      none is given. */
  lemma {:induction false} SelectIn(h: seq<Event>, key: Key, a: nat, b: nat, e: Event)
    ensures e in Select(h, key, a, b) <==> e in h && a < e.rev <= b && (key == "" || e.key == key)
  {
    if h != [] {
      SelectIn(h[..|h| - 1], key, a, b, e);
      assert h == h[..|h| - 1] + [h[|h| - 1]];
    }
  }

  lemma {:induction false} SelectRises(h: seq<Event>, key: Key, a: nat, b: nat)
    requires WellFormed(h)
    ensures Rising(Select(h, key, a, b))
  {
    if h != [] {
      SelectRises(h[..|h| - 1], key, a, b);
      SelectRevs(h[..|h| - 1], key, a, b);
    }
  }

  lemma PrefixIn(d: seq<Event>, all: seq<Event>, e: Event)
    requires d <= all && Rising(all)
    ensures Rising(d) && (e in d ==> d != [])
    ensures d != [] ==> (e in d <==> e in all && e.rev <= d[|d| - 1].rev)
  {
    assert forall i :: 0 <= i < |d| ==> d[i] == all[i];
    if d != [] && e in all && e.rev <= d[|d| - 1].rev {
      var i :| 0 <= i < |all| && all[i] == e;
      assert i < |d| && d[i] == e;
    }
  }

  /** A connection has delivered every matching event from its cursor up to its last
      delivery. */
  lemma DeliveredExactly(h: seq<Event>, key: Key, c: Connection, e: Event)
    requires WellFormed(h) && c.delivered <= Select(h, key, c.from, |h|)
    ensures Rising(c.delivered)
    ensures e in c.delivered <==>
      && e in h && (key == "" || e.key == key) && c.from < e.rev
      && c.delivered != [] && e.rev <= c.delivered[|c.delivered| - 1].rev
  {
    SelectRises(h, key, c.from, |h|);
    SelectIn(h, key, c.from, |h|, e);
    InHistory(h, e);
    hide Select, Rising, WellFormed;
    PrefixIn(c.delivered, Select(h, key, c.from, |h|), e);
  }

  lemma InHistory(h: seq<Event>, e: Event)
    requires WellFormed(h)
    ensures e in h ==> e.rev <= |h|
  {
  }

  lemma {:induction false} FlatFrom(conns: seq<Connection>, e: Event) returns (i: nat)
    requires e in Flat(conns)
    ensures i < |conns| && e in conns[i].delivered
  {
    var last := |conns| - 1;
    if e in conns[last].delivered {
      return last;
    }
    i := FlatFrom(conns[..last], e);
  }

  lemma {:induction false} FlatHas(conns: seq<Connection>, i: nat, e: Event)
    requires i < |conns| && e in conns[i].delivered
    ensures e in Flat(conns)
  {
    if i < |conns| - 1 {
      FlatHas(conns[..|conns| - 1], i, e);
    }
  }

  // ---------- repeats ----------

  /** Of everything delivered before, a connection delivers again exactly what lies
      above its cursor, as far as it has got. */
  lemma RepeatsAreAboveCursor(h: seq<Event>, key: Key, conns: seq<Connection>, e: Event)
    requires WellFormed(h) && conns != [] && Served(h, key, conns)
    requires e in Flat(conns[..|conns| - 1])
    ensures var last := conns[|conns| - 1];
      e in last.delivered <==>
        last.from < e.rev && last.delivered != [] && e.rev <= last.delivered[|last.delivered| - 1].rev
  {
    var i := FlatFrom(conns[..|conns| - 1], e);
    DeliveredExactly(h, key, conns[i], e);
    DeliveredExactly(h, key, conns[|conns| - 1], e);
  }

  /** A connection repeats nothing exactly when it is fresh. */
  lemma NothingAgain(h: seq<Event>, key: Key, conns: seq<Connection>)
    requires WellFormed(h) && conns != [] && Served(h, key, conns)
    ensures Apart(Flat(conns[..|conns| - 1]), conns[|conns| - 1].delivered) <==> Fresh(conns, |conns| - 1)
  {
    var most, last := conns[..|conns| - 1], conns[|conns| - 1];
    forall e | e in Flat(most) && e.rev <= last.from
      ensures e !in last.delivered
    {
      RepeatsAreAboveCursor(h, key, conns, e);
    }
    if !Fresh(conns, |conns| - 1) {
      var u :| u in Flat(most) && u.rev > last.from;
      RepeatsAreAboveCursor(h, key, conns, u);
      if u !in last.delivered {
        var first := last.delivered[0];
        var i := FlatFrom(most, u);
        DeliveredExactly(h, key, last, first);
        DeliveredExactly(h, key, conns[i], first);
        DeliveredExactly(h, key, conns[i], u);
        FlatHas(most, i, first);
      }
    }
  }

  lemma NoRepeatSplit(a: seq<Event>, b: seq<Event>)
    ensures NoRepeat(a + b) <==> NoRepeat(a) && NoRepeat(b) && Apart(a, b)
  {
    var c := a + b;
    assert forall i :: 0 <= i < |a| ==> c[i] == a[i];
    assert forall i :: 0 <= i < |b| ==> c[|a| + i] == b[i];
    if !NoRepeat(a) {
      var i, j :| 0 <= i < j < |a| && a[i] == a[j];
      assert c[i] == c[j];
    } else if !NoRepeat(b) {
      var i, j :| 0 <= i < j < |b| && b[i] == b[j];
      assert c[|a| + i] == c[|a| + j];
    } else if !Apart(a, b) {
      var e :| e in a && e in b;
      var i :| 0 <= i < |a| && a[i] == e;
      var j :| 0 <= j < |b| && b[j] == e;
      assert c[i] == c[|a| + j];
    } else {
      forall i, j | 0 <= i < j < |c|
        ensures c[i] != c[j]
      {
        if j < |a| {
          assert a[i] != a[j];
        } else if i < |a| {
          assert a[i] in a && b[j - |a|] in b;
        } else {
          assert b[i - |a|] != b[j - |a|];
        }
      }
    }
  }

  /** The transcript has no repeat if and only if every connection is fresh. */
  lemma {:induction false} NoRepeatExact(h: seq<Event>, key: Key, conns: seq<Connection>)
    requires WellFormed(h) && Served(h, key, conns)
    ensures NoRepeat(Flat(conns)) <==> forall j :: 0 <= j < |conns| ==> Fresh(conns, j)
  {
    if conns != [] {
      var n := |conns| - 1;
      NoRepeatExact(h, key, conns[..n]);
      NothingAgain(h, key, conns);
      NoRepeatSplit(Flat(conns[..n]), conns[n].delivered);
      if conns[n].delivered != [] {
        DeliveredExactly(h, key, conns[n], conns[n].delivered[0]);
      }
      forall j | 0 <= j < n
        ensures Fresh(conns[..n], j) <==> Fresh(conns, j)
      {
        assert conns[..n][..j] == conns[..j];
      }
    }
  }

  /** Everything the client has been sent, over all connections: whatever a
      connection repeats of the earlier ones lies above its cursor, everything above
      its cursor is repeated as far as it has got, and there is no repeat at all
      exactly when every connection that delivered anything found all earlier
      deliveries acknowledged. */
  ghost predicate TranscriptExact(conns: seq<Connection>) {
    && (NoRepeat(Flat(conns)) <==> forall j :: 0 <= j < |conns| ==> Fresh(conns, j))
    && forall j, e :: 0 <= j < |conns| && e in Flat(conns[..j]) ==>
         (e in conns[j].delivered <==> RepeatDue(conns[j], e))
  }

  predicate RepeatDue(c: Connection, e: Event) {
    c.from < e.rev && c.delivered != [] && e.rev <= c.delivered[|c.delivered| - 1].rev
  }

  lemma TranscriptIsExact(h: seq<Event>, key: Key, conns: seq<Connection>)
    requires WellFormed(h) && Served(h, key, conns)
    ensures TranscriptExact(conns)
  {
    NoRepeatExact(h, key, conns);
    hide WellFormed, Served, NoRepeat, Fresh, RepeatDue;
    forall j, e | 0 <= j < |conns| && e in Flat(conns[..j])
      ensures e in conns[j].delivered <==> RepeatDue(conns[j], e)
    {
      RepeatsAt(h, key, conns, j, e);
    }
  }

  lemma RepeatsAt(h: seq<Event>, key: Key, conns: seq<Connection>, j: nat, e: Event)
    requires WellFormed(h) && Served(h, key, conns) && j < |conns| && e in Flat(conns[..j])
    ensures e in conns[j].delivered <==> RepeatDue(conns[j], e)
  {
    assert conns[..j + 1][..j] == conns[..j];
    RepeatsAreAboveCursor(h, key, conns[..j + 1], e);
  }
}
