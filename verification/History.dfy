/** The ideal, unbounded change history: event number r is the write that was
    given revision r. Every store structure is specified against it. */
module History {
  import opened Model

  predicate WellFormed(h: seq<Event>) {
    forall i :: 0 <= i < |h| ==>
      && h[i].rev == i + 1
      && h[i].kind != Unset
      && (h[i].kind == Delete <==> h[i].value == Nil)
  }

  /** The revision of the newest write of `k` at or below revision `q`, or 0. */
  function LatestRev(h: seq<Event>, k: Key, q: nat): (r: nat)
    requires q <= |h|
    ensures r <= q
    ensures r > 0 ==> h[r - 1].key == k
    ensures forall i :: r <= i < q ==> h[i].key != k
  {
    if q == 0 then 0 else if h[q - 1].key == k then q else LatestRev(h, k, q - 1)
  }

  /** What an ideal store with unlimited memory answers for `k` at revision `q`. */
  function Answer(h: seq<Event>, k: Key, q: nat): Option<Version>
    requires q <= |h|
  {
    var r := LatestRev(h, k, q);
    if r == 0 then None else Some(VersionOf(h[r - 1]))
  }

  /** All versions of `k` with a revision in lo..n, oldest first. */
  function Versions(h: seq<Event>, k: Key, lo: nat, n: nat): (vs: seq<Version>)
    requires n <= |h|
  {
    if n == 0 then []
    else Versions(h, k, lo, n - 1)
         + (if h[n - 1].key == k && lo <= n then [VersionOf(h[n - 1])] else [])
  }

  predicate Sorted(vs: seq<Version>) {
    forall i, j :: 0 <= i < j < |vs| ==> vs[i].rev < vs[j].rev
  }

  // ---------- extending the history ----------

  lemma {:induction false} LatestRevExtend(h: seq<Event>, h': seq<Event>, k: Key, q: nat)
    requires q <= |h| && h <= h'
    ensures LatestRev(h', k, q) == LatestRev(h, k, q)
  {
    if q > 0 && h[q - 1].key != k {
      LatestRevExtend(h, h', k, q - 1);
    }
  }

  lemma {:induction false} LatestRevMonotone(h: seq<Event>, k: Key, q: nat, q': nat)
    requires q <= q' <= |h|
    ensures LatestRev(h, k, q) <= LatestRev(h, k, q')
    ensures LatestRev(h, k, q') <= q ==> LatestRev(h, k, q') == LatestRev(h, k, q)
  {
    var r, r' := LatestRev(h, k, q), LatestRev(h, k, q');
    assert r > 0 ==> h[r - 1].key == k;
    assert r' > 0 ==> h[r' - 1].key == k;
  }

  lemma {:induction false} VersionsExtend(h: seq<Event>, h': seq<Event>, k: Key, lo: nat, n: nat)
    requires n <= |h| && h <= h'
    ensures Versions(h', k, lo, n) == Versions(h, k, lo, n)
  {
    if n > 0 {
      VersionsExtend(h, h', k, lo, n - 1);
    }
  }

  // ---------- shape of a version list ----------

  lemma {:induction false} VersionsShape(h: seq<Event>, k: Key, lo: nat, n: nat)
    requires WellFormed(h) && n <= |h|
    ensures var vs := Versions(h, k, lo, n);
            && Sorted(vs)
            && forall i :: 0 <= i < |vs| ==>
                 lo <= vs[i].rev <= n && 0 < vs[i].rev && h[vs[i].rev - 1].key == k
                 && vs[i] == VersionOf(h[vs[i].rev - 1])
  {
    if n > 0 {
      VersionsShape(h, k, lo, n - 1);
    }
  }

  /** The last listed version is the newest write, unless that lies below `lo`. */
  lemma {:induction false} VersionsLast(h: seq<Event>, k: Key, lo: nat, n: nat)
    requires WellFormed(h) && n <= |h|
    ensures var vs := Versions(h, k, lo, n); var r := LatestRev(h, k, n);
            && (vs == [] <==> r == 0 || r < lo)
            && (vs != [] ==> vs[|vs| - 1] == VersionOf(h[r - 1]))
  {
    if n > 0 {
      VersionsLast(h, k, lo, n - 1);
    }
  }

  lemma {:induction false} VersionsSplit(h: seq<Event>, k: Key, lo: nat, q: nat, n: nat)
    requires q <= n <= |h| && lo <= q + 1
    ensures Versions(h, k, lo, n) == Versions(h, k, lo, q) + Versions(h, k, q + 1, n)
  {
    if n == q {
      VersionsAbove(h, k, q + 1, q);
    } else {
      VersionsSplit(h, k, lo, q, n - 1);
    }
  }

  lemma {:induction false} VersionsAbove(h: seq<Event>, k: Key, lo: nat, n: nat)
    requires n <= |h| && n < lo
    ensures Versions(h, k, lo, n) == []
  {
    if n > 0 {
      VersionsAbove(h, k, lo, n - 1);
    }
  }

  /** A suffix of a version list is again a version list with a higher lower bound. */
  lemma {:induction false} VersionsSuffix(h: seq<Event>, k: Key, lo: nat, n: nat, c: nat)
    requires WellFormed(h) && n <= |h|
    requires c < |Versions(h, k, lo, n)|
    ensures var vs := Versions(h, k, lo, n); vs[c..] == Versions(h, k, vs[c].rev, n)
  {
    var vs := Versions(h, k, lo, n);
    VersionsShape(h, k, lo, n);
    if c == |vs| - 1 && h[n - 1].key == k && lo <= n {
      VersionsAbove(h, k, n, n - 1);
    } else {
      VersionsShape(h, k, lo, n - 1);
      VersionsSuffix(h, k, lo, n - 1, c);
    }
  }
}
