/** The text under which a lock's state is kept in the store: holder, lease and
    numeric state, separated by NUL bytes. */
module LockCodec {
  import opened Model
  import opened Decimal

  const NUL: char := '\0'

  datatype LockRecord = LockRecord(holder: string, lease: string, state: nat)

  predicate NulFree(s: string) {
    NUL !in s
  }

  function Encode(r: LockRecord): string {
    r.holder + [NUL] + (r.lease + [NUL] + Digits(r.state))
  }

  /** Splits at the first NUL. */
  function Cut(s: string): (r: Option<(string, string)>)
    ensures r.Some? ==> s == r.value.0 + [NUL] + r.value.1 && NulFree(r.value.0)
  {
    if s == [] then None
    else if s[0] == NUL then Some(([], s[1..]))
    else
      match Cut(s[1..])
      case None => None
      case Some(parts) => Some(([s[0]] + parts.0, parts.1))
  }

  /** Three parts are needed and the third must parse; the number is then cut
      down to a byte. */
  function Decode(s: string): Option<LockRecord> {
    match Cut(s)
    case None => None
    case Some(first) =>
      match Cut(first.1)
      case None => None
      case Some(second) =>
        match Atoi(second.1)
        case None => None
        case Some(n) => Some(LockRecord(first.0, second.0, n % 256))
  }

  lemma {:induction false} CutAt(a: string, b: string)
    requires NulFree(a)
    ensures Cut(a + [NUL] + b) == Some((a, b))
  {
    var s := a + [NUL] + b;
    if a != [] {
      assert a[0] in a && s[1..] == a[1..] + [NUL] + b;
      CutAt(a[1..], b);
      assert [a[0]] + a[1..] == a;
    }
  }

  /** The text of a record up to its first separator is the holder, up to the second
      the lease, and the rest is the numeric state in decimal. */
  lemma RecordParts(r: LockRecord)
    requires NulFree(r.holder) && NulFree(r.lease)
    ensures Cut(Encode(r)).Some? && Cut(Encode(r)).value.0 == r.holder
    ensures Cut(Cut(Encode(r)).value.1) == Some((r.lease, Digits(r.state)))
  {
    CutAt(r.holder, r.lease + [NUL] + Digits(r.state));
    CutAt(r.lease, Digits(r.state));
    assert r.lease + [NUL] + Digits(r.state) == r.lease + ([NUL] + Digits(r.state));
  }

  /** Reading back what was written gives the same record exactly when neither
      name contains the separator. */
  lemma RoundTrip(r: LockRecord)
    requires r.state < 256
    ensures Decode(Encode(r)) == Some(r) <==> NulFree(r.holder) && NulFree(r.lease)
  {
    if NulFree(r.holder) && NulFree(r.lease) {
      CutAt(r.holder, r.lease + [NUL] + Digits(r.state));
      CutAt(r.lease, Digits(r.state));
      AtoiOfDigits(r.state);
    }
  }
}
