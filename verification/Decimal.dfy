/** Decimal text: the watcher's own integer formatting and the parsing rules of
    Go's strconv.Atoi. */
module Decimal {
  import opened Model

  function Digit(d: nat): char
    requires d < 10
  {
    ('0' as int + d) as char
  }

  function Digits(n: nat): (s: string)
    ensures s != []
  {
    if n < 10 then [Digit(n)] else Digits(n / 10) + [Digit(n % 10)]
  }

  predicate IsDigit(c: char) {
    '0' <= c <= '9'
  }

  predicate AllDigits(s: string) {
    forall i :: 0 <= i < |s| ==> IsDigit(s[i])
  }

  function ValueOf(s: string): nat
    requires AllDigits(s)
  {
    if s == [] then 0
    else
      assert IsDigit(s[|s| - 1]);
      ValueOf(s[..|s| - 1]) * 10 + (s[|s| - 1] as int - '0' as int)
  }

  const MAX_INT64: int := 0x7fff_ffff_ffff_ffff
  const MAX_UINT64: int := 0xffff_ffff_ffff_ffff

  /** An optional sign, then one or more digits, within the signed 64-bit range. */
  function Atoi(s: string): Option<int> {
    var signed := s != [] && (s[0] == '-' || s[0] == '+');
    var body := if signed then s[1..] else s;
    if body == [] || !AllDigits(body) then None
    else
      var n: int := if s[0] == '-' then -(ValueOf(body) as int) else ValueOf(body);
      if -MAX_INT64 - 1 <= n <= MAX_INT64 then Some(n) else None
  }

  lemma {:induction false} DigitsParse(n: nat)
    ensures AllDigits(Digits(n)) && ValueOf(Digits(n)) == n
  {
    if n >= 10 {
      DigitsParse(n / 10);
      assert Digits(n)[..|Digits(n)| - 1] == Digits(n / 10);
    } else {
      assert Digits(n)[..0] == [];
    }
  }

  /** Formatting then parsing gives the number back. */
  lemma AtoiOfDigits(n: nat)
    requires n <= MAX_INT64
    ensures Atoi(Digits(n)) == Some(n)
  {
    DigitsParse(n);
    assert IsDigit(Digits(n)[0]);
  }

  lemma DigitsInjective(a: nat, b: nat)
    ensures Digits(a) == Digits(b) <==> a == b
  {
    DigitsParse(a);
    DigitsParse(b);
  }

  function Pow10(k: nat): nat {
    if k == 0 then 1 else 10 * Pow10(k - 1)
  }

  lemma DivideTwice(n: nat, p: nat)
    requires 0 < p
    ensures n / 10 / p == n / (10 * p)
  {
    var a, b := n / 10 / p, n / 10 % p;
    assert n / 10 == p * a + b;
    assert n == (10 * p) * a + (10 * b + n % 10);
    QuotientIs(n, 10 * p, a, 10 * b + n % 10);
  }

  lemma QuotientIs(n: nat, d: nat, a: nat, r: nat)
    requires n == d * a + r && r < d
    ensures n / d == a
  {
    var m: int, e: int := d, n / d - a;
    assert m * (n / d) + n % d == n;
    assert m * e == r - n % d;
    assert e >= 1 ==> m * e >= m;
    assert e <= -1 ==> m * e <= 0 - m;
  }

  /** The i-th digit from the right is the one that counts the powers of ten. */
  lemma {:induction false} DigitAt(n: nat, i: nat)
    requires i < |Digits(n)|
    ensures 0 < Pow10(i) && Digits(n)[|Digits(n)| - 1 - i] == "0123456789"[n / Pow10(i) % 10]
  {
    if i > 0 {
      DigitAt(n / 10, i - 1);
      DivideTwice(n, Pow10(i - 1));
    }
  }

  lemma {:induction false} DigitsBound(n: nat, k: nat)
    requires 0 < k && n < Pow10(k)
    ensures |Digits(n)| <= k
  {
    if n >= 10 {
      DigitsBound(n / 10, k - 1);
    }
  }

  /** Twenty digits are enough for every unsigned 64-bit number. */
  lemma TwentyDigits(n: nat)
    requires n <= MAX_UINT64
    ensures |Digits(n)| <= 20
  {
    assert Pow10(5) == 100000;
    assert Pow10(10) == 100000 * 100000;
    assert Pow10(15) == 100000 * 100000 * 100000;
    assert Pow10(20) == 100000 * 100000 * 100000 * 100000;
    DigitsBound(n, 20);
  }

  /** Fills a 20-byte buffer from its end; never runs out of room. */
  method Itoa(v: nat) returns (s: string)
    requires v <= MAX_UINT64
    ensures s == Digits(v)
  {
    if v == 0 {
      return "0";
    }
    TwentyDigits(v);
    var buf := new char[20];
    var i, rest := 20, v;
    while rest > 0
      invariant 0 <= i <= 20 && 0 <= rest
      invariant rest > 0 ==> Digits(v) == Digits(rest) + buf[i..] && |Digits(rest)| <= i
      invariant rest == 0 ==> Digits(v) == buf[i..]
      decreases rest
    {
      ghost var tail := buf[i..];
      i := i - 1;
      buf[i] := ('0' as int + rest % 10) as char;
      assert buf[i..] == [buf[i]] + tail;
      rest := rest / 10;
    }
    return buf[i..];
  }
}
