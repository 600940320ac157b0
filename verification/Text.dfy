/** Text helpers: code-point order of strings and decimal rendering. */
module Text {

  /** Lexicographic order by code point, as strings compare in the source. */
  predicate Before(a: string, b: string) {
    b != [] && (a == [] || a[0] < b[0] || (a[0] == b[0] && Before(a[1..], b[1..])))
  }

  lemma {:induction false} BeforeTotal(a: string, b: string)
    ensures Before(a, b) || a == b || Before(b, a)
    ensures !(Before(a, b) && Before(b, a))
    ensures !Before(a, a)
  {
    if a != [] && b != [] && a[0] == b[0] {
      BeforeTotal(a[1..], b[1..]);
      assert a == [a[0]] + a[1..] && b == [b[0]] + b[1..];
    }
    if a != [] { BeforeTotal(a[1..], a[1..]); }
  }

  lemma {:induction false} BeforeTransitive(a: string, b: string, c: string)
    requires Before(a, b) && Before(b, c)
    ensures Before(a, c)
  {
    if a != [] && a[0] == b[0] && b[0] == c[0] {
      BeforeTransitive(a[1..], b[1..], c[1..]);
    }
  }

  /** Lexicographic order of pairs of strings. */
  predicate PairBefore(a: (string, string), b: (string, string)) {
    Before(a.0, b.0) || (a.0 == b.0 && Before(a.1, b.1))
  }

  lemma PairBeforeTotal(a: (string, string), b: (string, string))
    ensures PairBefore(a, b) || a == b || PairBefore(b, a)
    ensures !(PairBefore(a, b) && PairBefore(b, a))
    ensures !PairBefore(a, a)
  {
    BeforeTotal(a.0, b.0);
    BeforeTotal(a.1, b.1);
    BeforeTotal(a.0, a.0);
    BeforeTotal(a.1, a.1);
  }

  lemma PairBeforeTransitive(a: (string, string), b: (string, string), c: (string, string))
    requires PairBefore(a, b) && PairBefore(b, c)
    ensures PairBefore(a, c)
  {
    if Before(a.0, b.0) && Before(b.0, c.0) { BeforeTransitive(a.0, b.0, c.0); }
    if a.0 == b.0 == c.0 {
      BeforeTotal(a.0, a.0);
      BeforeTransitive(a.1, b.1, c.1);
    }
  }

  function Digit(d: nat): char
    requires d < 10
  {
    "0123456789"[d]
  }

  function NatToString(n: nat): (s: string)
    ensures s != []
  {
    if n < 10 then [Digit(n)] else NatToString(n / 10) + [Digit(n % 10)]
  }

  function IntToString(n: int): (s: string)
    ensures s != []
  {
    if n < 0 then "-" + NatToString(-n) else NatToString(n)
  }

  predicate IsDigit(c: char) { '0' <= c <= '9' }

  lemma {:induction false} DigitsOnly(n: nat)
    ensures forall i :: 0 <= i < |NatToString(n)| ==> IsDigit(NatToString(n)[i])
  {
    if n >= 10 { DigitsOnly(n / 10); }
  }

  /** Distinct numbers have distinct decimals. */
  lemma {:induction false} DecimalsDiffer(m: nat, n: nat)
    requires NatToString(m) == NatToString(n)
    ensures m == n
    decreases m
  {
    var s, t := NatToString(m), NatToString(n);
    assert (m >= 10 <==> |s| > 1) && (n >= 10 <==> |t| > 1);
    if m >= 10 && n >= 10 {
      assert s[..|s| - 1] == NatToString(m / 10) && t[..|t| - 1] == NatToString(n / 10);
      DecimalsDiffer(m / 10, n / 10);
      assert Digit(m % 10) == s[|s| - 1] == t[|t| - 1] == Digit(n % 10);
    }
  }

  lemma IntegersDiffer(a: int, b: int)
    requires IntToString(a) == IntToString(b)
    ensures a == b
  {
    DigitsOnly(if a < 0 then -a else a);
    DigitsOnly(if b < 0 then -b else b);
    assert (a < 0 <==> IntToString(a)[0] == '-') && (b < 0 <==> IntToString(b)[0] == '-');
    if a < 0 && b < 0 {
      assert NatToString(-a) == IntToString(a)[1..] && NatToString(-b) == IntToString(b)[1..];
      DecimalsDiffer(-a, -b);
    } else if a >= 0 && b >= 0 {
      DecimalsDiffer(a, b);
    }
  }

  lemma NoBarInInteger(n: int)
    ensures '|' !in IntToString(n)
  {
    DigitsOnly(if n < 0 then -n else n);
  }
}
