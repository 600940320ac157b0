/** Sorting a bucket of times, and the median and percentiles read off it. */
module Percentiles {

  predicate Ascending(s: seq<int>) { forall i, j :: 0 <= i < j < |s| ==> s[i] <= s[j] }

  lemma NothingIn(m: multiset<int>)
    requires forall y :: y !in m
    ensures |m| == 0
  {
    var none: multiset<int> := multiset{};
    forall y ensures m[y] == none[y] { assert y !in m; }
    assert m == none;
  }

  method AnyOf(m: multiset<int>) returns (x: int)
    requires |m| > 0
    ensures x in m
  {
    if forall y :: y !in m { NothingIn(m); }
    x :| x in m;
  }

  method Smallest(m: multiset<int>) returns (x: int)
    requires |m| > 0
    ensures x in m && forall y :: y in m ==> x <= y
  {
    x := AnyOf(m);
    var rest := m;
    while |rest| > 0
      invariant x in m && rest <= m
      invariant forall y :: y in m ==> x <= y || y in rest
      decreases |rest|
    {
      var y := AnyOf(rest);
      if y < x { x := y; }
      rest := rest[y := 0];
    }
  }

  method Sorted(m: multiset<int>) returns (s: seq<int>)
    ensures multiset(s) == m && Ascending(s)
  {
    s := [];
    var rest := m;
    while |rest| > 0
      invariant multiset(s) + rest == m && Ascending(s)
      invariant forall x, y :: x in s && y in rest ==> x <= y
      decreases |rest|
    {
      var x := Smallest(rest);
      assert forall i :: 0 <= i < |s| ==> s[i] in s;
      s := s + [x];
      rest := rest - multiset{x};
    }
  }

  lemma Share(w: real, n: real)
    requires 0.0 <= w <= 1.0 && 0.0 <= n
    ensures 0.0 <= w * n <= n
  {}

  /** The position `pct` percent of the way from the first value to the last. */
  function At(n: nat, pct: real): (at: real)
    requires n > 0 && 0.0 <= pct <= 100.0
    ensures 0.0 <= at <= (n - 1) as real
  {
    var w, last := pct / 100.0, (n - 1) as real;
    Share(w, last);
    w * last
  }

  function Position(n: nat, pct: real): (lo: nat)
    requires n > 0 && 0.0 <= pct <= 100.0
    ensures lo < n && lo as real <= At(n, pct) < lo as real + 1.0
  {
    At(n, pct).Floor
  }

  function Neighbour(n: nat, lo: nat): (hi: nat)
    requires lo < n
    ensures lo <= hi < n
  {
    if lo + 1 < n then lo + 1 else n - 1
  }

  /** Linear interpolation between the two values around that position. */
  function Percentile(s: seq<int>, pct: real): real
    requires s != [] && 0.0 <= pct <= 100.0
  {
    var lo := Position(|s|, pct);
    s[lo] as real + (s[Neighbour(|s|, lo)] - s[lo]) as real * (At(|s|, pct) - lo as real)
  }

  lemma Between(a: int, b: int, w: real)
    requires a <= b && 0.0 <= w <= 1.0
    ensures a as real <= a as real + (b - a) as real * w <= b as real
  {}

  /** A percentile lies between two neighbouring values. */
  lemma PercentileBetweenNeighbours(s: seq<int>, pct: real)
    requires s != [] && Ascending(s) && 0.0 <= pct <= 100.0
    ensures var lo := Position(|s|, pct);
            s[lo] as real <= Percentile(s, pct) <= s[Neighbour(|s|, lo)] as real
  {
    var lo := Position(|s|, pct);
    Between(s[lo], s[Neighbour(|s|, lo)], At(|s|, pct) - lo as real);
  }

  /** The middle value, or the mean of the two middle ones. */
  function Median(s: seq<int>): real
    requires s != []
  {
    if |s| % 2 == 1 then s[|s| / 2] as real else (s[|s| / 2 - 1] + s[|s| / 2]) as real / 2.0
  }

  /** The fiftieth percentile is the median. */
  lemma FiftiethIsMedian(s: seq<int>)
    requires s != []
    ensures Percentile(s, 50.0) == Median(s)
  {
    var at := At(|s|, 50.0);
    assert at == (|s| - 1) as real / 2.0;
    var lo := Position(|s|, 50.0);
    if |s| % 2 == 1 {
      assert at == (|s| / 2) as real;
      assert lo == |s| / 2;
    } else {
      assert at == (|s| / 2 - 1) as real + 0.5;
      assert lo == |s| / 2 - 1 && Neighbour(|s|, lo) == |s| / 2;
    }
  }
}
