/** Statistics over a list of era reward points: sum, mean, minimum, maximum and median.
    Reward points are unsigned 32-bit values; the sum is accumulated in the same type, so
    a list whose sum reaches 2^32 makes `mean` overflow. */
module Stats {
  import opened Common
  import opened Text

  function Sum(s: seq<nat>): nat
    decreases |s|
  {
    if s == [] then 0 else s[0] + Sum(s[1..])
  }

  /** `mean`: zero for the empty list, otherwise the sum divided by the length. */
  function Mean(s: seq<nat>): (m: real)
    requires Sum(s) < U32_BOUND
    ensures |s| == 0 ==> m == 0.0
    ensures |s| > 0 ==> m * |s| as real == Sum(s) as real
  {
    if |s| == 0 then 0.0 else Sum(s) as real / |s| as real
  }

  /** `min`: zero for the empty list, otherwise an element no larger than any element. */
  function Min(s: seq<nat>): (m: nat)
    ensures |s| == 0 ==> m == 0
    ensures |s| > 0 ==> m in s && forall x :: x in s ==> m <= x
    decreases |s|
  {
    if |s| == 0 then 0
    else if |s| == 1 then s[0]
    else
      var rest := Min(s[1..]);
      assert forall x :: x in s ==> x == s[0] || x in s[1..];
      if s[0] <= rest then s[0] else rest
  }

  /** `max`: zero for the empty list, otherwise an element no smaller than any element. */
  function Max(s: seq<nat>): (m: nat)
    ensures |s| == 0 ==> m == 0
    ensures |s| > 0 ==> m in s && forall x :: x in s ==> x <= m
    decreases |s|
  {
    if |s| == 0 then 0
    else if |s| == 1 then s[0]
    else
      var rest := Max(s[1..]);
      assert forall x :: x in s ==> x == s[0] || x in s[1..];
      if s[0] >= rest then s[0] else rest
  }

  predicate Sorted(s: seq<nat>) {
    forall i, j :: 0 <= i < j < |s| ==> s[i] <= s[j]
  }

  /** `x` inserted into a sorted list before the first larger element. */
  function Insert(x: nat, t: seq<nat>): (r: seq<nat>)
    requires Sorted(t)
    ensures |r| == |t| + 1
    ensures Sorted(r) && multiset(r) == multiset(t) + multiset{x}
    decreases |t|
  {
    if t == [] || x <= t[0] then
      [x] + t
    else
      var rest := Insert(x, t[1..]);
      InsertHead(x, t, rest);
      [t[0]] + rest
  }

  lemma InsertHead(x: nat, t: seq<nat>, rest: seq<nat>)
    requires t != [] && t[0] < x && Sorted(t)
    requires Sorted(rest) && multiset(rest) == multiset(t[1..]) + multiset{x}
    ensures Sorted([t[0]] + rest)
    ensures multiset([t[0]] + rest) == multiset(t) + multiset{x}
  {
    assert t == [t[0]] + t[1..];
    forall y | y in rest
      ensures t[0] <= y
    {
      assert y in multiset(rest);
    }
    var r := [t[0]] + rest;
    forall i, j | 0 <= i < j < |r|
      ensures r[i] <= r[j]
    {
      assert r[j] == rest[j - 1] && rest[j - 1] in rest;
      if i > 0 {
        assert r[i] == rest[i - 1];
      }
    }
  }

  /** The list in ascending order (what `Vec::sort` leaves behind). */
  function SortSeq(s: seq<nat>): (r: seq<nat>)
    ensures |r| == |s|
    ensures Sorted(r) && multiset(r) == multiset(s)
    decreases |s|
  {
    if s == [] then []
    else
      assert s == [s[0]] + s[1..];
      Insert(s[0], SortSeq(s[1..]))
  }

  /** The value `median` returns: zero for the empty list, otherwise the element at index
      len/2 of the sorted list (the upper of the two middle elements for an even length). */
  function MedianOf(s: seq<nat>): nat {
    if |s| == 0 then 0 else SortSeq(s)[|s| / 2]
  }

  /** Two sorted lists holding the same elements are the same list, so the median does not
      depend on how the list was sorted. */
  lemma {:induction false} SortedUnique(a: seq<nat>, b: seq<nat>)
    requires Sorted(a) && Sorted(b) && multiset(a) == multiset(b)
    ensures a == b
    decreases |a|
  {
    assert |a| == |multiset(a)| == |b|;
    if a != [] {
      SortedHeadBelow(a, b[0]);
      SortedHeadBelow(b, a[0]);
      assert a[0] == b[0];
      SortedTail(a);
      SortedTail(b);
      MultisetCancel(multiset(a[1..]), multiset(b[1..]), a[0]);
      SortedUnique(a[1..], b[1..]);
      assert a == [a[0]] + a[1..] && b == [b[0]] + b[1..];
    }
  }

  /** The head of a sorted list is no larger than any of its elements. */
  lemma SortedHeadBelow(a: seq<nat>, x: nat)
    requires Sorted(a) && x in multiset(a)
    ensures a[0] <= x
  {
    var i :| 0 <= i < |a| && a[i] == x;
    if i > 0 {
      assert a[0] <= a[i];
    }
  }

  /** The tail of a sorted list is sorted and holds the other elements. */
  lemma SortedTail(a: seq<nat>)
    requires Sorted(a) && a != []
    ensures Sorted(a[1..]) && multiset(a) == multiset(a[1..]) + multiset{a[0]}
  {
    assert a == [a[0]] + a[1..];
  }

  lemma MultisetCancel(x: multiset<nat>, y: multiset<nat>, c: nat)
    requires x + multiset{c} == y + multiset{c}
    ensures x == y
  {
    assert x == (x + multiset{c}) - multiset{c};
  }

  /** Sorts the array in place by insertion with adjacent swaps. */
  method SortInPlace(a: array<nat>)
    modifies a
    ensures Sorted(a[..]) && multiset(a[..]) == multiset(old(a[..]))
  {
    var i := 0;
    while i < a.Length
      invariant 0 <= i <= a.Length
      invariant Sorted(a[..i])
      invariant multiset(a[..]) == multiset(old(a[..]))
    {
      InsertInPlace(a, i);
      i := i + 1;
    }
    assert a[..a.Length] == a[..];
  }

  /** Moves `a[i]` down past the larger elements of the sorted prefix `a[..i]`. */
  method InsertInPlace(a: array<nat>, i: nat)
    requires i < a.Length && Sorted(a[..i])
    modifies a
    ensures Sorted(a[..i + 1]) && multiset(a[..]) == multiset(old(a[..]))
  {
    assert forall k, l :: 0 <= k < l < i ==> a[..i][k] <= a[..i][l];
    var j := i;
    while j > 0 && a[j - 1] > a[j]
      invariant 0 <= j <= i
      invariant forall k, l :: 0 <= k < l <= i && l != j ==> a[k] <= a[l]
      invariant forall l :: j < l <= i ==> a[j] <= a[l]
      invariant multiset(a[..]) == multiset(old(a[..]))
    {
      a[j - 1], a[j] := a[j], a[j - 1];
      j := j - 1;
    }
  }

  /** `median`: sorts the list in place and returns its element at index len/2, or zero
      for the empty list. */
  method Median(a: array<nat>) returns (m: nat)
    modifies a
    ensures Sorted(a[..]) && multiset(a[..]) == multiset(old(a[..]))
    ensures m == MedianOf(old(a[..]))
  {
    if a.Length == 0 {
      return 0;
    }
    SortInPlace(a);
    SortedUnique(a[..], SortSeq(old(a[..])));
    m := a[a.Length / 2];
  }

  lemma {:induction false} SumAtLeast(s: seq<nat>, lo: nat)
    requires forall x :: x in s ==> lo <= x
    ensures |s| * lo <= Sum(s)
    decreases |s|
  {
    if s != [] {
      assert s[0] in s;
      assert forall x :: x in s[1..] ==> x in s;
      SumAtLeast(s[1..], lo);
      assert Sum(s) == s[0] + Sum(s[1..]);
      assert |s| * lo == (|s| - 1) * lo + lo;
    }
  }

  lemma {:induction false} SumAtMost(s: seq<nat>, hi: nat)
    requires forall x :: x in s ==> x <= hi
    ensures Sum(s) <= |s| * hi
    decreases |s|
  {
    if s != [] {
      assert s[0] in s;
      assert forall x :: x in s[1..] ==> x in s;
      SumAtMost(s[1..], hi);
      assert Sum(s) == s[0] + Sum(s[1..]);
      assert |s| * hi == (|s| - 1) * hi + hi;
    }
  }

  /** The mean of a non-empty list lies between its minimum and its maximum. */
  lemma MeanBetweenMinAndMax(s: seq<nat>)
    requires |s| > 0 && Sum(s) < U32_BOUND
    ensures Min(s) as real <= Mean(s) <= Max(s) as real
  {
    var lo, hi, total := Min(s), Max(s), Sum(s);
    SumAtLeast(s, lo);
    SumAtMost(s, hi);
    RealBounds(|s|, lo, total, hi);
  }

  lemma RealBounds(n: nat, lo: nat, total: nat, hi: nat)
    requires n > 0 && n * lo <= total <= n * hi
    ensures lo as real <= total as real / n as real <= hi as real
  {
    CastProduct(n, lo);
    CastProduct(n, hi);
    DivideBounds(lo as real, total as real, hi as real, n as real);
  }

  lemma DivideBounds(lo: real, total: real, hi: real, n: real)
    requires n > 0.0 && lo * n <= total <= hi * n
    ensures lo <= total / n <= hi
  {
  }

  lemma CastProduct(a: nat, b: nat)
    ensures (a * b) as real == a as real * b as real
  {
  }

  /** The median of a non-empty list is one of its elements, so it lies between the minimum
      and the maximum. */
  lemma MedianBetweenMinAndMax(s: seq<nat>)
    requires |s| > 0
    ensures MedianOf(s) in s
    ensures Min(s) <= MedianOf(s) <= Max(s)
  {
    var t := SortSeq(s);
    assert |t| == |multiset(t)| == |s|;
    assert t[|s| / 2] in multiset(s);
  }

  /** The unit-test list [1,2,3,4,5,4,2,6] has mean 3.375. */
  lemma TestMean()
    ensures Sum([1, 2, 3, 4, 5, 4, 2, 6]) == 27
    ensures Mean([1, 2, 3, 4, 5, 4, 2, 6]) == 3.375
  {
    var s: seq<nat> := [1, 2, 3, 4, 5, 4, 2, 6];
    assert s[1..] == [2, 3, 4, 5, 4, 2, 6];
    assert s[1..][1..] == [3, 4, 5, 4, 2, 6];
    assert Sum([3, 4, 5, 4, 2, 6]) == 24;
  }

  /** The median is read off any sorted arrangement of the list. */
  lemma MedianOfSorted(s: seq<nat>, t: seq<nat>)
    requires |t| > 0 && Sorted(t) && multiset(t) == multiset(s)
    ensures |t| == |s| && MedianOf(s) == t[|t| / 2]
  {
    assert |t| == |multiset(t)| == |s|;
    SortedUnique(t, SortSeq(s));
  }

  /** Any arrangement of the unit-test list [1,2,3,4,5,4,2,6] sorts to [1,2,2,3,4,4,5,6],
      whose element at index 8/2 is 4: the median is 4. */
  lemma TestMedian(s: seq<nat>)
    requires multiset(s) == multiset([1, 2, 3, 4, 5, 4, 2, 6])
    ensures MedianOf(s) == 4
  {
    var sorted: seq<nat> := [1, 2, 2, 3, 4, 4, 5, 6];
    TestListSorts();
    MedianOfSorted(s, sorted);
    assert sorted[|sorted| / 2] == 4;
  }

  lemma TestListSorts()
    ensures Sorted([1, 2, 2, 3, 4, 4, 5, 6])
    ensures multiset([1, 2, 2, 3, 4, 4, 5, 6]) == multiset([1, 2, 3, 4, 5, 4, 2, 6])
  {
    var t: seq<nat> := [6];
    SortedCons(5, t);
    t := [5] + t;
    SortedCons(4, t);
    t := [4] + t;
    SortedCons(4, t);
    t := [4] + t;
    SortedCons(3, t);
    t := [3] + t;
    SortedCons(2, t);
    t := [2] + t;
    SortedCons(2, t);
    t := [2] + t;
    SortedCons(1, t);
    t := [1] + t;
    assert t == [1, 2, 2, 3, 4, 4, 5, 6];
    TestListElements();
  }

  lemma TestListElements()
    ensures multiset([1, 2, 2, 3, 4, 4, 5, 6]) == multiset{1, 2, 2, 3, 4, 4, 5, 6}
    ensures multiset([1, 2, 3, 4, 5, 4, 2, 6]) == multiset{1, 2, 2, 3, 4, 4, 5, 6}
  {
  }

  /** A sorted list stays sorted with an element no larger than its head put in front. */
  lemma SortedCons(x: nat, t: seq<nat>)
    requires Sorted(t) && (t == [] || x <= t[0])
    ensures Sorted([x] + t)
  {
    var r := [x] + t;
    forall i, j | 0 <= i < j < |r|
      ensures r[i] <= r[j]
    {
      assert r[j] == t[j - 1];
      if i > 0 {
        assert r[i] == t[i - 1];
      }
    }
  }

  /** An element of the list no larger than any element is its minimum. */
  lemma MinIs(s: seq<nat>, lo: nat)
    requires lo in s && forall x :: x in s ==> lo <= x
    ensures Min(s) == lo
  {
  }

  /** An element of the list no smaller than any element is its maximum. */
  lemma MaxIs(s: seq<nat>, hi: nat)
    requires hi in s && forall x :: x in s ==> x <= hi
    ensures Max(s) == hi
  {
  }

  /** Any arrangement of the unit-test list [1,2,3,4,5,4,2,6] has minimum 1 and maximum 6. */
  lemma TestMinMax(s: seq<nat>)
    requires multiset(s) == multiset([1, 2, 3, 4, 5, 4, 2, 6])
    ensures Min(s) == 1 && Max(s) == 6
  {
    var m := multiset([1, 2, 3, 4, 5, 4, 2, 6]);
    assert 1 in m && 6 in m;
    assert forall x :: x in m ==> 1 <= x <= 6;
    assert forall x :: x in s ==> x in m;
    MinIs(s, 1);
    MaxIs(s, 6);
  }

  // ---------------------------------------------------------------------------------
  // The text a mean is stored as

  /** The first `k` decimal digits of the fraction r/d (0 <= r < d), cut after the last
      nonzero remainder. */
  function FractionDigits(r: nat, d: nat, k: nat): (s: string)
    requires r < d
    ensures AllDigits(s) && |s| <= k
    ensures r > 0 && k > 0 ==> |s| > 0
    decreases k
  {
    if r == 0 || k == 0 then ""
    else
      var (digit, rest) := LongDivision(r, d);
      [DigitChar(digit)] + FractionDigits(rest, d, k - 1)
  }

  /** One step of long division: the next digit of r/d and the remainder left after it. */
  function LongDivision(r: nat, d: nat): (p: (nat, nat))
    requires r < d
    ensures p.0 < 10 && p.1 < d
    ensures p.0 * d + p.1 == r * 10
  {
    var q, m := r * 10 / d, r * 10 % d;
    assert q * d + m == r * 10;
    (q, m)
  }

  /** `mean(..).to_string()`: the `f64` display of the mean. An integral mean prints as its
      integer, "0" for the empty list; any other prints its integer part, a point and
      the fraction, here cut after 16 digits. */
  function MeanText(s: seq<nat>): (t: string)
    ensures |s| == 0 ==> t == "0"
    ensures |s| > 0 && Sum(s) % |s| == 0 ==> t == NatToString(Sum(s) / |s|)
    ensures '.' in t <==> |s| > 0 && Sum(s) % |s| != 0
  {
    if |s| == 0 then NatToString(0)
    else
      var q, r := Sum(s) / |s|, Sum(s) % |s|;
      var whole := NatToString(q);
      assert '.' !in whole by {
        assert forall i :: 0 <= i < |whole| ==> IsDigit(whole[i]);
      }
      if r == 0 then whole
      else
        var fraction := FractionDigits(r, |s|, 16);
        assert '.' !in fraction by {
          assert forall i :: 0 <= i < |fraction| ==> IsDigit(fraction[i]);
        }
        whole + "." + fraction
  }

  /** A mean stored without a point is the exact mean: its text is the integer `Mean` is. */
  lemma MeanTextExact(s: seq<nat>)
    requires Sum(s) < U32_BOUND && '.' !in MeanText(s)
    ensures MeanText(s) == NatToString(Sum(s) / (if |s| == 0 then 1 else |s|))
    ensures Mean(s) == (Sum(s) / (if |s| == 0 then 1 else |s|)) as real
  {
    if |s| > 0 {
      var n, q := |s|, Sum(s) / |s|;
      DivExact(Sum(s), n);
      RealOfProduct(q, n);
    }
  }

  lemma DivExact(a: nat, n: nat)
    requires n > 0 && a % n == 0
    ensures a == (a / n) * n
  {
  }

  lemma RealOfProduct(q: nat, n: nat)
    requires n > 0
    ensures (q * n) as real / n as real == q as real
  {
    assert (q * n) as real == q as real * n as real;
  }
}
