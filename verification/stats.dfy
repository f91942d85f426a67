/** The numpy reductions the fitting pipeline relies on (np.mean, np.max,
    np.min, np.sort, np.median, np.argsort), over exact reals. */
module Stats {

  function Sum(s: seq<real>): real
  {
    if s == [] then 0.0 else Sum(s[..|s| - 1]) + s[|s| - 1]
  }

  /** np.mean of a non-empty sample: it lies between the smallest and the
      largest sample. */
  function Mean(s: seq<real>): (m: real)
    requires |s| > 0
    ensures Min(s) <= m <= Max(s)
  {
    MeanWithin(s, Min(s), Max(s));
    Sum(s) / |s| as real
  }

  /** The mean of samples within [lo, hi] is within [lo, hi]. */
  lemma MeanWithin(s: seq<real>, lo: real, hi: real)
    requires |s| > 0
    requires forall i :: 0 <= i < |s| ==> lo <= s[i] <= hi
    ensures lo <= Sum(s) / |s| as real <= hi
  {
    SumBounds(s, lo, hi);
    QuotientBounds(Sum(s), |s| as real, lo, hi);
  }

  /** n samples within [lo, hi] sum to between n·lo and n·hi. */
  lemma {:induction false} SumBounds(s: seq<real>, lo: real, hi: real)
    requires forall i :: 0 <= i < |s| ==> lo <= s[i] <= hi
    ensures |s| as real * lo <= Sum(s) <= |s| as real * hi
  {
    if s != [] {
      var p := s[..|s| - 1];
      SumBounds(p, lo, hi);
      assert |s| as real * lo == |p| as real * lo + lo;
      assert |s| as real * hi == |p| as real * hi + hi;
    }
  }

  lemma QuotientBounds(x: real, n: real, lo: real, hi: real)
    requires n > 0.0 && n * lo <= x <= n * hi
    ensures lo <= x / n <= hi
  {
    var q := x / n;
    assert q * n == x;
    if q < lo {
      PositiveProduct(lo - q, n);
    }
    if q > hi {
      PositiveProduct(q - hi, n);
    }
  }

  lemma PositiveProduct(x: real, y: real)
    requires x > 0.0 && y > 0.0
    ensures x * y > 0.0
  {
  }

  /** Every sample plus the constant c (numpy's broadcast `y + c`). */
  function Shift(s: seq<real>, c: real): (r: seq<real>)
    ensures |r| == |s|
  {
    seq(|s|, i requires 0 <= i < |s| => s[i] + c)
  }

  /** np.max: the largest sample. */
  function Max(s: seq<real>): (m: real)
    requires |s| > 0
    ensures m in s
    ensures forall i :: 0 <= i < |s| ==> s[i] <= m
  {
    if |s| == 1 then s[0]
    else
      var m := Max(s[1..]);
      assert forall i :: 1 <= i < |s| ==> s[i] == s[1..][i - 1];
      if s[0] > m then s[0] else m
  }

  /** np.min: the smallest sample. */
  function Min(s: seq<real>): (m: real)
    requires |s| > 0
    ensures m in s
    ensures forall i :: 0 <= i < |s| ==> m <= s[i]
  {
    if |s| == 1 then s[0]
    else
      var m := Min(s[1..]);
      assert forall i :: 1 <= i < |s| ==> s[i] == s[1..][i - 1];
      if s[0] < m then s[0] else m
  }

  lemma MaxShift(s: seq<real>, c: real)
    requires |s| > 0
    ensures Max(Shift(s, c)) == Max(s) + c
  {
    var t := Shift(s, c);
    var i :| 0 <= i < |s| && s[i] == Max(s);
    assert t[i] in t;
    var j :| 0 <= j < |t| && t[j] == Max(t);
    assert s[j] in s;
  }

  lemma MinShift(s: seq<real>, c: real)
    requires |s| > 0
    ensures Min(Shift(s, c)) == Min(s) + c
  {
    var t := Shift(s, c);
    var i :| 0 <= i < |s| && s[i] == Min(s);
    assert t[i] in t;
    var j :| 0 <= j < |t| && t[j] == Min(t);
    assert s[j] in s;
  }

  // ---------------------------------------------------------------------
  // Blending between two endpoints

  /** Whether `x` lies between `a` and `b`, in either order. */
  predicate Between(x: real, a: real, b: real)
  {
    if a <= b then a <= x <= b else b <= x <= a
  }

  lemma NonNegativeProduct(x: real, y: real)
    requires x >= 0.0 && y >= 0.0
    ensures x * y >= 0.0
  {
  }

  /** a + (b - a) * c, for a fraction c in [0, 1], lies between a and b. */
  lemma BlendBetween(a: real, b: real, c: real)
    ensures 0.0 <= c <= 1.0 ==> Between(a + (b - a) * c, a, b)
  {
    if 0.0 <= c <= 1.0 {
      if a <= b {
        NonNegativeProduct(b - a, c);
        NonNegativeProduct(b - a, 1.0 - c);
      } else {
        NonNegativeProduct(a - b, c);
        NonNegativeProduct(a - b, 1.0 - c);
      }
    }
  }

  // ---------------------------------------------------------------------
  // Sorting by a real-valued key

  ghost predicate SortedBy<T>(s: seq<T>, key: T -> real)
  {
    forall i, j :: 0 <= i < j < |s| ==> key(s[i]) <= key(s[j])
  }

  ghost predicate StrictlySortedBy<T>(s: seq<T>, key: T -> real)
  {
    forall i, j :: 0 <= i < j < |s| ==> key(s[i]) < key(s[j])
  }

  /** Putting h in front of a sorted sequence whose keys are all at least
      key(h) keeps it sorted. */
  lemma ConsSorted<T>(h: T, rest: seq<T>, key: T -> real)
    requires SortedBy(rest, key)
    requires forall k :: 0 <= k < |rest| ==> key(h) <= key(rest[k])
    ensures SortedBy([h] + rest, key)
  {
    var r := [h] + rest;
    forall i, j | 0 <= i < j < |r| ensures key(r[i]) <= key(r[j]) {
      assert r[j] == rest[j - 1];
      if i > 0 {
        assert r[i] == rest[i - 1];
      }
    }
  }

  /** Inserts x into a sorted sequence before the first element whose key is
      not smaller. */
  function Insert<T>(s: seq<T>, x: T, key: T -> real): (r: seq<T>)
    requires SortedBy(s, key)
    ensures |r| == |s| + 1
    ensures SortedBy(r, key)
    ensures multiset(r) == multiset(s) + multiset{x}
  {
    if s == [] then [x]
    else if key(x) <= key(s[0]) then
      ConsSorted(x, s, key);
      [x] + s
    else
      var tail := s[1..];
      SortedTail(s, key);
      var rest := Insert(tail, x, key);
      BoundPreserved(key(s[0]), tail, x, rest, key);
      ConsSorted(s[0], rest, key);
      assert s == [s[0]] + tail;
      [s[0]] + rest
  }

  /** Dropping the head of a sorted sequence leaves it sorted, and the head
      bounds every later key from below. */
  lemma SortedTail<T>(s: seq<T>, key: T -> real)
    requires SortedBy(s, key) && |s| > 0
    ensures SortedBy(s[1..], key)
    ensures forall k :: 0 <= k < |s[1..]| ==> key(s[0]) <= key(s[1..][k])
  {
    var tail := s[1..];
    forall i, j | 0 <= i < j < |tail| ensures key(tail[i]) <= key(tail[j]) {
      assert tail[i] == s[i + 1] && tail[j] == s[j + 1];
    }
    forall k | 0 <= k < |tail| ensures key(s[0]) <= key(tail[k]) {
      assert tail[k] == s[k + 1];
    }
  }

  /** A lower bound on the keys of tail and on key(x) bounds every key of a
      rearrangement of tail + [x]. */
  lemma BoundPreserved<T>(lo: real, tail: seq<T>, x: T, rest: seq<T>, key: T -> real)
    requires forall k :: 0 <= k < |tail| ==> lo <= key(tail[k])
    requires lo <= key(x)
    requires multiset(rest) == multiset(tail) + multiset{x}
    ensures forall k :: 0 <= k < |rest| ==> lo <= key(rest[k])
  {
    forall k | 0 <= k < |rest| ensures lo <= key(rest[k]) {
      assert rest[k] in multiset(rest);
      if rest[k] != x {
        assert rest[k] in multiset(tail);
        var m :| 0 <= m < |tail| && tail[m] == rest[k];
      }
    }
  }

  /** The sorted rearrangement of s (np.sort / np.argsort applied to s). */
  function SortBy<T>(s: seq<T>, key: T -> real): (r: seq<T>)
    ensures SortedBy(r, key)
    ensures multiset(r) == multiset(s)
    ensures |r| == |s|
  {
    if s == [] then []
    else
      assert s == s[..|s| - 1] + [s[|s| - 1]];
      Insert(SortBy(s[..|s| - 1], key), s[|s| - 1], key)
  }

  /** Inserting an element whose key is new into a strictly sorted sequence
      keeps it strictly sorted. */
  lemma ConsStrict<T>(h: T, rest: seq<T>, key: T -> real)
    requires StrictlySortedBy(rest, key)
    requires forall k :: 0 <= k < |rest| ==> key(h) < key(rest[k])
    ensures StrictlySortedBy([h] + rest, key)
  {
    var r := [h] + rest;
    forall i, j | 0 <= i < j < |r| ensures key(r[i]) < key(r[j]) {
      assert r[j] == rest[j - 1];
      if i > 0 {
        assert r[i] == rest[i - 1];
      }
    }
  }

  lemma {:induction false} InsertStrict<T>(s: seq<T>, x: T, key: T -> real)
    requires StrictlySortedBy(s, key)
    requires forall y :: y in s ==> key(y) != key(x)
    ensures StrictlySortedBy(Insert(s, x, key), key)
  {
    if s == [] {
    } else if key(x) <= key(s[0]) {
      assert s[0] in s;
      ConsStrict(x, s, key);
    } else {
      var tail := s[1..];
      StrictTail(s, key);
      assert forall y :: y in tail ==> y in s;
      InsertStrict(tail, x, key);
      var rest := Insert(tail, x, key);
      StrictBoundPreserved(key(s[0]), tail, x, rest, key);
      ConsStrict(s[0], rest, key);
    }
  }

  lemma StrictTail<T>(s: seq<T>, key: T -> real)
    requires StrictlySortedBy(s, key) && |s| > 0
    ensures StrictlySortedBy(s[1..], key)
    ensures forall k :: 0 <= k < |s[1..]| ==> key(s[0]) < key(s[1..][k])
  {
    var tail := s[1..];
    forall i, j | 0 <= i < j < |tail| ensures key(tail[i]) < key(tail[j]) {
      assert tail[i] == s[i + 1] && tail[j] == s[j + 1];
    }
    forall k | 0 <= k < |tail| ensures key(s[0]) < key(tail[k]) {
      assert tail[k] == s[k + 1];
    }
  }

  lemma StrictBoundPreserved<T>(lo: real, tail: seq<T>, x: T, rest: seq<T>, key: T -> real)
    requires forall k :: 0 <= k < |tail| ==> lo < key(tail[k])
    requires lo < key(x)
    requires multiset(rest) == multiset(tail) + multiset{x}
    ensures forall k :: 0 <= k < |rest| ==> lo < key(rest[k])
  {
    forall k | 0 <= k < |rest| ensures lo < key(rest[k]) {
      assert rest[k] in multiset(rest);
      if rest[k] != x {
        assert rest[k] in multiset(tail);
        var m :| 0 <= m < |tail| && tail[m] == rest[k];
      }
    }
  }

  /** Sorting a sequence whose keys are pairwise distinct yields strictly
      ascending keys: there are no ties left to order. */
  lemma {:induction false} SortDistinctIsStrict<T>(s: seq<T>, key: T -> real)
    requires forall i, j :: 0 <= i < j < |s| ==> key(s[i]) != key(s[j])
    ensures StrictlySortedBy(SortBy(s, key), key)
  {
    if s != [] {
      var p := s[..|s| - 1];
      var x := s[|s| - 1];
      SortDistinctIsStrict(p, key);
      forall y | y in SortBy(p, key) ensures key(y) != key(x) {
        assert y in multiset(SortBy(p, key));
        assert y in p;
      }
      InsertStrict(SortBy(p, key), x, key);
    }
  }

  // ---------------------------------------------------------------------
  // Median

  function Identity(x: real): real { x }

  /** np.median: the middle sample after sorting, or the mean of the two
      middle samples when the count is even. */
  function Median(s: seq<real>): (m: real)
    requires |s| > 0
    ensures Min(s) <= m <= Max(s)
  {
    var t := SortBy(s, Identity);
    var n := |t|;
    assert t[n / 2] in multiset(t) && t[n / 2] in s;
    assert n >= 2 ==> t[n / 2 - 1] in multiset(t) && t[n / 2 - 1] in s;
    if n % 2 == 1 then t[n / 2] else (t[n / 2 - 1] + t[n / 2]) / 2.0
  }
}
