/**
 * `Array.prototype.sort` with a comparator that orders by a key: the keys
 * are integer sequences (code points of a string, a number, a flag) in
 * lexicographic order, negated for a descending sort. The sort is stable,
 * as the language guarantees: items with equal keys keep their order.
 */
module StableSort {

  /** The sign of comparing `x` and `y` lexicographically; a proper prefix comes first. */
  function LexCompare(x: seq<int>, y: seq<int>): (c: int)
    ensures -1 <= c <= 1
  {
    if |x| == 0 && |y| == 0 then 0
    else if |x| == 0 then -1
    else if |y| == 0 then 1
    else if x[0] < y[0] then -1
    else if x[0] > y[0] then 1
    else LexCompare(x[1..], y[1..])
  }

  lemma {:induction false} LexCompareFlip(x: seq<int>, y: seq<int>)
    ensures LexCompare(y, x) == -LexCompare(x, y)
  {
    if |x| > 0 && |y| > 0 && x[0] == y[0] {
      LexCompareFlip(x[1..], y[1..]);
    }
  }

  lemma {:induction false} LexCompareZero(x: seq<int>, y: seq<int>)
    ensures LexCompare(x, y) == 0 <==> x == y
  {
    if |x| > 0 && |y| > 0 && x[0] == y[0] {
      LexCompareZero(x[1..], y[1..]);
      if x[1..] == y[1..] {
        assert x == [x[0]] + x[1..] && y == [y[0]] + y[1..];
      }
    }
  }

  lemma {:induction false} LexCompareTrans(x: seq<int>, y: seq<int>, z: seq<int>)
    requires LexCompare(x, y) <= 0 && LexCompare(y, z) <= 0
    ensures LexCompare(x, z) <= 0
  {
    if |x| > 0 && |y| > 0 && |z| > 0 && x[0] == y[0] == z[0] {
      LexCompareTrans(x[1..], y[1..], z[1..]);
    }
  }

  /** The comparator: the order of the keys, negated for a descending sort. */
  function Compare<T>(key: T -> seq<int>, desc: bool, a: T, b: T): int {
    var c := LexCompare(key(a), key(b));
    if desc then -c else c
  }

  /** Swapping the operands negates the comparison, and only equal keys compare as 0. */
  lemma CompareFacts<T>(key: T -> seq<int>, desc: bool, a: T, b: T)
    ensures Compare(key, desc, b, a) == -Compare(key, desc, a, b)
    ensures Compare(key, desc, a, b) == 0 <==> key(a) == key(b)
  {
    LexCompareFlip(key(a), key(b));
    LexCompareZero(key(a), key(b));
  }

  lemma CompareTrans<T>(key: T -> seq<int>, desc: bool, a: T, b: T, c: T)
    requires Compare(key, desc, a, b) <= 0 && Compare(key, desc, b, c) <= 0
    ensures Compare(key, desc, a, c) <= 0
  {
    if desc {
      LexCompareFlip(key(a), key(b));
      LexCompareFlip(key(b), key(c));
      LexCompareFlip(key(a), key(c));
      LexCompareTrans(key(c), key(b), key(a));
    } else {
      LexCompareTrans(key(a), key(b), key(c));
    }
  }

  predicate Sorted<T>(s: seq<T>, key: T -> seq<int>, desc: bool) {
    forall i, j :: 0 <= i < j < |s| ==> Compare(key, desc, s[i], s[j]) <= 0
  }

  /** `x` placed after every item of `s` that does not compare above it. */
  function Insert<T>(s: seq<T>, x: T, key: T -> seq<int>, desc: bool): (r: seq<T>)
    ensures |r| == |s| + 1
  {
    if |s| == 0 || Compare(key, desc, s[|s| - 1], x) <= 0 then s + [x]
    else Insert(s[..|s| - 1], x, key, desc) + [s[|s| - 1]]
  }

  /** Inserting adds `x` and keeps every item of `s`. */
  lemma {:induction false} InsertPermutes<T>(s: seq<T>, x: T, key: T -> seq<int>, desc: bool)
    ensures multiset(Insert(s, x, key, desc)) == multiset(s) + multiset{x}
  {
    if |s| > 0 && Compare(key, desc, s[|s| - 1], x) > 0 {
      var init := s[..|s| - 1];
      InsertPermutes(init, x, key, desc);
      assert s == init + [s[|s| - 1]];
    }
  }

  /** The stable sort of `xs`: each item in turn inserted into the sorted items before it. */
  function SortBy<T>(xs: seq<T>, key: T -> seq<int>, desc: bool): (r: seq<T>)
    ensures |r| == |xs|
  {
    if |xs| == 0 then []
    else Insert(SortBy(xs[..|xs| - 1], key, desc), xs[|xs| - 1], key, desc)
  }

  lemma {:induction false} InsertSorted<T>(s: seq<T>, x: T, key: T -> seq<int>, desc: bool)
    requires Sorted(s, key, desc)
    ensures Sorted(Insert(s, x, key, desc), key, desc)
  {
    if |s| == 0 {
    } else if Compare(key, desc, s[|s| - 1], x) <= 0 {
      var r := s + [x];
      forall i, j | 0 <= i < j < |r| ensures Compare(key, desc, r[i], r[j]) <= 0 {
        if j == |s| && i < |s| - 1 {
          CompareTrans(key, desc, s[i], s[|s| - 1], x);
        }
      }
    } else {
      var init := s[..|s| - 1];
      var last := s[|s| - 1];
      InsertSorted(init, x, key, desc);
      var ins := Insert(init, x, key, desc);
      InsertPermutes(init, x, key, desc);
      CompareFacts(key, desc, last, x);
      forall e | e in ins ensures Compare(key, desc, e, last) <= 0 {
        assert e in multiset(ins);
        if e != x {
          assert e in multiset(init);
          var i :| 0 <= i < |init| && init[i] == e;
          assert s[i] == e;
        }
      }
      var r := ins + [last];
      forall i, j | 0 <= i < j < |r| ensures Compare(key, desc, r[i], r[j]) <= 0 {
        if j == |ins| {
          assert r[i] in ins;
        }
      }
    }
  }

  /** The sort's result is in order, and it holds the same items as many times each. */
  lemma {:induction false} SortBySorted<T>(xs: seq<T>, key: T -> seq<int>, desc: bool)
    ensures Sorted(SortBy(xs, key, desc), key, desc)
    ensures multiset(SortBy(xs, key, desc)) == multiset(xs)
  {
    if |xs| > 0 {
      var init := xs[..|xs| - 1];
      SortBySorted(init, key, desc);
      InsertSorted(SortBy(init, key, desc), xs[|xs| - 1], key, desc);
      InsertPermutes(SortBy(init, key, desc), xs[|xs| - 1], key, desc);
      assert xs == init + [xs[|xs| - 1]];
    }
  }

  /** The items of `s` whose key is `k`, in order. */
  function Ties<T>(s: seq<T>, key: T -> seq<int>, k: seq<int>): seq<T> {
    if |s| == 0 then []
    else Ties(s[..|s| - 1], key, k) + (if key(s[|s| - 1]) == k then [s[|s| - 1]] else [])
  }

  lemma {:induction false} TiesOne<T>(s: seq<T>, e: T, key: T -> seq<int>, k: seq<int>)
    ensures Ties(s + [e], key, k) == Ties(s, key, k) + (if key(e) == k then [e] else [])
  {
    assert (s + [e])[..|s|] == s;
  }

  lemma {:induction false} InsertTies<T>(s: seq<T>, x: T, key: T -> seq<int>, desc: bool, k: seq<int>)
    ensures Ties(Insert(s, x, key, desc), key, k) == Ties(s, key, k) + (if key(x) == k then [x] else [])
  {
    if |s| == 0 || Compare(key, desc, s[|s| - 1], x) <= 0 {
      TiesOne(s, x, key, k);
    } else {
      var init := s[..|s| - 1];
      var last := s[|s| - 1];
      var ins := Insert(init, x, key, desc);
      assert Insert(s, x, key, desc) == ins + [last];
      InsertTies(init, x, key, desc, k);
      TiesOne(ins, last, key, k);
      assert Ties(s, key, k) == Ties(init, key, k) + (if key(last) == k then [last] else []);
      CompareFacts(key, desc, last, x);
      assert key(last) != key(x);
    }
  }

  /** Stability: the items with any one key come out in the order they went in. */
  lemma {:induction false} SortByStable<T>(xs: seq<T>, key: T -> seq<int>, desc: bool, k: seq<int>)
    ensures Ties(SortBy(xs, key, desc), key, k) == Ties(xs, key, k)
  {
    if |xs| > 0 {
      var init := xs[..|xs| - 1];
      SortByStable(init, key, desc, k);
      InsertTies(SortBy(init, key, desc), xs[|xs| - 1], key, desc, k);
    }
  }

  /** One step of shifting: an item above `x` moves behind the place where `x` goes. */
  lemma InsertShift<T>(s: seq<T>, j: nat, x: T, key: T -> seq<int>, desc: bool)
    requires 0 < j <= |s| && Compare(key, desc, s[j - 1], x) > 0
    ensures Insert(s[..j], x, key, desc) + s[j..] == Insert(s[..j - 1], x, key, desc) + s[j - 1..]
  {
    assert s[..j][..j - 1] == s[..j - 1];
    assert [s[j - 1]] + s[j..] == s[j - 1..];
  }

  /** The sort of one more item inserts it into the sort of the items before it. */
  lemma SortByNext<T>(xs: seq<T>, i: nat, key: T -> seq<int>, desc: bool)
    requires i < |xs|
    ensures SortBy(xs[..i + 1], key, desc) == Insert(SortBy(xs[..i], key, desc), xs[i], key, desc)
  {
    assert xs[..i + 1][..i] == xs[..i];
  }

  /** `x` inserted where the shifting stopped. */
  lemma Placed<T>(q: seq<T>, s: seq<T>, j: nat, x: T, key: T -> seq<int>, desc: bool)
    requires j <= |s| && |q| == |s| + 1 && q[j] == x
    requires forall k :: 0 <= k < j ==> q[k] == s[k]
    requires forall k :: j < k < |q| ==> q[k] == s[k - 1]
    requires j == 0 || Compare(key, desc, s[j - 1], x) <= 0
    ensures Insert(s[..j], x, key, desc) + s[j..] == q
  {
    assert Insert(s[..j], x, key, desc) == s[..j] + [x] by {
      if j > 0 {
        assert s[..j][j - 1] == s[j - 1];
      }
    }
  }

  /** One pass of the insertion sort: `a[i]` moves left past the items of `a[..i]` that compare above it. */
  method InsertAt<T>(a: array<T>, i: nat, key: T -> seq<int>, desc: bool)
    requires i < a.Length
    modifies a
    ensures a[..i + 1] == Insert(old(a[..i]), old(a[i]), key, desc)
    ensures forall k :: i < k < a.Length ==> a[k] == old(a[k])
  {
    var x := a[i];
    ghost var s := a[..i];
    var j := i;
    assert s[..i] == s;
    while j > 0 && Compare(key, desc, a[j - 1], x) > 0
      invariant 0 <= j <= i
      invariant forall k :: 0 <= k < j ==> a[k] == s[k]
      invariant forall k :: j < k <= i ==> a[k] == s[k - 1]
      invariant forall k :: i < k < a.Length ==> a[k] == old(a[k])
      invariant Insert(s, x, key, desc) == Insert(s[..j], x, key, desc) + s[j..]
    {
      InsertShift(s, j, x, key, desc);
      a[j] := a[j - 1];
      j := j - 1;
    }
    a[j] := x;
    Placed(a[..i + 1], s, j, x, key, desc);
  }

  /** The sort in place on an array: insertion sort, shifting greater items one place right. */
  method SortInPlace<T>(a: array<T>, key: T -> seq<int>, desc: bool)
    modifies a
    ensures a[..] == SortBy(old(a[..]), key, desc)
  {
    ghost var orig := a[..];
    for i := 0 to a.Length
      invariant a[..i] == SortBy(orig[..i], key, desc)
      invariant forall k :: i <= k < a.Length ==> a[k] == orig[k]
    {
      InsertAt(a, i, key, desc);
      SortByNext(orig, i, key, desc);
    }
    assert orig[..a.Length] == orig;
  }

  /** `[...xs].sort(comparator)`: a fresh array holding `xs`, sorted in place. */
  method Sort<T>(xs: seq<T>, key: T -> seq<int>, desc: bool) returns (r: seq<T>)
    ensures r == SortBy(xs, key, desc)
  {
    var a := new T[|xs|](k requires 0 <= k < |xs| => xs[k]);
    assert a[..] == xs;
    SortInPlace(a, key, desc);
    r := a[..];
  }
}
