/** The ORM's `order_by(...)`, modelled as a functional insertion sort over
    a caller-supplied total preorder, together with the facts the reports
    rely on: the result is ordered, it is a permutation of the input, and
    any per-element sum is unchanged by the reordering. */
module Sorting {

  /** `le` is total and transitive: a valid `order_by` key. */
  ghost predicate TotalPreorder<T(!new)>(le: (T, T) -> bool) {
    && (forall x, y :: le(x, y) || le(y, x))
    && (forall x, y, z :: le(x, y) && le(y, z) ==> le(x, z))
  }

  predicate SortedBy<T>(s: seq<T>, le: (T, T) -> bool) {
    forall i, j :: 0 <= i < j < |s| ==> le(s[i], s[j])
  }

  /** Inserts `x` before the first element it is `le` to. */
  function Insert<T>(x: T, s: seq<T>, le: (T, T) -> bool): (r: seq<T>)
    ensures |r| == |s| + 1
    ensures multiset(r) == multiset(s) + multiset{x}
  {
    if |s| == 0 then [x]
    else if le(x, s[0]) then [x] + s
    else
      assert s == [s[0]] + s[1..];
      [s[0]] + Insert(x, s[1..], le)
  }

  function Sort<T>(s: seq<T>, le: (T, T) -> bool): (r: seq<T>)
    ensures |r| == |s|
    ensures multiset(r) == multiset(s)
  {
    if |s| == 0 then []
    else
      assert s == [s[0]] + s[1..];
      Insert(s[0], Sort(s[1..], le), le)
  }

  lemma {:induction false} InsertSorted<T(!new)>(x: T, s: seq<T>, le: (T, T) -> bool)
    requires TotalPreorder(le) && SortedBy(s, le)
    ensures SortedBy(Insert(x, s, le), le)
  {
    if |s| == 0 || le(x, s[0]) {
    } else {
      var tail := Insert(x, s[1..], le);
      InsertSorted(x, s[1..], le);
      assert le(s[0], x);
      forall k | 0 <= k < |tail|
        ensures le(s[0], tail[k])
      {
        assert tail[k] in multiset(tail);
        assert tail[k] == x || tail[k] in multiset(s[1..]);
        if tail[k] != x {
          var j :| 0 <= j < |s[1..]| && s[1..][j] == tail[k];
          assert s[1..][j] == s[j + 1];
        }
      }
    }
  }

  /** The result of `Sort` is ordered by `le`. */
  lemma {:induction false} SortSorted<T(!new)>(s: seq<T>, le: (T, T) -> bool)
    requires TotalPreorder(le)
    ensures SortedBy(Sort(s, le), le)
  {
    if |s| > 0 {
      SortSorted(s[1..], le);
      InsertSorted(s[0], Sort(s[1..], le), le);
    }
  }

  /** Every element of the result comes from the input and vice versa. */
  lemma SortSameElements<T>(s: seq<T>, le: (T, T) -> bool, x: T)
    ensures x in Sort(s, le) <==> x in s
  {
    var r := Sort(s, le);
    assert x in r <==> x in multiset(r);
    assert x in s <==> x in multiset(s);
  }

  /** Σ f(x) over a sequence. */
  function SumOf<T>(s: seq<T>, f: T -> int): int {
    if |s| == 0 then 0 else f(s[0]) + SumOf(s[1..], f)
  }

  /** A prefix of a slice is a slice. */
  lemma SliceOfSlice<T>(s: seq<T>, a: int, b: int, k: int)
    requires 0 <= a <= b <= |s| && 0 <= k <= b - a
    ensures s[a..b][..k] == s[a..a + k]
  {
  }

  /** The only sequence with the multiset of one element is that element alone. */
  lemma SingletonFromMultiset<T>(r: seq<T>, x: T)
    requires multiset(r) == multiset{x}
    ensures r == [x]
  {
    assert |r| == |multiset(r)| == 1;
    assert r[0] in multiset(r);
  }

  /** A non-empty sequence is its prefix followed by its last element. */
  lemma ButLastSplit<T>(s: seq<T>)
    requires |s| > 0
    ensures s == s[..|s| - 1] + [s[|s| - 1]]
  {
  }

  lemma {:induction false} SumOfConcat<T>(a: seq<T>, b: seq<T>, f: T -> int)
    ensures SumOf(a + b, f) == SumOf(a, f) + SumOf(b, f)
  {
    if |a| > 0 {
      assert (a + b)[1..] == a[1..] + b;
      SumOfConcat(a[1..], b, f);
    } else {
      assert a + b == b;
    }
  }

  lemma {:induction false} SumOfInsert<T>(x: T, s: seq<T>, le: (T, T) -> bool, f: T -> int)
    ensures SumOf(Insert(x, s, le), f) == f(x) + SumOf(s, f)
  {
    if |s| > 0 && !le(x, s[0]) {
      SumOfInsert(x, s[1..], le, f);
      assert ([s[0]] + Insert(x, s[1..], le))[1..] == Insert(x, s[1..], le);
    } else if |s| > 0 {
      assert ([x] + s)[1..] == s;
    }
  }

  /** Reordering does not change a sum. */
  lemma {:induction false} SumOfSort<T>(s: seq<T>, le: (T, T) -> bool, f: T -> int)
    ensures SumOf(Sort(s, le), f) == SumOf(s, f)
  {
    if |s| > 0 {
      SumOfSort(s[1..], le, f);
      SumOfInsert(s[0], Sort(s[1..], le), le, f);
    }
  }

  /** The elements that satisfy `p`, in their original order. */
  function Filter<T>(s: seq<T>, p: T -> bool): (r: seq<T>)
    ensures |r| <= |s|
    ensures forall i :: 0 <= i < |r| ==> r[i] in s && p(r[i])
    ensures forall i :: 0 <= i < |s| && p(s[i]) ==> s[i] in r
  {
    if |s| == 0 then []
    else if p(s[0]) then [s[0]] + Filter(s[1..], p)
    else Filter(s[1..], p)
  }

  /** `Filter` keeps every occurrence of an element that satisfies `p`
      and none of one that does not. */
  lemma {:induction false} FilterMultiplicity<T>(s: seq<T>, p: T -> bool, x: T)
    ensures multiset(Filter(s, p))[x] == if p(x) then multiset(s)[x] else 0
  {
    if |s| > 0 {
      FilterMultiplicity(s[1..], p, x);
      assert s == [s[0]] + s[1..];
      assert multiset(s)[x] == multiset{s[0]}[x] + multiset(s[1..])[x];
      if p(s[0]) {
        assert multiset(Filter(s, p)) == multiset{s[0]} + multiset(Filter(s[1..], p));
      }
    }
  }

  /** `x`, `n` times. */
  function Repeat<T>(x: T, n: nat): (r: seq<T>)
    ensures |r| == n && forall i :: 0 <= i < n ==> r[i] == x
  {
    if n == 0 then [] else [x] + Repeat(x, n - 1)
  }

  lemma {:induction false} RepeatMultiplicity<T>(x: T, n: nat, y: T)
    ensures multiset(Repeat(x, n))[y] == if y == x then n else 0
  {
    if n > 0 {
      RepeatMultiplicity(x, n - 1, y);
      assert multiset(Repeat(x, n)) == multiset{x} + multiset(Repeat(x, n - 1));
    }
  }

  /** Every element of `s` repeated `n(x)` times, in order. */
  function Expand<T>(s: seq<T>, n: T -> nat): seq<T> {
    if |s| == 0 then [] else Repeat(s[0], n(s[0])) + Expand(s[1..], n)
  }

  lemma MulSucc(a: int, n: int)
    ensures (a + 1) * n == a * n + n
  {
  }

  lemma MulZero(n: int)
    ensures 0 * n == 0
  {
  }

  lemma CountCons<T>(s: seq<T>, x: T)
    requires |s| > 0
    ensures multiset(s)[x] == (if s[0] == x then 1 else 0) + multiset(s[1..])[x]
  {
    assert s == [s[0]] + s[1..];
  }

  lemma ExpandCons<T>(s: seq<T>, n: T -> nat, x: T)
    requires |s| > 0
    ensures multiset(Expand(s, n))[x] == multiset(Repeat(s[0], n(s[0])))[x] + multiset(Expand(s[1..], n))[x]
  {
  }

  /** `Expand` multiplies each element's count by its repetition. */
  lemma {:induction false} ExpandMultiplicity<T>(s: seq<T>, n: T -> nat, x: T)
    ensures multiset(Expand(s, n))[x] == multiset(s)[x] * n(x)
  {
    if |s| > 0 {
      ExpandMultiplicity(s[1..], n, x);
      RepeatMultiplicity(s[0], n(s[0]), x);
      ExpandCons(s, n, x);
      CountCons(s, x);
      if s[0] == x {
        MulSucc(multiset(s[1..])[x], n(x));
      }
    }
  }

  /** Appending one element keeps a pointwise image pointwise. */
  lemma SnocPointwise<U, T>(xs: seq<U>, x: U, ys: seq<T>, f: U -> T)
    requires |ys| == |xs| && forall i :: 0 <= i < |xs| ==> ys[i] == f(xs[i])
    ensures |ys + [f(x)]| == |xs + [x]|
    ensures forall i :: 0 <= i < |xs + [x]| ==> (ys + [f(x)])[i] == f((xs + [x])[i])
  {
  }

  /** Dropping elements whose term is zero does not change a sum. */
  lemma {:induction false} SumOfFilterZero<T>(s: seq<T>, p: T -> bool, f: T -> int)
    requires forall x :: x in s && !p(x) ==> f(x) == 0
    ensures SumOf(Filter(s, p), f) == SumOf(s, f)
  {
    if |s| > 0 {
      SumOfFilterZero(s[1..], p, f);
      if p(s[0]) {
        assert ([s[0]] + Filter(s[1..], p))[1..] == Filter(s[1..], p);
      }
    }
  }

  /** Index of the last element satisfying `p`, or -1 when there is none. */
  function LastIndexWhere<T>(s: seq<T>, p: T -> bool): (r: int)
    ensures -1 <= r < |s|
    ensures r == -1 <==> forall i :: 0 <= i < |s| ==> !p(s[i])
    ensures r >= 0 ==> p(s[r]) && forall k :: r < k < |s| ==> !p(s[k])
  {
    if |s| == 0 then -1
    else if p(s[|s| - 1]) then |s| - 1
    else
      assert forall i :: 0 <= i < |s| - 1 ==> s[..|s| - 1][i] == s[i];
      LastIndexWhere(s[..|s| - 1], p)
  }

  /** Code-point lexicographic order on strings (a binary collation). */
  predicate StringOnOrBefore(a: string, b: string) {
    if |a| == 0 then true
    else if |b| == 0 then false
    else if a[0] != b[0] then a[0] < b[0]
    else StringOnOrBefore(a[1..], b[1..])
  }

  lemma {:induction false} StringOrderTotal(a: string, b: string)
    ensures StringOnOrBefore(a, b) || StringOnOrBefore(b, a)
  {
    if |a| > 0 && |b| > 0 && a[0] == b[0] {
      StringOrderTotal(a[1..], b[1..]);
    }
  }

  lemma {:induction false} StringOrderTransitive(a: string, b: string, c: string)
    requires StringOnOrBefore(a, b) && StringOnOrBefore(b, c)
    ensures StringOnOrBefore(a, c)
  {
    if |a| > 0 && |b| > 0 && |c| > 0 && a[0] == b[0] && b[0] == c[0] {
      StringOrderTransitive(a[1..], b[1..], c[1..]);
    }
  }

  lemma StringOrderIsTotalPreorder()
    ensures TotalPreorder(StringOnOrBefore)
  {
    forall a, b ensures StringOnOrBefore(a, b) || StringOnOrBefore(b, a) {
      StringOrderTotal(a, b);
    }
    forall a, b, c | StringOnOrBefore(a, b) && StringOnOrBefore(b, c)
      ensures StringOnOrBefore(a, c)
    {
      StringOrderTransitive(a, b, c);
    }
  }
}
