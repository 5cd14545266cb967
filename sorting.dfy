/**
  JavaScript's `Array.prototype.sort` is stable, so for a comparator that is
  a total preorder its result is fully determined: it is the result of a
  stable insertion sort.  `le(a, b)` says that `a` may stay in front of `b`
  (the comparator does not return a positive number for `(a, b)`).
 */
module Sorting {
  import opened Seqs

  /** `le` is total and transitive. */
  ghost predicate TotalPreorder<T(!new)>(le: (T, T) -> bool)
  {
    && (forall x, y :: le(x, y) || le(y, x))
    && (forall x, y, z :: le(x, y) && le(y, z) ==> le(x, z))
  }

  predicate SortedBy<T>(s: seq<T>, le: (T, T) -> bool)
  {
    forall i, j :: 0 <= i < j < |s| ==> le(s[i], s[j])
  }

  /**
    Insert `x` into `s` from the right: `x` moves left past every element
    that must not stay in front of it, and stops behind the first one that
    may (so equal elements keep their order).
   */
  function Insert<T>(s: seq<T>, x: T, le: (T, T) -> bool): (r: seq<T>)
    ensures |r| == |s| + 1
  {
    if |s| == 0 then [x]
    else if le(s[|s| - 1], x) then s + [x]
    else Insert(s[..|s| - 1], x, le) + [s[|s| - 1]]
  }

  /** Insertion adds `x` and keeps every element of `s`, each as often as before. */
  lemma {:induction false} InsertPermutes<T>(s: seq<T>, x: T, le: (T, T) -> bool)
    ensures multiset(Insert(s, x, le)) == multiset(s) + multiset{x}
  {
    if |s| > 0 && !le(s[|s| - 1], x) {
      InsertPermutes(s[..|s| - 1], x, le);
      assert s == s[..|s| - 1] + [s[|s| - 1]];
    }
  }

  /** Stable insertion sort of `s`. */
  function SortBy<T>(s: seq<T>, le: (T, T) -> bool): (r: seq<T>)
    ensures |r| == |s|
  {
    if |s| == 0 then []
    else Insert(SortBy(s[..|s| - 1], le), s[|s| - 1], le)
  }

  /** The sort's result is a permutation of its input. */
  lemma {:induction false} SortByPermutes<T>(s: seq<T>, le: (T, T) -> bool)
    ensures multiset(SortBy(s, le)) == multiset(s)
  {
    if |s| > 0 {
      SortByPermutes(s[..|s| - 1], le);
      InsertPermutes(SortBy(s[..|s| - 1], le), s[|s| - 1], le);
      assert s == s[..|s| - 1] + [s[|s| - 1]];
    }
  }

  /** Appending an element that every element may precede keeps a list ordered. */
  lemma SortedSnoc<T>(s: seq<T>, y: T, le: (T, T) -> bool)
    requires SortedBy(s, le)
    requires forall e :: e in s ==> le(e, y)
    ensures SortedBy(s + [y], le)
  {
    var r := s + [y];
    forall i, j | 0 <= i < j < |r|
      ensures le(r[i], r[j])
    {
      if j == |s| {
        assert r[i] == s[i] && s[i] in s;
      } else {
        assert r[i] == s[i] && r[j] == s[j];
      }
    }
  }

  /** Inserting into an ordered list keeps it ordered. */
  lemma {:induction false} InsertSorted<T(!new)>(s: seq<T>, x: T, le: (T, T) -> bool)
    requires TotalPreorder(le)
    requires SortedBy(s, le)
    ensures SortedBy(Insert(s, x, le), le)
  {
    if |s| > 0 {
      var n := |s|;
      if le(s[n - 1], x) {
        AppendBehindLast(s, x, le);
      } else {
        var front := s[..n - 1];
        assert SortedBy(front, le);
        InsertSorted(front, x, le);
        InsertBeforeLast(s, x, le);
      }
    }
  }

  /** An element the last one may precede goes at the end of an ordered list. */
  lemma AppendBehindLast<T(!new)>(s: seq<T>, x: T, le: (T, T) -> bool)
    requires TotalPreorder(le) && SortedBy(s, le)
    requires |s| > 0 && le(s[|s| - 1], x)
    ensures SortedBy(s + [x], le)
  {
    var n := |s|;
    forall e | e in s
      ensures le(e, x)
    {
      var i :| 0 <= i < n && s[i] == e;
      if i < n - 1 {
        assert le(s[i], s[n - 1]);
      }
    }
    SortedSnoc(s, x, le);
  }

  /** The last element of an ordered list stays behind `x` inserted into the rest, when `x` must not follow it. */
  lemma InsertBeforeLast<T(!new)>(s: seq<T>, x: T, le: (T, T) -> bool)
    requires TotalPreorder(le) && SortedBy(s, le)
    requires |s| > 0 && !le(s[|s| - 1], x)
    requires SortedBy(Insert(s[..|s| - 1], x, le), le)
    ensures SortedBy(Insert(s[..|s| - 1], x, le) + [s[|s| - 1]], le)
  {
    var n := |s|;
    var front, last := s[..n - 1], s[n - 1];
    var r' := Insert(front, x, le);
    InsertPermutes(front, x, le);
    assert le(x, last);
    forall e | e in r'
      ensures le(e, last)
    {
      assert e in multiset(r');
      if e != x {
        assert e in multiset(front);
        var i :| 0 <= i < n - 1 && front[i] == e;
        assert s[i] == e;
      }
    }
    SortedSnoc(r', last, le);
  }

  /** The sort's result is ordered by `le`. */
  lemma {:induction false} SortBySorted<T(!new)>(s: seq<T>, le: (T, T) -> bool)
    requires TotalPreorder(le)
    ensures SortedBy(SortBy(s, le), le)
  {
    if |s| > 0 {
      SortBySorted(s[..|s| - 1], le);
      InsertSorted(SortBy(s[..|s| - 1], le), s[|s| - 1], le);
    }
  }

  /** A list that is already in order is left unchanged. */
  lemma {:induction false} SortByOfSorted<T>(s: seq<T>, le: (T, T) -> bool)
    requires SortedBy(s, le)
    ensures SortBy(s, le) == s
  {
    if |s| > 0 {
      var front := s[..|s| - 1];
      SortByOfSorted(front, le);
      assert s == front + [s[|s| - 1]];
    }
  }

  /** Sorting a list with one more element at the end inserts it into the sorted rest. */
  lemma SortByAppend<T>(s: seq<T>, x: T, le: (T, T) -> bool)
    ensures SortBy(s + [x], le) == Insert(SortBy(s, le), x, le)
  {
    assert (s + [x])[..|s|] == s;
  }

  /** One step of inserting from the right: `x` moves past an element it must not follow. */
  lemma InsertShift<T>(s: seq<T>, j: nat, x: T, le: (T, T) -> bool)
    requires 0 < j <= |s| && !le(s[j - 1], x)
    ensures Insert(s[..j], x, le) + s[j..] == Insert(s[..j - 1], x, le) + s[j - 1..]
  {
    assert s[..j][..j - 1] == s[..j - 1];
    assert s[j - 1..] == [s[j - 1]] + s[j..];
  }

  /** Insertion stops behind an element `x` may follow, or at the front. */
  lemma InsertStop<T>(s: seq<T>, j: nat, x: T, le: (T, T) -> bool)
    requires j <= |s| && (j == 0 || le(s[j - 1], x))
    ensures Insert(s[..j], x, le) == s[..j] + [x]
  {
  }

  /** Sorting one more element of a list inserts it into the sorted shorter prefix. */
  lemma SortByPrefix<T>(s: seq<T>, i: nat, le: (T, T) -> bool)
    requires i < |s|
    ensures SortBy(s[..i + 1], le) == Insert(SortBy(s[..i], le), s[i], le)
  {
    assert s[..i + 1] == s[..i] + [s[i]];
    SortByAppend(s[..i], s[i], le);
  }

  /** The elements `le` cannot tell apart from `x`: each may precede the other. */
  function TiedWith<T>(le: (T, T) -> bool, x: T): T -> bool
  {
    y => le(x, y) && le(y, x)
  }

  /**
    Inserting `e` keeps the order among the elements satisfying `p`, and puts
    `e` behind all of them when it satisfies `p` too, provided each of them
    may then precede `e`.
   */
  lemma {:induction false} InsertKeepsTies<T(!new)>(s: seq<T>, e: T, p: T -> bool, le: (T, T) -> bool)
    requires forall a :: a in s && p(a) && p(e) ==> le(a, e)
    ensures Filter(Insert(s, e, le), p) == Filter(s, p) + Filter([e], p)
  {
    if |s| == 0 {
    } else if le(s[|s| - 1], e) {
      FilterConcat(s, [e], p);
    } else {
      var front, last := s[..|s| - 1], s[|s| - 1];
      assert s == front + [last];
      assert last in s;
      assert Insert(s, e, le) == Insert(front, e, le) + [last];
      InsertKeepsTies(front, e, p, le);
      PassLast(Insert(front, e, le), front, last, e, p);
    }
  }

  /**
    The step of `InsertKeepsTies` where `e` moves in front of `last`: as
    they do not both satisfy `p`, the filtered pieces commute.
   */
  lemma PassLast<T(!new)>(r: seq<T>, front: seq<T>, last: T, e: T, p: T -> bool)
    requires !(p(last) && p(e))
    requires Filter(r, p) == Filter(front, p) + Filter([e], p)
    ensures Filter(r + [last], p) == Filter(front + [last], p) + Filter([e], p)
  {
    FilterConcat(r, [last], p);
    FilterConcat(front, [last], p);
    FilterSingle(e, p);
    FilterSingle(last, p);
    if p(e) {
      assert Filter(r + [last], p) == Filter(front, p) + [e];
    } else {
      assert Filter(r + [last], p) == Filter(front, p) + Filter([last], p);
    }
  }

  lemma FilterSingle<T(!new)>(e: T, p: T -> bool)
    ensures Filter([e], p) == if p(e) then [e] else []
  {
    assert [e][1..] == [];
  }

  /** Two elements tied with `x` may precede each other. */
  lemma TiesMayPrecede<T(!new)>(le: (T, T) -> bool, x: T, a: T, b: T)
    requires TotalPreorder(le)
    ensures TiedWith(le, x)(a) && TiedWith(le, x)(b) ==> le(a, b)
  {
  }

  /**
    Stability: for a total preorder, the elements tied with any `x` come out
    of the sort in the order they went in.
   */
  lemma {:induction false} SortByStable<T(!new)>(s: seq<T>, x: T, le: (T, T) -> bool)
    requires TotalPreorder(le)
    ensures Filter(SortBy(s, le), TiedWith(le, x)) == Filter(s, TiedWith(le, x))
  {
    if |s| > 0 {
      var front, last := s[..|s| - 1], s[|s| - 1];
      SortByStable(front, x, le);
      forall a | a in SortBy(front, le)
        ensures TiedWith(le, x)(a) && TiedWith(le, x)(last) ==> le(a, last)
      {
        TiesMayPrecede(le, x, a, last);
      }
      InsertKeepsTies(SortBy(front, le), last, TiedWith(le, x), le);
      FilterConcat(front, [last], TiedWith(le, x));
      assert s == front + [last];
    }
  }

  /** `a.sort(cmp)`: sorts the array in place, with the result the stable sort specifies. */
  method SortInPlace<T>(a: array<T>, le: (T, T) -> bool)
    modifies a
    ensures a[..] == SortBy(old(a[..]), le)
  {
    ghost var orig := a[..];
    var i := 0;
    while i < a.Length
      invariant 0 <= i <= a.Length
      invariant a[..i] == SortBy(orig[..i], le)
      invariant forall k :: i <= k < a.Length ==> a[k] == orig[k]
    {
      SortByPrefix(orig, i, le);
      ghost var before := a[..];
      InsertAt(a, i, le);
      forall k | i + 1 <= k < a.Length
        ensures a[k] == orig[k]
      {
        assert a[k] == a[i + 1..][k - i - 1] == before[i + 1..][k - i - 1];
      }
      i := i + 1;
    }
    assert orig[..a.Length] == orig;
  }

  /** Moves `a[i]` left into the ordered prefix `a[..i]`; the rest of the array is untouched. */
  method InsertAt<T>(a: array<T>, i: nat, le: (T, T) -> bool)
    requires i < a.Length
    modifies a
    ensures a[..i + 1] == Insert(old(a[..i]), old(a[i]), le)
    ensures a[i + 1..] == old(a[i + 1..])
  {
    ghost var sorted := a[..i];
    ghost var rest := a[i + 1..];
    var x := a[i];
    var j := ShiftRight(a, i, x, le, sorted, rest);
    a[j] := x;
    InsertedAt(a[..i + 1], sorted, j, x);
  }

  /**
    Shifts right, by one place, the elements of `a[..i]` at the end that
    `x` must not follow, and returns the gap left for `x`.
   */
  method ShiftRight<T>(a: array<T>, i: nat, x: T, le: (T, T) -> bool, ghost sorted: seq<T>, ghost rest: seq<T>)
    returns (j: nat)
    requires i < a.Length && a[..i] == sorted && a[i + 1..] == rest
    modifies a
    ensures j <= i
    ensures forall k :: 0 <= k < j ==> a[k] == sorted[k]
    ensures forall k :: j < k <= i ==> a[k] == sorted[k - 1]
    ensures a[i + 1..] == rest
    ensures Insert(sorted, x, le) == sorted[..j] + [x] + sorted[j..]
  {
    j := i;
    assert sorted[..j] == sorted && sorted[j..] == [];
    while j > 0 && !le(a[j - 1], x)
      invariant 0 <= j <= i
      invariant forall k :: 0 <= k < j ==> a[k] == sorted[k]
      invariant forall k :: j < k <= i ==> a[k] == sorted[k - 1]
      invariant a[i + 1..] == rest
      invariant Insert(sorted, x, le) == Insert(sorted[..j], x, le) + sorted[j..]
    {
      InsertShift(sorted, j, x, le);
      a[j] := a[j - 1];
      j := j - 1;
    }
    InsertStop(sorted, j, x, le);
  }

  /** A sequence that agrees with `sorted` before `j`, holds `x` at `j` and is `sorted` shifted by one after it. */
  lemma InsertedAt<T>(s: seq<T>, sorted: seq<T>, j: nat, x: T)
    requires |s| == |sorted| + 1 && j <= |sorted|
    requires forall k :: 0 <= k < j ==> s[k] == sorted[k]
    requires s[j] == x
    requires forall k :: j < k < |s| ==> s[k] == sorted[k - 1]
    ensures s == sorted[..j] + [x] + sorted[j..]
  {
    var r := sorted[..j] + [x] + sorted[j..];
    forall k | 0 <= k < |s|
      ensures s[k] == r[k]
    {
      if k > j {
        assert r[k] == sorted[j..][k - j - 1];
      }
    }
  }
}
