/**
  The array combinators the screens are written with: `filter`, a `reduce`
  that adds up one real field, and the keyed-collection bookkeeping of the
  store (unique primary keys, upsert by key, delete by key).
 */
module Seqs {

  /** Array.prototype.filter: the elements of `s` satisfying `p`, in their order. */
  function Filter<T(!new)>(s: seq<T>, p: T -> bool): (r: seq<T>)
    ensures |r| <= |s|
    ensures forall x :: x in r <==> x in s && p(x)
  {
    if |s| == 0 then []
    else if p(s[0]) then [s[0]] + Filter(s[1..], p)
    else Filter(s[1..], p)
  }

  /** Filtering commutes with concatenation, so the relative order is kept. */
  lemma {:induction false} FilterConcat<T(!new)>(a: seq<T>, b: seq<T>, p: T -> bool)
    ensures Filter(a + b, p) == Filter(a, p) + Filter(b, p)
  {
    if |a| == 0 {
      assert a + b == b;
    } else {
      assert (a + b)[1..] == a[1..] + b;
      FilterConcat(a[1..], b, p);
    }
  }

  lemma {:induction false} FilterKeepsAll<T(!new)>(s: seq<T>, p: T -> bool)
    requires forall x :: x in s ==> p(x)
    ensures Filter(s, p) == s
  {
    if |s| > 0 {
      assert forall x :: x in s[1..] ==> x in s;
      FilterKeepsAll(s[1..], p);
    }
  }

  lemma FilterDropsAll<T(!new)>(s: seq<T>, p: T -> bool)
    requires forall x :: x in s ==> !p(x)
    ensures Filter(s, p) == []
  {
  }

  /** Two predicates that agree on every element select the same elements. */
  lemma {:induction false} FilterCongruent<T(!new)>(s: seq<T>, p: T -> bool, q: T -> bool)
    requires forall x :: x in s ==> p(x) == q(x)
    ensures Filter(s, p) == Filter(s, q)
  {
    if |s| > 0 {
      assert forall x :: x in s[1..] ==> x in s;
      FilterCongruent(s[1..], p, q);
    }
  }

  /** A predicate and its complement split `s` into two lists covering it. */
  lemma {:induction false} FilterPartition<T(!new)>(s: seq<T>, p: T -> bool, q: T -> bool)
    requires forall x :: x in s ==> q(x) == !p(x)
    ensures |Filter(s, p)| + |Filter(s, q)| == |s|
    ensures multiset(Filter(s, p)) + multiset(Filter(s, q)) == multiset(s)
  {
    if |s| > 0 {
      assert forall x :: x in s[1..] ==> x in s;
      FilterPartition(s[1..], p, q);
      assert s == [s[0]] + s[1..];
    }
  }

  /** `reduce((acc, x) => acc + f(x), 0)`: a left fold from zero. */
  function Sum<T>(s: seq<T>, f: T -> real): real
  {
    if |s| == 0 then 0.0 else Sum(s[..|s| - 1], f) + f(s[|s| - 1])
  }

  lemma {:induction false} SumConcat<T>(a: seq<T>, b: seq<T>, f: T -> real)
    ensures Sum(a + b, f) == Sum(a, f) + Sum(b, f)
  {
    if |b| == 0 {
      assert a + b == a;
    } else {
      assert (a + b)[..|a + b| - 1] == a + b[..|b| - 1];
      SumConcat(a, b[..|b| - 1], f);
    }
  }

  lemma {:induction false} SumCons<T>(x: T, s: seq<T>, f: T -> real)
    ensures Sum([x] + s, f) == f(x) + Sum(s, f)
  {
    SumConcat([x], s, f);
    assert [x][..0] == [];
  }

  /** The totals of a predicate's selection and of its complement's add up to the whole total. */
  lemma {:induction false} SumPartition<T(!new)>(s: seq<T>, f: T -> real, p: T -> bool, q: T -> bool)
    requires forall x :: x in s ==> q(x) == !p(x)
    ensures Sum(Filter(s, p), f) + Sum(Filter(s, q), f) == Sum(s, f)
  {
    if |s| > 0 {
      assert forall x :: x in s[1..] ==> x in s;
      SumPartition(s[1..], f, p, q);
      SumCons(s[0], s[1..], f);
      assert s == [s[0]] + s[1..];
      if p(s[0]) {
        SumCons(s[0], Filter(s[1..], p), f);
      } else {
        SumCons(s[0], Filter(s[1..], q), f);
      }
    }
  }

  /** No two elements share a key (a primary-key constraint). */
  predicate UniqueKeys<T, K(==)>(s: seq<T>, key: T -> K)
  {
    forall i, j :: 0 <= i < |s| && 0 <= j < |s| && i != j ==> key(s[i]) != key(s[j])
  }

  predicate HasKey<T, K(==)>(s: seq<T>, k: K, key: T -> K)
  {
    exists i :: 0 <= i < |s| && key(s[i]) == k
  }

  /**
    `put`: replace the element with the same key, or append when there is none.
    On a collection with unique keys exactly one element has the new key
    afterwards, and that element is `x`.
   */
  function Put<T(!new), K(==)>(s: seq<T>, x: T, key: T -> K): (r: seq<T>)
    requires UniqueKeys(s, key)
    ensures UniqueKeys(r, key)
    ensures |r| == if HasKey(s, key(x), key) then |s| else |s| + 1
    ensures x in r
    ensures forall y :: y in r ==> y == x || (y in s && key(y) != key(x))
    ensures forall y :: y in s && key(y) != key(x) ==> y in r
  {
    if |s| == 0 then [x]
    else if key(s[0]) == key(x) then [x] + s[1..]
    else [s[0]] + Put(s[1..], x, key)
  }

  /** The predicate "this element's key is not `k`". */
  function KeyIsNot<T, K(==)>(k: K, key: T -> K): T -> bool
  {
    y => key(y) != k
  }

  /** `delete(k)`: every element whose key is `k` is dropped; deleting a missing key is harmless. */
  function DeleteKey<T(!new), K(==)>(s: seq<T>, k: K, key: T -> K): (r: seq<T>)
    ensures forall y :: y in r <==> y in s && key(y) != k
    ensures UniqueKeys(s, key) ==> UniqueKeys(r, key)
  {
    if UniqueKeys(s, key) then
      FilterKeepsKeys(s, KeyIsNot(k, key), key);
      Filter(s, KeyIsNot(k, key))
    else Filter(s, KeyIsNot(k, key))
  }

  /** Deleting the key of an element just appended removes exactly that element. */
  lemma DeleteKeyAppended<T(!new), K>(s: seq<T>, x: T, key: T -> K)
    requires !HasKey(s, key(x), key)
    ensures DeleteKey(s + [x], key(x), key) == s
  {
    var p := KeyIsNot(key(x), key);
    FilterConcat(s, [x], p);
    forall y | y in s
      ensures p(y)
    {
      var i :| 0 <= i < |s| && s[i] == y;
    }
    FilterKeepsAll(s, p);
  }

  lemma AppendKeepsKeys<T, K>(s: seq<T>, x: T, key: T -> K)
    requires UniqueKeys(s, key) && !HasKey(s, key(x), key)
    ensures UniqueKeys(s + [x], key)
  {
    var r := s + [x];
    forall i, j | 0 <= i < |r| && 0 <= j < |r| && i != j
      ensures key(r[i]) != key(r[j])
    {
      if i < |s| && j < |s| {
        assert r[i] == s[i] && r[j] == s[j];
      } else if i < |s| {
        assert r[i] == s[i];
      } else {
        assert r[j] == s[j];
      }
    }
  }

  lemma {:induction false} FilterKeepsKeys<T(!new), K>(s: seq<T>, p: T -> bool, key: T -> K)
    requires UniqueKeys(s, key)
    ensures UniqueKeys(Filter(s, p), key)
  {
    if |s| > 0 {
      var t := s[1..];
      assert UniqueKeys(t, key) by {
        forall i, j | 0 <= i < |t| && 0 <= j < |t| && i != j
          ensures key(t[i]) != key(t[j])
        {
          assert t[i] == s[i + 1] && t[j] == s[j + 1];
        }
      }
      FilterKeepsKeys(t, p, key);
      if p(s[0]) {
        var r := [s[0]] + Filter(t, p);
        forall i, j | 0 <= i < |r| && 0 <= j < |r| && i != j
          ensures key(r[i]) != key(r[j])
        {
          if i == 0 || j == 0 {
            var k := if i == 0 then j else i;
            assert r[k] in t;
            var m :| 0 <= m < |t| && t[m] == r[k];
            assert s[m + 1] == r[k];
          } else {
            assert r[i] == Filter(t, p)[i - 1] && r[j] == Filter(t, p)[j - 1];
          }
        }
      }
    }
  }
}
