/**
  The JavaScript string behaviour the screens depend on: `split(c)[0]`,
  `split(c)`, `trim()`, `toLowerCase()`, `includes`, `startsWith`, the
  code-point ordering used to sort date strings, and decimal rendering of
  naturals (string concatenation of a number).
 */
module Text {

  /** `s.split(c)[0]`: the part of `s` before the first `c`, or all of `s` when there is none. */
  function BeforeFirst(s: string, c: char): (r: string)
    ensures |r| <= |s| && r == s[..|r|]
    ensures c !in r
    ensures |r| < |s| ==> s[|r|] == c
  {
    if |s| == 0 then ""
    else if s[0] == c then ""
    else [s[0]] + BeforeFirst(s[1..], c)
  }

  /** The pieces joined back with `sep` between consecutive ones (`Array.prototype.join`). */
  function Join(ps: seq<string>, sep: string): string
  {
    if |ps| == 0 then ""
    else if |ps| == 1 then ps[0]
    else ps[0] + sep + Join(ps[1..], sep)
  }

  /** `s.split(c)` for a one-character separator: never empty, and no piece holds `c`. */
  function Split(s: string, c: char): (r: seq<string>)
    ensures |r| >= 1
    ensures forall i :: 0 <= i < |r| ==> c !in r[i]
    decreases |s|
  {
    var head := BeforeFirst(s, c);
    if |head| == |s| then [s]
    else [head] + Split(s[|head| + 1..], c)
  }

  /** Splitting and joining with the same separator gives back the original string. */
  lemma {:induction false} JoinSplit(s: string, c: char)
    ensures Join(Split(s, c), [c]) == s
    decreases |s|
  {
    var head := BeforeFirst(s, c);
    if |head| < |s| {
      var rest := s[|head| + 1..];
      var tail := Split(rest, c);
      JoinSplit(rest, c);
      var ps := [head] + tail;
      assert Split(s, c) == ps;
      assert |ps| > 1 && ps[0] == head && ps[1..] == tail;
      assert Join(ps, [c]) == head + [c] + Join(tail, [c]);
      assert s == s[..|head|] + [s[|head|]] + rest;
    }
  }

  /** Joining separator-free pieces and splitting again gives back the pieces. */
  lemma {:induction false} SplitJoin(ps: seq<string>, c: char)
    requires |ps| >= 1
    requires forall i :: 0 <= i < |ps| ==> c !in ps[i]
    ensures Split(Join(ps, [c]), c) == ps
  {
    var s := Join(ps, [c]);
    if |ps| == 1 {
      BeforeFirstWithout(ps[0], c);
    } else {
      var tail := Join(ps[1..], [c]);
      assert s == ps[0] + [c] + tail;
      BeforeFirstStops(ps[0], c, tail);
      assert s[|ps[0]| + 1..] == tail;
      SplitJoin(ps[1..], c);
    }
  }

  lemma {:induction false} BeforeFirstWithout(s: string, c: char)
    requires c !in s
    ensures BeforeFirst(s, c) == s
  {
    if |s| > 0 {
      assert c !in s[1..];
      BeforeFirstWithout(s[1..], c);
    }
  }

  lemma {:induction false} BeforeFirstStops(a: string, c: char, b: string)
    requires c !in a
    ensures BeforeFirst(a + [c] + b, c) == a
  {
    if |a| > 0 {
      assert (a + [c] + b)[1..] == a[1..] + [c] + b;
      BeforeFirstStops(a[1..], c, b);
    }
  }

  /** The characters `String.prototype.trim` removes (white space and line terminators). */
  predicate IsJsSpace(ch: char)
  {
    ch == '\t' || ch == '\n' || ch == '\U{000B}' || ch == '\U{000C}' || ch == '\r' ||
    ch == ' ' || ch == '\U{00A0}' || ch == '\U{1680}' ||
    ('\U{2000}' <= ch <= '\U{200A}') || ch == '\U{2028}' || ch == '\U{2029}' ||
    ch == '\U{202F}' || ch == '\U{205F}' || ch == '\U{3000}' || ch == '\U{FEFF}'
  }

  predicate AllSpace(s: string)
  {
    forall i :: 0 <= i < |s| ==> IsJsSpace(s[i])
  }

  /** Neither end of `s` is white space. */
  predicate Trimmed(s: string)
  {
    |s| == 0 || (!IsJsSpace(s[0]) && !IsJsSpace(s[|s| - 1]))
  }

  function TrimStart(s: string): (r: string)
    ensures |r| <= |s| && r == s[|s| - |r|..]
    ensures AllSpace(s[..|s| - |r|])
    ensures |r| == 0 || !IsJsSpace(r[0])
  {
    if |s| == 0 then ""
    else if IsJsSpace(s[0]) then TrimStart(s[1..])
    else s
  }

  function TrimEnd(s: string): (r: string)
    ensures |r| <= |s| && r == s[..|r|]
    ensures AllSpace(s[|r|..])
    ensures |r| == 0 || !IsJsSpace(r[|r| - 1])
  {
    if |s| == 0 then ""
    else if IsJsSpace(s[|s| - 1]) then
      var t := s[..|s| - 1];
      var r := TrimEnd(t);
      assert s[..|r|] == t[..|r|];
      assert s[|r|..] == t[|r|..] + [s[|s| - 1]];
      r
    else s
  }

  /** How many white-space characters `s` starts with. */
  function LeadingSpaces(s: string): (n: nat)
    ensures n <= |s| && AllSpace(s[..n])
    ensures n < |s| ==> !IsJsSpace(s[n])
  {
    |s| - |TrimStart(s)|
  }

  /**
    `s.trim()`: the result is the slice of `s` after its leading white space,
    only white space follows it, and it neither starts nor ends with white
    space (or is empty).
   */
  function Trim(s: string): (r: string)
    ensures Trimmed(r)
    ensures LeadingSpaces(s) + |r| <= |s|
    ensures r == s[LeadingSpaces(s)..LeadingSpaces(s) + |r|]
    ensures AllSpace(s[LeadingSpaces(s) + |r|..])
  {
    var t := TrimStart(s);
    var r := TrimEnd(t);
    assert s[LeadingSpaces(s) + |r|..] == t[|r|..];
    r
  }

  lemma TrimKeepsTrimmed(s: string)
    requires Trimmed(s)
    ensures Trim(s) == s
  {
  }

  /** `toLowerCase` on the letters that have a one-character lower case in Latin-1. */
  function LowerChar(ch: char): char
  {
    if 'A' <= ch <= 'Z' || ('\U{00C0}' <= ch <= '\U{00DE}' && ch != '\U{00D7}')
    then (ch as int + 32) as char
    else ch
  }

  predicate IsUpper(ch: char)
  {
    'A' <= ch <= 'Z' || ('\U{00C0}' <= ch <= '\U{00DE}' && ch != '\U{00D7}')
  }

  function Lower(s: string): (r: string)
    ensures |r| == |s|
    ensures forall i :: 0 <= i < |s| ==> !IsUpper(r[i])
    ensures forall i :: 0 <= i < |s| && !IsUpper(s[i]) ==> r[i] == s[i]
    ensures forall i :: 0 <= i < |s| && IsUpper(s[i]) ==> r[i] as int == s[i] as int + 32
  {
    seq(|s|, i requires 0 <= i < |s| => LowerChar(s[i]))
  }

  lemma LowerIdempotent(s: string)
    ensures Lower(Lower(s)) == Lower(s)
  {
  }

  predicate StartsWith(s: string, prefix: string)
  {
    |prefix| <= |s| && s[..|prefix|] == prefix
  }

  /** `t` occurs in `s` starting at position `i`. */
  predicate OccursAt(s: string, t: string, i: int)
  {
    0 <= i && i + |t| <= |s| && s[i..i + |t|] == t
  }

  /** `s.includes(t)`, scanning `s` from the left. */
  function Contains(s: string, t: string): bool
    decreases |s|
  {
    if StartsWith(s, t) then true
    else if |s| <= |t| then false
    else Contains(s[1..], t)
  }

  /** The scan finds `t` exactly when `t` occurs somewhere in `s`. */
  lemma {:induction false} ContainsOccurs(s: string, t: string)
    ensures Contains(s, t) <==> exists i :: OccursAt(s, t, i)
    decreases |s|
  {
    if StartsWith(s, t) {
      assert OccursAt(s, t, 0);
    } else if |s| <= |t| {
      forall i | 0 <= i
        ensures !OccursAt(s, t, i)
      {
        if i == 0 && |t| <= |s| {
          assert s[0..|t|] == s[..|t|];
        }
      }
    } else {
      ContainsOccurs(s[1..], t);
      assert s[0..|t|] == s[..|t|];
      forall i | OccursAt(s, t, i)
        ensures OccursAt(s[1..], t, i - 1)
      {
        assert s[1..][i - 1..i - 1 + |t|] == s[i..i + |t|];
      }
      forall j | OccursAt(s[1..], t, j)
        ensures OccursAt(s, t, j + 1)
      {
        assert s[1..][j..j + |t|] == s[j + 1..j + 1 + |t|];
      }
    }
  }

  lemma ContainsEmpty(s: string)
    ensures Contains(s, "")
  {
  }

  /** Lexicographic order on the code points of two strings; `a` sorts no later than `b`. */
  predicate StrLe(a: string, b: string)
  {
    if |a| == 0 then true
    else if |b| == 0 then false
    else if a[0] != b[0] then a[0] < b[0]
    else StrLe(a[1..], b[1..])
  }

  lemma {:induction false} StrLeReflexive(a: string)
    ensures StrLe(a, a)
  {
    if |a| > 0 {
      StrLeReflexive(a[1..]);
    }
  }

  lemma {:induction false} StrLeTotal(a: string, b: string)
    ensures StrLe(a, b) || StrLe(b, a)
  {
    if |a| > 0 && |b| > 0 && a[0] == b[0] {
      StrLeTotal(a[1..], b[1..]);
    }
  }

  lemma {:induction false} StrLeTransitive(a: string, b: string, c: string)
    requires StrLe(a, b) && StrLe(b, c)
    ensures StrLe(a, c)
  {
    if |a| > 0 && |b| > 0 && |c| > 0 && a[0] == b[0] && b[0] == c[0] {
      StrLeTransitive(a[1..], b[1..], c[1..]);
    }
  }

  lemma {:induction false} StrLeAntisymmetric(a: string, b: string)
    requires StrLe(a, b) && StrLe(b, a)
    ensures a == b
  {
    if |a| > 0 && |b| > 0 {
      StrLeAntisymmetric(a[1..], b[1..]);
      assert a == [a[0]] + a[1..] && b == [b[0]] + b[1..];
    }
  }

  predicate StrLt(a: string, b: string)
  {
    StrLe(a, b) && a != b
  }

  predicate IsDigit(ch: char)
  {
    '0' <= ch <= '9'
  }

  predicate AllDigits(s: string)
  {
    forall i :: 0 <= i < |s| ==> IsDigit(s[i])
  }

  function DigitChar(d: nat): char
    requires d < 10
  {
    ('0' as int + d) as char
  }

  function Pow10(k: nat): (r: nat)
    ensures r >= 1
  {
    if k == 0 then 1 else 10 * Pow10(k - 1)
  }

  /** The value of a string of decimal digits, most significant first. */
  function DigitsValue(s: string): nat
    requires AllDigits(s)
  {
    if |s| == 0 then 0
    else
      assert IsDigit(s[0]);
      assert AllDigits(s[1..]);
      (s[0] as int - '0' as int) * Pow10(|s| - 1) + DigitsValue(s[1..])
  }

  /** The last `w` decimal digits of `n`, zero-padded on the left. */
  function Digits(n: nat, w: nat): (r: string)
    ensures |r| == w && AllDigits(r)
  {
    if w == 0 then ""
    else [DigitChar((n / Pow10(w - 1)) % 10)] + Digits(n % Pow10(w - 1), w - 1)
  }

  lemma MulLe(a: int, b: int, c: nat)
    requires a <= b
    ensures a * c <= b * c
  {
    var d := b - a;
    assert b * c == a * c + d * c;
  }

  /** `n` split at `p`: the quotient is a single digit, the remainder is below `p`. */
  lemma SplitAt(n: nat, p: nat)
    requires p > 0 && n < 10 * p
    ensures n / p < 10 && n % p < p && (n / p) * p + n % p == n
  {
    var q := n / p;
    assert n == q * p + n % p;
    if q >= 10 {
      MulLe(10, q, p);
    }
  }

  /** Euclidean division of `q * p + r` by `p` when `r < p`. */
  lemma DivModUnique(q: nat, p: nat, r: nat)
    requires r < p
    ensures (q * p + r) / p == q && (q * p + r) % p == r
  {
    var n := q * p + r;
    var q' := n / p;
    var r' := n % p;
    assert n == q' * p + r';
    if q' < q {
      MulLe(q' + 1, q, p);
    } else if q' > q {
      MulLe(q + 1, q', p);
    }
  }

  /** Numbers with the same quotient by `p` compare like their remainders, otherwise like their quotients. */
  lemma QuotientOrder(n: nat, m: nat, p: nat)
    requires p > 0
    ensures n / p < m / p ==> n < m
    ensures n / p == m / p ==> (n <= m <==> n % p <= m % p)
  {
    assert n == (n / p) * p + n % p && m == (m / p) * p + m % p;
    if n / p < m / p {
      MulLe(n / p + 1, m / p, p);
    }
  }

  lemma DigitCharValue(d: nat)
    requires d < 10
    ensures IsDigit(DigitChar(d)) && DigitChar(d) as int - '0' as int == d
  {
  }

  /** One step of the most-significant-first reading. */
  lemma DigitsHead(n: nat, w: nat)
    requires w > 0
    ensures Digits(n, w) == [DigitChar((n / Pow10(w - 1)) % 10)] + Digits(n % Pow10(w - 1), w - 1)
  {
  }

  lemma DigitsValueHead(s: string)
    requires |s| > 0 && AllDigits(s)
    ensures AllDigits(s[1..])
    ensures DigitsValue(s) == (s[0] as int - '0' as int) * Pow10(|s| - 1) + DigitsValue(s[1..])
  {
  }

  /** The leading digit of a `w`-digit rendering is the quotient by 10^(w-1). */
  lemma DigitsCons(n: nat, w: nat)
    requires 0 < w && n < Pow10(w)
    ensures Digits(n, w)[0] as int - '0' as int == n / Pow10(w - 1)
    ensures Digits(n, w)[1..] == Digits(n % Pow10(w - 1), w - 1)
  {
    var p := Pow10(w - 1);
    SplitAt(n, p);
    var q := n / p;
    assert q % 10 == q;
    DigitCharValue(q);
    var r := Digits(n, w);
    assert r == [DigitChar(q)] + Digits(n % p, w - 1);
    assert r[0] == DigitChar(q);
  }

  lemma {:induction false} DigitsValueBound(s: string)
    requires AllDigits(s)
    ensures DigitsValue(s) < Pow10(|s|)
  {
    if |s| > 0 {
      assert IsDigit(s[0]);
      DigitsValueBound(s[1..]);
      var d := s[0] as int - '0' as int;
      var p := Pow10(|s| - 1);
      MulLe(d, 9, p);
    }
  }

  /** A number below 10^w reads back from its `w` digits. */
  lemma {:induction false} DigitsRoundTrip(n: nat, w: nat)
    requires n < Pow10(w)
    ensures DigitsValue(Digits(n, w)) == n
  {
    if w > 0 {
      var p := Pow10(w - 1);
      SplitAt(n, p);
      var q, m := n / p, n % p;
      DigitCharValue(q);
      DigitsRoundTrip(m, w - 1);
      DigitsCons(n, w);
      DigitsValueHead(Digits(n, w));
    }
  }

  /** A digit string is the `w`-digit rendering of its value. */
  lemma {:induction false} ValueRoundTrip(s: string)
    requires AllDigits(s)
    ensures Digits(DigitsValue(s), |s|) == s
  {
    if |s| > 0 {
      var c, t := s[0], s[1..];
      assert IsDigit(c) && AllDigits(t);
      var d := c as int - '0' as int;
      var p := Pow10(|t|);
      var v' := DigitsValue(t);
      var v := DigitsValue(s);
      DigitsValueHead(s);
      assert v == d * p + v';
      DigitsValueBound(t);
      DivModUnique(d, p, v');
      assert v / p == d && v % p == v';
      assert d % 10 == d;
      DigitsHead(v, |s|);
      ValueRoundTrip(t);
      assert DigitChar(d) == c;
      assert Digits(v, |s|) == [c] + t;
      assert s == [c] + t;
    }
  }

  /** Fixed-width digit strings sort like the numbers they stand for. */
  lemma {:induction false} DigitsOrder(n: nat, m: nat, w: nat)
    requires n < Pow10(w) && m < Pow10(w)
    ensures StrLe(Digits(n, w), Digits(m, w)) <==> n <= m
  {
    if w > 0 {
      var p := Pow10(w - 1);
      DigitsCons(n, w);
      DigitsCons(m, w);
      QuotientOrder(n, m, p);
      QuotientOrder(m, n, p);
      if n / p == m / p {
        DigitsOrder(n % p, m % p, w - 1);
      }
    }
  }

  /** Comparing two strings whose first parts have equal length. */
  lemma {:induction false} StrLeConcat(a1: string, a2: string, b1: string, b2: string)
    requires |a1| == |b1|
    ensures StrLe(a1 + a2, b1 + b2) == if a1 == b1 then StrLe(a2, b2) else StrLe(a1, b1)
  {
    if |a1| > 0 {
      assert (a1 + a2)[1..] == a1[1..] + a2 && (b1 + b2)[1..] == b1[1..] + b2;
      StrLeConcat(a1[1..], a2, b1[1..], b2);
      if a1[0] == b1[0] {
        assert a1 == b1 <==> a1[1..] == b1[1..] by {
          assert a1 == [a1[0]] + a1[1..] && b1 == [b1[0]] + b1[1..];
        }
      }
    } else {
      assert a1 + a2 == a2 && b1 + b2 == b2;
    }
  }

  /** How many decimal digits `n` has. */
  function DigitCount(n: nat): (k: nat)
    ensures k >= 1 && n < Pow10(k)
    ensures n >= 10 ==> Pow10(k - 1) <= n
  {
    if n < 10 then 1 else 1 + DigitCount(n / 10)
  }

  /** What `"" + n` produces: the shortest decimal rendering of `n`. */
  function NatToString(n: nat): (r: string)
    ensures AllDigits(r) && |r| == DigitCount(n)
    ensures DigitsValue(r) == n
    ensures |r| > 1 ==> r[0] != '0'
  {
    var k := DigitCount(n);
    DigitsRoundTrip(n, k);
    if k > 1 then
      DigitsCons(n, k);
      SplitAt(n, Pow10(k - 1));
      Digits(n, k)
    else Digits(n, k)
  }

  lemma {:induction false} Pow10Add(x: nat, y: nat)
    ensures Pow10(x + y) == Pow10(x) * Pow10(y)
  {
    if x > 0 {
      Pow10Add(x - 1, y);
      assert Pow10(x + y) == 10 * Pow10(x - 1 + y);
    }
  }

  /** Reading a concatenation: the first part's value is shifted left by the second part's length. */
  lemma {:induction false} DigitsValueConcat(a: string, b: string)
    requires AllDigits(a) && AllDigits(b)
    ensures AllDigits(a + b)
    ensures DigitsValue(a + b) == DigitsValue(a) * Pow10(|b|) + DigitsValue(b)
  {
    var s := a + b;
    assert AllDigits(s) by {
      forall i | 0 <= i < |s|
        ensures IsDigit(s[i])
      {
        if i >= |a| {
          assert s[i] == b[i - |a|];
        }
      }
    }
    if |a| == 0 {
      assert s == b;
    } else {
      var t := a[1..];
      assert s[1..] == t + b;
      assert s[0] == a[0];
      DigitsValueHead(a);
      DigitsValueHead(s);
      DigitsValueConcat(t, b);
      var d := a[0] as int - '0' as int;
      var pt, pb := Pow10(|t|), Pow10(|b|);
      var vt, vb := DigitsValue(t), DigitsValue(b);
      Pow10Add(|t|, |b|);
      assert |s| - 1 == |t| + |b|;
      assert DigitsValue(s) == d * (pt * pb) + (vt * pb + vb);
      assert DigitsValue(a) == d * pt + vt;
      Distribute(d, pt, vt, pb);
    }
  }

  lemma Distribute(d: int, p: int, v: int, q: int)
    ensures (d * p + v) * q == d * (p * q) + v * q
  {
  }
}
