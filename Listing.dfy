/** Python's ordering of strings (code point by code point, a proper prefix
    first) and `sorted()` applied to a set of distinct file names. */
module Listing {

  /** `a < b` on Python strings. */
  predicate LexLess(a: string, b: string)
    decreases |a|
  {
    |b| > 0 && (|a| == 0 || a[0] < b[0] || (a[0] == b[0] && LexLess(a[1..], b[1..])))
  }

  lemma {:induction false} LexIrreflexive(a: string)
    ensures !LexLess(a, a)
    decreases |a|
  {
    if |a| > 0 {
      LexIrreflexive(a[1..]);
    }
  }

  lemma {:induction false} LexTransitive(a: string, b: string, c: string)
    requires LexLess(a, b) && LexLess(b, c)
    ensures LexLess(a, c)
    decreases |a|
  {
    if |a| > 0 && a[0] == b[0] && b[0] == c[0] {
      LexTransitive(a[1..], b[1..], c[1..]);
    }
  }

  lemma {:induction false} LexTotal(a: string, b: string)
    requires a != b
    ensures LexLess(a, b) || LexLess(b, a)
    decreases |a|
  {
    if |a| > 0 && |b| > 0 && a[0] == b[0] {
      assert a == [a[0]] + a[1..] && b == [b[0]] + b[1..];
      LexTotal(a[1..], b[1..]);
    }
  }

  lemma {:induction false} LexAsymmetric(a: string, b: string)
    requires LexLess(a, b)
    ensures !LexLess(b, a)
  {
    if LexLess(b, a) {
      LexTransitive(a, b, a);
      LexIrreflexive(a);
    }
  }

  predicate StrictlySorted(s: seq<string>)
  {
    forall i, j :: 0 <= i < j < |s| ==> LexLess(s[i], s[j])
  }

  /** m is the smallest name of the set. */
  predicate IsLeast(m: string, names: set<string>)
  {
    m in names && forall x :: x in names && x != m ==> LexLess(m, x)
  }

  lemma {:induction false} LeastExists(names: set<string>)
    requires names != {}
    ensures exists m :: IsLeast(m, names)
    decreases names
  {
    var x :| x in names;
    var rest := names - {x};
    if rest != {} {
      LeastExists(rest);
      var m :| IsLeast(m, rest);
      LexTotal(x, m);
      if LexLess(x, m) {
        forall y | y in names && y != x ensures LexLess(x, y) {
          if y != m {
            LexTransitive(x, m, y);
          }
        }
        assert IsLeast(x, names);
      } else {
        assert IsLeast(m, names);
      }
    } else {
      assert names == {x};
      assert IsLeast(x, names);
    }
  }

  lemma LeastUnique(m: string, n: string, names: set<string>)
    requires IsLeast(m, names) && IsLeast(n, names)
    ensures m == n
  {
    if m != n {
      LexAsymmetric(m, n);
    }
  }

  lemma LeastUniqueAll(names: set<string>)
    ensures forall m, n :: IsLeast(m, names) && IsLeast(n, names) ==> m == n
  {
    forall m, n | IsLeast(m, names) && IsLeast(n, names) ensures m == n {
      LeastUnique(m, n, names);
    }
  }

  /** The names in ascending order: what `sorted()` returns for them. */
  function SortedNames(names: set<string>): (r: seq<string>)
    ensures |r| == |names|
    ensures forall x :: x in r <==> x in names
    ensures StrictlySorted(r)
    decreases names
  {
    if names == {} then []
    else
      LeastExists(names);
      LeastUniqueAll(names);
      var m :| IsLeast(m, names);
      [m] + SortedNames(names - {m})
  }

  /** A strictly sorted sequence is determined by its elements. */
  lemma {:induction false} SortedUnique(r: seq<string>, q: seq<string>)
    requires StrictlySorted(r) && StrictlySorted(q)
    requires forall x :: x in r <==> x in q
    ensures r == q
    decreases |r|
  {
    assert r == [] <==> q == [] by {
      if r != [] { assert r[0] in r; }
      if q != [] { assert q[0] in q; }
    }
    if r != [] && q != [] {
      assert r[0] == q[0] by {
        assert q[0] in q && r[0] in r;
        assert forall x :: x in r && x != r[0] ==> LexLess(r[0], x);
        assert forall x :: x in q && x != q[0] ==> LexLess(q[0], x);
        LexAsymmetricAll();
      }
      TailElements(r, q);
      TailElements(q, r);
      SortedUnique(r[1..], q[1..]);
      assert r == [r[0]] + r[1..] && q == [q[0]] + q[1..];
    }
  }

  lemma LexAsymmetricAll()
    ensures forall a, b :: LexLess(a, b) ==> !LexLess(b, a)
  {
    forall a, b | LexLess(a, b) ensures !LexLess(b, a) {
      LexAsymmetric(a, b);
    }
  }

  lemma TailElements(r: seq<string>, q: seq<string>)
    requires StrictlySorted(r) && r != [] && q != [] && r[0] == q[0]
    requires forall x :: x in r <==> x in q
    ensures forall x :: x in r[1..] ==> x in q[1..]
  {
    forall x | x in r[1..] ensures x in q[1..] {
      var k :| 0 <= k < |r[1..]| && r[1..][k] == x;
      assert LexLess(r[0], r[k + 1]);
      LexIrreflexive(x);
      assert x in r;
      var l :| 0 <= l < |q| && q[l] == x;
      assert q[1..][l - 1] == x;
    }
  }

  /** A name that sorts after every listed name lands at the end of the
      listing. */
  lemma SortedNamesAppend(names: set<string>, n: string)
    requires forall x :: x in names ==> LexLess(x, n)
    ensures SortedNames(names + {n}) == SortedNames(names) + [n]
  {
    var r := SortedNames(names) + [n];
    forall i, j | 0 <= i < j < |r| ensures LexLess(r[i], r[j]) {
      if j == |r| - 1 {
        assert r[i] in SortedNames(names);
      }
    }
    SortedUnique(SortedNames(names + {n}), r);
  }

  /** A common prefix does not change the order. */
  lemma {:induction false} LexCommonPrefix(p: string, x: string, y: string)
    requires LexLess(x, y)
    ensures LexLess(p + x, p + y)
    decreases |p|
  {
    if p != [] {
      assert (p + x)[1..] == p[1..] + x && (p + y)[1..] == p[1..] + y;
      LexCommonPrefix(p[1..], x, y);
    } else {
      assert p + x == x && p + y == y;
    }
  }

  /** Between strings of one length the order is decided inside them, so
      whatever follows does not change it. */
  lemma {:induction false} LexSameLengthExtend(x: string, y: string, s: string, t: string)
    requires LexLess(x, y) && |x| == |y|
    ensures LexLess(x + s, y + t)
    decreases |x|
  {
    if x[0] == y[0] {
      assert (x + s)[1..] == x[1..] + s && (y + t)[1..] == y[1..] + t;
      LexSameLengthExtend(x[1..], y[1..], s, t);
    }
  }
}
