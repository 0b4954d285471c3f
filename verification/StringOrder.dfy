/** The order of strings, and sets of them listed in it. */
module StringOrder {

  predicate AtMost(a: string, b: string) {
    a == "" || (b != "" && (a[0] < b[0] || (a[0] == b[0] && AtMost(a[1..], b[1..]))))
  }

  predicate Less(a: string, b: string) {
    a != b && AtMost(a, b)
  }

  lemma {:induction false} AtMostIsTotal(a: string, b: string)
    ensures AtMost(a, b) || AtMost(b, a)
  {
    if a != "" && b != "" {
      AtMostIsTotal(a[1..], b[1..]);
    }
  }

  lemma {:induction false} AtMostIsTransitive(a: string, b: string, c: string)
    requires AtMost(a, b) && AtMost(b, c)
    ensures AtMost(a, c)
  {
    if a != "" && b != "" && c != "" {
      if a[0] == b[0] && b[0] == c[0] {
        AtMostIsTransitive(a[1..], b[1..], c[1..]);
      }
    }
  }

  lemma {:induction false} AtMostIsAntisymmetric(a: string, b: string)
    requires AtMost(a, b) && AtMost(b, a)
    ensures a == b
  {
    if a != "" {
      AtMostIsAntisymmetric(a[1..], b[1..]);
      assert a == [a[0]] + a[1..] && b == [b[0]] + b[1..];
    }
  }

  // ------------------------------------------------------------- least and sorted

  ghost predicate IsLeast(s: set<string>, m: string) {
    m in s && forall x :: x in s ==> AtMost(m, x)
  }

  lemma {:induction false} HasLeast(s: set<string>) returns (m: string)
    requires s != {}
    ensures IsLeast(s, m)
    decreases s
  {
    m :| m in s;
    AtMostIsTotal(m, m);
    if s != {m} {
      var n := HasLeast(s - {m});
      AtMostIsTotal(m, n);
      if AtMost(n, m) {
        m := n;
      } else {
        forall x | x in s
          ensures AtMost(m, x)
        {
          if x != m {
            AtMostIsTransitive(m, n, x);
          }
        }
      }
    }
  }

  lemma {:induction false} LeastIsUnique(s: set<string>, m: string, n: string)
    requires IsLeast(s, m) && IsLeast(s, n)
    ensures m == n
  {
    AtMostIsAntisymmetric(m, n);
  }

  ghost predicate Lists(ids: seq<string>, s: set<string>) {
    && (forall i, j :: 0 <= i < j < |ids| ==> Less(ids[i], ids[j]))
    && forall id :: id in ids <==> id in s
  }

  /** The members of a set in their order. */
  ghost function Sorted(s: set<string>): (ids: seq<string>)
    ensures Lists(ids, s)
    ensures s != {} ==> IsLeast(s, ids[0])
    decreases s
  {
    if s == {} then []
    else
      var m := Least(s);
      var rest := Sorted(s - {m});
      assert forall id :: id in [m] + rest <==> id == m || id in rest;
      [m] + rest
  }

  ghost function Least(s: set<string>): (m: string)
    requires s != {}
    ensures IsLeast(s, m)
  {
    LeastExists(s);
    var m :| IsLeast(s, m);
    m
  }

  lemma {:induction false} LeastExists(s: set<string>)
    requires s != {}
    ensures exists m :: IsLeast(s, m)
  {
    var m := HasLeast(s);
  }

  /** The smallest member of a set, by looking at one after another. */
  method FindLeast(s: set<string>) returns (m: string)
    requires s != {}
    ensures m == Least(s)
  {
    m :| m in s;
    AtMostIsTotal(m, m);
    var left := s - {m};
    while left != {}
      invariant left <= s && IsLeast(s - left, m)
      decreases left
    {
      var x :| x in left;
      var before := m;
      AtMostIsTotal(x, m);
      AtMostIsTotal(x, x);
      if AtMost(x, m) {
        m := x;
      }
      forall y | y in s - (left - {x})
        ensures AtMost(m, y)
      {
        if y != x {
          AtMostIsTransitive(m, before, y);
        }
      }
      left := left - {x};
    }
    assert s - left == s;
    LeastIsUnique(s, m, Least(s));
  }

  /** Lists a set in order. */
  method Sort(s: set<string>) returns (ids: seq<string>)
    ensures ids == Sorted(s)
  {
    ids := [];
    var left := s;
    while left != {}
      invariant ids + Sorted(left) == Sorted(s)
      decreases left
    {
      var m := FindLeast(left);
      assert Sorted(left) == [m] + Sorted(left - {m});
      ids := ids + [m];
      left := left - {m};
    }
    assert Sorted(left) == [];
  }

  /** What is listed before all others of a subset is its least member. */
  lemma {:induction false} FirstListedIsLeast(ids: seq<string>, s: set<string>, part: set<string>, k: nat)
    requires Lists(ids, s) && part <= s && k < |ids| && ids[k] in part
    requires forall i :: 0 <= i < k ==> ids[i] !in part
    ensures IsLeast(part, ids[k])
  {
    forall x | x in part
      ensures AtMost(ids[k], x)
    {
      assert x in ids;
      var j :| 0 <= j < |ids| && ids[j] == x;
      AtMostIsTotal(x, x);
    }
  }

  lemma {:induction false} SortedOne(a: string)
    ensures Sorted({a}) == [a]
  {
    assert {a} - {a} == {};
    assert Sorted({}) == [];
  }

  lemma {:induction false} SortedPair(a: string, b: string)
    requires Less(a, b)
    ensures Sorted({a, b}) == [a, b]
  {
    AtMostIsTotal(a, a);
    LeastIsUnique({a, b}, a, Least({a, b}));
    assert {a, b} - {a} == {b};
    SortedOne(b);
  }

  /** Strings are ordered by the first characters in which they differ, and prefixes come first. */
  lemma {:induction false} OrderIsLexicographic(p: string, c: char, d: char, x: string, y: string)
    requires c != d
    ensures AtMost(p + [c] + x, p + [d] + y) <==> c < d
    ensures AtMost(p, p + x)
  {
    if p != "" {
      OrderIsLexicographic(p[1..], c, d, x, y);
      assert (p + [c] + x)[1..] == p[1..] + [c] + x && (p + [d] + y)[1..] == p[1..] + [d] + y;
      assert (p + x)[1..] == p[1..] + x;
    }
  }
}
