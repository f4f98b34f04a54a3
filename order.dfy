/** Python's ordering of `str` values and its stable `sort`. */
module Order {

  /** Python's `a <= b` on `str`: lexicographic by code point, a proper prefix first. */
  predicate StrLeq(a: string, b: string)
    decreases |a|
  {
    a == [] || (b != [] && (a[0] < b[0] || (a[0] == b[0] && StrLeq(a[1..], b[1..]))))
  }

  /** Python's `a < b` on `str`. */
  predicate StrLess(a: string, b: string) {
    StrLeq(a, b) && a != b
  }

  lemma {:induction false} StrLeqReflexive(a: string)
    ensures StrLeq(a, a)
    decreases |a|
  {
    if a != [] {
      StrLeqReflexive(a[1..]);
    }
  }

  lemma {:induction false} StrLeqTotal(a: string, b: string)
    ensures StrLeq(a, b) || StrLeq(b, a)
    decreases |a|
  {
    if a != [] && b != [] && a[0] == b[0] {
      StrLeqTotal(a[1..], b[1..]);
    }
  }

  lemma {:induction false} StrLeqAntisymmetric(a: string, b: string)
    requires StrLeq(a, b) && StrLeq(b, a)
    ensures a == b
    decreases |a|
  {
    if a != [] {
      StrLeqAntisymmetric(a[1..], b[1..]);
      assert a == [a[0]] + a[1..] && b == [b[0]] + b[1..];
    }
  }

  lemma {:induction false} StrLeqTransitive(a: string, b: string, c: string)
    requires StrLeq(a, b) && StrLeq(b, c)
    ensures StrLeq(a, c)
    decreases |a|
  {
    if a != [] && a[0] == b[0] && b[0] == c[0] {
      StrLeqTransitive(a[1..], b[1..], c[1..]);
    }
  }

  /** Python's `(a1, a2) <= (b1, b2)` on pairs of `str`. */
  predicate PairLeq(a: (string, string), b: (string, string)) {
    StrLess(a.0, b.0) || (a.0 == b.0 && StrLeq(a.1, b.1))
  }

  lemma PairLeqTotal(a: (string, string), b: (string, string))
    ensures PairLeq(a, b) || PairLeq(b, a)
  {
    StrLeqTotal(a.0, b.0);
    StrLeqTotal(a.1, b.1);
  }

  lemma PairLeqTransitive(a: (string, string), b: (string, string), c: (string, string))
    requires PairLeq(a, b) && PairLeq(b, c)
    ensures PairLeq(a, c)
  {
    if a.0 == b.0 && b.0 == c.0 {
      StrLeqTransitive(a.1, b.1, c.1);
    } else {
      StrLeqReflexive(b.0);
      StrLeqTransitive(a.0, b.0, c.0);
      if a.0 == c.0 {
        StrLeqAntisymmetric(a.0, b.0);
      }
    }
  }

  /** `before` orders every pair and chains: what `list.sort` needs of its key order. */
  ghost predicate TotalPreorder<T(!new)>(before: (T, T) -> bool) {
    && (forall a, b :: before(a, b) || before(b, a))
    && (forall a, b, c :: before(a, b) && before(b, c) ==> before(a, c))
  }

  predicate SortedBy<T>(s: seq<T>, before: (T, T) -> bool) {
    forall i, j :: 0 <= i < j < |s| ==> before(s[i], s[j])
  }

  /** Puts `x` in front of the first element it may precede; among elements it
      ties with, `x` goes first. */
  function InsertBy<T>(x: T, s: seq<T>, before: (T, T) -> bool): (r: seq<T>)
    ensures multiset(r) == multiset(s) + multiset{x}
  {
    if s == [] then [x]
    else if before(x, s[0]) then [x] + s
    else
      assert s == [s[0]] + s[1..];
      [s[0]] + InsertBy(x, s[1..], before)
  }

  /** Python's `list.sort` with a key order: an insertion sort that inserts each
      element ahead of the later elements it ties with, so equal keys keep their
      original order. */
  function SortBy<T>(s: seq<T>, before: (T, T) -> bool): (r: seq<T>)
    ensures multiset(r) == multiset(s)
    ensures |r| == |s|
  {
    if s == [] then []
    else
      assert s == [s[0]] + s[1..];
      InsertBy(s[0], SortBy(s[1..], before), before)
  }

  lemma {:induction false} InsertBySorted<T(!new)>(x: T, s: seq<T>, before: (T, T) -> bool)
    requires TotalPreorder(before)
    requires SortedBy(s, before)
    ensures SortedBy(InsertBy(x, s, before), before)
    decreases |s|
  {
    if s == [] {
    } else if before(x, s[0]) {
    } else {
      var rest := InsertBy(x, s[1..], before);
      InsertBySorted(x, s[1..], before);
      assert before(s[0], x);
      forall y | y in rest
        ensures before(s[0], y)
      {
        assert y in multiset(rest);
      }
    }
  }

  /** Sorting yields an ordered permutation of its input. */
  lemma {:induction false} SortBySorted<T(!new)>(s: seq<T>, before: (T, T) -> bool)
    requires TotalPreorder(before)
    ensures SortedBy(SortBy(s, before), before)
    decreases |s|
  {
    if s != [] {
      SortBySorted(s[1..], before);
      InsertBySorted(s[0], SortBy(s[1..], before), before);
    }
  }

  /** Every non-empty finite set of strings has a least element. */
  lemma {:induction false} StrMinExists(s: set<string>)
    requires s != {}
    ensures exists m :: IsStrMin(m, s)
    decreases |s|
  {
    var x :| x in s;
    if s == {x} {
      StrLeqReflexive(x);
      assert IsStrMin(x, s);
    } else {
      StrMinExists(s - {x});
      var m :| IsStrMin(m, s - {x});
      StrLeqTotal(m, x);
      if StrLeq(m, x) {
        assert IsStrMin(m, s);
      } else {
        forall y | y in s
          ensures StrLeq(x, y)
        {
          if y == x {
            StrLeqReflexive(x);
          } else {
            StrLeqTransitive(x, m, y);
          }
        }
        assert IsStrMin(x, s);
      }
    }
  }

  predicate IsStrMin(m: string, s: set<string>) {
    m in s && forall y :: y in s ==> StrLeq(m, y)
  }

  lemma StrMinUnique(s: set<string>)
    ensures forall m1, m2 :: IsStrMin(m1, s) && IsStrMin(m2, s) ==> m1 == m2
  {
    forall m1, m2 | IsStrMin(m1, s) && IsStrMin(m2, s)
      ensures m1 == m2
    {
      StrLeqAntisymmetric(m1, m2);
    }
  }

  /** `sorted(names)` for a set of distinct names. */
  function SortedStrings(s: set<string>): (r: seq<string>)
    ensures |r| == |s|
    ensures forall x :: x in r <==> x in s
    ensures forall i, j :: 0 <= i < j < |r| ==> StrLess(r[i], r[j])
    decreases |s|
  {
    if s == {} then []
    else
      StrMinExists(s);
      StrMinUnique(s);
      var m :| IsStrMin(m, s);
      var rest := SortedStrings(s - {m});
      assert forall i :: 0 <= i < |rest| ==> rest[i] in s - {m};
      [m] + rest
  }
}
