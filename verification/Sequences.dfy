/** Facts about sequences that the scheduling modules share. */
module Sequences {

  datatype Option<+T> = None | Some(value: T)

  ghost predicate Distinct<T>(s: seq<T>) {
    forall i, j :: 0 <= i < j < |s| ==> s[i] != s[j]
  }

  /** `a` occurs in `s` ahead of an occurrence of `b`. */
  ghost predicate Before<T>(s: seq<T>, a: T, b: T) {
    exists i, j :: 0 <= i < j < |s| && s[i] == a && s[j] == b
  }

  lemma BeforeConcat<T>(s: seq<T>, t: seq<T>, a: T, b: T)
    ensures Before(s + t, a, b) <==> Before(s, a, b) || Before(t, a, b) || (a in s && b in t)
  {
    var u := s + t;
    if i, j :| 0 <= i < j < |u| && u[i] == a && u[j] == b {
      if j < |s| {
        assert s[i] == a && s[j] == b;
      } else if i < |s| {
        assert s[i] == a && t[j - |s|] == b;
      } else {
        assert t[i - |s|] == a && t[j - |s|] == b;
      }
    }
    if i, j :| 0 <= i < j < |s| && s[i] == a && s[j] == b {
      assert u[i] == a && u[j] == b;
    }
    if i, j :| 0 <= i < j < |t| && t[i] == a && t[j] == b {
      assert u[i + |s|] == a && u[j + |s|] == b;
    }
    if a in s && b in t {
      var i :| 0 <= i < |s| && s[i] == a;
      var j :| 0 <= j < |t| && t[j] == b;
      assert u[i] == a && u[j + |s|] == b;
    }
  }

  lemma BeforeSingle<T>(x: T, a: T, b: T)
    ensures !Before([x], a, b)
  {
  }

  lemma {:induction false} DistinctCount<T>(s: seq<T>, x: T)
    requires Distinct(s)
    ensures multiset(s)[x] == if x in s then 1 else 0
  {
    if s != [] {
      var rest, last := s[..|s|-1], s[|s|-1];
      assert s == rest + [last];
      DistinctCount(rest, x);
      assert last !in rest;
    }
  }

  /** Duplicate-free sequences with the same members are permutations of each other. */
  lemma SameMembers<T>(s: seq<T>, t: seq<T>)
    requires Distinct(s) && Distinct(t)
    requires forall x :: x in s <==> x in t
    ensures multiset(s) == multiset(t)
  {
    forall x ensures multiset(s)[x] == multiset(t)[x] {
      DistinctCount(s, x);
      DistinctCount(t, x);
    }
  }

  lemma LastIsLast<T>(s: seq<T>, r: seq<T>)
    requires Distinct(r) && s != [] && multiset(s) == multiset(r)
    requires forall i, j :: 0 <= i < j < |s| ==> Before(r, s[i], s[j])
    ensures |r| == |s| && r[|r|-1] == s[|s|-1]
  {
    assert |s| == |multiset(s)| == |multiset(r)| == |r|;
    assert r[|r|-1] in multiset(s);
    var i :| 0 <= i < |s| && s[i] == r[|r|-1];
    assert i < |s| - 1 ==> Before(r, s[i], s[|s|-1]);
  }

  lemma OrderAheadOfLast<T>(r: seq<T>, last: T, a: T, b: T)
    requires Before(r + [last], a, b) && b != last
    ensures Before(r, a, b)
  {
    BeforeConcat(r, [last], a, b);
    BeforeSingle(last, a, b);
  }

  lemma SameWithoutLast<T>(s: seq<T>, r: seq<T>, last: T)
    requires multiset(s + [last]) == multiset(r + [last])
    ensures multiset(s) == multiset(r)
  {
    assert multiset(s) == multiset(s + [last]) - multiset{last};
    assert multiset(r) == multiset(r + [last]) - multiset{last};
  }

  /** Two orders of the same members are the same if every pair is. */
  lemma {:induction false} SamePairs<T>(s: seq<T>, r: seq<T>)
    requires Distinct(s) && Distinct(r) && multiset(s) == multiset(r)
    requires forall i, j :: 0 <= i < j < |s| ==> Before(r, s[i], s[j])
    ensures s == r
    decreases |s|
  {
    if s == [] {
      assert |r| == |multiset(r)|;
    } else {
      LastIsLast(s, r);
      var s', r', last := s[..|s|-1], r[..|s|-1], s[|s|-1];
      assert s == s' + [last] && r == r' + [last];
      SameWithoutLast(s', r', last);
      forall i, j | 0 <= i < j < |s'| ensures Before(r', s'[i], s'[j]) {
        assert Before(r, s[i], s[j]);
        OrderAheadOfLast(r', last, s[i], s[j]);
      }
      SamePairs(s', r');
    }
  }
}
