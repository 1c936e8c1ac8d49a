/** sorted() of a set of integers, and why its result is the only increasing listing of
    that set. */
module Sorting {

  /** Each element below every later one. */
  predicate StrictlyIncreasing(s: seq<int>) {
    forall i, j :: 0 <= i < j < |s| ==> s[i] < s[j]
  }

  /** m is the least member of s. */
  predicate IsLeast(m: int, s: set<int>) {
    m in s && forall y :: y in s ==> m <= y
  }

  lemma NoMemberMeansEmpty(s: set<int>)
    requires forall y :: y !in s
    ensures s == {}
  {
    assert forall y :: y in s <==> y in {};
  }

  lemma NonEmptyHasMember(s: set<int>)
    requires s != {}
    ensures exists y :: y in s
  {
    if forall y :: y !in s {
      NoMemberMeansEmpty(s);
      assert false;
    }
  }

  lemma {:induction false} MinimumExists(s: set<int>)
    requires s != {}
    ensures exists m :: IsLeast(m, s)
    decreases |s|
  {
    NonEmptyHasMember(s);
    var x :| x in s;
    if s == {x} {
      assert IsLeast(x, s);
    } else {
      var rest := s - {x};
      MinimumExists(rest);
      var m :| IsLeast(m, rest);
      var least := if x < m then x else m;
      forall y | y in s ensures least <= y {
        if y != x {
          assert y in rest;
        }
      }
      assert IsLeast(least, s);
    }
  }

  /** The least number of a non-empty set. */
  function Minimum(s: set<int>): (m: int)
    requires s != {}
    ensures IsLeast(m, s)
  {
    MinimumExists(s);
    var m :| IsLeast(m, s);
    m
  }

  /** sorted() of a set of frame numbers: each number once, in increasing order. */
  function SortedNumbers(s: set<int>): (r: seq<int>)
    ensures StrictlyIncreasing(r)
    ensures forall x :: x in r <==> x in s
    ensures |r| == |s|
    decreases |s|
  {
    if s == {} then []
    else
      var m := Minimum(s);
      var rest := SortedNumbers(s - {m});
      assert forall i :: 0 <= i < |rest| ==> rest[i] in s - {m};
      assert forall i :: 0 <= i < |rest| ==> m < rest[i];
      [m] + rest
  }

  /** Two increasing sequences with the same elements are equal. */
  lemma {:induction false} IncreasingUnique(a: seq<int>, b: seq<int>)
    requires StrictlyIncreasing(a) && StrictlyIncreasing(b)
    requires forall x :: x in a <==> x in b
    ensures a == b
    decreases |a|
  {
    if |a| > 0 && |b| > 0 {
      assert a[0] <= b[0] by {
        assert b[0] in b;
        assert b[0] in a;
        var j :| 0 <= j < |a| && a[j] == b[0];
      }
      assert b[0] <= a[0] by {
        assert a[0] in a;
        assert a[0] in b;
        var i :| 0 <= i < |b| && b[i] == a[0];
      }
      forall x ensures x in a[1..] <==> x in b[1..] {
        TailMembers(a, x);
        TailMembers(b, x);
      }
      IncreasingUnique(a[1..], b[1..]);
      assert a == [a[0]] + a[1..] && b == [b[0]] + b[1..];
    } else {
      HeadIsMember(a);
      HeadIsMember(b);
    }
  }

  /** A non-empty sequence holds its head (a hint that keeps the empty case free of
      checked statements). */
  lemma HeadIsMember(s: seq<int>)
    ensures |s| > 0 ==> s[0] in s
  {
  }

  /** In an increasing sequence, the tail holds exactly the members above the head. */
  lemma TailMembers(a: seq<int>, x: int)
    requires StrictlyIncreasing(a) && |a| > 0
    ensures x in a[1..] <==> x in a && a[0] < x
  {
    if x in a[1..] {
      var i :| 0 <= i < |a| - 1 && a[1..][i] == x;
      assert a[i + 1] == x;
    }
    if x in a && a[0] < x {
      var i :| 0 <= i < |a| && a[i] == x;
      assert a[1..][i - 1] == x;
    }
  }
}
