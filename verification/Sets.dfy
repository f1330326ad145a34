/** Sizes and bounds of finite sets of natural numbers. */
module Sets {

  lemma {:induction false} Least(s: set<nat>) returns (m: nat)
    requires s != {}
    ensures m in s && forall x :: x in s ==> m <= x
    decreases |s|
  {
    var x: nat :| x in s;
    var rest := s - {x};
    m := x;
    if rest != {} {
      var m' := Least(rest);
      m := if m' < x then m' else x;
    }
    forall y | y in s
      ensures m <= y
    {
      assert y == x || y in rest;
    }
  }

  lemma {:induction false} Greatest(s: set<nat>) returns (m: nat)
    requires s != {}
    ensures m in s && forall x :: x in s ==> x <= m
    decreases |s|
  {
    var x: nat :| x in s;
    var rest := s - {x};
    m := x;
    if rest != {} {
      var m' := Greatest(rest);
      m := if m' > x then m' else x;
    }
    forall y | y in s
      ensures y <= m
    {
      assert y == x || y in rest;
    }
  }

  /** A set of numbers between two bounds has at most as many members as fit. */
  lemma {:induction false} BoundedSize(s: set<nat>, lo: nat, hi: int)
    requires lo <= hi + 1
    requires forall x :: x in s ==> lo <= x <= hi
    ensures |s| <= hi - lo + 1
    decreases hi - lo + 1
  {
    if lo == hi + 1 {
      assert s == {};
    } else {
      var rest := s - {hi};
      BoundedSize(rest, lo, hi - 1);
      assert s <= rest + {hi};
      SubsetSize(s, rest + {hi});
    }
  }

  lemma SubsetSize<T>(a: set<T>, b: set<T>)
    requires a <= b
    ensures |a| <= |b|
  {
    assert b == a + (b - a);
  }

  lemma DifferenceSize<T>(a: set<T>, b: set<T>)
    requires b <= a
    ensures |a - b| == |a| - |b|
  {
    assert a == (a - b) + b;
  }
}
