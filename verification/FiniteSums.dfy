/** Sums of integers over finite sets, used to state conservation laws. */
module FiniteSums {

  ghost function Sum<T>(s: set<T>, f: T -> int): int {
    if s == {} then 0 else
      var x :| x in s;
      f(x) + Sum(s - {x}, f)
  }

  /** The order in which the elements are picked does not matter. */
  lemma {:induction false} SumSplit<T>(s: set<T>, x: T, f: T -> int)
    requires x in s
    ensures Sum(s, f) == f(x) + Sum(s - {x}, f)
    decreases s
  {
    var y :| y in s && Sum(s, f) == f(y) + Sum(s - {y}, f);
    if y != x {
      SumSplit(s - {y}, x, f);
      SumSplit(s - {x}, y, f);
      assert s - {x} - {y} == s - {y} - {x};
    }
  }

  lemma {:induction false} SumLeq<T>(s: set<T>, f: T -> int, g: T -> int)
    requires forall x :: x in s ==> f(x) <= g(x)
    ensures Sum(s, f) <= Sum(s, g)
    decreases s
  {
    if s != {} {
      var x :| x in s;
      SumSplit(s, x, f);
      SumSplit(s, x, g);
      SumLeq(s - {x}, f, g);
    }
  }

  lemma {:induction false} SumCong<T>(s: set<T>, f: T -> int, g: T -> int)
    requires forall x :: x in s ==> f(x) == g(x)
    ensures Sum(s, f) == Sum(s, g)
  {
    SumLeq(s, f, g);
    SumLeq(s, g, f);
  }

  /** Elements that contribute nothing may be added or dropped. */
  lemma {:induction false} SumExtend<T>(s: set<T>, t: set<T>, f: T -> int)
    requires s <= t
    requires forall x :: x in t - s ==> f(x) == 0
    ensures Sum(s, f) == Sum(t, f)
    decreases t
  {
    var extra := t - s;
    if extra == {} {
      assert t == s + extra;
      assert t == s;
    } else {
      var x :| x in extra;
      SumSplit(t, x, f);
      SumExtend(s, t - {x}, f);
    }
  }

  lemma {:induction false} SumAdd<T>(s: set<T>, f: T -> int, g: T -> int, h: T -> int)
    requires forall x :: x in s ==> h(x) == f(x) + g(x)
    ensures Sum(s, h) == Sum(s, f) + Sum(s, g)
    decreases s
  {
    if s != {} {
      var x :| x in s;
      SumSplit(s, x, f);
      SumSplit(s, x, g);
      SumSplit(s, x, h);
      SumAdd(s - {x}, f, g, h);
    }
  }

  /** Changing the summand at one element changes the sum by the difference. */
  lemma {:induction false} SumUpdate<T>(s: set<T>, x: T, f: T -> int, g: T -> int)
    requires x in s
    requires forall y :: y in s && y != x ==> f(y) == g(y)
    ensures Sum(s, g) == Sum(s, f) - f(x) + g(x)
  {
    SumSplit(s, x, f);
    SumSplit(s, x, g);
    SumCong(s - {x}, f, g);
  }

  lemma {:induction false} SumSubset<T>(s: set<T>, t: set<T>, f: T -> int)
    requires s <= t && forall x :: x in t ==> f(x) >= 0
    ensures Sum(s, f) <= Sum(t, f)
    decreases t
  {
    var extra := t - s;
    if extra == {} {
      assert t == s + extra;
      assert t == s;
    } else {
      var x :| x in extra;
      SumSplit(t, x, f);
      SumSubset(s, t - {x}, f);
    }
  }
}
