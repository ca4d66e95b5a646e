/** Sums of a function over a finite set. */
module SetSums {

  ghost function Sum<T>(s: set<T>, f: T -> int): int
    decreases s
  {
    if s == {} then 0 else
      var x :| x in s;
      f(x) + Sum(s - {x}, f)
  }

  lemma {:induction false} SumRemove<T>(s: set<T>, f: T -> int, x: T)
    requires x in s
    ensures Sum(s, f) == f(x) + Sum(s - {x}, f)
    decreases s
  {
    var y :| y in s && Sum(s, f) == f(y) + Sum(s - {y}, f);
    if x != y {
      SumRemove(s - {y}, f, x);
      SumRemove(s - {x}, f, y);
      assert s - {y} - {x} == s - {x} - {y};
    }
  }

  lemma {:induction false} SumAdd<T>(s: set<T>, f: T -> int, x: T)
    requires x !in s
    ensures Sum(s + {x}, f) == Sum(s, f) + f(x)
  {
    SumRemove(s + {x}, f, x);
    assert s + {x} - {x} == s;
  }

  lemma {:induction false} SumAgree<T>(s: set<T>, f: T -> int, g: T -> int)
    requires forall x :: x in s ==> f(x) == g(x)
    ensures Sum(s, f) == Sum(s, g)
    decreases s
  {
    if s != {} {
      var x :| x in s;
      SumRemove(s, f, x);
      SumRemove(s, g, x);
      SumAgree(s - {x}, f, g);
    }
  }

  lemma {:induction false} SumSubset<T>(s: set<T>, t: set<T>, f: T -> int)
    requires s <= t && forall x :: x in t ==> f(x) >= 0
    ensures 0 <= Sum(s, f) <= Sum(t, f)
    decreases t
  {
    if t != {} {
      var x :| x in t;
      SumRemove(t, f, x);
      if x in s {
        SumRemove(s, f, x);
      } else {
        assert s - {x} == s;
      }
      SumSubset(s - {x}, t - {x}, f);
    }
  }

  /** Overlapping sets: a sum of non-negative values over a union is at most the two sums. */
  lemma {:induction false} SumUnion<T>(s: set<T>, t: set<T>, f: T -> int)
    requires forall x :: x in s + t ==> f(x) >= 0
    ensures Sum(s + t, f) <= Sum(s, f) + Sum(t, f)
    decreases s
  {
    if s == {} {
      assert s + t == t;
    } else {
      var x :| x in s;
      SumRemove(s, f, x);
      SumUnion(s - {x}, t, f);
      if x in t {
        assert s - {x} + t == s + t;
      } else {
        SumRemove(s + t, f, x);
        assert s + t - {x} == s - {x} + t;
      }
    }
  }
}
