/** Largest element of a finite set of integers. */
module Maxima {
  predicate IsMaximum(s: set<int>, m: int) {
    m in s && forall x :: x in s ==> x <= m
  }

  lemma Pick<T>(s: set<T>) returns (x: T)
    requires s != {}
    ensures x in s
  {
    x :| x in s;
  }

  lemma {:induction false} FindMaximum(s: set<int>) returns (m: int)
    requires s != {}
    ensures IsMaximum(s, m)
    decreases s
  {
    var x := Pick(s);
    var rest := s - {x};
    assert s == rest + {x};
    m := x;
    if rest != {} {
      var y := FindMaximum(rest);
      m := if x > y then x else y;
    }
  }

  /** SQL's MAX with a default for no rows. */
  function MaxOr(s: set<int>, default: int): (m: int)
    ensures s == {} ==> m == default
    ensures s != {} ==> IsMaximum(s, m)
  {
    if s == {} then default
    else
      assert exists m :: IsMaximum(s, m) by { var m := FindMaximum(s); }
      var m :| IsMaximum(s, m);
      m
  }
}
