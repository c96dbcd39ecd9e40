/** Sums over finite sets, for totals that do not depend on the order of a dictionary. */
module Sums {

  ghost function SumOver<K>(s: set<K>, f: K -> real): real {
    if s == {} then 0.0
    else
      var x :| x in s;
      f(x) + SumOver(s - {x}, f)
  }

  /** Any element can be taken out first. */
  lemma {:induction false} SumOverRemove<K>(s: set<K>, f: K -> real, x: K)
    requires x in s
    ensures SumOver(s, f) == f(x) + SumOver(s - {x}, f)
    decreases s
  {
    var y :| y in s && SumOver(s, f) == f(y) + SumOver(s - {y}, f);
    if y != x {
      SumOverRemove(s - {y}, f, x);
      SumOverRemove(s - {x}, f, y);
      assert s - {y} - {x} == s - {x} - {y};
    }
  }

  lemma {:induction false} SumOverSame<K>(s: set<K>, f: K -> real, g: K -> real)
    requires forall x :: x in s ==> f(x) == g(x)
    ensures SumOver(s, f) == SumOver(s, g)
    decreases s
  {
    if s != {} {
      var x :| x in s;
      SumOverRemove(s, f, x);
      SumOverRemove(s, g, x);
      SumOverSame(s - {x}, f, g);
    }
  }

  /** Changing `f` at one element changes the sum by exactly that difference. */
  lemma {:induction false} SumOverUpdate<K>(s: set<K>, f: K -> real, g: K -> real, x: K)
    requires x in s && forall y :: y in s && y != x ==> f(y) == g(y)
    ensures SumOver(s, g) == SumOver(s, f) - f(x) + g(x)
  {
    SumOverRemove(s, f, x);
    SumOverRemove(s, g, x);
    SumOverSame(s - {x}, f, g);
  }

  lemma {:induction false} SumOverAdd<K>(s: set<K>, f: K -> real, g: K -> real, h: K -> real)
    requires forall x :: x in s ==> h(x) == f(x) + g(x)
    ensures SumOver(s, h) == SumOver(s, f) + SumOver(s, g)
    decreases s
  {
    if s != {} {
      var x :| x in s;
      SumOverRemove(s, f, x);
      SumOverRemove(s, g, x);
      SumOverRemove(s, h, x);
      SumOverAdd(s - {x}, f, g, h);
    }
  }

  /** Elements on which `f` vanishes do not matter. */
  lemma {:induction false} SumOverSubset<K>(small: set<K>, s: set<K>, f: K -> real)
    requires small <= s && forall x :: x in s && x !in small ==> f(x) == 0.0
    ensures SumOver(small, f) == SumOver(s, f)
    decreases s
  {
    if small == s {
    } else {
      var x :| x in s && x !in small;
      SumOverRemove(s, f, x);
      SumOverSubset(small, s - {x}, f);
    }
  }
}
