/** Sums over finite sets. */
module Sums {

  ghost function Sum<T>(s: set<T>, f: map<T, nat>): nat
    requires s <= f.Keys
  {
    if s == {} then 0 else var x :| x in s; f[x] + Sum(s - {x}, f)
  }

  /** The sum does not depend on the order in which it is taken. */
  lemma {:induction false} SumSplit<T>(s: set<T>, f: map<T, nat>, x: T)
    requires s <= f.Keys && x in s
    ensures Sum(s, f) == f[x] + Sum(s - {x}, f)
    decreases s
  {
    var y :| y in s && Sum(s, f) == f[y] + Sum(s - {y}, f);
    if y != x {
      SumSplit(s - {y}, f, x);
      SumSplit(s - {x}, f, y);
      assert s - {y} - {x} == s - {x} - {y};
    }
  }

  lemma {:induction false} SumSame<T>(s: set<T>, f: map<T, nat>, g: map<T, nat>)
    requires s <= f.Keys && s <= g.Keys && forall x :: x in s ==> f[x] == g[x]
    ensures Sum(s, f) == Sum(s, g)
    decreases s
  {
    if s != {} {
      var x :| x in s;
      SumSplit(s, f, x);
      SumSplit(s, g, x);
      SumSame(s - {x}, f, g);
    }
  }

  lemma {:induction false} SumUnion<T>(a: set<T>, b: set<T>, f: map<T, nat>)
    requires a !! b && a <= f.Keys && b <= f.Keys
    ensures Sum(a + b, f) == Sum(a, f) + Sum(b, f)
    decreases a
  {
    if a == {} {
      assert a + b == b;
    } else {
      var x :| x in a;
      SumSplit(a, f, x);
      SumSplit(a + b, f, x);
      SumUnion(a - {x}, b, f);
      assert a + b - {x} == (a - {x}) + b;
    }
  }

  lemma SumChange<T>(s: set<T>, f: map<T, nat>, g: map<T, nat>, x: T)
    requires s <= f.Keys && s <= g.Keys && x in s && forall t :: t in s && t != x ==> g[t] == f[t]
    ensures Sum(s, g) + f[x] == Sum(s, f) + g[x]
  {
    SumSplit(s, f, x);
    SumSplit(s, g, x);
    SumSame(s - {x}, f, g);
  }

  lemma SumAdd<T>(s: set<T>, f: map<T, nat>, g: map<T, nat>, x: T)
    requires s <= f.Keys && s + {x} <= g.Keys && x !in s && forall t :: t in s ==> g[t] == f[t]
    ensures Sum(s + {x}, g) == Sum(s, f) + g[x]
  {
    SumSplit(s + {x}, g, x);
    assert s + {x} - {x} == s;
    SumSame(s, f, g);
  }
}
