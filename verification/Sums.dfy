/** Sums of real terms over a finite set. */
module Sums {
  ghost function Sum<K>(s: set<K>, f: K -> real): real {
    if s == {} then 0.0
    else
      var k :| k in s;
      f(k) + Sum(s - {k}, f)
  }

  /** Any element can be split off. */
  lemma {:induction false} SumRemove<K>(s: set<K>, f: K -> real, k: K)
    requires k in s
    ensures Sum(s, f) == f(k) + Sum(s - {k}, f)
    decreases s
  {
    var m :| m in s && Sum(s, f) == f(m) + Sum(s - {m}, f);
    if m != k {
      SumRemove(s - {m}, f, k);
      SumRemove(s - {k}, f, m);
      assert s - {m} - {k} == s - {k} - {m};
    }
  }

  lemma {:induction false} SumAtMost<K>(s: set<K>, t: set<K>, f: K -> real, g: K -> real)
    requires s <= t
    requires forall k :: k in s ==> f(k) <= g(k)
    requires forall k :: k in t && k !in s ==> 0.0 <= g(k)
    ensures Sum(s, f) <= Sum(t, g)
    decreases t
  {
    if t != {} {
      var k :| k in t;
      SumRemove(t, g, k);
      if k in s {
        SumRemove(s, f, k);
        SumAtMost(s - {k}, t - {k}, f, g);
      } else {
        SumAtMost(s, t - {k}, f, g);
      }
    } else {
      assert s == {};
    }
  }

  lemma {:induction false} SumSame<K>(s: set<K>, f: K -> real, g: K -> real)
    requires forall k :: k in s ==> f(k) == g(k)
    ensures Sum(s, f) == Sum(s, g)
    decreases s
  {
    SumAtMost(s, s, f, g);
    SumAtMost(s, s, g, f);
  }
}
