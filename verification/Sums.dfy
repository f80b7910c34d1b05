/** Finite sums over sets and maps. */
module Sums {
  ghost function SumOver<T(!new)>(s: set<T>, f: T -> nat): nat {
    if s == {} then 0 else var x :| x in s; f(x) + SumOver(s - {x}, f)
  }

  /** Any element may be taken first. */
  lemma {:induction false} SumPick<T(!new)>(s: set<T>, x: T, f: T -> nat)
    requires x in s
    ensures SumOver(s, f) == f(x) + SumOver(s - {x}, f)
  {
    var y :| y in s && SumOver(s, f) == f(y) + SumOver(s - {y}, f);
    if y != x {
      SumPick(s - {y}, x, f);
      SumPick(s - {x}, y, f);
      assert s - {y} - {x} == s - {x} - {y};
    }
  }

  lemma {:induction false} SumSame<T(!new)>(s: set<T>, f: T -> nat, g: T -> nat)
    requires forall x :: x in s ==> f(x) == g(x)
    ensures SumOver(s, f) == SumOver(s, g)
  {
    if s != {} {
      var x :| x in s;
      SumPick(s, x, f);
      SumPick(s, x, g);
      SumSame(s - {x}, f, g);
    }
  }

  lemma {:induction false} SumPlus<T(!new)>(s: set<T>, f: T -> nat, g: T -> nat, h: T -> nat)
    requires forall x :: x in s ==> h(x) == f(x) + g(x)
    ensures SumOver(s, h) == SumOver(s, f) + SumOver(s, g)
  {
    if s != {} {
      var x :| x in s;
      SumPick(s, x, f);
      SumPick(s, x, g);
      SumPick(s, x, h);
      SumPlus(s - {x}, f, g, h);
    }
  }

  /** Elements of no weight may be added. */
  lemma {:induction false} SumWiden<T(!new)>(s: set<T>, t: set<T>, f: T -> nat)
    requires s <= t && forall x :: x in t - s ==> f(x) == 0
    ensures SumOver(s, f) == SumOver(t, f)
    decreases t - s
  {
    if t - s == {} {
      assert s == t;
    } else {
      var x :| x in t - s;
      SumPick(s + {x}, x, f);
      assert s + {x} - {x} == s;
      SumWiden(s + {x}, t, f);
    }
  }

  lemma {:induction false} SumApart<T(!new)>(s: set<T>, t: set<T>, f: T -> nat)
    requires s !! t
    ensures SumOver(s + t, f) == SumOver(s, f) + SumOver(t, f)
  {
    if s == {} {
      assert s + t == t;
    } else {
      var x :| x in s;
      SumPick(s, x, f);
      SumPick(s + t, x, f);
      SumApart(s - {x}, t, f);
      assert s + t - {x} == s - {x} + t;
    }
  }

  lemma {:induction false} SumWithin<T(!new)>(s: set<T>, t: set<T>, f: T -> nat)
    requires s <= t
    ensures SumOver(s, f) <= SumOver(t, f)
  {
    SumApart(s, t - s, f);
    assert s + (t - s) == t;
  }

  function WeightAt<K, V>(m: map<K, V>, f: V -> nat): K -> nat {
    (k: K) => if k in m then f(m[k]) else 0
  }

  /** The total weight of a map's values. */
  ghost function MapSum<K(!new), V>(m: map<K, V>, f: V -> nat): nat {
    SumOver(m.Keys, WeightAt(m, f))
  }

  /** Storing at one key moves the total by that key's change alone. */
  lemma {:induction false} MapSumStore<K(!new), V>(m: map<K, V>, k: K, v: V, f: V -> nat)
    ensures MapSum(m[k := v], f) + WeightAt(m, f)(k) == MapSum(m, f) + f(v)
  {
    var m' := m[k := v];
    var rest := m.Keys - {k};
    SumPick(m'.Keys, k, WeightAt(m', f));
    assert m'.Keys - {k} == rest;
    SumSame(rest, WeightAt(m, f), WeightAt(m', f));
    if k in m { SumPick(m.Keys, k, WeightAt(m, f)); } else { assert rest == m.Keys; }
  }
}
