/** A type and facts about numbers, sets and sequences that several modules share. */
module Basics {
  datatype Option<+T> = None | Some(value: T)

  lemma {:induction false} MulMonotone(a: nat, b: nat, d: nat)
    requires a <= b
    ensures a * d <= b * d
  {
  }

  lemma {:induction false} QuotientMonotone(a: nat, b: nat, d: nat)
    requires d > 0 && a <= b
    ensures a / d <= b / d
  {
    var m, n := a / d, b / d;
    assert m * d <= a && b < n * d + d;
    if n + 1 <= m { MulMonotone(n + 1, m, d); }
  }

  lemma {:induction false} SubsetIsSmaller<T>(a: set<T>, b: set<T>)
    requires a <= b
    ensures |a| <= |b|
  {
    if a != {} {
      var x :| x in a;
      SubsetIsSmaller(a - {x}, b - {x});
    }
  }

  /** Putting an element in adds that element. */
  lemma {:induction false} InsertedSame<T>(s: seq<T>, at: nat, x: T)
    requires at <= |s|
    ensures multiset(s[..at] + [x] + s[at..]) == multiset(s) + multiset{x}
  {
    assert s == s[..at] + s[at..];
  }
}
