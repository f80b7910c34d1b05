/** How many tidy chains there are over a given set of functions, and how long they get. */
module ChainCount {
  import opened Basics
  import opened ContextBound

  function Power(base: nat, e: nat): nat {
    if e == 0 then 1 else base * Power(base, e - 1)
  }

  /** n! / (n - k)! : ordered choices of `k` out of `n`. */
  function Choices(n: nat, k: nat): nat
    requires k <= n
  {
    if k == 0 then 1 else n * Choices(n - 1, k - 1)
  }

  /** Choose `j` functions in order, each single or doubled, for `j` from 1 to `k`. */
  function Arrangements(n: nat, k: nat): nat
    requires k <= n
  {
    if k == 0 then 0 else Arrangements(n, k - 1) + Choices(n, k) * Power(2, k)
  }

  function Factorial(n: nat): nat {
    if n == 0 then 1 else n * Factorial(n - 1)
  }

  /** `Choices` is the quotient of factorials it is named for. */
  lemma {:induction false} ChoicesTimesFactorial(n: nat, k: nat)
    requires k <= n
    ensures Choices(n, k) * Factorial(n - k) == Factorial(n)
  {
    if k != 0 {
      ChoicesTimesFactorial(n - 1, k - 1);
      Associate(n, Choices(n - 1, k - 1), Factorial(n - k));
    }
  }

  lemma {:induction false} Associate(a: nat, b: nat, c: nat)
    ensures (a * b) * c == a * (b * c)
  {
  }

  /** Picking the first function, then arranging the rest. */
  lemma {:induction false} ArrangementsUnfold(n: nat, k: nat)
    requires 1 <= k <= n
    ensures Arrangements(n, k) == 2 * n * (1 + Arrangements(n - 1, k - 1))
  {
    if k == 1 {
      assert Choices(n, 1) * Power(2, 1) == 2 * n;
      assert Arrangements(n, 1) == Choices(n, 1) * Power(2, 1);
    } else {
      ArrangementsUnfold(n, k - 1);
      var c, p, a := Choices(n - 1, k - 1), Power(2, k - 1), Arrangements(n - 1, k - 2);
      assert (n * c) * (2 * p) == 2 * n * (c * p) by {
        Associate(n, c, 2 * p);
        Associate(2, n, c * p);
      }
      assert 2 * n * (1 + a + c * p) == 2 * n * (1 + a) + 2 * n * (c * p);
    }
  }

  // ---------------------------------------------------------------- length

  ghost predicate Over(chain: seq<nat>, funcs: set<nat>) {
    Tidy(chain) && Elements(chain) <= funcs
  }

  /** How much of a chain its first function takes: itself, or itself twice. */
  function FirstRun(chain: seq<nat>): (n: nat)
    requires chain != []
    ensures 1 <= n <= |chain|
  {
    if |chain| > 1 && chain[1] == chain[0] then 2 else 1
  }

  lemma {:induction false} RestIsOver(chain: seq<nat>, funcs: set<nat>)
    requires chain != [] && Over(chain, funcs)
    ensures Over(chain[FirstRun(chain)..], funcs - {chain[0]})
    ensures chain[0] in funcs
  {
    assert chain[0] in Elements(chain);
    var n := FirstRun(chain);
    forall x | x in Elements(chain[n..])
      ensures x in funcs - {chain[0]}
    {
      var i :| 0 <= i < |chain[n..]| && chain[n..][i] == x;
      assert chain[n + i] == x;
      assert x in Elements(chain);
    }
  }

  /** A tidy chain over `n` functions is at most `2n` long. */
  lemma {:induction false} TidyChainIsShort(chain: seq<nat>, funcs: set<nat>)
    requires Over(chain, funcs)
    ensures |chain| <= 2 * |funcs|
    decreases |chain|
  {
    if chain != [] {
      RestIsOver(chain, funcs);
      TidyChainIsShort(chain[FirstRun(chain)..], funcs - {chain[0]});
    }
  }

  // ---------------------------------------------------------------- number

  ghost function StartingWith(s: set<seq<nat>>, prefix: seq<nat>): set<seq<nat>> {
    set c | c in s && prefix <= c && FirstRunIs(c, prefix)
  }

  predicate FirstRunIs(c: seq<nat>, prefix: seq<nat>) {
    c != [] && c[..FirstRun(c)] == prefix
  }

  /** Chains sharing a prefix are as many as their tails. */
  lemma {:induction false} TailsAreAsMany(s: set<seq<nat>>, prefix: seq<nat>)
    requires forall c :: c in s ==> prefix <= c
    ensures |set c | c in s :: c[|prefix|..]| == |s|
  {
    var tails := set c | c in s :: c[|prefix|..];
    if s != {} {
      var one :| one in s;
      var rest := s - {one};
      TailsAreAsMany(rest, prefix);
      var restTails := set c | c in rest :: c[|prefix|..];
      assert one == prefix + one[|prefix|..];
      forall c | c in rest
        ensures c[|prefix|..] != one[|prefix|..]
      {
        assert c == prefix + c[|prefix|..];
      }
      assert tails == restTails + {one[|prefix|..]};
    }
  }

  lemma {:induction false} ChainsWithPrefix(s: set<seq<nat>>, funcs: set<nat>, prefix: seq<nat>, f: nat)
    requires forall c :: c in s ==> Over(c, funcs)
    requires f in funcs && (prefix == [f] || prefix == [f, f])
    ensures |StartingWith(s, prefix)| <= 1 + Arrangements(|funcs| - 1, |funcs| - 1)
    decreases |funcs|, 0
  {
    var chosen := StartingWith(s, prefix);
    var tails := set c | c in chosen :: c[|prefix|..];
    TailsAreAsMany(chosen, prefix);
    forall t | t in tails
      ensures Over(t, funcs - {f})
    {
      var c :| c in chosen && c[|prefix|..] == t;
      RestIsOver(c, funcs);
      assert |c[..FirstRun(c)]| == |prefix|;
      assert c[0] == prefix[0];
    }
    ChainsAreFew(tails, funcs - {f});
  }

  lemma {:induction false} ChainsFrom(s: set<seq<nat>>, funcs: set<nat>, firsts: set<nat>)
    requires firsts <= funcs && funcs != {}
    requires forall c :: c in s ==> Over(c, funcs) && c != [] && c[0] in firsts
    ensures |s| <= |firsts| * (2 * (1 + Arrangements(|funcs| - 1, |funcs| - 1)))
    decreases |funcs|, 1, |firsts|
  {
    if firsts == {} {
      assert s == {};
    } else {
      var f :| f in firsts;
      var rest := set c | c in s && c[0] != f;
      ChainsWithPrefix(s, funcs, [f], f);
      ChainsWithPrefix(s, funcs, [f, f], f);
      ChainsFrom(rest, funcs, firsts - {f});
      SplitByFirst(s, rest, f);
      NextShare(|firsts|, 2 * (1 + Arrangements(|funcs| - 1, |funcs| - 1)));
    }
  }

  lemma {:induction false} NextShare(n: nat, each: nat)
    requires n > 0
    ensures n * each == (n - 1) * each + each
  {
  }

  lemma {:induction false} SplitByFirst(s: set<seq<nat>>, rest: set<seq<nat>>, f: nat)
    requires forall c :: c in s ==> c != []
    requires rest == set c | c in s && c[0] != f
    ensures |s| <= |StartingWith(s, [f])| + |StartingWith(s, [f, f])| + |rest|
  {
    var one, two := StartingWith(s, [f]), StartingWith(s, [f, f]);
    forall c | c in s
      ensures c in one + two + rest
    {
      if c[0] == f { assert c[..FirstRun(c)] == [f] || c[..FirstRun(c)] == [f, f]; }
    }
    SubsetIsSmaller(s, one + two + rest);
  }

  /** There are at most `1 + sum over k of n!/(n-k)! * 2^k` tidy chains over `n` functions. */
  lemma {:induction false} ChainsAreFew(s: set<seq<nat>>, funcs: set<nat>)
    requires forall c :: c in s ==> Over(c, funcs)
    ensures |s| <= 1 + Arrangements(|funcs|, |funcs|)
    decreases |funcs|, 2
  {
    var n := |funcs|;
    var nonempty := s - {[]};
    forall c | c in nonempty
      ensures c[0] in funcs
    {
      assert c[0] in Elements(c);
    }
    if funcs == {} {
      assert nonempty == {};
    } else {
      ChainsFrom(nonempty, funcs, funcs);
      ArrangementsUnfold(n, n);
      Associate(n, 2, 1 + Arrangements(n - 1, n - 1));
    }
    assert s <= nonempty + {[]};
    assert |s| <= |nonempty| + 1 by { SubsetIsSmaller(s, nonempty + {[]}); }
  }
}
