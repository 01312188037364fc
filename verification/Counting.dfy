/** How many numbers below a bound satisfy a condition. */
module Counting {

  function CountBelow(n: nat, p: nat -> bool): nat {
    if n == 0 then 0 else CountBelow(n - 1, p) + if p(n - 1) then 1 else 0
  }

  /** The recursive count is the size of the set. */
  lemma {:induction false} CountIsSize(n: nat, p: nat -> bool)
    ensures CountBelow(n, p) == |set k: nat | k < n && p(k)|
  {
    if n > 0 {
      CountIsSize(n - 1, p);
      var before, all := set k: nat | k < n - 1 && p(k), set k: nat | k < n && p(k);
      if p(n - 1) {
        assert all == before + {n - 1};
      } else {
        assert all == before;
      }
    }
  }

  lemma {:induction false} CountSame(n: nat, p: nat -> bool, q: nat -> bool)
    requires forall k: nat :: k < n ==> p(k) == q(k)
    ensures CountBelow(n, p) == CountBelow(n, q)
  {
    if n > 0 {
      CountSame(n - 1, p, q);
    }
  }

  /** Counting from the first number on. */
  lemma {:induction false} CountFirst(n: nat, p: nat -> bool)
    requires n > 0
    ensures CountBelow(n, p) == (if p(0) then 1 else 0) + CountBelow(n - 1, (k: nat) => p(k + 1))
  {
    if n > 1 {
      CountFirst(n - 1, p);
    }
    var q: nat -> bool := (k: nat) => p(k + 1);
    CountSame(n - 1, q, (k: nat) => p(k + 1));
    if n > 1 {
      CountSame(n - 2, q, (k: nat) => p(k + 1));
    }
  }

  lemma {:induction false} CountGrows(m: nat, n: nat, p: nat -> bool)
    requires m <= n
    ensures CountBelow(m, p) <= CountBelow(n, p)
  {
    if m < n {
      CountGrows(m, n - 1, p);
    }
  }
}
