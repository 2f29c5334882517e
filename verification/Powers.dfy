/** Powers of two and the bit mask that stands for a remainder. */
module Powers {

  /** A number has one quotient and one remainder. */
  lemma DivModUnique(x: int, q: int, r: int, n: int)
    requires 0 <= r < n && x == q * n + r
    ensures x / n == q && x % n == r
  {
    var d := x / n - q;
    assert d * n == r - x % n;
    assert d >= 1 ==> d * n >= n;
    assert d <= -1 ==> d * n <= -n;
  }

  predicate IsPowerOfTwo(n: nat) {
    n == 1 || (n > 1 && n % 2 == 0 && IsPowerOfTwo(n / 2))
  }

  function NextPowerOfTwo(n: nat): (p: nat)
    ensures IsPowerOfTwo(p) && n <= p && (n <= 1 || p < 2 * n)
  {
    if n <= 1 then 1 else 2 * NextPowerOfTwo((n + 1) / 2)
  }

  /** Of two different powers of two the larger is at least twice the smaller. */
  lemma {:induction false} PowersAreApart(p: nat, q: nat)
    requires IsPowerOfTwo(p) && IsPowerOfTwo(q) && p < q
    ensures 2 * p <= q
  {
    if p > 1 {
      PowersAreApart(p / 2, q / 2);
    }
  }

  /** `NextPowerOfTwo` is the least power of two that is not below its argument. */
  lemma NextPowerOfTwoIsLeast(n: nat, q: nat)
    requires IsPowerOfTwo(q) && n <= q
    ensures NextPowerOfTwo(n) <= q
  {
    if q < NextPowerOfTwo(n) {
      PowersAreApart(q, NextPowerOfTwo(n));
    }
  }

  /** The bitwise conjunction of two naturals. */
  function BitAnd(a: nat, b: nat): nat {
    if a == 0 || b == 0 then 0
    else 2 * BitAnd(a / 2, b / 2) + if a % 2 == 1 && b % 2 == 1 then 1 else 0
  }

  lemma ModOfDouble(t: nat, m: nat)
    requires m > 0
    ensures t % (2 * m) == 2 * ((t / 2) % m) + t % 2
  {
    var q, r := (t / 2) / m, (t / 2) % m;
    assert t == q * (2 * m) + (2 * r + t % 2) by {
      assert t / 2 == q * m + r;
      assert q * (2 * m) == 2 * (q * m);
    }
    DivModUnique(t, q, 2 * r + t % 2, 2 * m);
  }

  /** Masking with a power of two less one takes the remainder by that power. */
  lemma {:induction false} MaskIsMod(t: nat, n: nat)
    requires IsPowerOfTwo(n)
    ensures BitAnd(t, n - 1) == t % n
  {
    if n > 1 {
      var m := n / 2;
      MaskIsMod(t / 2, m);
      ModOfDouble(t, m);
      assert (n - 1) / 2 == m - 1 && (n - 1) % 2 == 1;
    }
  }
}
