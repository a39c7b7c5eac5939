/**
  Binomial coefficients as computed by the three helpers of the mathematical
  functions module. The reference definition is Pascal's rule; the helpers fold
  the product (n - b) / (b + 1) with exact integer division.

  Python 2's `/` and `//` on integers floor; every divisor here is a positive
  integer, for which Dafny's Euclidean `/` floors as well.
*/
module MathFuncs {

  /** The number of k-element subsets of an n-element set, by Pascal's rule. */
  function Choose(n: nat, k: nat): nat
  {
    if k == 0 then 1
    else if n == 0 then 0
    else Choose(n - 1, k - 1) + Choose(n - 1, k)
  }

  /** The accumulator of `reduce(lambda a, b: a * (n - b) / (b + 1), xrange(steps), 1)`. */
  function Fold(n: int, steps: nat): int
  {
    if steps == 0 then 1 else Fold(n, steps - 1) * (n - (steps - 1)) / steps
  }

  /** (-1)^k */
  function Sign(k: nat): int
  {
    if k == 0 then 1 else -Sign(k - 1)
  }

  lemma {:induction false} ChooseZero(n: nat)
    ensures Choose(n, 0) == 1
  {
  }

  /** A subset larger than the set does not exist. */
  lemma {:induction false} ChooseAbove(n: nat, k: nat)
    requires k > n
    ensures Choose(n, k) == 0
  {
    if n > 0 {
      ChooseAbove(n - 1, k - 1);
      ChooseAbove(n - 1, k);
    }
  }

  lemma {:induction false} ChooseAll(n: nat)
    ensures Choose(n, n) == 1
  {
    if n > 0 {
      ChooseAll(n - 1);
      ChooseAbove(n - 1, n);
    }
  }

  lemma {:induction false} ChooseOne(n: nat)
    ensures Choose(n, 1) == n
  {
    if n > 0 {
      ChooseOne(n - 1);
    }
  }

  /** The absorption identity (k + 1) C(n, k + 1) == (n - k) C(n, k). */
  lemma {:induction false} Absorption(n: nat, k: nat)
    ensures (k + 1) * Choose(n, k + 1) == (n - k) * Choose(n, k)
  {
    if n == 0 {
      if k > 0 {
        ChooseAbove(0, k);
      }
    } else if k == 0 {
      ChooseOne(n);
    } else {
      var a, b, c := Choose(n - 1, k), Choose(n - 1, k + 1), Choose(n - 1, k - 1);
      Absorption(n - 1, k);
      Absorption(n - 1, k - 1);
      assert (k + 1) * b == (n - 1 - k) * a;
      assert k * a == (n - k) * c;
      assert Choose(n, k + 1) == a + b;
      assert Choose(n, k) == c + a;
      Distribute(k + 1, a, b);
      Distribute(n - k, c, a);
      assert (k + 1) * a + (n - 1 - k) * a == n * a by { Distribute(a, k + 1, n - 1 - k); }
      assert k * a + (n - k) * a == n * a by { Distribute(a, k, n - k); }
    }
  }

  lemma Distribute(x: int, y: int, z: int)
    ensures x * (y + z) == x * y + x * z
    ensures (y + z) * x == y * x + z * x
  {
  }

  /** Symmetry: C(n, k) == C(n, n - k). */
  lemma {:induction false} Symmetry(n: nat, k: nat)
    requires k <= n
    ensures Choose(n, k) == Choose(n, n - k)
  {
    if k == 0 {
      ChooseAll(n);
    } else if k == n {
      ChooseAll(n);
    } else {
      Symmetry(n - 1, k - 1);
      Symmetry(n - 1, k);
      assert n - k == (n - 1 - k) + 1;
    }
  }

  /** An exact quotient is recovered by Euclidean division. */
  lemma ExactDivision(x: int, d: int)
    requires d > 0
    ensures (x * d) / d == x
  {
    var q, r := (x * d) / d, (x * d) % d;
    assert x * d == q * d + r && 0 <= r < d;
    assert (x - q) * d == r by { Distribute(d, x, -q); }
    if x - q >= 1 {
      MulAtLeast(x - q, d);
    } else if x - q <= -1 {
      MulAtLeast(q - x, d);
    }
  }

  lemma Commute(x: int, y: int)
    ensures x * y == y * x
  {
  }

  lemma NegateRight(x: int, y: int)
    ensures x * (-y) == -(x * y)
  {
  }

  lemma NegateLeft(x: int, y: int)
    ensures (-x) * y == -(x * y)
  {
  }

  lemma MulAtLeast(a: int, d: int)
    requires a >= 1 && d > 0
    ensures a * d >= d
  {
    assert a * d == (a - 1) * d + d by { Distribute(d, a - 1, 1); }
    assert (a - 1) * d >= 0;
  }

  /** After b fold steps over a non-negative n the accumulator is C(n, b): every division is exact. */
  lemma {:induction false} FoldIsChoose(n: nat, b: nat)
    ensures Fold(n, b) == Choose(n, b)
  {
    if b > 0 {
      FoldIsChoose(n, b - 1);
      Absorption(n, b - 1);
      var c, p, t := Choose(n, b), Choose(n, b - 1), n - (b - 1);
      assert Fold(n, b) == Fold(n, b - 1) * t / b;
      assert b * c == t * p;
      Commute(p, t);
      Commute(c, b);
      ExactDivision(c, b);
    }
  }

  /** The extension of C to any integer top argument, (-1)^k C(k - n - 1, k) below zero. */
  function GeneralChoose(n: int, k: nat): int
  {
    if n >= 0 then Choose(n, k) else Sign(k) * Choose(k - n - 1, k)
  }

  lemma {:induction false} SignStep(k: nat, x: int)
    ensures Sign(k + 1) * x == -(Sign(k) * x)
  {
  }

  lemma {:induction false} SignUnit(k: nat)
    ensures Sign(k) == 1 || Sign(k) == -1
  {
    if k > 0 {
      SignUnit(k - 1);
    }
  }

  /** Below zero every fold step is an exact division too. */
  lemma {:induction false} FoldIsGeneralChoose(n: int, b: nat)
    ensures Fold(n, b) == GeneralChoose(n, b)
  {
    if n >= 0 {
      FoldIsChoose(n, b);
    } else if b > 0 {
      FoldIsGeneralChoose(n, b - 1);
      var m: int := b - 1 - n;
      var c0, c1, c2 := Choose(m - 1, b - 1), Choose(m - 1, b), Choose(m, b);
      Absorption(m - 1, b - 1);
      assert b * c1 == (m - b) * c0;
      assert c2 == c0 + c1;
      assert b * c2 == m * c0 by {
        Distribute(b, c0, c1);
        Distribute(c0, b, m - b);
      }
      assert n - (b - 1) == -m;
      var f, s := Fold(n, b - 1), Sign(b - 1);
      assert f == s * c0 by {
        assert GeneralChoose(n, b - 1) == s * Choose(b - 1 - n - 1, b - 1);
        assert b - 1 - n - 1 == m - 1;
      }
      SignUnit(b - 1);
      FoldStepBelowZero(f, s, c0, c2, m, b);
      assert Sign(b) == -Sign(b - 1);
    }
  }

  /** One fold step below zero: from +-C(m - 1, b - 1) to -+C(m, b), dividing exactly. */
  lemma FoldStepBelowZero(f: int, s: int, c0: int, c2: int, m: int, b: int)
    requires s == 1 || s == -1
    requires f == s * c0
    requires b * c2 == m * c0
    requires b > 0
    ensures (f * (-m)) / b == -s * c2
  {
    NegateRight(c0, m);
    Commute(c0, m);
    Commute(c2, b);
    if s == 1 {
      assert f * (-m) == (-c2) * b by { NegateLeft(c2, b); }
      ExactDivision(-c2, b);
    } else {
      assert f == -c0;
      assert f * (-m) == c2 * b by { NegateLeft(c0, -m); NegateRight(c0, m); }
      ExactDivision(c2, b);
    }
  }

  /** `binomial_coefficient`: zero outside 0 <= k <= n, otherwise the fold over k steps. */
  function BinomialCoefficient(n: int, k: int): (r: int)
    ensures 0 <= k <= n ==> r == Choose(n, k)
    ensures !(0 <= k <= n) ==> r == 0
  {
    if 0 <= k <= n then
      FoldIsChoose(n, k);
      Fold(n, k)
    else 0
  }

  /** `binomial_coefficient2`: the same range check, then min(k, n - k) loop steps. */
  method BinomialCoefficient2(n: int, k: int) returns (p: int)
    ensures 0 <= k <= n ==> p == Choose(n, k)
    ensures !(0 <= k <= n) ==> p == 0
  {
    if 0 <= k <= n {
      p := 1;
      var steps := if k < n - k then k else n - k;
      for t := 0 to steps
        invariant p == Choose(n, t)
      {
        Absorption(n, t);
        assert p * (n - t) == Choose(n, t + 1) * (t + 1);
        ExactDivision(Choose(n, t + 1), t + 1);
        p := (p * (n - t)) / (t + 1);
      }
      if steps != k {
        Symmetry(n, k);
      }
    } else {
      p := 0;
    }
  }

  /** `binomial_coefficient3`: the fold without a range check; `xrange(k)` is empty for k <= 0. */
  function BinomialCoefficient3(n: int, k: int): (r: int)
    ensures k <= 0 ==> r == 1
    ensures k > 0 ==> r == GeneralChoose(n, k)
  {
    if k <= 0 then 1 else
      FoldIsGeneralChoose(n, k);
      Fold(n, k)
  }

  /** Without a range check the third helper agrees with the first for every k >= 0 when n >= 0. */
  lemma ThirdAgreesWithFirst(n: int, k: int)
    requires n >= 0 && k >= 0
    ensures BinomialCoefficient3(n, k) == BinomialCoefficient(n, k)
  {
    if k > n {
      ChooseAbove(n, k);
    }
  }

  /** Symmetry and the boundary values of the first helper. */
  lemma BinomialSymmetry(n: int, k: int)
    ensures BinomialCoefficient(n, k) == BinomialCoefficient(n, n - k)
    ensures n >= 0 ==> BinomialCoefficient(n, 0) == 1 && BinomialCoefficient(n, n) == 1
  {
    if 0 <= k <= n {
      Symmetry(n, k);
    }
    if n >= 0 {
      ChooseAll(n);
    }
  }

  /** The third helper does not vanish below zero: for n == -1 it gives -1 where the first gives 0. */
  lemma ThirdBelowZero()
    ensures BinomialCoefficient3(-1, 1) == -1
    ensures BinomialCoefficient(-1, 1) == 0
  {
  }
}
