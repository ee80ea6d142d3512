/**
 * Python's bitwise operators on unbounded integers, used for the flag, permission and
 * restriction masks. `Bit(n, i)` is bit `i` of a non-negative `n`, and `And`, `Or` and
 * `AndNot` work on non-negative numbers; `IBit`, `IAnd`, `IOr` and `IAndNot` extend them
 * to negative integers in two's complement. The lemmas give each operator its meaning
 * bit by bit, and `BitsDetermine` and `IBitsDetermine` say that the bits determine the number.
 */
module Bits {

  function Pow2(i: nat): (r: nat)
    ensures r >= 1
  {
    if i == 0 then 1 else 2 * Pow2(i - 1)
  }

  predicate Bit(n: nat, i: nat)
    decreases i
  {
    if i == 0 then n % 2 == 1 else Bit(n / 2, i - 1)
  }

  /** `a | b` */
  function Or(a: nat, b: nat): nat
    decreases a + b
  {
    if a == 0 then b
    else if b == 0 then a
    else 2 * Or(a / 2, b / 2) + (if a % 2 == 1 || b % 2 == 1 then 1 else 0)
  }

  /** `a & b` */
  function And(a: nat, b: nat): nat
    decreases a + b
  {
    if a == 0 || b == 0 then 0
    else 2 * And(a / 2, b / 2) + (if a % 2 == 1 && b % 2 == 1 then 1 else 0)
  }

  /** `a & ~b`: `a` with the bits of `b` cleared. */
  function AndNot(a: nat, b: nat): nat
    decreases a + b
  {
    if a == 0 then 0
    else if b == 0 then a
    else 2 * AndNot(a / 2, b / 2) + (if a % 2 == 1 && b % 2 == 0 then 1 else 0)
  }

  lemma BitOfDouble(x: nat, c: nat, i: nat)
    requires c < 2
    ensures Bit(2 * x + c, i) == if i == 0 then c == 1 else Bit(x, i - 1)
  {
  }

  lemma BitOfZero(i: nat)
    ensures !Bit(0, i)
    decreases i
  {
    if i > 0 { BitOfZero(i - 1); }
  }

  lemma {:induction false} BitOr(a: nat, b: nat, i: nat)
    ensures Bit(Or(a, b), i) == (Bit(a, i) || Bit(b, i))
    decreases a + b
  {
    if a == 0 {
      BitOfZero(i);
    } else if b == 0 {
      BitOfZero(i);
    } else {
      BitOfDouble(Or(a / 2, b / 2), if a % 2 == 1 || b % 2 == 1 then 1 else 0, i);
      if i > 0 { BitOr(a / 2, b / 2, i - 1); }
    }
  }

  lemma {:induction false} BitAnd(a: nat, b: nat, i: nat)
    ensures Bit(And(a, b), i) == (Bit(a, i) && Bit(b, i))
    decreases a + b
  {
    if a == 0 || b == 0 {
      BitOfZero(i);
    } else {
      BitOfDouble(And(a / 2, b / 2), if a % 2 == 1 && b % 2 == 1 then 1 else 0, i);
      if i > 0 { BitAnd(a / 2, b / 2, i - 1); }
    }
  }

  lemma {:induction false} BitAndNot(a: nat, b: nat, i: nat)
    ensures Bit(AndNot(a, b), i) == (Bit(a, i) && !Bit(b, i))
    decreases a + b
  {
    if a == 0 {
      BitOfZero(i);
    } else if b == 0 {
      BitOfZero(i);
    } else {
      BitOfDouble(AndNot(a / 2, b / 2), if a % 2 == 1 && b % 2 == 0 then 1 else 0, i);
      if i > 0 { BitAndNot(a / 2, b / 2, i - 1); }
    }
  }

  lemma {:induction false} BitPow2(k: nat, i: nat)
    ensures Bit(Pow2(k), i) <==> i == k
    decreases k
  {
    if k == 0 {
      if i > 0 { BitOfZero(i - 1); }
    } else {
      BitOfDouble(Pow2(k - 1), 0, i);
      if i > 0 { BitPow2(k - 1, i - 1); }
    }
  }

  /** Two numbers with the same bits are equal. */
  lemma {:induction false} BitsDetermine(a: nat, b: nat)
    requires forall i: nat :: Bit(a, i) == Bit(b, i)
    ensures a == b
    decreases a + b
  {
    assert Bit(a, 0) == Bit(b, 0);
    if a != 0 || b != 0 {
      forall i: nat ensures Bit(a / 2, i) == Bit(b / 2, i) {
        assert Bit(a, i + 1) == Bit(b, i + 1);
      }
      if a / 2 + b / 2 < a + b {
        BitsDetermine(a / 2, b / 2);
      }
    }
  }

  /** Numbers below `2^i` have no bit at position `i` or above. */
  lemma {:induction false} BitHigh(n: nat, i: nat)
    requires n < Pow2(i)
    ensures !Bit(n, i)
    decreases i
  {
    if i > 0 {
      BitHigh(n / 2, i - 1);
    }
  }

  lemma {:induction false} Pow2Exceeds(n: nat)
    ensures n < Pow2(n)
  {
    if n > 0 {
      Pow2Exceeds(n - 1);
    }
  }

  /*
   * Python integers are unbounded two's complement: a negative `n` has the bits of
   * `~n == -n - 1` inverted, infinitely many of them set. The operators below extend
   * `And`, `Or` and `AndNot` to all integers through `~n`.
   */

  /** Bit `i` of any integer. */
  predicate IBit(n: int, i: nat) {
    if n >= 0 then Bit(n, i) else !Bit(-n - 1, i)
  }

  /** `a & b` on Python integers. */
  function IAnd(a: int, b: int): int {
    if a >= 0 && b >= 0 then And(a, b)
    else if a >= 0 then AndNot(a, -b - 1)
    else if b >= 0 then AndNot(b, -a - 1)
    else -(Or(-a - 1, -b - 1) as int) - 1
  }

  /** `a | b` on Python integers. */
  function IOr(a: int, b: int): int {
    if a >= 0 && b >= 0 then Or(a, b)
    else if a >= 0 then -(AndNot(-b - 1, a) as int) - 1
    else if b >= 0 then -(AndNot(-a - 1, b) as int) - 1
    else -(And(-a - 1, -b - 1) as int) - 1
  }

  /** `a & ~b` on Python integers. */
  function IAndNot(a: int, b: int): int {
    IAnd(a, -b - 1)
  }

  lemma IBitAnd(a: int, b: int, i: nat)
    ensures IBit(IAnd(a, b), i) == (IBit(a, i) && IBit(b, i))
  {
    if a >= 0 && b >= 0 {
      BitAnd(a, b, i);
    } else if a >= 0 {
      BitAndNot(a, -b - 1, i);
    } else if b >= 0 {
      BitAndNot(b, -a - 1, i);
    } else {
      BitOr(-a - 1, -b - 1, i);
    }
  }

  lemma IBitOr(a: int, b: int, i: nat)
    ensures IBit(IOr(a, b), i) == (IBit(a, i) || IBit(b, i))
  {
    if a >= 0 && b >= 0 {
      BitOr(a, b, i);
    } else if a >= 0 {
      BitAndNot(-b - 1, a, i);
    } else if b >= 0 {
      BitAndNot(-a - 1, b, i);
    } else {
      BitAnd(-a - 1, -b - 1, i);
    }
  }

  lemma IBitAndNot(a: int, b: int, i: nat)
    ensures IBit(IAndNot(a, b), i) == (IBit(a, i) && !IBit(b, i))
  {
    IBitAnd(a, -b - 1, i);
  }

  /** Bit `k` is the only bit of `2^k`. */
  lemma IBitPow2(k: nat, i: nat)
    ensures IBit(Pow2(k), i) <==> i == k
  {
    BitPow2(k, i);
  }

  /** Two integers with the same bits are equal; a negative and a non-negative one differ high up. */
  lemma IBitsDetermine(a: int, b: int)
    requires forall i: nat :: IBit(a, i) == IBit(b, i)
    ensures a == b
  {
    if a >= 0 && b >= 0 {
      forall i: nat ensures Bit(a, i) == Bit(b, i) {
        assert IBit(a, i) == IBit(b, i);
      }
      BitsDetermine(a, b);
    } else if a < 0 && b < 0 {
      var na: nat, nb: nat := -a - 1, -b - 1;
      forall i: nat ensures Bit(na, i) == Bit(nb, i) {
        assert IBit(a, i) == IBit(b, i);
      }
      BitsDetermine(na, nb);
    } else {
      var p: nat, q: nat := if a >= 0 then a else b, if a >= 0 then -b - 1 else -a - 1;
      var k := p + q;
      assert IBit(a, k) == IBit(b, k);
      Pow2Exceeds(k);
      BitHigh(p, k);
      BitHigh(q, k);
    }
  }

  /** `(a & m) == m` holds exactly when every bit of `m` is set in `a`. */
  lemma ContainsMask(a: int, m: int)
    ensures IAnd(a, m) == m <==> forall i: nat :: IBit(m, i) ==> IBit(a, i)
  {
    forall i: nat ensures IBit(IAnd(a, m), i) == (IBit(a, i) && IBit(m, i)) {
      IBitAnd(a, m, i);
    }
    if forall i: nat :: IBit(m, i) ==> IBit(a, i) {
      IBitsDetermine(IAnd(a, m), m);
    } else {
      var i: nat :| IBit(m, i) && !IBit(a, i);
      IBitAnd(a, m, i);
      assert IBit(IAnd(a, m), i) != IBit(m, i);
    }
  }
}
