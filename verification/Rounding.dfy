/** The round-up (x + a - 1) & ~(a - 1) of src/memory.c, on machine words of any width. */
module Rounding {
  import opened Arithmetic

  function Pow2(k: nat): (p: nat)
    ensures p > 0
  {
    if k == 0 then 1 else 2 * Pow2(k - 1)
  }

  /** Bitwise and. */
  function And(x: nat, y: nat): nat {
    if x == 0 || y == 0 then 0 else (if x % 2 == 1 && y % 2 == 1 then 1 else 0) + 2 * And(x / 2, y / 2)
  }

  /** Bitwise complement of a word of `width` bits. */
  function Not(x: nat, width: nat): nat
    requires x < Pow2(width)
  {
    Pow2(width) - 1 - x
  }

  lemma Pow2Monotone(k: nat, n: nat)
    requires k <= n
    ensures Pow2(k) <= Pow2(n)
  {
    if k < n {
      Pow2Monotone(k, n - 1);
    }
  }

  /** Bit i of x. And and Not are the bitwise operations: AndBits, NotBits. */
  predicate Bit(x: nat, i: nat) {
    if i == 0 then x % 2 == 1 else Bit(x / 2, i - 1)
  }

  lemma {:induction false} AndBits(x: nat, y: nat, i: nat)
    ensures Bit(And(x, y), i) <==> Bit(x, i) && Bit(y, i)
    decreases i
  {
    if x == 0 || y == 0 {
      NoBits(i);
    } else if i > 0 {
      AndBits(x / 2, y / 2, i - 1);
    }
  }

  lemma {:induction false} NoBits(i: nat)
    ensures !Bit(0, i)
  {
    if i > 0 {
      NoBits(i - 1);
    }
  }

  lemma {:induction false} NotBits(x: nat, width: nat, i: nat)
    requires x < Pow2(width) && i < width
    ensures Bit(Not(x, width), i) <==> !Bit(x, i)
    decreases i
  {
    if i > 0 {
      assert Not(x, width) / 2 == Not(x / 2, width - 1);
      NotBits(x / 2, width - 1, i - 1);
    }
  }

  lemma {:induction false} AndOnes(x: nat, width: nat)
    requires x < Pow2(width)
    ensures And(x, Pow2(width) - 1) == x
  {
    if x > 0 {
      assert (Pow2(width) - 1) / 2 == Pow2(width - 1) - 1;
      AndOnes(x / 2, width - 1);
    }
  }

  lemma HalvedQuotient(x: nat, p: nat)
    requires p > 0
    ensures x / (2 * p) == (x / 2) / p
    ensures x / (2 * p) * (2 * p) == 2 * ((x / 2) / p * p)
  {
    var q, r := x / (2 * p), x % (2 * p);
    assert x == q * (2 * p) + r;
    assert x / 2 == q * p + r / 2 by {
      assert x == 2 * (q * p) + r;
    }
    assert r / 2 < p;
    QuotientUnique(x / 2, p, q, r / 2);
  }

  lemma AndEven(x: nat, m: nat)
    ensures And(x, 2 * m) == 2 * And(x / 2, m)
  {
  }

  /** Masking with ~(a - 1), for a power of two a, drops the remainder by a. */
  lemma {:induction false} MaskDropsRemainder(x: nat, k: nat, width: nat)
    requires k <= width && x < Pow2(width)
    ensures Pow2(k) - 1 < Pow2(width)
    ensures And(x, Not(Pow2(k) - 1, width)) == x / Pow2(k) * Pow2(k)
    decreases k
  {
    Pow2Monotone(k, width);
    if k == 0 {
      AndOnes(x, width);
    } else {
      MaskDropsRemainder(x / 2, k - 1, width - 1);
      AndEven(x, Not(Pow2(k - 1) - 1, width - 1));
      HalvedQuotient(x, Pow2(k - 1));
    }
  }

  /** The expression of the source, with unsigned addition that wraps. */
  function RoundUp(x: nat, k: nat, width: nat): nat
    requires k <= width && x < Pow2(width)
  {
    Pow2Monotone(k, width);
    And((x + Pow2(k) - 1) % Pow2(width), Not(Pow2(k) - 1, width))
  }

  predicate IsMultiple(m: nat, a: nat)
    requires a > 0
  {
    m % a == 0
  }

  /** r is the least multiple of a that is at least x. */
  ghost predicate LeastMultiple(r: nat, x: nat, a: nat)
    requires a > 0
  {
    IsMultiple(r, a) && x <= r && forall m: nat :: IsMultiple(m, a) && x <= m ==> r <= m
  }

  lemma LeastMultipleAbove(x: nat, a: nat)
    requires a > 0
    ensures LeastMultiple((x + a - 1) / a * a, x, a)
  {
    var y := x + a - 1;
    var q := y / a;
    QuotientRemainder(y, a);
    QuotientUnique(q * a, a, q, 0);
    forall m: nat | IsMultiple(m, a) && x <= m
      ensures q * a <= m
    {
      QuotientRemainder(m, a);
      MulStrict(m / a, q, a);
    }
  }

  /** Where the addition wraps, the result is 0. */
  lemma WrappedRoundUp(x: nat, k: nat, width: nat)
    requires k <= width && x < Pow2(width) && x + Pow2(k) - 1 >= Pow2(width)
    ensures RoundUp(x, k, width) == 0
  {
    var a, p, y := Pow2(k), Pow2(width), x + Pow2(k) - 1;
    Pow2Monotone(k, width);
    QuotientUnique(y, p, 1, y - p);
    MaskDropsRemainder(y - p, k, width);
    QuotientUnique(y - p, a, 0, y - p);
  }

  /** Where it does not, the sum loses its remainder. */
  lemma UnwrappedRoundUp(x: nat, k: nat, width: nat)
    requires k <= width && x < Pow2(width) && x + Pow2(k) - 1 < Pow2(width)
    ensures RoundUp(x, k, width) == (x + Pow2(k) - 1) / Pow2(k) * Pow2(k)
  {
    var a, p, y := Pow2(k), Pow2(width), x + Pow2(k) - 1;
    Pow2Monotone(k, width);
    QuotientUnique(y, p, 0, y);
    assert RoundUp(x, k, width) == And(y, Not(a - 1, width));
    MaskDropsRemainder(y, k, width);
  }

  /** For every power of two 2^k and every word x, the expression is the least multiple of 2^k at or
      above x exactly when the addition does not wrap. */
  lemma {:induction false} RoundUpIsLeastMultiple(x: nat, k: nat, width: nat)
    requires k <= width && x < Pow2(width)
    ensures LeastMultiple(RoundUp(x, k, width), x, Pow2(k)) <==> x + Pow2(k) - 1 < Pow2(width)
  {
    if x + Pow2(k) - 1 < Pow2(width) {
      UnwrappedRoundUp(x, k, width);
      LeastMultipleAbove(x, Pow2(k));
    } else {
      WrappedRoundUp(x, k, width);
      Pow2Monotone(k, width);
    }
  }

  // ---------------------------------------------------------------- stack sizes

  const STACK_DEFAULT_SIZE: nat := 65536
  const STACK_MIN_SIZE: nat := 4096
  const STACK_MAX_SIZE: nat := 8388608

  function Distance(x: int, y: int): nat {
    if x <= y then y - x else x - y
  }

  function ClampedStackSize(size: nat): nat {
    if size == 0 then STACK_DEFAULT_SIZE
    else if size < STACK_MIN_SIZE then STACK_MIN_SIZE
    else if size > STACK_MAX_SIZE then STACK_MAX_SIZE
    else size
  }

  /** The usable size of a stack from stack_alloc_create, for pages of 2^pageBits bytes. */
  function StackSize(size: nat, pageBits: nat): nat
    requires pageBits < 64
  {
    StackFits();
    RoundUp(ClampedStackSize(size), pageBits, 64)
  }

  lemma StackFits()
    ensures STACK_MAX_SIZE < Pow2(63)
  {
    assert Pow2(6) == 64;
    assert Pow2(12) == 4096;
    assert Pow2(18) == 262144;
    assert Pow2(24) == 16777216;
    Pow2Monotone(24, 63);
  }

  /** Whatever size is asked for, the stack is the least whole number of pages that holds the size
      clamped to the limits, with 0 for the default: the round-up never wraps. */
  lemma {:induction false} StackIsWholePages(size: nat, pageBits: nat)
    requires pageBits < 64
    ensures LeastMultiple(StackSize(size, pageBits), ClampedStackSize(size), Pow2(pageBits))
    ensures 4096 <= ClampedStackSize(size) <= 8388608
    ensures size != 0 ==> forall x :: 4096 <= x <= 8388608 ==>
              Distance(ClampedStackSize(size), size) <= Distance(x, size)
    ensures size == 0 ==> ClampedStackSize(size) == 65536
  {
    StackFits();
    Pow2Monotone(pageBits, 63);
    RoundUpIsLeastMultiple(ClampedStackSize(size), pageBits, 64);
  }
}
