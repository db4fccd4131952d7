/**
  The machine's bit operators on unsigned words, as functions on their integer values: `Or`, `And`
  and `Xor` work digit by digit, `ShiftLeft` is the truncating shift of a 64-bit word.
 */
module Bits {
  import opened Bytes

  /** Binary digit `n` of `a`, digit 0 being the least significant. */
  predicate Digit(a: nat, n: nat) {
    if n == 0 then a % 2 == 1 else Digit(a / 2, n - 1)
  }

  function Or(a: nat, b: nat): nat
    decreases a + b
  {
    if a == 0 && b == 0 then 0
    else (if a % 2 == 1 || b % 2 == 1 then 1 else 0) + 2 * Or(a / 2, b / 2)
  }

  function And(a: nat, b: nat): nat
    decreases a + b
  {
    if a == 0 && b == 0 then 0
    else (if a % 2 == 1 && b % 2 == 1 then 1 else 0) + 2 * And(a / 2, b / 2)
  }

  function Xor(a: nat, b: nat): nat
    decreases a + b
  {
    if a == 0 && b == 0 then 0
    else (if a % 2 != b % 2 then 1 else 0) + 2 * Xor(a / 2, b / 2)
  }

  function Pow2(n: nat): (p: nat)
    ensures p > 0
  {
    if n == 0 then 1 else 2 * Pow2(n - 1)
  }

  /** The low `k` binary digits of `y`. */
  function Low(y: nat, k: nat): (r: nat)
    ensures r < Pow2(k)
  {
    if k == 0 then 0 else y % 2 + 2 * Low(y / 2, k - 1)
  }

  lemma Pow2Of64()
    ensures Pow2(64) == 0x1_0000_0000_0000_0000
  {
    assert Pow2(8) == 0x100;
    assert Pow2(16) == 0x1_0000;
    assert Pow2(24) == 0x100_0000;
    assert Pow2(32) == 0x1_0000_0000;
    assert Pow2(40) == 0x100_0000_0000;
    assert Pow2(48) == 0x1_0000_0000_0000;
    assert Pow2(56) == 0x100_0000_0000_0000;
  }

  /** `b << s` on 64-bit words: `s` doublings, each keeping the low 64 digits. */
  function ShiftLeft(b: u64, s: nat): u64 {
    if s == 0 then b else Pow2Of64(); Low(2 * ShiftLeft(b, s - 1), 64)
  }

  /** `a | b` on 64-bit words. */
  function Or64(a: u64, b: u64): u64 {
    Pow2Of64(); OrBound(a, b, 64); Or(a, b)
  }

  lemma {:induction false} ZeroDigit(n: nat)
    ensures !Digit(0, n)
  {
    if n > 0 { ZeroDigit(n - 1); }
  }

  lemma {:induction false} OrDigit(a: nat, b: nat, n: nat)
    ensures Digit(Or(a, b), n) == (Digit(a, n) || Digit(b, n))
  {
    if a == 0 && b == 0 {
      ZeroDigit(n);
    } else if n > 0 {
      OrDigit(a / 2, b / 2, n - 1);
    }
  }

  lemma {:induction false} AndDigit(a: nat, b: nat, n: nat)
    ensures Digit(And(a, b), n) == (Digit(a, n) && Digit(b, n))
  {
    if a == 0 && b == 0 {
      ZeroDigit(n);
    } else if n > 0 {
      AndDigit(a / 2, b / 2, n - 1);
    }
  }

  /** A positive number has a digit that is set. */
  lemma {:induction false} SomeDigit(a: nat) returns (n: nat)
    requires a > 0
    ensures Digit(a, n)
  {
    if a % 2 == 1 {
      n := 0;
    } else {
      var m := SomeDigit(a / 2);
      n := m + 1;
    }
  }

  lemma {:induction false} OrBound(a: nat, b: nat, k: nat)
    requires a < Pow2(k) && b < Pow2(k)
    ensures Or(a, b) < Pow2(k)
  {
    if k > 0 { OrBound(a / 2, b / 2, k - 1); }
  }

  lemma {:induction false} XorBound(a: nat, b: nat, k: nat)
    requires a < Pow2(k) && b < Pow2(k)
    ensures Xor(a, b) < Pow2(k)
  {
    if k > 0 { XorBound(a / 2, b / 2, k - 1); }
  }

  lemma XorParts(a: nat, b: nat)
    ensures Xor(a, b) % 2 == if a % 2 != b % 2 then 1 else 0
    ensures Xor(a, b) / 2 == Xor(a / 2, b / 2)
  {}

  /** Applying the same mask twice restores the value. */
  lemma {:induction false} XorTwice(a: nat, b: nat)
    ensures Xor(Xor(a, b), b) == a
    decreases a + b
  {
    if a != 0 || b != 0 {
      XorParts(a, b);
      XorParts(Xor(a, b), b);
      XorTwice(a / 2, b / 2);
    }
  }

  lemma {:induction false} LowDigit(y: nat, k: nat, n: nat)
    requires n < k
    ensures Digit(Low(y, k), n) == Digit(y, n)
  {
    if n > 0 { LowDigit(y / 2, k - 1, n - 1); }
  }

  lemma {:induction false} ShiftDigit(b: u64, s: nat, n: nat)
    requires n < 64
    ensures Digit(ShiftLeft(b, s), n) == (n >= s && Digit(b, n - s))
  {
    if s > 0 {
      var x: nat := ShiftLeft(b, s - 1);
      LowDigit(2 * x, 64, n);
      if n > 0 {
        assert (2 * x) / 2 == x;
        ShiftDigit(b, s - 1, n - 1);
      }
    }
  }

  /** `1 << d` has digit `d` and no other. */
  lemma MaskDigit(d: nat, n: nat)
    requires d < 64 && n < 64
    ensures Digit(ShiftLeft(1, d), n) == (n == d)
  {
    ShiftDigit(1, d, n);
    if n > d { ZeroDigit(n - d - 1); }
  }

  lemma {:induction false} HighDigit(a: nat, k: nat, n: nat)
    requires a < Pow2(k) && k <= n
    ensures !Digit(a, n)
  {
    if k == 0 {
      ZeroDigit(n);
    } else {
      HighDigit(a / 2, k - 1, n - 1);
    }
  }

  lemma MaskOnlyDigit(d: nat, n: nat)
    requires d < 64
    ensures Digit(ShiftLeft(1, d), n) ==> n == d
  {
    if n < 64 {
      MaskDigit(d, n);
    } else {
      Pow2Of64();
      HighDigit(ShiftLeft(1, d), 64, n);
    }
  }
}
