/**
 * Exclusive or and the index of the highest set bit, as the bucket queues of
 * bench/bench_timerq.c use them to find the digit in which two keys differ;
 * and masking by ones, as the deque of src/inc/deque.h does with its indices.
 */
module Bits {

  function Xor(a: nat, b: nat): nat {
    if a == 0 && b == 0 then 0 else 2 * Xor(a / 2, b / 2) + if a % 2 == b % 2 then 0 else 1
  }

  // One more than the index of the highest set bit, 0 for no bit.
  function BitLength(x: nat): nat {
    if x == 0 then 0 else 1 + BitLength(x / 2)
  }

  lemma XorHalf(a: nat, b: nat)
    ensures Xor(a, b) / 2 == Xor(a / 2, b / 2)
  {
  }

  lemma {:induction false} XorZero(a: nat, b: nat)
    ensures Xor(a, b) == 0 <==> a == b
  {
    if a != 0 || b != 0 {
      XorZero(a / 2, b / 2);
    }
  }

  lemma XorQuarter(a: nat, b: nat)
    ensures Xor(a, b) / 4 == Xor(a / 4, b / 4)
  {
    XorHalf(a, b);
    XorHalf(a / 2, b / 2);
    assert Xor(a, b) / 2 / 2 == Xor(a / 2 / 2, b / 2 / 2);
    Halve(Xor(a, b));
    Halve(a);
    Halve(b);
  }

  lemma Halve(x: nat)
    ensures x / 2 / 2 == x / 4
  {
  }

  lemma Digits(x: nat)
    ensures x / 4 / 4 / 4 == x / 64
  {
  }

  // The same by base-64 digits.
  lemma XorDigit(a: nat, b: nat)
    ensures Xor(a, b) / 64 == Xor(a / 64, b / 64)
  {
    XorQuarter(a, b);
    XorQuarter(a / 4, b / 4);
    XorQuarter(a / 4 / 4, b / 4 / 4);
    Digits(Xor(a, b));
    Digits(a);
    Digits(b);
  }

  lemma LengthDigit(x: nat)
    requires x >= 64
    ensures BitLength(x) == 6 + BitLength(x / 64)
  {
    assert BitLength(x) == 1 + BitLength(x / 2);
    assert BitLength(x / 2) == 1 + BitLength(x / 4);
    assert BitLength(x / 4) == 1 + BitLength(x / 8);
    assert BitLength(x / 8) == 1 + BitLength(x / 16);
    assert BitLength(x / 16) == 1 + BitLength(x / 32);
    assert BitLength(x / 32) == 1 + BitLength(x / 64);
  }

  lemma LengthSmall(x: nat)
    requires x < 64
    ensures BitLength(x) <= 6
  {
    assert BitLength(x / 32) <= 1;
    assert BitLength(x / 16) <= 2;
    assert BitLength(x / 8) <= 3;
    assert BitLength(x / 4) <= 4;
    assert BitLength(x / 2) <= 5;
  }

  // ---- Masks ----

  function And(a: nat, b: nat): nat {
    if a == 0 || b == 0 then 0 else 2 * And(a / 2, b / 2) + if a % 2 == b % 2 == 1 then 1 else 0
  }

  // n ones.
  function Ones(n: nat): nat {
    if n == 0 then 0 else 2 * Ones(n - 1) + 1
  }

  lemma ModIs(i: int, d: int, q: int, r: int)
    requires i == q * d + r && 0 <= r < d
    ensures i % d == r
  {
    var p := i / d;
    assert i == p * d + i % d;
    if p < q {
      assert (q - p) * d >= d by { Grows(q - p, d); }
    } else if q < p {
      assert (p - q) * d >= d by { Grows(p - q, d); }
    }
  }

  lemma Grows(k: int, d: int)
    requires k >= 1 && d >= 0
    ensures k * d >= d
  {
  }

  lemma ModDouble(i: nat, m: nat)
    requires m > 0
    ensures 2 * (i / 2 % m) + i % 2 == i % (2 * m)
  {
    var q, r := i / 2 / m, i / 2 % m;
    assert i / 2 == q * m + r;
    assert 2 * (q * m) == q * (2 * m);
    ModIs(i, 2 * m, q, 2 * r + i % 2);
  }

  // Masking by n ones takes the remainder by the power of two above them.
  lemma {:induction false} AndOnes(i: nat, n: nat)
    ensures And(i, Ones(n)) == i % (Ones(n) + 1)
    decreases n
  {
    if n > 0 {
      assert Ones(n) / 2 == Ones(n - 1) && Ones(n) % 2 == 1;
      AndOnes(i / 2, n - 1);
      ModDouble(i, Ones(n - 1) + 1);
      assert Ones(n) + 1 == 2 * (Ones(n - 1) + 1);
    }
  }
}
