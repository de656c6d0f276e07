/** Bytes, optional values, and the bitwise operations of the source on unbounded naturals. */
module Bytes {

  datatype Option<+T> = None | Some(value: T)

  datatype Result<+T, +E> = Ok(value: T) | Err(error: E)

  type byte = x: int | 0 <= x < 256

  type Packet = seq<byte>

  /** The receive buffers of the listeners. */
  const MAX_DATAGRAM: nat := 65_536

  type Datagram = p: Packet | |p| <= MAX_DATAGRAM witness []

  const U64_RANGE: nat := 0x1_0000_0000_0000_0000

  type u64 = x: int | 0 <= x < U64_RANGE

  function Min(a: int, b: int): int {
    if a <= b then a else b
  }

  function Mapped<A, B>(f: A -> B, s: seq<A>): (r: seq<B>)
    ensures |r| == |s|
    ensures forall i :: 0 <= i < |s| ==> r[i] == f(s[i])
  {
    seq(|s|, i requires 0 <= i < |s| => f(s[i]))
  }

  function Pow2(k: nat): (p: nat)
    ensures p >= 1
  {
    if k == 0 then 1 else 2 * Pow2(k - 1)
  }

  /** Bitwise and, one binary digit at a time. */
  function And(a: nat, b: nat): (r: nat)
    ensures r <= a && r <= b
  {
    if a == 0 || b == 0 then 0
    else (a % 2) * (b % 2) + 2 * And(a / 2, b / 2)
  }

  /** Bitwise inclusive or. */
  function Or(a: nat, b: nat): nat {
    if a == 0 then b else if b == 0 then a
    else (if a % 2 == 1 || b % 2 == 1 then 1 else 0) + 2 * Or(a / 2, b / 2)
  }

  /** Bitwise exclusive or. */
  function Xor(a: nat, b: nat): nat
    decreases a + b
  {
    if a == 0 then b else if b == 0 then a
    else (if a % 2 == b % 2 then 0 else 1) + 2 * Xor(a / 2, b / 2)
  }

  /** Masking with a single bit keeps exactly that bit. */
  lemma {:induction false} AndSingleBit(a: nat, k: nat)
    ensures And(a, Pow2(k)) == if a / Pow2(k) % 2 == 1 then Pow2(k) else 0
    decreases k
  {
    if k == 0 {
      assert Pow2(0) == 1;
    } else if a == 0 {
      assert 0 / Pow2(k) == 0;
    } else {
      AndSingleBit(a / 2, k - 1);
      HalfThenShift(a, Pow2(k - 1));
      assert Pow2(k) % 2 == 0 && Pow2(k) / 2 == Pow2(k - 1);
    }
  }

  lemma HalfThenShift(a: nat, p: nat)
    requires p > 0
    ensures a / 2 / p == a / (2 * p)
  {
    var q := a / 2 / p;
    var r := a / 2 % p;
    assert a / 2 == q * p + r;
    assert a == 2 * p * q + (2 * r + a % 2);
    QuotientIs(a, 2 * p, q, 2 * r + a % 2);
  }

  /** Quotients and remainders are unique. */
  lemma QuotientIs(a: int, m: int, q: int, r: int)
    requires 0 <= r < m && a == m * q + r
    ensures a / m == q && a % m == r
  {
    var d := a / m - q;
    assert m * d == r - a % m;
    assert d >= 1 ==> m * d >= m;
    assert d <= -1 ==> m * d <= -m;
  }

  lemma ModuloBound(a: nat, m: nat)
    requires m > 0
    ensures 0 <= a % m < m && a % m <= a
  {
    if a < m {
      QuotientIs(a, m, 0, a);
    }
  }

  /** Or-ing a value below 2^k into a multiple of 2^k is addition. */
  lemma {:induction false} OrDisjoint(x: nat, y: nat, k: nat)
    requires y < Pow2(k)
    ensures Or(x * Pow2(k), y) == x * Pow2(k) + y
    decreases k
  {
    if k == 0 || x == 0 || y == 0 {
      assert Pow2(0) == 1;
    } else {
      var p := Pow2(k - 1);
      var n := x * p;
      assert n > 0 && x * Pow2(k) == 2 * n;
      OrDisjoint(x, y / 2, k - 1);
      assert Or(2 * n, y) == y % 2 + 2 * Or(n, y / 2);
    }
  }

  /** Each digit counts once in the inclusive or, and once more where both have it. */
  lemma {:induction false} OrAndSum(a: nat, b: nat)
    ensures Or(a, b) + And(a, b) == a + b
  {
    if a != 0 && b != 0 {
      OrAndSum(a / 2, b / 2);
    }
  }

  /** Exclusive or undoes itself. */
  lemma {:induction false} XorCancels(a: nat, b: nat)
    ensures Xor(Xor(a, b), b) == a
    decreases a + b
  {
    if a == 0 || b == 0 {
      XorSelf(b);
    } else {
      var x := Xor(a / 2, b / 2);
      XorCancels(a / 2, b / 2);
      var bit := if a % 2 == b % 2 then 0 else 1;
      assert Xor(a, b) == bit + 2 * x;
      if bit + 2 * x == 0 {
        assert Xor(0, b) == b;
        assert b / 2 == a / 2;
      }
    }
  }

  lemma {:induction false} XorSelf(b: nat)
    ensures Xor(b, b) == 0
  {
    if b != 0 {
      XorSelf(b / 2);
    }
  }

  lemma {:induction false} XorSymmetric(a: nat, b: nat)
    ensures Xor(a, b) == Xor(b, a)
    decreases a + b
  {
    if a != 0 && b != 0 {
      XorSymmetric(a / 2, b / 2);
    }
  }

  /** Exclusive or stays within the width of its operands. */
  lemma {:induction false} XorBound(a: nat, b: nat, k: nat)
    requires a < Pow2(k) && b < Pow2(k)
    ensures Xor(a, b) < Pow2(k)
    decreases k
  {
    if a != 0 && b != 0 {
      XorBound(a / 2, b / 2, k - 1);
    }
  }

  lemma Pow2Values()
    ensures Pow2(7) == 128 && Pow2(8) == 256
  {
    assert Pow2(4) == 16;
  }

  lemma DoubleProduct(x: nat, y: nat)
    ensures 2 * (x * y) == (2 * x) * y
  {
  }

  lemma {:induction false} Pow2Adds(a: nat, b: nat)
    ensures Pow2(a + b) == Pow2(a) * Pow2(b)
  {
    if a != 0 {
      var x, y := Pow2(a - 1), Pow2(b);
      Pow2Adds(a - 1, b);
      assert Pow2(a + b) == 2 * (x * y) && Pow2(a) == 2 * x;
      DoubleProduct(x, y);
    }
  }

  lemma Pow2Is32()
    ensures Pow2(32) == 0x1_0000_0000
  {
    Pow2Values();
    Pow2Adds(8, 8);
    Pow2Adds(16, 16);
  }

  lemma Pow2Is64()
    ensures Pow2(64) == U64_RANGE
  {
    Pow2Is32();
    Pow2Adds(32, 32);
  }
}
