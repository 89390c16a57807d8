/** Unsigned 32-bit words, powers of two and bitwise operators, all on mathematical integers. */
module Word32 {

  /** The values of C's `unsigned int`, of which the ring indexes are made. */
  type u32 = x: int | 0 <= x < 0x1_0000_0000

  function Wrap(x: int): u32 {
    x % 0x1_0000_0000
  }

  function Add(a: u32, b: u32): u32 {
    Wrap(a + b)
  }

  function Sub(a: u32, b: u32): u32 {
    Wrap(a - b)
  }

  lemma WrapParts(x: int)
    ensures x == 0x1_0000_0000 * (x / 0x1_0000_0000) + Wrap(x)
  {
  }

  lemma WrapShift(x: int, k: int)
    ensures Wrap(x + 0x1_0000_0000 * k) == Wrap(x)
  {
  }

  lemma WrapSmall(x: u32)
    ensures Wrap(x) == x
  {
  }

  /** Wrapped subtraction of wrapped counters is the wrapped true difference. */
  lemma SubWrap(a: int, b: int)
    ensures Sub(Wrap(a), Wrap(b)) == Wrap(a - b)
    ensures 0 <= a - b < 0x1_0000_0000 ==> Sub(Wrap(a), Wrap(b)) == a - b
  {
    WrapParts(a);
    WrapParts(b);
    WrapShift(Wrap(a) - Wrap(b), a / 0x1_0000_0000 - b / 0x1_0000_0000);
    if 0 <= a - b < 0x1_0000_0000 {
      WrapSmall(a - b);
    }
  }

  lemma AddWrap(a: int, b: u32)
    ensures Add(Wrap(a), b) == Wrap(a + b)
  {
    WrapParts(a);
    WrapShift(Wrap(a) + b, a / 0x1_0000_0000);
  }

  lemma SubPositive(a: u32, b: u32)
    ensures Sub(a, b) > 0 <==> a != b
  {
  }

  lemma WordSub(a: u32, b: u32)
    ensures Sub(a, b) == if b <= a then a - b else a - b + 0x1_0000_0000
  {
  }

  lemma WordNext(i: u32)
    ensures Add(i, 1) == if i == 0xffff_ffff then 0 else i + 1
  {
  }

  lemma StepCloser(i: u32, limit: u32)
    requires i != limit
    ensures Sub(limit, Add(i, 1)) == Sub(limit, i) - 1
  {
    WordNext(i);
    WordSub(limit, i);
    WordSub(limit, Add(i, 1));
  }

  /** Counters closer than 2^32 are equal when their wrapped values are. */
  lemma WrapInjective(a: int, b: int)
    requires -0x1_0000_0000 < a - b < 0x1_0000_0000
    ensures Wrap(a) == Wrap(b) <==> a == b
  {
  }

  function Pow2(k: nat): (p: nat)
    ensures p > 0
  {
    if k == 0 then 1 else 2 * Pow2(k - 1)
  }

  lemma Pow2Add(a: nat, b: nat)
    ensures Pow2(a + b) == Pow2(a) * Pow2(b)
  {
    if b > 0 {
      Pow2Add(a, b - 1);
      assert Pow2(a + b) == 2 * (Pow2(a) * Pow2(b - 1));
    }
  }

  lemma Pow2Monotone(a: nat, b: nat)
    requires a <= b
    ensures Pow2(a) <= Pow2(b)
  {
    if a < b {
      Pow2Monotone(a, b - 1);
    }
  }

  lemma Pow2Values()
    ensures Pow2(1) == 2 && Pow2(2) == 4 && Pow2(4) == 16 && Pow2(8) == 0x100
    ensures Pow2(16) == 0x1_0000 && Pow2(27) == 0x800_0000 && Pow2(32) == 0x1_0000_0000
  {
    assert Pow2(4) == 16;
    assert Pow2(8) == 16 * Pow2(4) by { Pow2Add(4, 4); }
    Pow2Add(8, 8);
    Pow2Add(16, 8);
    Pow2Add(24, 3);
    Pow2Add(16, 16);
    assert Pow2(3) == 8;
  }

  lemma Euclid(x: nat, m: nat)
    requires m > 0
    ensures x == (x / m) * m + x % m && x % m < m
  {
  }

  lemma QuotientSign(x: nat, m: nat)
    requires m > 0
    ensures x / m >= 0
  {
  }

  lemma Assoc(a: int, b: int, c: int)
    ensures a * (b * c) == (a * b) * c == (a * c) * b
  {
  }

  lemma Distrib(a: int, b: int, m: int)
    ensures (a + b) * m == a * m + b * m
    ensures (a - b) * m == a * m - b * m
  {
  }

  lemma MulMono(a: int, b: int, m: nat)
    requires a <= b
    ensures a * m <= b * m
  {
  }

  lemma SmallMultiple(a: int, m: int)
    requires -m < a * m < m
    ensures a == 0
  {
  }

  lemma DivMod(x: nat, m: nat, q: nat, r: nat)
    requires r < m && x == q * m + r
    ensures x / m == q && x % m == r
  {
    Euclid(x, m);
    Distrib(q, x / m, m);
    SmallMultiple(q - x / m, m);
  }

  /** Reducing modulo a multiple first changes nothing. */
  lemma ModOfMod(x: nat, n: nat, c: nat, m: nat)
    requires n > 0 && m > 0 && m == n * c
    ensures (x % m) % n == x % n
  {
    var y, q := x % m, x / m;
    Euclid(x, m);
    Euclid(y, n);
    Refactor(q, n, c, m);
    Distrib(q * c, y / n, n);
    DivMod(x, n, q * c + y / n, y % n);
  }

  lemma Refactor(q: nat, n: nat, c: nat, m: nat)
    requires m == n * c
    ensures q * m == (q * c) * n && q * c >= 0
  {
    Assoc(q, n, c);
  }

  /** Indexes less than n apart fall into different residue classes. */
  lemma ModDistinct(i: nat, j: nat, n: nat)
    requires i < j < i + n
    ensures i % n != j % n
  {
    if i % n == j % n {
      Euclid(i, n);
      Euclid(j, n);
      Distrib(j / n, i / n, n);
      SmallMultiple(j / n - i / n, n);
    }
  }

  /** `x & y`, digit by digit. */
  function BitAnd(x: nat, y: nat): (r: nat)
    ensures r <= x && r <= y
  {
    if x == 0 || y == 0 then 0
    else (if x % 2 == 1 && y % 2 == 1 then 1 else 0) + 2 * BitAnd(x / 2, y / 2)
  }

  /** `x | y`, digit by digit. */
  function BitOr(x: nat, y: nat): nat {
    if x == 0 then y else if y == 0 then x
    else (if x % 2 == 1 || y % 2 == 1 then 1 else 0) + 2 * BitOr(x / 2, y / 2)
  }

  lemma HalfDivMod(x: nat, m: nat)
    requires m > 0
    ensures x % (2 * m) == x % 2 + 2 * ((x / 2) % m)
    ensures x / (2 * m) == (x / 2) / m
  {
    var q, r := (x / 2) / m, (x / 2) % m;
    Euclid(x / 2, m);
    Assoc(q, 2, m);
    DivMod(x, 2 * m, q, x % 2 + 2 * r);
  }

  lemma OddHalves(p: nat)
    requires p > 0
    ensures (2 * p - 1) / 2 == p - 1 && (2 * p - 1) % 2 == 1
  {
  }

  /** Masking with 2^k - 1 is the remainder modulo 2^k. */
  lemma {:induction false} MaskIsMod(x: nat, k: nat)
    ensures BitAnd(x, Pow2(k) - 1) == x % Pow2(k)
  {
    if k > 0 {
      MaskIsMod(x / 2, k - 1);
      HalfDivMod(x, Pow2(k - 1));
      OddHalves(Pow2(k - 1));
      if x == 0 {
        DivMod(0, Pow2(k), 0, 0);
      }
    }
  }

  lemma AndEven(x: nat, y: nat)
    ensures BitAnd(x, 2 * y) == 2 * BitAnd(x / 2, y)
  {
    if y > 0 {
      assert (2 * y) / 2 == y && (2 * y) % 2 == 0;
    }
  }

  /** A mask shifted left by h selects from the value shifted right by h. */
  lemma {:induction false} AndShifted(x: nat, m: nat, h: nat, mask: nat, q: nat)
    requires mask == m * Pow2(h) && q == x / Pow2(h)
    ensures BitAnd(x, mask) == BitAnd(q, m) * Pow2(h)
  {
    if h == 0 {
      assert Pow2(0) == 1;
    } else {
      var p := Pow2(h - 1);
      var half: nat := mask / 2;
      assert mask == 2 * half && half == m * p by { Assoc(m, 2, p); }
      HalfDivMod(x, p);
      AndShifted(x / 2, m, h - 1, half, q);
      AndEven(x, half);
      Assoc(BitAnd(q, m), 2, p);
    }
  }

  lemma OrHalves(x: nat, y: nat)
    ensures BitOr(x, y) / 2 == BitOr(x / 2, y / 2)
    ensures BitOr(x, y) % 2 == 0 <==> x % 2 == 0 && y % 2 == 0
  {
  }

  lemma {:induction false} OrMultiple(x: nat, y: nat, k: nat)
    ensures BitOr(x, y) % Pow2(k) == 0 <==> x % Pow2(k) == 0 && y % Pow2(k) == 0
  {
    if k == 0 {
      assert Pow2(0) == 1;
    } else {
      OrMultiple(x / 2, y / 2, k - 1);
      OrHalves(x, y);
      HalfDivMod(x, Pow2(k - 1));
      HalfDivMod(y, Pow2(k - 1));
      HalfDivMod(BitOr(x, y), Pow2(k - 1));
    }
  }

  /** `(x | y) & (2^k - 1)` is zero exactly when both are multiples of 2^k. */
  lemma OrMaskZero(x: nat, y: nat, k: nat)
    ensures BitAnd(BitOr(x, y), Pow2(k) - 1) == 0 <==> x % Pow2(k) == 0 && y % Pow2(k) == 0
  {
    MaskIsMod(BitOr(x, y), k);
    OrMultiple(x, y, k);
  }
}
