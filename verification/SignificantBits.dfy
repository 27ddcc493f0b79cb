/** Numbers cut to their leading bits. */
module SignificantBits {
  function Pow2(n: nat): (p: nat)
    ensures p >= 1
  {
    if n == 0 then 1 else 2 * Pow2(n - 1)
  }

  function BitLength(x: nat): nat {
    if x == 0 then 0 else 1 + BitLength(x / 2)
  }

  /** Position of the lowest bit that is set. */
  function LowestBit(x: nat): nat
    requires x > 0
  {
    if x % 2 == 1 then 0 else 1 + LowestBit(x / 2)
  }

  /** From the highest to the lowest bit that is set. */
  function CountBits(x: nat): int {
    if x == 0 then 0 else BitLength(x) - LowestBit(x)
  }

  /** The largest multiple of `m` not above `x`. */
  function Floor(x: nat, m: nat): nat {
    if m == 0 then 0
    else
      var q: nat := x / m;
      MulLe(0, q, m);
      q * m
  }

  /** Clears the bits below position `low`. */
  function Clear(x: nat, low: nat): nat {
    Floor(x, Pow2(low))
  }

  /** Clears all but the top `n` bits. */
  function Truncate(x: nat, n: nat): nat {
    if n > BitLength(x) then x else Clear(x, BitLength(x) - n)
  }

  lemma {:induction false} BitLengthBounds(x: nat)
    requires x > 0
    ensures BitLength(x) >= 1 && Pow2(BitLength(x) - 1) <= x < Pow2(BitLength(x))
  {
    if x > 1 { BitLengthBounds(x / 2); }
  }

  lemma {:induction false} Pow2Add(a: nat, b: nat)
    ensures Pow2(a + b) == Pow2(a) * Pow2(b)
  {
    if a > 0 { Pow2Add(a - 1, b); }
  }

  lemma {:induction false} Pow2Monotone(a: nat, b: nat)
    requires a <= b
    ensures Pow2(a) <= Pow2(b)
  {
    if a < b { Pow2Monotone(a, b - 1); }
  }

  /** The bit length is the exponent of the power of two at or below. */
  lemma BitLengthUnique(x: nat, n: nat)
    requires n >= 1 && Pow2(n - 1) <= x < Pow2(n)
    ensures BitLength(x) == n
  {
    BitLengthBounds(x);
    if BitLength(x) < n { Pow2Monotone(BitLength(x), n - 1); }
    if BitLength(x) > n { Pow2Monotone(n, BitLength(x) - 1); }
  }

  lemma MulLe(a: int, b: int, m: nat)
    requires a <= b
    ensures a * m <= b * m
  {
    assert (b - a) * m >= 0;
  }

  lemma MulSign(d: int, m: nat)
    ensures d >= 1 ==> d * m >= m
    ensures d <= -1 ==> d * m <= 0 - m
  {
    if d >= 1 { MulLe(1, d, m); }
    if d <= -1 { MulLe(d, -1, m); }
  }

  lemma AtLeast(a: nat, m: nat, q: nat)
    requires m > 0 && a >= q * m
    ensures a / m >= q
  {
    var d := a / m - q;
    assert d * m == a - a % m - q * m;
    MulSign(d, m);
  }

  lemma Quotient(a: nat, m: nat, q: nat, r: nat)
    requires m > 0 && a == q * m + r && r < m
    ensures a / m == q && a % m == r
  {
    var d := a / m - q;
    assert d * m == r - a % m;
    MulSign(d, m);
  }

  lemma {:induction false} LowestBitDivides(x: nat, n: nat)
    requires x > 0
    ensures x % Pow2(n) == 0 <==> LowestBit(x) >= n
  {
    if n > 0 {
      HalfMod(x, Pow2(n - 1));
      if x % 2 == 0 { LowestBitDivides(x / 2, n - 1); }
    }
  }

  lemma HalfMod(x: nat, p: nat)
    requires p > 0
    ensures x % (2 * p) == 0 <==> x % 2 == 0 && (x / 2) % p == 0
  {
    if x % (2 * p) == 0 {
      var q := x / (2 * p);
      assert x == q * (2 * p) == 2 * (q * p);
      Quotient(x / 2, p, q, 0);
    }
    if x % 2 == 0 && (x / 2) % p == 0 {
      var q := x / 2 / p;
      assert x == 2 * (q * p) == q * (2 * p);
      Quotient(x, 2 * p, q, 0);
    }
  }

  /** Rounding down to a multiple does not go below a smaller multiple. */
  lemma RoundDown(x: nat, m: nat, q: nat)
    requires m > 0 && x >= q * m
    ensures q * m <= Floor(x, m) <= x && x - Floor(x, m) < m && Floor(x, m) % m == 0
  {
    var k := x / m;
    Quotient(k * m, m, k, 0);
    MulSign(k - q, m);
    assert (k - q) * m == k * m - q * m;
  }

  lemma MultipleOf(x: nat, m: nat, p: nat)
    requires m > 0 && p > 0 && m * p > 0 && x % (m * p) == 0
    ensures x % p == 0
  {
    var n := m * p;
    var q := x / n;
    assert x == q * n;
    assert q * n == q * m * p;
    Quotient(x, p, q * m, 0);
  }

  lemma {:induction false} MultipleOfPow2(x: nat, a: nat, b: nat)
    requires x % Pow2(a) == 0 && b <= a
    ensures x % Pow2(b) == 0
  {
    Pow2Add(a - b, b);
    MultipleOf(x, Pow2(a - b), Pow2(b));
  }

  /** Clearing low bits below the highest one leaves a number of the same length. */
  lemma {:induction false} ClearLow(x: nat, low: nat)
    requires x > 0 && low < BitLength(x)
    ensures 0 < Clear(x, low) <= x && x - Clear(x, low) < Pow2(low)
    ensures Clear(x, low) % Pow2(low) == 0 && BitLength(Clear(x, low)) == BitLength(x)
  {
    var len := BitLength(x);
    BitLengthBounds(x);
    Pow2Add(len - 1 - low, low);
    RoundDown(x, Pow2(low), Pow2(len - 1 - low));
    BitLengthUnique(Clear(x, low), len);
  }

  lemma {:induction false} ClearMultiple(y: nat, k: nat)
    requires y % Pow2(k) == 0
    ensures Clear(y, k) == y
  {
  }

  lemma {:induction false} LowBitsStayClear(y: nat, low: nat, k: nat)
    requires y > 0 && y % Pow2(low) == 0 && k < BitLength(y)
    ensures Clear(y, k) % Pow2(low) == 0
  {
    ClearLow(y, k);
    if low <= k {
      MultipleOfPow2(Clear(y, k), k, low);
    } else {
      MultipleOfPow2(y, low, k);
      ClearMultiple(y, k);
    }
  }

  lemma {:induction false} LengthAbove(x: nat, k: nat)
    requires x >= Pow2(k)
    ensures k < BitLength(x)
  {
    BitLengthBounds(x);
    if BitLength(x) <= k { Pow2Monotone(BitLength(x), k); }
  }

  lemma FewBits(z: nat, n: nat)
    requires z > 0 && (n <= BitLength(z) ==> z % Pow2(BitLength(z) - n) == 0)
    ensures CountBits(z) <= n
  {
    if n <= BitLength(z) { LowestBitDivides(z, BitLength(z) - n); }
  }

  lemma {:induction false} TruncateBits(x: nat, n: nat)
    requires x > 0 && n >= 1
    ensures 0 < Truncate(x, n) <= x && BitLength(Truncate(x, n)) == BitLength(x)
    ensures n <= BitLength(x) ==>
      Truncate(x, n) % Pow2(BitLength(x) - n) == 0 && x - Truncate(x, n) < Pow2(BitLength(x) - n)
    ensures n > BitLength(x) ==> Truncate(x, n) == x
  {
    if n <= BitLength(x) { ClearLow(x, BitLength(x) - n); }
  }

  lemma LossOfLow(x: nat, loss: nat, n: nat)
    requires x > 0 && 1 <= n <= BitLength(x) && loss <= Pow2(BitLength(x) - n)
    ensures loss * Pow2(n - 1) <= x
  {
    var low := BitLength(x) - n;
    BitLengthBounds(x);
    Pow2Add(low, n - 1);
    MulLe(loss, Pow2(low), Pow2(n - 1));
  }

  /** What truncation keeps: the length, at most `n` significant bits, and all but less than one part in
      2^(n - 1) of the value. */
  lemma {:induction false} TruncateKeeps(x: nat, n: nat)
    requires x > 0 && n >= 1
    ensures var y := Truncate(x, n);
      0 < y <= x && BitLength(y) == BitLength(x) && CountBits(y) <= n && (x - y) * Pow2(n - 1) <= x
  {
    TruncateBits(x, n);
    FewBits(Truncate(x, n), n);
    if n <= BitLength(x) { LossOfLow(x, x - Truncate(x, n), n); }
  }

  /** Truncating and then rounding down to a multiple of 2^k: never zero, still at most `n` bits. */
  lemma {:induction false} TruncateToMultiple(x: nat, n: nat, k: nat)
    requires n >= 1 && x >= Pow2(k)
    ensures var y := Truncate(x, n); var z := Clear(y, k);
      0 < z <= y && z % Pow2(k) == 0 && CountBits(z) <= n && y - z < Pow2(k)
  {
    TruncateBits(x, n);
    LengthAbove(x, k);
    var y := Truncate(x, n);
    ClearLow(y, k);
    if n <= BitLength(x) { LowBitsStayClear(y, BitLength(x) - n, k); }
    FewBits(Clear(y, k), n);
  }

  // ---- the code ----

  method CountSignificantBits(x: nat) returns (n: nat)
    ensures n == CountBits(x)
  {
    var rest, length := x, 0;
    while rest > 0
      invariant length + BitLength(rest) == BitLength(x)
    {
      rest, length := rest / 2, length + 1;
    }
    rest := x;
    for i := 0 to length
      invariant x > 0 ==> rest > 0 && i + LowestBit(rest) == LowestBit(x) && i + BitLength(rest) == BitLength(x)
    {
      if rest % 2 == 1 {
        return length - i;
      }
      rest := rest / 2;
    }
    n := 0;
  }
}
