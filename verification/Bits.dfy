/** Powers of two and bitwise operations on natural numbers. */
module Bits {
  function Pow2(k: nat): (p: nat)
    ensures p >= 1
  {
    if k == 0 then 1 else 2 * Pow2(k - 1)
  }

  lemma {:induction false} Pow2Add(a: nat, b: nat)
    ensures Pow2(a + b) == Pow2(a) * Pow2(b)
  {
    if a == 0 {
    } else {
      Pow2Add(a - 1, b);
      assert 2 * (Pow2(a - 1) * Pow2(b)) == (2 * Pow2(a - 1)) * Pow2(b);
    }
  }

  lemma {:induction false} Pow2Monotone(a: nat, b: nat)
    requires a <= b
    ensures Pow2(a) <= Pow2(b)
  {
    if a < b { Pow2Monotone(a, b - 1); }
  }

  lemma Pow2Word()
    ensures Pow2(8) == 0x100
    ensures Pow2(16) == 0x1_0000
    ensures Pow2(32) == 0x1_0000_0000
    ensures Pow2(64) == 0x1_0000_0000_0000_0000
  {
    assert Pow2(8) == 0x100;
    Pow2Add(8, 8);
    Pow2Add(16, 16);
    Pow2Add(32, 32);
  }

  function And(x: nat, y: nat): (r: nat)
    ensures r <= x && r <= y
  {
    if x == 0 || y == 0 then 0
    else 2 * And(x / 2, y / 2) + (if x % 2 == 1 && y % 2 == 1 then 1 else 0)
  }

  function Or(x: nat, y: nat): (r: nat)
    ensures r >= x && r >= y
  {
    if x == 0 then y else if y == 0 then x
    else 2 * Or(x / 2, y / 2) + (if x % 2 == 1 || y % 2 == 1 then 1 else 0)
  }

  lemma {:induction false} OrBound(x: nat, y: nat, k: nat)
    requires x < Pow2(k) && y < Pow2(k)
    ensures Or(x, y) < Pow2(k)
  {
    if x != 0 && y != 0 {
      OrBound(x / 2, y / 2, k - 1);
    }
  }

  // ---------------------------------------------------------------------------------------
  // Division by powers of two
  // ---------------------------------------------------------------------------------------

  lemma Multiple(x: int, d: int)
    requires x >= 1 && d >= 0
    ensures x * d >= d
  {
    assert x * d == (x - 1) * d + d;
  }

  lemma SmallMultiple(x: int, d: int)
    requires -d < x * d < d
    ensures x == 0
  {
    assert (-x) * d == -(x * d);
    if x >= 1 {
      Multiple(x, d);
    } else if x <= -1 {
      Multiple(-x, d);
    }
  }

  lemma DivUnique(n: int, d: int, q: int, r: int)
    requires d > 0 && n == q * d + r && 0 <= r < d
    ensures n / d == q && n % d == r
  {
    var p, t := n / d, n % d;
    assert n == p * d + t;
    assert (q - p) * d == q * d - p * d;
    SmallMultiple(q - p, d);
  }

  lemma Distribute(a: int, b: int, c: int)
    ensures (a + b) * c == a * c + b * c
  {
  }

  lemma DivMod(n: nat, d: nat)
    requires d > 0
    ensures n == n / d * d + n % d && 0 <= n % d < d
  {
  }

  lemma MulAssoc(a: int, b: int, c: int)
    ensures a * b * c == a * (b * c)
  {
  }

  lemma NonNegative(a: int, b: int)
    requires a >= 0 && b >= 0
    ensures a * b >= 0
  {
  }

  /** A multiple of d below p * d leaves room for a remainder. */
  lemma DigitFits(d: nat, v: nat, r: nat, p: nat)
    requires v < p && r < d
    ensures v * d + r < p * d
  {
    var u := p - 1 - v;
    NonNegative(u, d);
    Distribute(u, v + 1, d);
    Distribute(v, 1, d);
  }

  lemma TwoDigits(n: nat, a: nat, b: nat, p: nat, t: nat, r: nat)
    requires a > 0 && b > 0 && t < b && r < a && n == (p * b + t) * a + r
    ensures b * a > 0 && n == p * (b * a) + (t * a + r) && t * a + r < b * a
  {
    NonNegative(t, a);
    Distribute(p * b, t, a);
    MulAssoc(p, b, a);
    DigitFits(a, t, r, b);
  }

  /** Shifting in two steps. */
  lemma DivTwice(n: nat, a: nat, b: nat)
    requires a > 0 && b > 0
    ensures a * b > 0 && n / a / b == n / (a * b)
    ensures n % (a * b) == n / a % b * a + n % a
  {
    DivNat(n, a);
    var q: nat, r: nat := n / a, n % a;
    DivNat(q, b);
    var p: nat, t: nat := q / b, q % b;
    DivMod(n, a);
    DivMod(q, b);
    TwoDigits(n, a, b, p, t, r);
    assert a * b == b * a;
    DivUnique(n, a * b, p, t * a + r);
  }

  /** Comparing n with a multiple of a power of two. */
  lemma DivBound(n: nat, d: nat, q: nat)
    requires d > 0
    ensures n < q * d <==> n / d < q
  {
    DivMod(n, d);
    if n / d < q {
      assert (n / d + 1) * d <= q * d;
    } else {
      assert n / d * d >= q * d;
    }
  }

  // ---------------------------------------------------------------------------------------
  // Shifts, masks and bit reversal
  // ---------------------------------------------------------------------------------------

  lemma DivNat(n: nat, d: nat)
    requires d > 0
    ensures 0 <= n / d <= n
  {
    DivBound(n, d, n + 1);
    assert n < (n + 1) * d by { Multiple(d, n + 1); assert d * (n + 1) == (n + 1) * d; }
  }

  /** n >> k. */
  function Shr(n: nat, k: nat): (r: nat)
    ensures r <= n
    decreases n + k, k
  {
    if k == 0 then n else Shr(n / 2, k - 1)
  }

  /** n << k. */
  function Shl(n: nat, k: nat): (r: nat)
    ensures r >= n && (n > 0 ==> r >= Pow2(k))
    decreases n + k, k
  {
    if k == 0 then n else 2 * Shl(n, k - 1)
  }

  lemma {:induction false} ShlIs(n: nat, k: nat)
    ensures Shl(n, k) == n * Pow2(k)
    decreases k
  {
    if k > 0 {
      var p := Pow2(k - 1);
      ShlIs(n, k - 1);
      assert n * (2 * p) == 2 * (n * p);
    }
  }

  lemma MulNat(n: nat, d: nat)
    requires d > 0
    ensures n * d >= n && (n > 0 ==> n * d >= d)
  {
    if n > 0 {
      assert (n - 1) * d >= 0;
      assert n * (d - 1) >= 0;
    }
  }

  lemma ShlStep(n: nat, k: nat)
    requires k > 0
    ensures Shl(n, k) == 2 * Shl(n, k - 1)
  {
  }

  lemma ShrZero(n: nat)
    ensures Shr(n, 0) == n
  {
  }

  /** The low k bits of n. */
  function Low(n: nat, k: nat): (r: nat)
    ensures r < Pow2(k)
    decreases n + k, k
  {
    if k == 0 then 0 else n % 2 + 2 * Low(n / 2, k - 1)
  }

  lemma {:induction false} Whole(n: nat, k: nat)
    ensures n == Shr(n, k) * Pow2(k) + Low(n, k)
    decreases k
  {
    if k > 0 {
      var q, p := Shr(n / 2, k - 1), Pow2(k - 1);
      Whole(n / 2, k - 1);
      assert q * (2 * p) == 2 * (q * p);
    }
  }

  /** Shifts and masks divide. */
  lemma Divides(n: nat, k: nat)
    ensures Shr(n, k) == n / Pow2(k) && Low(n, k) == n % Pow2(k)
  {
    Whole(n, k);
    DivUnique(n, Pow2(k), Shr(n, k), Low(n, k));
  }

  lemma ShrTwice(n: nat, a: nat, b: nat)
    ensures Shr(Shr(n, a), b) == Shr(n, a + b)
    ensures Low(n, a + b) == Low(Shr(n, a), b) * Pow2(a) + Low(n, a)
  {
    DivTwice(n, Pow2(a), Pow2(b));
    Pow2Add(a, b);
    Divides(n, a);
    Divides(n, a + b);
    Divides(Shr(n, a), b);
  }

  /** The parts of n = q * 2^k + r. */
  lemma Parts(n: nat, k: nat, q: nat, r: nat)
    requires n == q * Pow2(k) + r && r < Pow2(k)
    ensures Shr(n, k) == q && Low(n, k) == r
  {
    DivUnique(n, Pow2(k), q, r);
    Divides(n, k);
  }

  lemma ShrBound(n: nat, k: nat, q: nat)
    ensures n < q * Pow2(k) <==> Shr(n, k) < q
  {
    DivBound(n, Pow2(k), q);
    Divides(n, k);
  }

  /** The low k bits of n in reverse order. */
  function Rev(n: nat, k: nat): (r: nat) {
    if k == 0 then 0
    else (if n % 2 == 1 then Pow2(k - 1) else 0) + Rev(n / 2, k - 1)
  }

  lemma RevUnfold(n: nat, k: nat)
    requires k > 0
    ensures Rev(n, k) == n % 2 * Pow2(k - 1) + Rev(n / 2, k - 1)
  {
  }

  lemma {:induction false} RevBound(n: nat, k: nat)
    ensures Rev(n, k) < Pow2(k)
  {
    if k > 0 {
      RevBound(n / 2, k - 1);
      assert n % 2 * Pow2(k - 1) <= Pow2(k - 1);
    }
  }

  lemma HalfShr(n: nat, k: nat)
    requires k > 0
    ensures Shr(n / 2, k - 1) == Shr(n, k) && Low(n, k) == 2 * Low(n / 2, k - 1) + n % 2
  {
  }

  lemma RegroupSum(b: int, x: int, y: int, h: int, rest: int)
    ensures b * (x * y) + (h * y + rest) == (b * x + h) * y + rest
  {
  }

  /** Reversing the low and the high part separately. */
  lemma {:induction false} RevSplit(n: nat, s: nat, m: nat)
    ensures Rev(n, s + m) == Rev(n, s) * Pow2(m) + Rev(Shr(n, s), m)
  {
    if s > 0 {
      HalfShr(n, s);
      RevUnfold(n, s + m);
      RevUnfold(n, s);
      Pow2Add(s - 1, m);
      RevSplit(n / 2, s - 1, m);
      RegroupSum(n % 2, Pow2(s - 1), Pow2(m), Rev(n / 2, s - 1), Rev(Shr(n, s), m));
    }
  }

  /** The top s bits of a reversal are the reversal of the low s bits. */
  lemma RevTop(n: nat, k: nat, s: nat)
    requires s <= k
    ensures Shr(Rev(n, k), k - s) == Rev(n, s)
  {
    var m := k - s;
    RevSplit(n, s, m);
    RevBound(Shr(n, s), m);
    Parts(Rev(n, s + m), m, Rev(n, s), Rev(Shr(n, s), m));
  }

  lemma {:induction false} RevLow(n: nat, k: nat)
    ensures Rev(Low(n, k), k) == Rev(n, k)
  {
    if k > 0 {
      var m := Low(n, k);
      HalfShr(n, k);
      assert m % 2 == n % 2 && m / 2 == Low(n / 2, k - 1);
      RevUnfold(m, k);
      RevUnfold(n, k);
      RevLow(n / 2, k - 1);
    }
  }

  lemma {:induction false} RevInvolution(n: nat, k: nat)
    ensures Rev(Rev(n, k), k) == Low(n, k)
  {
    if k > 0 {
      RevBound(n / 2, k - 1);
      RevUnfold(n, k);
      RevAppend(Rev(n, k), k, n % 2, Rev(n / 2, k - 1));
      RevInvolution(n / 2, k - 1);
      HalfShr(n, k);
    }
  }

  lemma RevAppend(r: nat, k: nat, top: nat, lo: nat)
    requires k > 0 && top <= 1 && lo < Pow2(k - 1) && r == top * Pow2(k - 1) + lo
    ensures Rev(r, k) == 2 * Rev(lo, k - 1) + top
  {
    var m := k - 1;
    Parts(r, m, top, lo);
    RevSplit(r, m, 1);
    RevLow(r, m);
    RevBit(top);
  }

  lemma RevBit(b: nat)
    requires b <= 1
    ensures Rev(b, 1) == b && Pow2(1) == 2
  {
    assert Pow2(0) == 1;
  }

  /** j has the reversed code in its low bits iff the low bits of j, reversed, are the code. */
  lemma RevMatches(j: nat, code: nat, s: nat)
    requires code < Pow2(s)
    ensures Rev(j, s) == code <==> Low(j, s) == Rev(code, s)
  {
    RevLow(j, s);
    RevInvolution(j, s);
    RevInvolution(code, s);
    Parts(code, s, 0, code);
  }

  /** Masking with 2^n - 1 keeps the low n bits. */
  lemma {:induction false} AndMask(x: nat, n: nat)
    ensures And(x, Pow2(n) - 1) == Low(x, n)
    decreases n
  {
    if n > 0 {
      var y := Pow2(n - 1) - 1;
      AndMask(x / 2, n - 1);
      AndOdd(x, y);
      MaskUnfold(n, y);
    }
  }

  lemma MaskUnfold(n: nat, y: nat)
    requires n > 0 && y == Pow2(n - 1) - 1
    ensures Pow2(n) - 1 == 2 * y + 1
  {
  }

  lemma AndOdd(x: nat, y: nat)
    ensures And(x, 2 * y + 1) == 2 * And(x / 2, y) + x % 2
  {
    assert (2 * y + 1) / 2 == y && (2 * y + 1) % 2 == 1;
  }

  lemma Regroup(a: int, b: int)
    ensures a * (2 * b) == 2 * a * b
  {
  }

  /** Or of a number and bits below it is their sum. */
  lemma {:induction false} OrDisjoint(x: nat, b: nat, n: nat)
    requires x < Pow2(n)
    ensures Or(x, b * Pow2(n)) == x + b * Pow2(n)
  {
    if x != 0 && b != 0 {
      var y := b * Pow2(n);
      assert y == 2 * (b * Pow2(n - 1)) by { Regroup(b, Pow2(n - 1)); }
      assert y / 2 == b * Pow2(n - 1) && y % 2 == 0;
      OrDisjoint(x / 2, b, n - 1);
      assert b * Pow2(n - 1) > 0;
    }
  }

  lemma OrCommutes(x: nat, y: nat)
    ensures Or(x, y) == Or(y, x)
  {
  }
}
