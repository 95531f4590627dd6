/** Numbers by their bits: what masks, shifts and or do to every single bit. */
module WordBits {
  import opened Bits
  import opened BitStream

  lemma {:induction false} BitAnd(x: nat, y: nat, k: nat)
    ensures Bit(And(x, y), k) <==> Bit(x, k) && Bit(y, k)
  {
    if x == 0 || y == 0 {
      BitZero(k);
    } else if k > 0 {
      BitAnd(x / 2, y / 2, k - 1);
      assert And(x, y) / 2 == And(x / 2, y / 2);
    }
  }

  lemma {:induction false} BitZero(k: nat)
    ensures !Bit(0, k)
  {
    if k > 0 { BitZero(k - 1); }
  }

  lemma OrStep(x: nat, y: nat)
    requires x > 0 && y > 0
    ensures Or(x, y) / 2 == Or(x / 2, y / 2)
    ensures Or(x, y) % 2 == if x % 2 == 1 || y % 2 == 1 then 1 else 0
  {
    var r, b := Or(x / 2, y / 2), if x % 2 == 1 || y % 2 == 1 then 1 else 0;
    assert Or(x, y) == 2 * r + b;
  }

  lemma {:induction false} BitOr(x: nat, y: nat, k: nat)
    ensures Bit(Or(x, y), k) <==> Bit(x, k) || Bit(y, k)
  {
    if x == 0 || y == 0 {
      BitZero(k);
    } else {
      OrStep(x, y);
      if k > 0 { BitOr(x / 2, y / 2, k - 1); }
    }
  }

  lemma {:induction false} BitOfShr(x: nat, n: nat, k: nat)
    ensures Bit(Shr(x, n), k) <==> Bit(x, n + k)
  {
    if n == 0 {
      ShrZero(x);
    } else {
      HalfShr(x, n);
      BitOfShr(x / 2, n - 1, k);
    }
  }

  lemma {:induction false} BitOfShl(x: nat, n: nat, k: nat)
    ensures Bit(Shl(x, n), k) <==> k >= n && Bit(x, k - n)
  {
    if n == 0 {
      assert x * Pow2(0) == x;
    } else {
      ShlStep(x, n);
      if k > 0 { BitOfShl(x, n - 1, k - 1); }
    }
  }

  /** Bits beyond the width of a number are clear. */
  lemma {:induction false} BitBeyond(x: nat, n: nat, k: nat)
    requires x < Pow2(n) && k >= n
    ensures !Bit(x, k)
  {
    if n == 0 {
      BitZero(k);
    } else {
      BitBeyond(x / 2, n - 1, k - 1);
    }
  }

  lemma {:induction false} BitMask(n: nat, k: nat)
    ensures Bit(Pow2(n) - 1, k) <==> k < n
  {
    if n == 0 {
      BitZero(k);
    } else if k > 0 {
      assert (Pow2(n) - 1) / 2 == Pow2(n - 1) - 1;
      BitMask(n - 1, k - 1);
    }
  }

  /** x & ~y. */
  function Clear(x: nat, y: nat): (r: nat)
    ensures r <= x
  {
    x - And(x, y)
  }

  lemma {:induction false} BitClear(x: nat, y: nat, k: nat)
    ensures Bit(Clear(x, y), k) <==> Bit(x, k) && !Bit(y, k)
  {
    if x == 0 || y == 0 {
      BitZero(k);
    } else {
      assert And(x, y) == 2 * And(x / 2, y / 2) + (x % 2) * (y % 2);
      assert Clear(x, y) / 2 == Clear(x / 2, y / 2);
      if k > 0 { BitClear(x / 2, y / 2, k - 1); }
    }
  }

  /** Clear bits beyond n make a number smaller than 2^n. */
  lemma {:induction false} SmallByBits(x: nat, n: nat)
    requires forall k: nat | k >= n :: !Bit(x, k)
    ensures x < Pow2(n)
  {
    if n == 0 {
      NoBits(x);
    } else {
      forall k: nat | k >= n - 1 ensures !Bit(x / 2, k) {
        assert Bit(x / 2, k) == Bit(x, k + 1);
      }
      SmallByBits(x / 2, n - 1);
    }
  }

  lemma {:induction false} NoBits(x: nat)
    requires forall k: nat :: !Bit(x, k)
    ensures x == 0
  {
    if x > 0 {
      assert Bit(x, 0) == (x % 2 == 1);
      forall k: nat ensures !Bit(x / 2, k) { assert Bit(x / 2, k) == Bit(x, k + 1); }
      NoBits(x / 2);
    }
  }

  /** Numbers with the same bits are equal. */
  lemma {:induction false} SameBits(x: nat, y: nat)
    requires forall k: nat :: Bit(x, k) == Bit(y, k)
    ensures x == y
  {
    if x == 0 {
      forall k: nat ensures !Bit(y, k) { BitZero(k); assert Bit(x, k) == Bit(y, k); }
      NoBits(y);
    } else {
      assert Bit(x, 0) == Bit(y, 0);
      forall k: nat ensures Bit(x / 2, k) == Bit(y / 2, k) {
        assert Bit(x, k + 1) == Bit(y, k + 1);
      }
      SameBits(x / 2, y / 2);
    }
  }

  /** Bit k of a window is bit q + k of the stream. */
  lemma {:induction false} BitOfWindow(bits: Stream, q: nat, n: nat, k: nat)
    ensures Bit(Window(bits, q, n), k) <==> k < n && q + k in bits
    decreases n
  {
    if n == 0 {
      BitZero(k);
    } else {
      var w := Window(bits, q + 1, n - 1);
      assert Window(bits, q, n) / 2 == w;
      if k > 0 {
        BitOfWindow(bits, q + 1, n - 1, k - 1);
        assert q + 1 + (k - 1) == q + k;
      }
    }
  }
}
