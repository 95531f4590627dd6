/** Bytes as a stream of bits, lowest bit of each byte first. */
module BitStream {
  import opened Bits

  type byte = b: nat | b < 256

  /** An infinite stream of bits: the positions of the ones. */
  type Stream = iset<nat>

  /** The n bits at position q as a number, first bit lowest. */
  ghost function Window(bits: Stream, q: nat, n: nat): nat
    decreases q + n, n
  {
    if n == 0 then 0 else (if q in bits then 1 else 0) + 2 * Window(bits, q + 1, n - 1)
  }

  lemma {:induction false} WindowBound(bits: Stream, q: nat, n: nat)
    ensures Window(bits, q, n) < Pow2(n)
    decreases n
  {
    if n > 0 { WindowBound(bits, q + 1, n - 1); }
  }

  lemma {:induction false} WindowAppend(bits: Stream, q: nat, n: nat, m: nat)
    ensures Window(bits, q, n + m) == Window(bits, q, n) + Shl(Window(bits, q + n, m), n)
    decreases n
  {
    if n > 0 {
      WindowAppend(bits, q + 1, n - 1, m);
      ShlStep(Window(bits, q + n, m), n);
    }
  }

  /** Taking n bits off the front of a window. */
  lemma WindowTake(bits: Stream, q: nat, n: nat, m: nat)
    ensures Low(Window(bits, q, n + m), n) == Window(bits, q, n)
    ensures Shr(Window(bits, q, n + m), n) == Window(bits, q + n, m)
  {
    WindowAppend(bits, q, n, m);
    WindowBound(bits, q, n);
    ShlIs(Window(bits, q + n, m), n);
    Parts(Window(bits, q, n + m), n, Window(bits, q + n, m), Window(bits, q, n));
  }

  /** Bytes past the end of the input read as zero. */
  function Fetch(mem: seq<byte>, p: nat): byte { if p < |mem| then mem[p] else 0 }

  /** Bit k of n. */
  function Bit(n: nat, k: nat): bool { if k == 0 then n % 2 == 1 else Bit(n / 2, k - 1) }

  ghost function BitsOf(mem: seq<byte>): Stream {
    iset q: nat | Bit(Fetch(mem, q / 8), q % 8)
  }

  lemma {:induction false} BitShr(n: nat, k: nat)
    ensures Shr(n, k) == (if Bit(n, k) then 1 else 0) + 2 * Shr(n, k + 1)
  {
    assert Pow2(1) == 2;
    if k == 0 {
      ShrZero(n);
    } else {
      BitShr(n / 2, k - 1);
      HalfShr(n, k);
      HalfShr(n, k + 1);
    }
  }

  lemma {:induction false} ByteTail(mem: seq<byte>, p: nat, k: nat)
    requires k <= 8
    ensures Window(BitsOf(mem), 8 * p + k, 8 - k) == Shr(Fetch(mem, p), k)
    decreases 8 - k
  {
    if k == 8 {
      assert Pow2(8) == 256;
      Parts(Fetch(mem, p), 8, 0, Fetch(mem, p));
    } else {
      ByteTail(mem, p, k + 1);
      BitShr(Fetch(mem, p), k);
      assert (8 * p + k) / 8 == p && (8 * p + k) % 8 == k;
    }
  }

  lemma ByteWindow(mem: seq<byte>, p: nat)
    ensures Window(BitsOf(mem), 8 * p, 8) == Fetch(mem, p)
  {
    ByteTail(mem, p, 0);
    ShrZero(Fetch(mem, p));
  }
}
