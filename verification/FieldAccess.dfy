/** Field access through units of a fixed width (lai/core/opregion.c), over ideal little-endian
memory.
*/
module FieldAccess {
  import opened Bits
  import opened BitStream
  import opened WordBits

  /** Bit i of memory. */
  predicate BitIn(mem: seq<byte>, i: nat) { Bit(Fetch(mem, i / 8), i % 8) }

  // ---------------------------------------------------------------------------------------
  // Bits in buffers
  // ---------------------------------------------------------------------------------------

  /** Bit i after some bits of a value have been or-ed in from bit `at` on. */
  predicate PutBit(was: seq<byte>, now: seq<byte>, value: nat, at: nat, n: nat, i: nat) {
    BitIn(now, i) <==> BitIn(was, i) || (at <= i < at + n && Bit(value, i - at))
  }

  /** (x >> from) & ((1 << m) - 1). */
  function Extract(x: nat, from: nat, m: nat): nat { And(Shr(x, from), Pow2(m) - 1) }

  lemma ExtractBit(x: nat, from: nat, m: nat, k: nat)
    ensures Bit(Extract(x, from, m), k) <==> k < m && Bit(x, from + k)
  {
    BitAnd(Shr(x, from), Pow2(m) - 1, k);
    BitMask(m, k);
    BitOfShr(x, from, k);
  }

  /** The bits of x, moved up by n, or-ed into v. */
  lemma OrMoved(v: nat, x: nat, n: nat, k: nat)
    ensures Bit(Or(v, Shl(x, n)), k) <==> Bit(v, k) || (k >= n && Bit(x, k - n))
  {
    BitOr(v, Shl(x, n), k);
    BitOfShl(x, n, k);
  }

  /** The bits that one turn of lai_buffer_put_at writes to a byte. */
  lemma PutChunk(b: byte, value: nat, progress: nat, m: nat, ib: nat, k: nat)
    requires ib + m <= 8
    ensures var r := Or(b, Shl(Extract(value, progress, m), ib));
      Bit(r, k) <==> Bit(b, k) || (ib <= k < ib + m && Bit(value, progress + (k - ib)))
  {
    OrMoved(b, Extract(value, progress, m), ib, k);
    if k >= ib { ExtractBit(value, progress, m, k - ib); }
  }

  lemma PutByte(b: byte, value: nat, progress: nat, m: nat, ib: nat)
    requires ib + m <= 8
    ensures Or(b, Shl(Extract(value, progress, m), ib)) < 256
  {
    var r := Or(b, Shl(Extract(value, progress, m), ib));
    assert Pow2(8) == 256;
    forall k: nat | k >= 8 ensures !Bit(r, k) {
      PutChunk(b, value, progress, m, ib, k);
      BitBeyond(b, 8, k);
    }
    SmallByBits(r, 8);
  }

  lemma PutStep(was: seq<byte>, now: seq<byte>, value: nat, at: nat, progress: nat, m: nat,
                r: byte, i: nat)
    requires (at + progress) / 8 < |now| && m > 0 && (at + progress) % 8 + m <= 8
    requires r == Or(now[(at + progress) / 8],
                     Shl(Extract(value, progress, m), (at + progress) % 8))
    requires PutBit(was, now, value, at, progress, i)
    ensures PutBit(was, now[(at + progress) / 8 := r], value, at, progress + m, i)
  {
    var p, ib := (at + progress) / 8, (at + progress) % 8;
    if i / 8 == p {
      PutChunk(now[p], value, progress, m, ib, i % 8);
      assert at + progress == 8 * p + ib && i == 8 * p + i % 8;
      if i >= at + progress { assert progress + (i % 8 - ib) == i - at; }
    }
  }

  /** lai_buffer_put_at. */
  method PutAt(buffer: array<byte>, value: nat, at: nat, n: nat)
    requires at + n <= 8 * buffer.Length
    modifies buffer
    ensures forall i: nat :: PutBit(old(buffer[..]), buffer[..], value, at, n, i)
  {
    ghost var was := buffer[..];
    var progress := 0;
    while progress < n
      invariant progress <= n
      invariant forall i: nat :: PutBit(was, buffer[..], value, at, progress, i)
    {
      var ib := (at + progress) % 8;
      var m := if n - progress < 8 - ib then n - progress else 8 - ib;
      var p := (at + progress) / 8;
      PutByte(buffer[p], value, progress, m, ib);
      var r: byte := Or(buffer[p], Shl(Extract(value, progress, m), ib));
      ghost var now := buffer[..];
      buffer[p] := r;
      assert buffer[..] == now[p := r];
      ghost var before := progress;
      progress := progress + m;
      forall i: nat ensures PutBit(was, buffer[..], value, at, progress, i) {
        PutStep(was, now, value, at, before, m, r, i);
      }
    }
  }

  /** Bit k of a value read from bit `at` on. */
  predicate GotBit(buffer: seq<byte>, v: nat, at: nat, n: nat, k: nat) {
    Bit(v, k) <==> k < n && BitIn(buffer, at + k)
  }

  lemma GetStep(buffer: seq<byte>, v: nat, at: nat, progress: nat, m: nat, k: nat)
    requires (at + progress) / 8 < |buffer| && m > 0 && (at + progress) % 8 + m <= 8
    requires GotBit(buffer, v, at, progress, k)
    ensures var x := Extract(buffer[(at + progress) / 8], (at + progress) % 8, m);
      GotBit(buffer, Or(v, Shl(x, progress)), at, progress + m, k)
  {
    var p, ib := (at + progress) / 8, (at + progress) % 8;
    var x := Extract(buffer[p], ib, m);
    OrMoved(v, x, progress, k);
    if k >= progress {
      var j := k - progress;
      ExtractBit(buffer[p], ib, m, j);
      assert at + k == 8 * p + (ib + j);
    }
  }

  /** lai_buffer_get_at. */
  method GetAt(buffer: array<byte>, at: nat, n: nat) returns (v: nat)
    requires at + n <= 8 * buffer.Length
    ensures forall k: nat :: GotBit(buffer[..], v, at, n, k)
  {
    v := 0;
    forall k: nat ensures GotBit(buffer[..], 0, at, 0, k) { BitZero(k); }
    var progress := 0;
    while progress < n
      invariant progress <= n && forall k: nat :: GotBit(buffer[..], v, at, progress, k)
    {
      var ib := (at + progress) % 8;
      var m := if n - progress < 8 - ib then n - progress else 8 - ib;
      var x := Extract(buffer[(at + progress) / 8], ib, m);
      ghost var was, before := v, progress;
      v := Or(v, Shl(x, progress));
      progress := progress + m;
      forall k: nat ensures GotBit(buffer[..], v, at, progress, k) {
        GetStep(buffer[..], was, at, before, m, k);
      }
    }
  }
}
