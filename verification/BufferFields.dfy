/** Buffer fields (lai_write_buffer and lai_read_buffer in lai/core/exec-operand.c). */
module BufferFields {
  import opened Bits
  import opened BitStream
  import opened WordBits
  import opened FieldAccess

  /** Bit i of the buffer after n bits of the field at `offset` have been written. */
  predicate Written(was: seq<byte>, now: seq<byte>, value: nat, offset: nat, n: nat, i: nat) {
    BitIn(now, i) <==>
      if offset <= i < offset + n then Bit(value, i - offset) else BitIn(was, i)
  }

  ghost predicate WrittenTo(was: seq<byte>, now: seq<byte>, value: nat, offset: nat, n: nat) {
    forall i: nat :: Written(was, now, value, offset, n, i)
  }

  /** One byte: m bits of the value from bit n on replace its bits from `bit` on. */
  function NewByte(b: nat, value: nat, n: nat, m: nat, bit: nat): nat {
    Or(Clear(b, Shl(Pow2(m) - 1, bit)), Shl(Extract(value, n, m), bit))
  }

  lemma NewByteBit(b: nat, value: nat, n: nat, m: nat, bit: nat, k: nat)
    ensures Bit(NewByte(b, value, n, m, bit), k)
            <==> if bit <= k < bit + m then Bit(value, n + (k - bit)) else Bit(b, k)
  {
    OrMoved(Clear(b, Shl(Pow2(m) - 1, bit)), Extract(value, n, m), bit, k);
    BitClear(b, Shl(Pow2(m) - 1, bit), k);
    BitOfShl(Pow2(m) - 1, bit, k);
    if k >= bit {
      BitMask(m, k - bit);
      ExtractBit(value, n, m, k - bit);
    }
  }

  lemma NewByteSmall(b: byte, value: nat, n: nat, m: nat, bit: nat)
    requires bit + m <= 8
    ensures NewByte(b, value, n, m, bit) < 256
  {
    assert Pow2(8) == 256;
    forall k: nat | k >= 8 ensures !Bit(NewByte(b, value, n, m, bit), k) {
      NewByteBit(b, value, n, m, bit, k);
      BitBeyond(b, 8, k);
    }
    SmallByBits(NewByte(b, value, n, m, bit), 8);
  }

  lemma WriteByte(was: seq<byte>, mid: seq<byte>, value: nat, offset: nat, n: nat, m: nat,
                  r: byte, i: nat)
    requires (offset + n) / 8 < |mid| && m > 0 && (offset + n) % 8 + m <= 8
    requires r == NewByte(mid[(offset + n) / 8], value, n, m, (offset + n) % 8)
    requires Written(was, mid, value, offset, n, i)
    ensures Written(was, mid[(offset + n) / 8 := r], value, offset, n + m, i)
  {
    var p, bit := (offset + n) / 8, (offset + n) % 8;
    if i / 8 == p {
      NewByteBit(mid[p], value, n, m, bit, i % 8);
      assert offset + n == 8 * p + bit && i == 8 * p + i % 8;
      if i % 8 >= bit { assert n + (i % 8 - bit) == i - offset; }
    }
  }

  /** lai_write_buffer: exact at every bit offset. */
  method WriteBuffer(data: array<byte>, offset: nat, size: nat, value: nat)
    requires offset + size <= 8 * data.Length && size <= 64
    modifies data
    ensures WrittenTo(old(data[..]), data[..], value, offset, size)
  {
    ghost var was := data[..];
    var n := 0;
    while n < size
      invariant n <= size && WrittenTo(was, data[..], value, offset, n)
    {
      var bit := (offset + n) % 8;
      var m := if size - n > 8 - bit then 8 - bit else size - n;
      var p := (offset + n) / 8;
      ghost var mid, before := data[..], n;
      NewByteSmall(data[p], value, n, m, bit);
      var r: byte := NewByte(data[p], value, n, m, bit);
      data[p] := r;
      assert data[..] == mid[p := r];
      n := n + m;
      forall i: nat ensures Written(was, data[..], value, offset, n, i) {
        assert Written(was, mid, value, offset, before, i);
        WriteByte(was, mid, value, offset, before, m, r, i);
      }
    }
  }

  // ---------------------------------------------------------------------------------------
  // Reading
  // ---------------------------------------------------------------------------------------

  /** The bit of the buffer that bit k of a read comes from.  In the first byte the loop takes the
      lowest bits, wherever the field begins. */
  function Source(offset: nat, k: nat): nat {
    if (offset + k) / 8 == offset / 8 then 8 * (offset / 8) + k else offset + k
  }

  ghost function SourceBits(data: seq<byte>, offset: nat): Stream {
    iset k: nat | BitIn(data, Source(offset, k))
  }

  /** What a read of the field gives. */
  ghost function BufferValue(data: seq<byte>, offset: nat, size: nat): nat {
    Window(SourceBits(data, offset), 0, size)
  }

  predicate ReadTo(data: seq<byte>, v: nat, offset: nat, n: nat, k: nat) {
    Bit(v, k) <==> k < n && BitIn(data, Source(offset, k))
  }

  lemma ReadByte(data: seq<byte>, v: nat, offset: nat, n: nat, m: nat, k: nat)
    requires (offset + n) / 8 < |data| && m > 0 && (offset + n) % 8 + m <= 8
    requires n > 0 ==> (offset + n) % 8 == 0
    requires ReadTo(data, v, offset, n, k)
    ensures ReadTo(data, Or(v, Shl(And(data[(offset + n) / 8], Pow2(m) - 1), n)), offset, n + m, k)
  {
    var p := (offset + n) / 8;
    var x := And(data[p], Pow2(m) - 1);
    OrMoved(v, x, n, k);
    if k >= n {
      BitAnd(data[p], Pow2(m) - 1, k - n);
      BitMask(m, k - n);
      if k < n + m {
        assert (offset + k) / 8 == p && Source(offset, k) == 8 * p + (k - n);
      }
    }
  }

  /** lai_read_buffer. */
  method ReadBuffer(data: array<byte>, offset: nat, size: nat) returns (v: nat)
    requires offset + size <= 8 * data.Length && size <= 64
    ensures v == BufferValue(data[..], offset, size)
  {
    v := 0;
    forall k: nat ensures ReadTo(data[..], 0, offset, 0, k) { BitZero(k); }
    var n := 0;
    while n < size
      invariant n <= size && (0 < n < size ==> (offset + n) % 8 == 0)
      invariant forall k: nat :: ReadTo(data[..], v, offset, n, k)
    {
      var bit := (offset + n) % 8;
      var m := if size - n > 8 - bit then 8 - bit else size - n;
      ghost var was, before := v, n;
      v := Or(v, Shl(And(data[(offset + n) / 8], Pow2(m) - 1), n));
      n := n + m;
      forall k: nat ensures ReadTo(data[..], v, offset, n, k) {
        ReadByte(data[..], was, offset, before, m, k);
      }
    }
    forall k: nat ensures Bit(v, k) == Bit(BufferValue(data[..], offset, size), k) {
      assert ReadTo(data[..], v, offset, n, k);
      BitOfWindow(SourceBits(data[..], offset), 0, size, k);
    }
    SameBits(v, BufferValue(data[..], offset, size));
  }

  /** The bits of the field itself. */
  ghost function Slice(data: seq<byte>, offset: nat, size: nat): nat {
    Window(BitsOf(data), offset, size)
  }

  lemma AlignedRead(data: seq<byte>, offset: nat, size: nat)
    requires offset % 8 == 0 || size == 0
    ensures BufferValue(data, offset, size) == Slice(data, offset, size)
  {
    var v, w := BufferValue(data, offset, size), Slice(data, offset, size);
    forall k: nat ensures Bit(v, k) == Bit(w, k) {
      BitOfWindow(SourceBits(data, offset), 0, size, k);
      BitOfWindow(BitsOf(data), offset, size, k);
    }
    SameBits(v, w);
  }

  /** At an unaligned offset, a buffer in which only the lowest bit of the first byte is set reads
      as 1 although the field is 0 there. */
  lemma UnalignedRead(offset: nat, size: nat) returns (data: seq<byte>)
    requires offset % 8 != 0 && size > 0
    ensures 8 * |data| >= offset + size
    ensures BufferValue(data, offset, size) != Slice(data, offset, size)
  {
    var p := offset / 8;
    data := seq<byte>(offset + size, i => if i == p then 1 else 0);
    BitOfWindow(SourceBits(data, offset), 0, size, 0);
    BitOfWindow(BitsOf(data), offset, size, 0);
    assert Source(offset, 0) == 8 * p && (8 * p) / 8 == p && (8 * p) % 8 == 0;
    BitBeyond(1, 1, offset % 8) by { assert Pow2(1) == 2; }
  }

  /** Reads are right for every buffer iff the field begins at a byte (or is empty). */
  lemma ReadsRight(offset: nat, size: nat)
    ensures (forall data: seq<byte> | 8 * |data| >= offset + size ::
               BufferValue(data, offset, size) == Slice(data, offset, size))
            <==> offset % 8 == 0 || size == 0
  {
    if offset % 8 == 0 || size == 0 {
      forall data: seq<byte> | 8 * |data| >= offset + size
        ensures BufferValue(data, offset, size) == Slice(data, offset, size)
      {
        AlignedRead(data, offset, size);
      }
    } else {
      var data := UnalignedRead(offset, size);
    }
  }

  /** What is written at a byte boundary is read back modulo the width of the field. */
  lemma WriteThenRead(was: seq<byte>, now: seq<byte>, value: nat, offset: nat, size: nat)
    requires WrittenTo(was, now, value, offset, size)
    ensures Slice(now, offset, size) == Low(value, size)
    ensures offset % 8 == 0 ==> BufferValue(now, offset, size) == Low(value, size)
  {
    var v := Slice(now, offset, size);
    forall k: nat ensures Bit(v, k) == Bit(Low(value, size), k) {
      BitOfWindow(BitsOf(now), offset, size, k);
      AndMask(value, size);
      BitAnd(value, Pow2(size) - 1, k);
      BitMask(size, k);
      assert Written(was, now, value, offset, size, offset + k);
    }
    SameBits(v, Low(value, size));
    if offset % 8 == 0 { AlignedRead(now, offset, size); }
  }
}
