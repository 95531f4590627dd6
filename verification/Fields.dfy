/** Reading and writing the fields of an operation region (lai/core/opregion.c): whatever access
width is used, a field is a slice of the bits of memory.
*/
module Fields {
  import opened Bits
  import opened BitStream
  import opened WordBits
  import opened FieldAccess

  /** `memory`: the region is in system memory, the one address space with 64-bit accesses. */
  datatype Field = Field(offset: nat, size: nat, flags: nat, memory: bool)

  // ---------------------------------------------------------------------------------------
  // Access width and update rule
  // ---------------------------------------------------------------------------------------

  function BitLength(n: nat): nat { if n == 0 then 0 else 1 + BitLength(n / 2) }

  lemma {:induction false} BitLengthBounds(n: nat)
    requires n > 0
    ensures Pow2(BitLength(n) - 1) <= n < Pow2(BitLength(n))
  {
    if n > 1 { BitLengthBounds(n / 2); }
  }

  function Max(f: Field): nat { if f.memory then 64 else 32 }

  /** The smallest power of two that holds the field. */
  function RoundedSize(f: Field): nat { if f.size > 1 then Pow2(BitLength(f.size - 1)) else 1 }

  /** lai_calculate_access_width; 0 where it panics. */
  function AccessWidth(f: Field): nat {
    var access := f.flags % 16;
    if access == 1 then 8 else if access == 2 then 16 else if access == 3 then 32
    else if access == 4 then 64 else if access > 4 then 0
    else
      var r := if RoundedSize(f) > Max(f) then Max(f) else RoundedSize(f);
      if r < 8 then 8 else r
  }

  predicate WidthOk(w: nat) { w == 8 || w == 16 || w == 32 || w == 64 }

  /** With AnyAcc the width is permitted, and it is the smallest that holds the field, or the
      largest permitted if none does. */
  lemma AnyAccessWidth(f: Field)
    requires f.flags % 16 == 0
    ensures var w := AccessWidth(f);
      && WidthOk(w) && w <= Max(f) && (f.size <= w || w == Max(f)) && (w == 8 || f.size > w / 2)
  {
    if f.size > 1 {
      var k := BitLength(f.size - 1);
      BitLengthBounds(f.size - 1);
      assert Pow2(3) == 8 && Pow2(4) == 16 && Pow2(5) == 32 && Pow2(6) == 64;
      if k >= 7 { Pow2Monotone(7, k); Pow2Monotone(6, k - 1); }
    }
  }

  datatype Update = Preserve | Ones | Zeros | Invalid

  function UpdateRule(f: Field): Update {
    var u := f.flags / 32 % 16;
    if u == 0 then Preserve else if u == 1 then Ones else if u == 2 then Zeros else Invalid
  }

  // ---------------------------------------------------------------------------------------
  // Units
  // ---------------------------------------------------------------------------------------

  /** First bit of the first unit, and the end of the last unit, that the field touches. */
  function Begin(f: Field, w: nat): nat
    requires w > 0
  {
    f.offset - f.offset % w
  }

  function End(f: Field, w: nat): nat
    requires w > 0
  {
    var e := f.offset + f.size;
    if e % w == 0 then e else e - e % w + w
  }

  /** No chunk is a whole 64-bit unit; the code would shift by 64. */
  predicate ChunksOk(f: Field, w: nat) {
    w < 64 || f.offset - f.offset % 64 + (if f.offset % 64 == 0 then 64 else 128) > f.offset + f.size
  }

  /** Unit number u, of w bits, contains bit q. */
  predicate InUnit(u: nat, w: nat, q: nat) { u * w <= q < u * w + w }

  lemma UnitOf(u: nat, w: nat, q: nat)
    requires w > 0 && InUnit(u, w, q)
    ensures q % w == q - u * w && (u + 1) * w == u * w + w
  {
    DivUnique(q, w, u, q - u * w);
  }

  lemma FirstUnit(q: nat, w: nat)
    requires w > 0
    ensures InUnit(q / w, w, q) && q - q % w == q / w * w
  {
    DivMod(q, w);
  }

  /** The unit after the one that ends the field. */
  lemma LastUnit(f: Field, w: nat, u: nat)
    requires w > 0 && u * w < f.offset + f.size <= u * w + w
    ensures End(f, w) == (u + 1) * w == u * w + w
  {
    var e := f.offset + f.size;
    if e == u * w + w {
      DivUnique(e, w, u + 1, 0);
    } else {
      DivUnique(e, w, u, e - u * w);
    }
  }

  // ---------------------------------------------------------------------------------------
  // Reading
  // ---------------------------------------------------------------------------------------

  /** Little-endian value of w bits of memory from byte p on. */
  function Load(mem: seq<byte>, p: nat, w: nat): nat
    decreases p + w
  {
    if w < 8 then 0 else Fetch(mem, p) + 256 * Load(mem, p + 1, w - 8)
  }

  lemma {:induction false} LoadWindow(mem: seq<byte>, p: nat, w: nat)
    requires w % 8 == 0
    ensures Load(mem, p, w) == Window(BitsOf(mem), 8 * p, w)
    decreases w
  {
    if w >= 8 {
      LoadWindow(mem, p + 1, w - 8);
      ByteWindow(mem, p);
      LoadStep(BitsOf(mem), 8 * p, 8 * (p + 1), w, Fetch(mem, p), Load(mem, p + 1, w - 8));
    }
  }

  lemma LoadStep(bits: Stream, q: nat, q1: nat, w: nat, low: nat, high: nat)
    requires q1 == q + 8 && w >= 8
    requires Window(bits, q, 8) == low && Window(bits, q1, w - 8) == high
    ensures Window(bits, q, w) == low + 256 * high
  {
    WindowAppend(bits, q, 8, w - 8);
    ShlByte(high);
  }

  lemma ShlByte(n: nat)
    ensures Shl(n, 8) == 256 * n
  {
    ShlIs(n, 8);
    assert Pow2(8) == 256;
  }

  lemma LoadBit(mem: seq<byte>, p: nat, w: nat, k: nat)
    requires w % 8 == 0
    ensures Bit(Load(mem, p, w), k) <==> k < w && BitIn(mem, 8 * p + k)
  {
    LoadWindow(mem, p, w);
    BitOfWindow(BitsOf(mem), 8 * p, w, k);
  }

  /** Bit i of the destination after n bits of the field have been read. */
  predicate ReadBit(was: seq<byte>, now: seq<byte>, mem: seq<byte>, f: Field, n: nat, i: nat) {
    BitIn(now, i) <==> BitIn(was, i) || (i < n && BitIn(mem, f.offset + i))
  }

  ghost predicate ReadUpTo(was: seq<byte>, now: seq<byte>, mem: seq<byte>, f: Field, n: nat) {
    forall i: nat :: ReadBit(was, now, mem, f, n, i)
  }

  lemma ReadStep(was: seq<byte>, mid: seq<byte>, now: seq<byte>, mem: seq<byte>, f: Field,
                 n: nat, m: nat, p: nat, w: nat, bo: nat, value: nat, i: nat)
    requires ReadBit(was, mid, mem, f, n, i) && PutBit(mid, now, value, n, m, i)
    requires WidthOk(w) && f.offset + n == 8 * p + bo && bo + m <= w
    requires value == Extract(Load(mem, p, w), bo, m)
    ensures ReadBit(was, now, mem, f, n + m, i)
  {
    if n <= i < n + m {
      UnitBits(mem, p, w, bo, m, i - n);
      assert 8 * p + (bo + (i - n)) == f.offset + i;
    }
  }

  /** The bits taken from a unit. */
  lemma UnitBits(mem: seq<byte>, p: nat, w: nat, bo: nat, m: nat, k: nat)
    requires WidthOk(w) && bo + m <= w && k < m
    ensures Bit(Extract(Load(mem, p, w), bo, m), k) <==> BitIn(mem, 8 * p + (bo + k))
  {
    ExtractBit(Load(mem, p, w), bo, m, k);
    LoadBit(mem, p, w, bo + k);
  }

  /** Where the loop of lai_read_field_internal is: unit u, at byte `offset`, comes next. */
  predicate ReadAt(f: Field, w: nat, u: nat, progress: nat, offset: nat) {
    && progress <= f.size && 8 * offset == u * w
    && (progress < f.size ==> InUnit(u, w, f.offset + progress))
  }

  lemma ReadMoves(f: Field, w: nat, u: nat, progress: nat, m: nat, offset: nat)
    requires WidthOk(w) && ReadAt(f, w, u, progress, offset) && m <= f.size - progress
    requires progress + m < f.size ==> f.offset + progress + m == u * w + w
    ensures ReadAt(f, w, u + 1, progress + m, offset + w / 8)
  {
    NextUnit(u, w);
  }

  /** The first unit of a field. */
  method FirstByte(f: Field, w: nat) returns (offset: nat, ghost u: nat)
    requires WidthOk(w)
    ensures ReadAt(f, w, u, 0, offset) && InUnit(u, w, f.offset) && 8 * offset == Begin(f, w)
  {
    FirstUnit(f.offset, w);
    Eighth(f.offset / w, w);
    offset, u := (f.offset - f.offset % w) / 8, f.offset / w;
  }

  /** One turn of the loop of lai_read_field_internal, on unit u at byte p. */
  method ReadChunk(mem: array<byte>, f: Field, w: nat, dest: array<byte>, n: nat, p: nat,
                   ghost u: nat, ghost was: seq<byte>)
    returns (m: nat)
    requires WidthOk(w) && dest != mem && n < f.size <= 8 * dest.Length
    requires InUnit(u, w, f.offset + n) && 8 * p == u * w
    requires ReadUpTo(was, dest[..], mem[..], f, n)
    modifies dest
    ensures 0 < m <= f.size - n && (n + m < f.size ==> f.offset + n + m == u * w + w)
    ensures ReadUpTo(was, dest[..], mem[..], f, n + m)
  {
    UnitOf(u, w, f.offset + n);
    var bo := (f.offset + n) % w;
    m := if f.size - n < w - bo then f.size - n else w - bo;
    var value := Extract(Load(mem[..], p, w), bo, m);
    ghost var mid, memory := dest[..], mem[..];
    PutAt(dest, value, n, m);
    ghost var end := n + m;
    forall i: nat ensures ReadBit(was, dest[..], memory, f, end, i) {
      assert PutBit(mid, dest[..], value, n, m, i) && ReadBit(was, mid, memory, f, n, i);
      ReadStep(was, mid, dest[..], memory, f, n, m, p, w, bo, value, i);
    }
  }

  /** lai_read_field_internal. */
  method ReadFieldInternal(mem: array<byte>, f: Field, w: nat, dest: array<byte>)
    requires w == AccessWidth(f) && WidthOk(w) && ChunksOk(f, w) && dest != mem
    requires f.size <= 8 * dest.Length && End(f, w) <= 8 * mem.Length
    modifies dest
    ensures ReadUpTo(old(dest[..]), dest[..], mem[..], f, f.size)
  {
    ghost var was, memory := dest[..], mem[..];
    var progress: nat, offset: nat := 0, 0;
    ghost var u: nat;
    offset, u := FirstByte(f, w);
    while progress < f.size
      invariant mem[..] == memory && ReadAt(f, w, u, progress, offset)
      invariant ReadUpTo(was, dest[..], memory, f, progress)
    {
      var m := ReadChunk(mem, f, w, dest, progress, offset, u, was);
      ReadMoves(f, w, u, progress, m, offset);
      progress, u, offset := progress + m, u + 1, offset + w / 8;
    }
  }

  lemma NextUnit(u: nat, w: nat)
    requires WidthOk(w)
    ensures (u + 1) * w == u * w + w && 8 * (w / 8) == w
  {
  }

  /** Units begin at bytes. */
  lemma Eighth(u: nat, w: nat)
    requires WidthOk(w)
    ensures u * w % 8 == 0
  {
    var k := w / 8;
    assert u * w == u * (8 * k) == 8 * (u * k);
  }

  // ---------------------------------------------------------------------------------------
  // Writing
  // ---------------------------------------------------------------------------------------

  /** What an update rule makes of the bits of touched units outside the field. */
  predicate FillBit(u: Update, was: seq<byte>, i: nat) {
    match u
    case Preserve => BitIn(was, i)
    case Ones => true
    case Zeros => false
    case Invalid => false
  }

  /** Bit i of memory after the first n bits of the field, up to the end `hi` of their units. */
  predicate WriteBit(was: seq<byte>, now: seq<byte>, src: seq<byte>, f: Field, begin: nat,
                     n: nat, hi: nat, i: nat)
  {
    BitIn(now, i) <==>
      if f.offset <= i < f.offset + n then BitIn(src, i - f.offset)
      else if begin <= i < hi then FillBit(UpdateRule(f), was, i)
      else BitIn(was, i)
  }

  ghost predicate WriteUpTo(was: seq<byte>, now: seq<byte>, src: seq<byte>, f: Field, w: nat,
                            n: nat, hi: nat)
    requires w > 0
  {
    forall i: nat :: WriteBit(was, now, src, f, Begin(f, w), n, hi, i)
  }

  /** Bit i of memory after a unit has been stored. */
  predicate StoreBit(was: seq<byte>, now: seq<byte>, p: nat, w: nat, value: nat, i: nat) {
    BitIn(now, i) <==> if 8 * p <= i < 8 * p + w then Bit(value, i - 8 * p) else BitIn(was, i)
  }

  lemma StoreStep(was: seq<byte>, now: seq<byte>, p: nat, j: nat, value: nat, b: byte, i: nat)
    requires p + j < |now| && b == Low(Shr(value, 8 * j), 8)
    requires StoreBit(was, now, p, 8 * j, value, i)
    ensures StoreBit(was, now[p + j := b], p, 8 * j + 8, value, i)
  {
    if i / 8 == p + j {
      var k := i % 8;
      assert i == 8 * (p + j) + k;
      LowBit(Shr(value, 8 * j), 8, k);
      BitOfShr(value, 8 * j, k);
    }
  }

  lemma LowBit(x: nat, n: nat, k: nat)
    ensures Bit(Low(x, n), k) <==> k < n && Bit(x, k)
  {
    AndMask(x, n);
    BitAnd(x, Pow2(n) - 1, k);
    BitMask(n, k);
  }

  /** Stores w bits of a value, lowest byte first. */
  method PerformWrite(mem: array<byte>, p: nat, w: nat, value: nat)
    requires WidthOk(w) && p + w / 8 <= mem.Length
    modifies mem
    ensures forall i: nat :: StoreBit(old(mem[..]), mem[..], p, w, value, i)
  {
    ghost var was := mem[..];
    assert Pow2(8) == 256;
    for j := 0 to w / 8
      invariant forall i: nat :: StoreBit(was, mem[..], p, 8 * j, value, i)
    {
      ghost var mid := mem[..];
      var b: byte := Low(Shr(value, 8 * j), 8);
      mem[p + j] := b;
      assert mem[..] == mid[p + j := b];
      ghost var n := 8 * j + 8;
      forall i: nat ensures StoreBit(was, mem[..], p, n, value, i) {
        StoreStep(was, mid, p, j, value, b, i);
      }
    }
  }

  const ALL_ONES: nat := 0xFFFF_FFFF_FFFF_FFFF

  /** The value a unit is filled with before the field's bits replace their own. */
  function Fill(u: Update, mem: seq<byte>, p: nat, w: nat): nat {
    match u
    case Preserve => Load(mem, p, w)
    case Ones => ALL_ONES
    case Zeros => 0
    case Invalid => 0
  }

  lemma FillValue(u: Update, was: seq<byte>, mem: seq<byte>, p: nat, w: nat, k: nat)
    requires WidthOk(w) && k < w && (BitIn(mem, 8 * p + k) <==> BitIn(was, 8 * p + k))
    ensures Bit(Fill(u, mem, p, w), k) <==> FillBit(u, was, 8 * p + k)
  {
    LoadBit(mem, p, w, k);
    BitZero(k);
    assert Pow2(64) == 0x1_0000_0000_0000_0000 by { Pow2Word(); }
    BitMask(64, k);
  }

  /** The new value of a unit: the fill, with the field's m bits from bit `bo` on replaced. */
  function Merged(fill: nat, bits: nat, bo: nat, m: nat): nat {
    var mask := Shl(Pow2(m) - 1, bo);
    Or(Clear(fill, mask), And(Shl(bits, bo), mask))
  }

  lemma MergedBit(fill: nat, bits: nat, bo: nat, m: nat, k: nat)
    ensures Bit(Merged(fill, bits, bo, m), k)
            <==> if bo <= k < bo + m then Bit(bits, k - bo) else Bit(fill, k)
  {
    var mask := Shl(Pow2(m) - 1, bo);
    BitOr(Clear(fill, mask), And(Shl(bits, bo), mask), k);
    BitClear(fill, mask, k);
    BitAnd(Shl(bits, bo), mask, k);
    BitOfShl(bits, bo, k);
    BitOfShl(Pow2(m) - 1, bo, k);
    if k >= bo { BitMask(m, k - bo); }
  }

  /** A bit of a unit after the unit has been stored: the field's own bit, or the fill. */
  lemma UnitBit(was: seq<byte>, mid: seq<byte>, now: seq<byte>, src: seq<byte>, u: Update, n: nat,
                w: nat, m: nat, p: nat, bo: nat, bits: nat, k: nat)
    requires WidthOk(w) && k < w && (BitIn(mid, 8 * p + k) <==> BitIn(was, 8 * p + k))
    requires StoreBit(mid, now, p, w, Merged(Fill(u, mid, p, w), bits, bo, m), 8 * p + k)
    requires bo <= k ==> GotBit(src, bits, n, m, k - bo)
    ensures BitIn(now, 8 * p + k) <==>
              if bo <= k < bo + m then BitIn(src, n + (k - bo)) else FillBit(u, was, 8 * p + k)
  {
    MergedBit(Fill(u, mid, p, w), bits, bo, m, k);
    FillValue(u, was, mid, p, w, k);
  }

  /** One unit of a write. */
  lemma WriteStep(was: seq<byte>, mid: seq<byte>, now: seq<byte>, src: seq<byte>, f: Field,
                  begin: nat, w: nat, n: nat, m: nat, p: nat, bo: nat, bits: nat, i: nat)
    requires WidthOk(w) && WriteBit(was, mid, src, f, begin, n, 8 * p, i)
    requires f.offset + n == 8 * p + bo && bo + m <= w && m > 0
    requires if n == 0 then begin == 8 * p else bo == 0 && begin <= 8 * p
    requires forall k: nat :: GotBit(src, bits, n, m, k)
    requires StoreBit(mid, now, p, w, Merged(Fill(UpdateRule(f), mid, p, w), bits, bo, m), i)
    ensures WriteBit(was, now, src, f, begin, n + m, 8 * p + w, i)
  {
    if 8 * p <= i < 8 * p + w {
      var k := i - 8 * p;
      assert bo <= k ==> GotBit(src, bits, n, m, k - bo);
      UnitBit(was, mid, now, src, UpdateRule(f), n, w, m, p, bo, bits, k);
      assert bo <= k ==> n + (k - bo) == i - f.offset;
    }
  }

  /** One turn of the loop of lai_write_field_internal, on unit u at byte p. */
  method WriteChunk(mem: array<byte>, f: Field, w: nat, src: array<byte>, n: nat, p: nat,
                    ghost u: nat, ghost was: seq<byte>)
    returns (m: nat)
    requires WidthOk(w) && src != mem && n < f.size <= 8 * src.Length && p + w / 8 <= mem.Length
    requires InUnit(u, w, f.offset + n) && 8 * p == u * w
    requires n == 0 ==> Begin(f, w) == 8 * p
    requires n > 0 ==> f.offset + n == 8 * p && Begin(f, w) <= 8 * p
    requires WriteUpTo(was, mem[..], src[..], f, w, n, 8 * p)
    modifies mem
    ensures 0 < m <= f.size - n && (n + m < f.size ==> f.offset + n + m == u * w + w)
    ensures n + m == f.size ==> u * w < f.offset + f.size <= u * w + w
    ensures WriteUpTo(was, mem[..], src[..], f, w, n + m, 8 * p + w)
  {
    UnitOf(u, w, f.offset + n);
    var bo := (f.offset + n) % w;
    m := if f.size - n < w - bo then f.size - n else w - bo;
    var bits := GetAt(src, n, m);
    ghost var mid, source := mem[..], src[..];
    var value := Merged(Fill(UpdateRule(f), mem[..], p, w), bits, bo, m);
    PerformWrite(mem, p, w, value);
    ghost var begin, end, hi := Begin(f, w), n + m, 8 * p + w;
    forall i: nat ensures WriteBit(was, mem[..], source, f, begin, end, hi, i) {
      assert StoreBit(mid, mem[..], p, w, value, i);
      WriteStep(was, mid, mem[..], source, f, begin, w, n, m, p, bo, bits, i);
    }
  }

  /** Where the loop of lai_write_field_internal is: unit u, at byte `offset`, comes next. */
  predicate WriteAt(f: Field, w: nat, u: nat, progress: nat, offset: nat)
    requires w > 0
  {
    && progress <= f.size && 8 * offset == u * w && Begin(f, w) <= 8 * offset
    && (progress < f.size ==> InUnit(u, w, f.offset + progress))
    && (progress == 0 ==> Begin(f, w) == 8 * offset)
    && (0 < progress < f.size ==> f.offset + progress == 8 * offset)
    && (0 < progress == f.size ==> 8 * offset == End(f, w))
  }

  lemma NothingWritten(was: seq<byte>, src: seq<byte>, f: Field, w: nat, hi: nat)
    requires w > 0 && hi == Begin(f, w)
    ensures WriteUpTo(was, was, src, f, w, 0, hi)
  {
    forall i: nat ensures WriteBit(was, was, src, f, Begin(f, w), 0, hi, i) { }
  }

  lemma WriteMoves(f: Field, w: nat, u: nat, progress: nat, m: nat, offset: nat)
    requires WidthOk(w) && WriteAt(f, w, u, progress, offset) && 0 < m <= f.size - progress
    requires progress + m < f.size ==> f.offset + progress + m == u * w + w
    requires progress + m == f.size ==> u * w < f.offset + f.size <= u * w + w
    ensures WriteAt(f, w, u + 1, progress + m, offset + w / 8)
  {
    NextUnit(u, w);
    if progress + m == f.size { LastUnit(f, w, u); }
  }

  /** lai_write_field_internal; panics iff the update rule is none of the three. */
  method WriteFieldInternal(mem: array<byte>, f: Field, w: nat, src: array<byte>)
    returns (ok: bool)
    requires w == AccessWidth(f) && WidthOk(w) && ChunksOk(f, w) && src != mem
    requires f.size <= 8 * src.Length && End(f, w) <= 8 * mem.Length
    modifies mem
    ensures ok <==> UpdateRule(f) != Invalid || f.size == 0
    ensures ok && f.size > 0 ==>
      WriteUpTo(old(mem[..]), mem[..], src[..], f, w, f.size, End(f, w))
    ensures !ok || f.size == 0 ==> mem[..] == old(mem[..])
  {
    if f.size > 0 && UpdateRule(f) == Invalid { return false; }
    ghost var was, source := mem[..], src[..];
    var progress: nat, offset: nat := 0, 0;
    ghost var u: nat;
    offset, u := FirstByte(f, w);
    NothingWritten(was, source, f, w, 8 * offset);
    while progress < f.size
      invariant src[..] == source && WriteAt(f, w, u, progress, offset)
      invariant progress == 0 ==> mem[..] == was
      invariant WriteUpTo(was, mem[..], source, f, w, progress, 8 * offset)
    {
      UnitFits(f, w, u, f.offset + progress);
      var m := WriteChunk(mem, f, w, src, progress, offset, u, was);
      WriteMoves(f, w, u, progress, m, offset);
      progress, u, offset := progress + m, u + 1, offset + w / 8;
    }
    return true;
  }

  /** A unit with a bit of the field ends no later than the last. */
  lemma UnitFits(f: Field, w: nat, u: nat, q: nat)
    requires WidthOk(w) && InUnit(u, w, q) && q < f.offset + f.size
    ensures u * w + w <= End(f, w)
  {
    var e := f.offset + f.size;
    var r := (e - 1) / w;
    DivMod(e - 1, w);
    LastUnit(f, w, r);
    DivUnique(q, w, u, q - u * w);
    DivBound(q, w, r + 1);
    MulNat(r - u, w);
    assert (r - u) * w == r * w - u * w;
  }

  // ---------------------------------------------------------------------------------------
  // Fields as integers
  // ---------------------------------------------------------------------------------------

  /** The integer that the bits of a field make up. */
  ghost function FieldValue(mem: seq<byte>, f: Field): nat { Window(BitsOf(mem), f.offset, f.size) }

  lemma FieldBit(mem: seq<byte>, f: Field, k: nat)
    ensures Bit(FieldValue(mem, f), k) <==> k < f.size && BitIn(mem, f.offset + k)
  {
    BitOfWindow(BitsOf(mem), f.offset, f.size, k);
  }

  /** Bit k of a value assembled from the first n bytes of a buffer. */
  predicate BytesBit(buf: seq<byte>, v: nat, n: nat, k: nat) {
    Bit(v, k) <==> k < 8 * n && BitIn(buf, k)
  }

  lemma BytesStep(buf: seq<byte>, v: nat, n: nat, k: nat)
    requires n < |buf| && BytesBit(buf, v, n, k)
    ensures BytesBit(buf, Or(v, Shl(buf[n], n * 8)), n + 1, k)
  {
    OrMoved(v, buf[n], n * 8, k);
    if k >= 8 * n {
      var j := k - 8 * n;
      assert Pow2(8) == 256;
      if j >= 8 { BitBeyond(buf[n], 8, j); } else { assert k / 8 == n && k % 8 == j; }
    }
  }

  /** What a field is read as and what is written to it: an integer, or the content of a buffer or
      string. */
  datatype Data = Integer(v: nat) | Content(bytes: seq<byte>)

  /** The number that a content stands for, its lowest byte first. */
  ghost function ContentValue(bytes: seq<byte>): nat { Window(BitsOf(bytes), 0, 8 * |bytes|) }

  /** lai_read_field: an integer if the field has at most 64 bits, otherwise a buffer of as many bytes
      as it needs; either way exactly the field's bits. */
  method ReadField(mem: array<byte>, f: Field) returns (r: Data)
    requires WidthOk(AccessWidth(f)) && ChunksOk(f, AccessWidth(f))
    requires End(f, AccessWidth(f)) <= 8 * mem.Length
    ensures r.Integer? <==> f.size <= 64
    ensures match r
            case Integer(v) => v == FieldValue(mem[..], f)
            case Content(bytes) =>
              |bytes| == (f.size + 7) / 8 && ContentValue(bytes) == FieldValue(mem[..], f)
  {
    var n := (f.size + 7) / 8;
    var buf := new byte[n](_ => 0);
    ghost var zero := buf[..];
    ReadFieldInternal(mem, f, AccessWidth(f), buf);
    BufferHolds(zero, buf[..], mem[..], f);
    if n > 8 { return Content(buf[..]); }
    var v := 0;
    forall k: nat ensures BytesBit(buf[..], v, 0, k) { BitZero(k); }
    for i := 0 to n
      invariant forall k: nat :: BytesBit(buf[..], v, i, k)
    {
      ghost var was, next := v, i + 1;
      v := Or(v, Shl(buf[i], i * 8));
      forall k: nat ensures BytesBit(buf[..], v, next, k) { BytesStep(buf[..], was, i, k); }
    }
    BytesAre(buf[..], v);
    return Integer(v);
  }

  /** A buffer of zeros into which a field has been read has its value. */
  lemma BufferHolds(zero: seq<byte>, buf: seq<byte>, mem: seq<byte>, f: Field)
    requires |buf| == |zero| && f.size <= 8 * |buf| && ReadUpTo(zero, buf, mem, f, f.size)
    requires forall i :: 0 <= i < |zero| ==> zero[i] == 0
    ensures ContentValue(buf) == FieldValue(mem, f)
  {
    forall k: nat ensures Bit(ContentValue(buf), k) == Bit(FieldValue(mem, f), k) {
      BitOfWindow(BitsOf(buf), 0, 8 * |buf|, k);
      FieldBit(mem, f, k);
      assert ReadBit(zero, buf, mem, f, f.size, k);
      BitZero(k % 8);
    }
    SameBits(ContentValue(buf), FieldValue(mem, f));
  }

  /** The loop over the bytes gives their value. */
  lemma BytesAre(buf: seq<byte>, v: nat)
    requires forall k: nat :: BytesBit(buf, v, |buf|, k)
    ensures v == ContentValue(buf)
  {
    forall k: nat ensures Bit(v, k) == Bit(ContentValue(buf), k) {
      BitOfWindow(BitsOf(buf), 0, 8 * |buf|, k);
      assert BytesBit(buf, v, |buf|, k);
    }
    SameBits(v, ContentValue(buf));
  }

  /** The low bits of what is written. */
  ghost function DataValue(x: Data, size: nat): nat {
    match x
    case Integer(v) => Low(v, size)
    case Content(bytes) => Window(BitsOf(bytes), 0, size)
  }

  /** What is written is read back, as far as the field goes, whatever the access widths and the
      update rule. */
  lemma WriteThenRead(was: seq<byte>, now: seq<byte>, src: seq<byte>, f: Field, w: nat, hi: nat)
    requires w > 0 && WriteUpTo(was, now, src, f, w, f.size, hi)
    ensures FieldValue(now, f) == Window(BitsOf(src), 0, f.size)
  {
    var v := Window(BitsOf(src), 0, f.size);
    forall k: nat ensures Bit(FieldValue(now, f), k) == Bit(v, k) {
      FieldBit(now, f, k);
      BitOfWindow(BitsOf(src), 0, f.size, k);
      assert WriteBit(was, now, src, f, Begin(f, w), f.size, hi, f.offset + k);
    }
    SameBits(FieldValue(now, f), v);
  }

  /** lai_write_field of an integer or the content of a buffer or string, which must be long enough;
      the code reads behind a shorter one. */
  method WriteField(mem: array<byte>, f: Field, x: Data) returns (ok: bool, ghost src: seq<byte>)
    requires WidthOk(AccessWidth(f)) && ChunksOk(f, AccessWidth(f))
    requires f.size <= if x.Integer? then 64 else 8 * |x.bytes|
    requires End(f, AccessWidth(f)) <= 8 * mem.Length
    modifies mem
    ensures ok <==> UpdateRule(f) != Invalid || f.size == 0
    ensures Window(BitsOf(src), 0, f.size) == DataValue(x, f.size)
    ensures ok && f.size > 0 ==> WriteUpTo(old(mem[..]), mem[..], src, f, AccessWidth(f), f.size,
                                           End(f, AccessWidth(f)))
    ensures ok && f.size > 0 ==> FieldValue(mem[..], f) == DataValue(x, f.size)
    ensures !ok || f.size == 0 ==> mem[..] == old(mem[..])
  {
    var buf;
    match x {
      case Content(bytes) =>
        buf := new byte[|bytes|](i requires 0 <= i < |bytes| => bytes[i]);
        assert buf[..] == bytes;
      case Integer(v) =>
        buf := IntegerBytes(v);
        LowWindow(buf[..], v, f.size);
    }
    src := buf[..];
    ghost var was := mem[..];
    var w := AccessWidth(f);
    ok := WriteFieldInternal(mem, f, w, buf);
    if ok && f.size > 0 { WriteThenRead(was, mem[..], src, f, w, End(f, w)); }
  }

  /** The eight bytes of an integer. */
  method IntegerBytes(v: nat) returns (buf: array<byte>)
    ensures fresh(buf) && buf.Length == 8
    ensures forall k: nat | k < 64 :: BitIn(buf[..], k) == Bit(v, k)
  {
    assert Pow2(8) == 256;
    buf := new byte[8](_ => 0);
    for i := 0 to 8
      invariant forall j :: 0 <= j < i ==> buf[j] == Low(Shr(v, 8 * j), 8)
    {
      buf[i] := Low(Shr(v, 8 * i), 8);
    }
    forall k: nat | k < 64 ensures BitIn(buf[..], k) == Bit(v, k) {
      LowBit(Shr(v, 8 * (k / 8)), 8, k % 8);
      BitOfShr(v, 8 * (k / 8), k % 8);
    }
  }

  lemma LowWindow(buf: seq<byte>, v: nat, size: nat)
    requires size <= 64 && forall k: nat | k < 64 :: BitIn(buf, k) == Bit(v, k)
    ensures Window(BitsOf(buf), 0, size) == Low(v, size)
  {
    var w := Window(BitsOf(buf), 0, size);
    forall k: nat ensures Bit(w, k) == Bit(Low(v, size), k) {
      BitOfWindow(BitsOf(buf), 0, size, k);
      LowBit(v, size, k);
    }
    SameBits(w, Low(v, size));
  }

  /** Writing a field that preserves its surroundings does not change a field it does not overlap;
      under any rule, it does not change a field outside the units it touches. */
  lemma DisjointFields(was: seq<byte>, now: seq<byte>, src: seq<byte>, f: Field, w: nat, hi: nat,
                       g: Field)
    requires w > 0 && WriteUpTo(was, now, src, f, w, f.size, hi)
    requires g.offset + g.size <= f.offset || f.offset + f.size <= g.offset
    requires UpdateRule(f) == Preserve || g.offset + g.size <= Begin(f, w) || hi <= g.offset
    ensures FieldValue(now, g) == FieldValue(was, g)
  {
    forall k: nat ensures Bit(FieldValue(now, g), k) == Bit(FieldValue(was, g), k) {
      FieldBit(now, g, k);
      FieldBit(was, g, k);
      assert WriteBit(was, now, src, f, Begin(f, w), f.size, hi, g.offset + k);
    }
    SameBits(FieldValue(now, g), FieldValue(was, g));
  }
}
