/** The inflate decoder of base/include/ssfn.h as it runs: a bit buffer that is refilled a byte at
a time, decoding tables filled in place, and output appended byte by byte.  Every method is proved
against the functions of module Inflate.
*/
module InflateDecoder {
  import opened Wrappers
  import opened Bits
  import opened BitStream
  import opened Huffman
  import opened HuffmanTables
  import opened Inflate

  // ---------------------------------------------------------------------------------------
  // The input
  // ---------------------------------------------------------------------------------------

  ghost predicate ByteOf(bits: Stream, mem: seq<byte>, p: nat) { Window(bits, 8 * p, 8) == Fetch(mem, p) }

  /** The stream consists of the bytes of mem. */
  ghost predicate Serves(bits: Stream, mem: seq<byte>) { forall p: nat :: ByteOf(bits, mem, p) }

  lemma BytesServe(mem: seq<byte>)
    ensures Serves(BitsOf(mem), mem)
  {
    forall p: nat ensures ByteOf(BitsOf(mem), mem, p) {
      ByteWindow(mem, p);
    }
  }

  // ---------------------------------------------------------------------------------------
  // Looking codes up
  // ---------------------------------------------------------------------------------------

  /** Whether a symbol matches depends on no more bits than its code has. */
  lemma MatchesLow(l: Lengths, i: nat, x: nat, y: nat, k: nat)
    requires i < |l| && l[i] <= k && Low(x, k) == Low(y, k)
    ensures Matches(l, i, x) <==> Matches(l, i, y)
  {
    var s := l[i];
    LowLow(x, s, k);
    LowLow(y, s, k);
    RevLow(x, s);
    RevLow(y, s);
  }

  lemma LowLow(x: nat, s: nat, k: nat)
    requires s <= k
    ensures Low(Low(x, k), s) == Low(x, s)
  {
    ShrTwice(x, s, k - s);
    Parts(Low(x, k), s, Low(Shr(x, s), k - s), Low(x, s));
  }

  /** Below the limit of length n some symbol of at most n bits matches. */
  lemma {:induction false} ShortMatch(l: Lengths, n: nat, x: nat) returns (i: nat)
    requires 1 <= n < 16 && Rev(x, 16) < Limit(l, n)
    ensures Matches(l, i, x) && l[i] <= n
  {
    if Limit(l, n - 1) <= Rev(x, 16) {
      i := MatchExists(l, n, x);
    } else {
      i := ShortMatch(l, n - 1, x);
    }
  }

  lemma NotShort(l: Lengths, x: nat)
    requires forall i :: 0 <= i < |l| && l[i] <= 9 ==> !Matches(l, i, x)
    ensures Limit(l, 9) <= Rev(x, 16)
  {
    if Rev(x, 16) < Limit(l, 9) {
      var i := ShortMatch(l, 9, x);
    }
  }

  /** The symbol between the limits of length s, and where the builder has put it. */
  lemma LongMatch(l: Lengths, s: nat, x: nat) returns (i: nat)
    requires 1 <= s < 16 && Limit(l, s - 1) <= Rev(x, 16) < Limit(l, s)
    ensures i < |l| && Lookup(l, x) == Some(i) && l[i] == s
    ensures Shr(Rev(x, 16), 16 - s) >= FirstCode(l, s)
    ensures Index(l, i) == Shr(Rev(x, 16), 16 - s) - FirstCode(l, s) + FirstSymbol(l, s)
  {
    i := MatchExists(l, s, x);
    LookupIs(l, i, x);
  }

  /** No symbol matches from the limit of the longest codes on. */
  lemma NoMatch(l: Lengths, x: nat)
    requires Limit(l, 15) <= Rev(x, 16)
    ensures Lookup(l, x) == None
  {
    var r := Lookup(l, x);
    if r.Some? {
      MatchLimits(l, r.value, x);
      LimitMonotone(l, l[r.value], 15);
    }
  }

  // ---------------------------------------------------------------------------------------
  // The decoder
  // ---------------------------------------------------------------------------------------

  /** One more byte above the n bits already in the buffer. */
  lemma BufferGrows(bits: Stream, mem: seq<byte>, q: nat, n: nat, p: nat)
    requires Serves(bits, mem) && q + n == 8 * p
    ensures Or(Window(bits, q, n), Shl(Fetch(mem, p), n)) == Window(bits, q, n + 8)
  {
    WindowAppend(bits, q, n, 8);
    assert ByteOf(bits, mem, p);
    WindowBound(bits, q, n);
    ShlIs(Fetch(mem, p), n);
    OrDisjoint(Window(bits, q, n), Fetch(mem, p), n);
  }

  /** How a run of the decoder ends: 1, 0, a copy of bytes never written, or cut off. */
  datatype Status = Fine | Failed | Unwritten | Cut

  class Decoder {
    const mem: seq<byte>
    ghost const bits: Stream
    var p: nat
    var numBits: nat
    var buffer: nat
    var out: seq<byte>
    const length: Table
    const distance: Table

    constructor (input: seq<byte>, ghost stream: Stream)
      requires Serves(stream, input)
      ensures Valid() && Pos() == 0 && out == [] && mem == input && bits == stream
      ensures Apart() && fresh(length.Arrays()) && fresh(distance.Arrays())
    {
      mem, bits := input, stream;
      p, numBits, buffer, out := 0, 0, 0, [];
      length := new Table();
      distance := new Table();
    }

    ghost predicate Apart() {
      length.Shape() && distance.Shape() && length.Arrays() !! distance.Arrays()
    }

    ghost function Pos(): int
      reads this
    {
      8 * p - numBits
    }

    /** The bit buffer holds the bits between the position and the next byte. */
    ghost predicate Valid()
      reads this
    {
      && Serves(bits, mem) && numBits <= 32 && numBits <= 8 * p
      && buffer == Window(bits, 8 * p - numBits, numBits)
    }

    /** _ssfn__fill_bits. */
    method FillBits()
      requires Valid() && numBits <= 24
      modifies this`p, this`numBits, this`buffer
      ensures Valid() && Pos() == old(Pos()) && 25 <= numBits
    {
      var more := true;
      while more
        invariant Valid() && Pos() == old(Pos()) && (more <==> numBits <= 24)
        decreases 32 - numBits
      {
        BufferGrows(bits, mem, 8 * p - numBits, numBits, p);
        buffer := Or(buffer, Shl(Fetch(mem, p), numBits));
        p := p + 1;
        numBits := numBits + 8;
        more := numBits <= 24;
      }
    }

    /** Drops n bits from the buffer. */
    method Consume(n: nat)
      requires Valid() && n <= numBits
      modifies this`numBits, this`buffer
      ensures Valid() && Pos() == old(Pos()) + n && numBits == old(numBits) - n
    {
      WindowTake(bits, 8 * p - numBits, n, numBits - n);
      buffer := Shr(buffer, n);
      numBits := numBits - n;
    }

    /** _ssfn__zreceive. */
    method Receive(n: nat) returns (k: nat)
      requires Valid() && n <= 25
      modifies this`p, this`numBits, this`buffer
      ensures Valid() && Pos() == old(Pos()) + n && k == Window(bits, old(Pos()), n)
      ensures old(numBits) >= n ==> p == old(p) && numBits == old(numBits) - n
    {
      if numBits < n { FillBits(); }
      AndMask(buffer, n);
      WindowTake(bits, 8 * p - numBits, n, numBits - n);
      k := And(buffer, Pow2(n) - 1);
      Consume(n);
    }

    /** _ssfn__zhuffman_decode_slowpath. */
    method DecodeSlow(t: Table, ghost l: Lengths) returns (z: int)
      requires Valid() && t.Built(l) && numBits >= 16
      requires forall i :: 0 <= i < |l| && l[i] <= 9 ==> !Matches(l, i, Window(bits, Pos(), 16))
      modifies this`numBits, this`buffer
      ensures Valid() && z == Symbol(SymbolAt(l, bits, old(Pos())))
      ensures Pos() == old(Pos()) + (if z < 0 then 0 else l[z])
    {
      ghost var x := Window(bits, Pos(), 16);
      var k := BitReverse(buffer, 16);
      SlowKey(bits, Pos(), numBits, buffer, k);
      NotShort(l, x);
      var s := 10;
      while k >= t.maxcode[s]
        invariant 10 <= s <= 16 && Limit(l, s - 1) <= k
        decreases 16 - s
      {
        assert t.EntryOk(l, s);
        s := s + 1;
      }
      if s == 16 {
        NoMatch(l, x);
        return -1;
      }
      assert t.EntryOk(l, s);
      ghost var i := LongMatch(l, s, x);
      assert t.EntryOk(l, i);
      var b := Shr(k, 16 - s) - t.firstcode[s] + t.firstsymbol[s];
      Consume(s);
      z := t.value[b];
    }

    /** _ssfn__zhuffman_decode: the symbol at the position, or -1. */
    method Decode(t: Table, ghost l: Lengths) returns (z: int)
      requires Valid() && t.Built(l)
      modifies this`p, this`numBits, this`buffer
      ensures Valid() && z == Symbol(SymbolAt(l, bits, old(Pos())))
      ensures Pos() == old(Pos()) + (if z < 0 then 0 else l[z])
    {
      if numBits < 16 { FillBits(); }
      ghost var x := Window(bits, Pos(), 16);
      var j := And(buffer, 511);
      assert j == Low(buffer, 9) by { AndMask(buffer, 9); }
      FastKey(bits, Pos(), numBits, buffer, j);
      var b := t.fast[j];
      assert t.EntryOk(l, j);
      FastEntryFinds(l, |l|, j);
      if b != 0 {
        var s := b / 512;
        MatchesLow(l, b % 512, j, x, 9);
        LookupIs(l, b % 512, x);
        Consume(s);
        return b % 512;
      }
      forall i | 0 <= i < |l| && l[i] <= 9 ensures !Matches(l, i, x) {
        MatchesLow(l, i, j, x, 9);
      }
      z := DecodeSlow(t, l);
    }

    /** The decoder has ended as r says. */
    ghost predicate Ends(s: Status, r: Result)
      reads this
    {
      match s
      case Fine => Valid() && r == Done(Pos(), out)
      case Failed => r == Fail
      case Unwritten => r == Undefined
      case Cut => r == More
    }

    /** The copy loops at the end of _ssfn__parse_huffman_block. */
    method CopyBytes(len: nat, dist: nat)
      requires 0 < dist <= |out|
      modifies this`out
      ensures out == CopyBack(old(out), len, dist)
    {
      var from := |out| - dist;
      var left := len;
      if dist == 1 {
        var v := out[from];
        while left > 0
          invariant |out| >= 1 && out[|out| - 1] == v
          invariant CopyBack(out, left, 1) == CopyBack(old(out), len, 1)
        {
          out := out + [v];
          left := left - 1;
        }
      } else {
        while left > 0
          invariant dist <= |out| && from == |out| - dist
          invariant CopyBack(out, left, dist) == CopyBack(old(out), len, dist)
        {
          out := out + [out[from]];
          from := from + 1;
          left := left - 1;
        }
      }
    }

    method ReadLength(z: nat) returns (len: nat)
      requires Valid() && z <= 30
      modifies this`p, this`numBits, this`buffer
      ensures Valid() && len == LengthBase(z) + Window(bits, old(Pos()), LengthExtra(z))
      ensures Pos() == old(Pos()) + LengthExtra(z)
    {
      LengthTable(z);
      ExtraTables(z);
      len := LENGTH_BASE[z];
      if LENGTH_EXTRA[z] > 0 {
        var x := Receive(LENGTH_EXTRA[z]);
        len := len + x;
      }
    }

    method ReadDistance(y: nat) returns (dist: nat)
      requires Valid() && y < 32
      modifies this`p, this`numBits, this`buffer
      ensures Valid() && dist == DistBase(y) + Window(bits, old(Pos()), DistExtra(y))
      ensures Pos() == old(Pos()) + DistExtra(y)
    {
      DistTable(y);
      ExtraTables(y);
      dist := DIST_BASE[y];
      if DIST_EXTRA[y] > 0 {
        var x := Receive(DIST_EXTRA[y]);
        dist := dist + x;
      }
    }

    /** The length and distance after a length symbol 257 + z. */
    method ReadCopy(z: nat, ghost d: Distances) returns (c: Copy)
      requires Valid() && distance.Built(d) && z <= 30
      modifies this`p, this`numBits, this`buffer
      ensures Valid() && c == CopyAt(d, bits, z, old(Pos())) && (c.Copy? ==> c.q == Pos())
    {
      ghost var q := Pos();
      var len := ReadLength(z);
      ghost var q1 := Pos();
      var y := Decode(distance, d);
      if y < 0 {
        NoDistance(d, bits, z, q, q1);
        return NoCode;
      }
      ghost var q2 := Pos();
      var dist := ReadDistance(y);
      c := Copy(len, dist, 8 * p - numBits);
      CopyParts(d, bits, z, q, q1, y, q2, c);
    }

    method CopyToken(z: nat, ghost d: Distances) returns (s: Status)
      requires Valid() && distance.Built(d) && z <= 30
      modifies this`p, this`numBits, this`buffer, this`out
      ensures var t := Paste(old(out), CopyAt(d, bits, z, old(Pos())));
              if s == Fine then Valid() && t == Go(Pos(), out) else t.End? && Ends(s, t.r)
    {
      var c := ReadCopy(z, d);
      if c.NoCode? || |out| < c.dist { return Failed; }
      if c.dist == 0 { return Unwritten; }
      CopyBytes(c.len, c.dist);
      return Fine;
    }

    /** One turn of _ssfn__parse_huffman_block. */
    method Token(ghost l: Lengths, ghost d: Distances, ghost turn: Step)
      returns (s: Status, more: bool)
      requires Valid() && length.Built(l) && distance.Built(d) && IsTurn(turn, bits, l, d)
      modifies this`p, this`numBits, this`buffer, this`out
      ensures var t := turn(old(Pos()), old(out));
              if more then Valid() && t == Go(Pos(), out) else t.End? && Ends(s, t.r)
    {
      ghost var q, was := Pos(), out;
      var z := Decode(length, l);
      ghost var q1 := Pos();
      if z <= 256 { PlainTurn(turn, bits, l, d, q, was, z, q1); }
      if z < 0 { return Failed, false; }
      if z < 256 {
        out := out + [z];
        return Fine, true;
      }
      if z == 256 { return Fine, false; }
      s := CopyToken(z - 257, d);
      CopyTurn(turn, bits, l, d, q, was, z, q1);
      return s, s == Fine;
    }

    /** _ssfn__parse_huffman_block. */
    method HuffmanBlock(turns: nat, ghost l: Lengths, ghost d: Distances, ghost turn: Step)
      returns (s: Status)
      requires Valid() && length.Built(l) && distance.Built(d) && IsTurn(turn, bits, l, d)
      modifies this`p, this`numBits, this`buffer, this`out
      ensures Ends(s, BlockOf(turns, turn, old(Pos()), old(out)))
    {
      for i := 0 to turns
        invariant Valid()
        invariant BlockOf(turns - i, turn, Pos(), out) == BlockOf(turns, turn, old(Pos()), old(out))
      {
        var more;
        s, more := Token(l, d, turn);
        if !more { return; }
      }
      return Cut;
    }

    /** A whole byte from the bit buffer. */
    method PopByte(ghost q: nat) returns (b: nat)
      requires Valid() && numBits >= 8 && Pos() == 8 * q
      modifies this`numBits, this`buffer
      ensures Valid() && numBits == old(numBits) - 8 && Pos() == 8 * (q + 1)
      ensures b == ByteAt(bits, q)
    {
      AndMask(buffer, 8);
      WindowTake(bits, 8 * q, 8, numBits - 8);
      b := And(buffer, 255);
      Consume(8);
    }

    /** The bytes that are whole in the bit buffer, then bytes of the input. */
    method ReadHeader(header: array<nat>, ghost q: nat)
      requires Valid() && header.Length == 4 && numBits % 8 == 0 && Pos() == 8 * q
      modifies this`p, this`numBits, this`buffer, header
      ensures Valid() && numBits == 0 && buffer == 0 && p == q + 4
      ensures forall i :: 0 <= i < 4 ==> header[i] == ByteAt(bits, q + i)
    {
      var k := 0;
      ghost var left := numBits / 8;
      while numBits > 0
        invariant Valid() && numBits == 8 * left && k + left <= 4 && Pos() == 8 * (q + k)
        invariant forall i :: 0 <= i < k ==> header[i] == ByteAt(bits, q + i)
      {
        header[k] := PopByte(q + k);
        k := k + 1;
        left := left - 1;
      }
      while k < 4
        invariant Valid() && numBits == 0 && k <= 4 && p == q + k
        invariant forall i :: 0 <= i < k ==> header[i] == ByteAt(bits, q + i)
      {
        assert ByteOf(bits, mem, p);
        header[k] := Fetch(mem, p);
        p := p + 1;
        k := k + 1;
      }
    }

    /** The length of a stored block and its complement. */
    method ReadSizePair(ghost q: nat) returns (len: nat, nlen: nat)
      requires Valid() && numBits % 8 == 0 && Pos() == 8 * q
      modifies this`p, this`numBits, this`buffer
      ensures Valid() && numBits == 0 && p == q + 4
      ensures len == ByteAt(bits, q + 1) * 256 + ByteAt(bits, q)
      ensures nlen == ByteAt(bits, q + 3) * 256 + ByteAt(bits, q + 2)
    {
      var header := new nat[4];
      ReadHeader(header, q);
      assert header[0] == ByteAt(bits, q) && header[1] == ByteAt(bits, q + 1);
      assert header[2] == ByteAt(bits, q + 2) && header[3] == ByteAt(bits, q + 3);
      len := header[1] * 256 + header[0];
      nlen := header[3] * 256 + header[2];
    }

    method CopyStored(len: nat)
      requires Valid() && numBits == 0
      modifies this`p, this`out
      ensures Valid() && p == old(p) + len && numBits == 0
      ensures out == old(out) + Bytes(bits, old(p), len)
    {
      var j := 0;
      while j < len
        invariant 0 <= j <= len && out == old(out) + Bytes(bits, p, j)
        invariant p == old(p)
      {
        assert ByteOf(bits, mem, p + j);
        out := out + [Fetch(mem, p + j)];
        j := j + 1;
      }
      p := p + len;
      assert Window(bits, 8 * p, 0) == 0;
    }

    /** Drops the bits that are left of a byte. */
    method AlignToByte()
      requires Valid()
      modifies this`p, this`numBits, this`buffer
      ensures Valid() && Pos() == Align(old(Pos())) == 8 * (Align(old(Pos())) / 8)
      ensures numBits % 8 == 0
    {
      SkipBits(p, numBits, Pos());
      if numBits % 8 > 0 {
        var skipped := Receive(numBits % 8);
      }
    }

    /** _ssfn__parse_uncompressed_block. */
    method StoredBlock() returns (s: Status)
      requires Valid()
      modifies this`p, this`numBits, this`buffer, this`out
      ensures Ends(s, StoredRun(bits, old(Pos()), old(out)))
    {
      AlignToByte();
      ghost var q := Align(old(Pos())) / 8;
      var len, nlen := ReadSizePair(q);
      if nlen != 0xFFFF - len { return Failed; }
      CopyStored(len);
      return Fine;
    }

    /** The code-length code in _ssfn__compute_huffman_codes. */
    method ReadSizes(hclen: nat) returns (sizes: seq<nat>)
      requires Valid() && hclen <= 19
      modifies this`p, this`numBits, this`buffer
      ensures Valid() && Pos() == old(Pos()) + 3 * hclen
      ensures sizes == SizesAt(bits, old(Pos()), hclen)
    {
      ghost var q := Pos();
      var table := new nat[19](_ => 0);
      assert table[..] == Repeated(0, 19);
      NoSizes(bits, q);
      for i := 0 to hclen
        invariant Valid() && Pos() == q + 3 * i && table[..] == SizesAt(bits, q, i)
      {
        ghost var before := table[..];
        var s := Receive(3);
        var place := Place(i);
        table[place] := s;
        assert table[..] == before[place := s];
        SizesStep(bits, q, i);
      }
      return table[..];
    }

    /** One code-length symbol: the run of code lengths it stands for. */
    method ReadRun(t: Table, ghost cl: Lengths, last: nat, first: bool, ghost acc: seq<nat>)
      returns (r: Run)
      requires Valid() && t.Built(cl) && |cl| == 19 && Small(acc) && (first <==> acc == [])
      requires !first ==> last == acc[|acc| - 1]
      modifies this`p, this`numBits, this`buffer
      ensures Valid() && r == ItemAt(bits, cl, old(Pos()), acc)
      ensures r.Run? ==> Pos() == r.q
    {
      var c := Decode(t, cl);
      if c < 0 || c >= 19 { return NoRun; }
      if c < 16 { return Run(c, 1, 8 * p - numBits); }
      if c == 16 {
        var n := Receive(2);
        if first { return NoRun; }
        return Run(last, n + 3, 8 * p - numBits);
      }
      if c == 17 {
        var n := Receive(3);
        return Run(0, n + 3, 8 * p - numBits);
      }
      var n := Receive(7);
      return Run(0, n + 11, 8 * p - numBits);
    }

    /** The loop over the code lengths in _ssfn__compute_huffman_codes. */
    method ReadLengths(t: Table, ghost cl: Lengths, total: nat) returns (r: CodeLengths)
      requires Valid() && t.Built(cl) && |cl| == 19 && total <= 320
      modifies this`p, this`numBits, this`buffer
      ensures Valid() && r == LengthsAt(bits, cl, total, old(Pos()), [])
      ensures r.CodeLengths? ==> r.q == Pos()
    {
      ghost var q := Pos();
      var codes := new nat[455];
      var n := 0;
      while n < total
        invariant Valid() && n <= total && Small(codes[..n])
        invariant LengthsAt(bits, cl, total, Pos(), codes[..n]) == LengthsAt(bits, cl, total, q, [])
      {
        ghost var acc, q1 := codes[..n], Pos();
        var run := ReadRun(t, cl, if n > 0 then codes[n - 1] else 0, n == 0, acc);
        LengthsStep(bits, cl, total, q1, acc, run);
        if run.NoRun? || total - n < run.n { return NoLengths; }
        Fill(codes, n, run.x, run.n);
        n := n + run.n;
      }
      return CodeLengths(codes[..n], 8 * p - numBits);
    }

    ghost function TableArrays(): set<array<nat>> { length.Arrays() + distance.Arrays() }

    /** Both tables are built or the codes are refused. */
    method BuildBoth(l: Lengths, d: Distances) returns (ok: bool)
      requires Apart()
      modifies TableArrays()
      ensures ok <==> Accepts(l) && Accepts(d)
      ensures ok ==> length.Built(l) && distance.Built(d)
    {
      ok := length.Build(l);
      if ok { ok := distance.Build(d); }
    }

    method ReadCounts() returns (n: Counts)
      requires Valid()
      modifies this`p, this`numBits, this`buffer
      ensures Valid() && Pos() == old(Pos()) + 14 && n == CountsAt(bits, old(Pos()))
    {
      var hlit := Receive(5);
      var hdist := Receive(5);
      var hclen := Receive(4);
      n := Counts(hlit + 257, hdist + 1, hclen + 4);
    }

    /** The code in which the code lengths are written, and its table. */
    method ReadSizeCode(t: Table, hclen: nat) returns (ok: bool, cl: Lengths)
      requires Valid() && t.Shape() && hclen <= 19
      modifies this`p, this`numBits, this`buffer, t.Arrays()
      ensures Valid() && Pos() == old(Pos()) + 3 * hclen && cl == SizesAt(bits, old(Pos()), hclen)
      ensures (ok <==> Accepts(cl)) && (ok ==> t.Built(cl))
    {
      ghost var q := Pos();
      SizesSmall(bits, q, hclen);
      var sizes := ReadSizes(hclen);
      cl := sizes;
      ok := t.Build(cl);
    }

    /** The code lengths of both codes, and their tables. */
    method ReadBoth(t: Table, ghost cl: Lengths, n: Counts) returns (ok: bool, ghost c: Codes)
      requires Valid() && Apart() && n.Ok() && t.Built(cl) && |cl| == 19
      modifies this`p, this`numBits, this`buffer, TableArrays()
      ensures Valid() && c == BothAt(bits, cl, n, old(Pos()))
      ensures (ok <==> c.Codes?) && (ok ==> Pos() == c.q && length.Built(c.l) && distance.Built(c.d))
    {
      var r := ReadLengths(t, cl, n.hlit + n.hdist);
      c := SplitCodes(r, n.hlit, n.hdist);
      if r.NoLengths? { return false, c; }
      ok := BuildBoth(r.l[..n.hlit], r.l[n.hlit..]);
    }

    /** _ssfn__compute_huffman_codes after its three counts. */
    method ReadCodes(n: Counts) returns (ok: bool, ghost c: Codes)
      requires Valid() && Apart() && n.Ok()
      modifies this`p, this`numBits, this`buffer, TableArrays()
      ensures Valid() && c == CodesWith(bits, old(Pos()), n)
      ensures (ok <==> c.Codes?) && (ok ==> Pos() == c.q && length.Built(c.l) && distance.Built(c.d))
    {
      var t := new Table();
      var cl;
      ok, cl := ReadSizeCode(t, n.hclen);
      if !ok { return false, NoCodes; }
      ok, c := ReadBoth(t, cl, n);
    }

    /** _ssfn__compute_huffman_codes. */
    method ComputeCodes() returns (ok: bool, ghost c: Codes)
      requires Valid() && Apart()
      modifies this`p, this`numBits, this`buffer, TableArrays()
      ensures Valid() && c == CodesAt(bits, old(Pos())) && (ok <==> c.Codes?)
      ensures ok ==> Pos() == c.q && length.Built(c.l) && distance.Built(c.d)
    {
      var n := ReadCounts();
      ok, c := ReadCodes(n);
    }

    /** One block of _ssfn__parse_zlib after its final bit. */
    method Block(turns: nat, ghost read: BlockReader) returns (s: Status)
      requires Valid() && Apart() && IsReader(read, turns, bits)
      modifies this`p, this`numBits, this`buffer, this`out, TableArrays()
      ensures Ends(s, read(old(Pos()), old(out)))
    {
      ghost var q := Pos();
      assert ReadsAt(read, turns, bits, q, out);
      var kind := Receive(2);
      if kind == 0 {
        s := StoredBlock();
      } else if kind == 3 {
        return Failed;
      } else {
        var ok;
        ghost var c;
        if kind == 1 {
          ok := BuildBoth(FixedLengths(), FixedDistances());
          c := Codes(FixedLengths(), FixedDistances(), Pos());
        } else {
          ok, c := ComputeCodes();
        }
        if !ok { return Failed; }
        ghost var turn := TokenTurn(bits, c.l, c.d);
        TurnIs(bits, c.l, c.d);
        s := HuffmanBlock(turns, c.l, c.d, turn);
      }
    }

    /** _ssfn__parse_zlib. */
    method Inflate(blocks: nat, turns: nat, ghost read: BlockReader) returns (s: Status)
      requires Valid() && Apart() && IsReader(read, turns, bits)
      modifies this`p, this`numBits, this`buffer, this`out, TableArrays()
      ensures Ends(s, InflateRun(blocks, read, bits, old(Pos()), old(out)))
    {
      for i := 0 to blocks
        invariant Valid()
        invariant InflateRun(blocks - i, read, bits, Pos(), out)
                  == InflateRun(blocks, read, bits, old(Pos()), old(out))
      {
        var final := Receive(1);
        s := Block(turns, read);
        if s != Fine || final == 1 { return; }
      }
      return Cut;
    }
  }

  lemma SizesStep(bits: Stream, q: nat, i: nat)
    requires i < 19
    ensures SizesAt(bits, q, i + 1) == SizesAt(bits, q, i)[Place(i) := Window(bits, q + 3 * i, 3)]
  {
    PlaceSent(i);
    forall j | 0 <= j < 19
      ensures SizeAt(bits, q, i + 1, j)
              == if j == Place(i) then Window(bits, q + 3 * i, 3) else SizeAt(bits, q, i, j)
    {
      PlaceSent(j);
    }
  }

  /** Dropping the bits of a partial byte moves on to the next byte. */
  lemma SkipBits(p: nat, n: nat, q: nat)
    requires q + n == 8 * p
    ensures q + n % 8 == Align(q) == 8 * (Align(q) / 8)
    ensures (n - n % 8) % 8 == 0
  {
    var k := p - n / 8;
    assert q + n % 8 == 8 * k && 8 * k - q < 8;
  }

  lemma NoSizes(bits: Stream, q: nat)
    ensures SizesAt(bits, q, 0) == Repeated(0, 19)
  {
  }

  /** memset of n bytes from index k. */
  method Fill(codes: array<nat>, k: nat, x: nat, n: nat)
    requires k + n <= codes.Length
    modifies codes
    ensures codes[..k + n] == old(codes[..k]) + Repeated(x, n)
  {
    for j := 0 to n
      invariant codes[..k + j] == old(codes[..k]) + Repeated(x, j)
    {
      codes[k + j] := x;
    }
  }

  lemma LengthsStep(bits: Stream, cl: Lengths, total: nat, q: nat, acc: seq<nat>, run: Run)
    requires |cl| == 19 && |acc| < total && Small(acc) && ItemAt(bits, cl, q, acc) == run
    ensures LengthsAt(bits, cl, total, q, acc) ==
      if run.NoRun? || total - |acc| < run.n then NoLengths
      else LengthsAt(bits, cl, total, run.q, acc + Repeated(run.x, run.n))
    ensures run.Run? ==> run.n > 0 && Small(acc + Repeated(run.x, run.n))
  {
  }

  function Symbol(r: Option<nat>): int { if r.Some? then r.value else -1 }

  /** The slow path compares codes with the next 16 bits, first bit highest. */
  lemma SlowKey(bits: Stream, q: nat, n: nat, buffer: nat, k: nat)
    requires n >= 16 && buffer == Window(bits, q, n) && k == BitReverse(buffer, 16)
    ensures k == Rev(Window(bits, q, 16), 16) < 0x1_0000
  {
    var x := Window(bits, q, 16);
    WindowTake(bits, q, 16, n - 16);
    RevLow(buffer, 16);
    RevLow(x, 16);
    WindowBound(bits, q, 16);
    Parts(x, 16, 0, x);
    RevBound(x, 16);
    assert Pow2(16) == 0x1_0000 by { Pow2Word(); }
    ShrZero(Rev(buffer, 16));
  }

  /** The key of the fast table and the next 16 bits agree on the nine that the table looks at. */
  lemma FastKey(bits: Stream, q: nat, n: nat, buffer: nat, j: nat)
    requires n >= 16 && buffer == Window(bits, q, n) && j == Low(buffer, 9)
    ensures j < 512 && Low(j, 9) == Low(Window(bits, q, 16), 9)
  {
    assert Pow2(9) == 512;
    WindowTake(bits, q, 9, n - 9);
    WindowTake(bits, q, 9, 7);
    WindowBound(bits, q, 9);
    Parts(j, 9, 0, j);
  }

  ghost predicate ReadsAt(read: BlockReader, turns: nat, bits: Stream, q: nat, out: seq<byte>) {
    read(q, out) == ReadBlock(turns, bits)(q, out)
  }

  ghost predicate IsReader(read: BlockReader, turns: nat, bits: Stream) {
    forall q: nat, out :: ReadsAt(read, turns, bits, q, out)
  }

  lemma TurnIs(bits: Stream, l: Lengths, d: Distances)
    ensures IsTurn(TokenTurn(bits, l, d), bits, l, d)
  {
  }

  lemma NoDistance(d: Distances, bits: Stream, z: nat, q: nat, q1: nat)
    requires z <= 30 && q1 == q + LengthExtra(z) && SymbolAt(d, bits, q1) == None
    ensures CopyAt(d, bits, z, q) == NoCode
  {
  }

  lemma CopyParts(d: Distances, bits: Stream, z: nat, q: nat, q1: nat, y: nat, q2: nat, c: Copy)
    requires z <= 30 && q1 == q + LengthExtra(z) && SymbolAt(d, bits, q1) == Some(y)
    requires q2 == q1 + d[y] && c.Copy? && c.q == q2 + DistExtra(y)
    requires c.len == LengthBase(z) + Window(bits, q, LengthExtra(z))
    requires c.dist == DistBase(y) + Window(bits, q2, DistExtra(y))
    ensures CopyAt(d, bits, z, q) == c
  {
  }

  ghost predicate TurnAt(turn: Step, bits: Stream, l: Lengths, d: Distances, q: nat, out: seq<byte>) {
    turn(q, out) == TokenTurn(bits, l, d)(q, out)
  }

  ghost predicate IsTurn(turn: Step, bits: Stream, l: Lengths, d: Distances) {
    forall q: nat, out :: TurnAt(turn, bits, l, d, q, out)
  }

  lemma PlainTurn(turn: Step, bits: Stream, l: Lengths, d: Distances, q: nat, out: seq<byte>,
                  z: int, q1: nat)
    requires IsTurn(turn, bits, l, d) && z == Symbol(SymbolAt(l, bits, q)) && z <= 256
    requires z >= 0 ==> q1 == q + l[z]
    ensures turn(q, out) == if z < 0 then End(Fail)
                            else if z < 256 then Go(q1, out + [z])
                            else End(Done(q1, out))
  {
    assert TurnAt(turn, bits, l, d, q, out);
  }

  lemma CopyTurn(turn: Step, bits: Stream, l: Lengths, d: Distances, q: nat, out: seq<byte>,
                 z: nat, q1: nat)
    requires IsTurn(turn, bits, l, d) && SymbolAt(l, bits, q) == Some(z) && z > 256
    requires q1 == q + l[z]
    ensures turn(q, out) == Paste(out, CopyAt(d, bits, z - 257, q1))
  {
    assert TurnAt(turn, bits, l, d, q, out);
  }
}
