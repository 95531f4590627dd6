/** The inflate decoder of base/include/ssfn.h as functions of a bit position, and the DEFLATE
encoding of RFC 1951 that it inverts.
*/
module Inflate {
  import opened Wrappers
  import opened Bits
  import opened BitStream
  import opened Huffman
  import opened HuffmanTables

  // ---------------------------------------------------------------------------------------
  // Bit strings in the input
  // ---------------------------------------------------------------------------------------

  predicate Agrees(bits: Stream, q: nat, w: seq<bool>, i: nat) {
    i < |w| ==> (w[i] <==> q + i in bits)
  }

  /** The stream has the bits w at position q. */
  predicate Holds(bits: Stream, q: nat, w: seq<bool>) {
    forall i: nat | i < |w| :: Agrees(bits, q, w, i)
  }

  lemma HoldsSplit(bits: Stream, q: nat, a: seq<bool>, b: seq<bool>)
    requires Holds(bits, q, a + b)
    ensures Holds(bits, q, a) && Holds(bits, q + |a|, b)
  {
    forall i: nat | i < |a| ensures Agrees(bits, q, a, i) {
      assert Agrees(bits, q, a + b, i);
    }
    var r := q + |a|;
    forall i: nat | i < |b| ensures Agrees(bits, r, b, i) {
      assert Agrees(bits, q, a + b, |a| + i) && q + (|a| + i) == r + i;
    }
  }

  lemma {:induction false} WindowNumber(bits: Stream, q: nat, w: seq<bool>)
    requires Holds(bits, q, w)
    ensures Window(bits, q, |w|) == Number(w)
    decreases w
  {
    if w != [] {
      HoldsSplit(bits, q, w[..1], w[1..]) by { assert w == w[..1] + w[1..]; }
      assert Agrees(bits, q, w, 0);
      WindowNumber(bits, q + 1, w[1..]);
    }
  }

  // ---------------------------------------------------------------------------------------
  // Decoding
  // ---------------------------------------------------------------------------------------

  datatype Result = Done(q: nat, out: seq<byte>) | Fail | Undefined | More

  // The base values and extra bits of section 3.2.5 in closed form, and the decoder's tables.

  /** Number of extra bits of length symbol 257 + z. */
  function LengthExtra(z: nat): nat { if z < 8 || z >= 28 then 0 else (z - 4) / 4 }

  /** Shortest length of length symbol 257 + z; length 258 has a symbol of its own. */
  function LengthBase(z: nat): nat {
    if z < 4 then z + 3
    else if z == 28 then 258
    else if z > 28 then 0
    else
      var e := LengthExtra(z);
      3 + Pow2(e + 2) + (if z % 4 >= 2 then Pow2(e + 1) else 0) + (if z % 2 == 1 then Pow2(e) else 0)
  }

  /** Number of extra bits of distance symbol y. */
  function DistExtra(y: nat): nat { if y < 4 || y >= 30 then 0 else (y - 2) / 2 }

  /** Shortest distance of distance symbol y. */
  function DistBase(y: nat): nat {
    if y < 2 then y + 1
    else if y >= 30 then 0
    else
      var e := DistExtra(y);
      1 + Pow2(e + 1) + (if y % 2 == 1 then Pow2(e) else 0)
  }

  const LENGTH_BASE: seq<nat> :=
    [3, 4, 5, 6, 7, 8, 9, 10, 11, 13, 15, 17, 19, 23, 27, 31, 35, 43, 51, 59, 67, 83, 99, 115, 131,
     163, 195, 227, 258, 0, 0]

  const LENGTH_EXTRA: seq<nat> :=
    [0, 0, 0, 0, 0, 0, 0, 0, 1, 1, 1, 1, 2, 2, 2, 2, 3, 3, 3, 3, 4, 4, 4, 4, 5, 5, 5, 5, 0, 0, 0]

  const DIST_BASE: seq<nat> :=
    [1, 2, 3, 4, 5, 7, 9, 13, 17, 25, 33, 49, 65, 97, 129, 193, 257, 385, 513, 769, 1025, 1537, 2049,
     3073, 4097, 6145, 8193, 12289, 16385, 24577, 0, 0]

  const DIST_EXTRA: seq<nat> :=
    [0, 0, 0, 0, 1, 1, 2, 2, 3, 3, 4, 4, 5, 5, 6, 6, 7, 7, 8, 8, 9, 9, 10, 10, 11, 11, 12, 12, 13, 13,
     0, 0]

  lemma {:induction false} ExtraTables(z: nat)
    ensures z < 31 ==> LENGTH_EXTRA[z] == LengthExtra(z)
    ensures z < 32 ==> DIST_EXTRA[z] == DistExtra(z)
  {
  }

  lemma ShortTable(z: nat)
    requires z < 16
    ensures LENGTH_BASE[z] == LengthBase(z)
  {
    assert Pow2(2) == 4 && Pow2(3) == 8 && Pow2(4) == 16;
  }

  lemma LengthTable(z: nat)
    requires z < 31
    ensures LENGTH_BASE[z] == LengthBase(z)
  {
    if z < 16 {
      ShortTable(z);
    } else {
      assert Pow2(3) == 8 && Pow2(4) == 16 && Pow2(5) == 32 && Pow2(6) == 64 && Pow2(7) == 128;
    }
  }

  lemma NearTable(y: nat)
    requires y < 16
    ensures DIST_BASE[y] == DistBase(y)
  {
    assert Pow2(3) == 8 && Pow2(6) == 64;
  }

  lemma DistTable(y: nat)
    requires y < 32
    ensures DIST_BASE[y] == DistBase(y)
  {
    if y < 16 {
      NearTable(y);
    } else {
      assert Pow2(9) == 512 && Pow2(12) == 4096 && Pow2(14) == 16384;
    }
  }

  /** The symbol whose code is next in the stream. */
  ghost function SymbolAt(l: Lengths, bits: Stream, q: nat): (r: Option<nat>)
    ensures r.Some? ==> r.value < |l| && l[r.value] > 0
  {
    Lookup(l, Window(bits, q, 16))
  }

  /** Appends len bytes, each a copy of the byte dist before it. */
  function CopyBack(out: seq<byte>, len: nat, dist: nat): (r: seq<byte>)
    requires 0 < dist <= |out|
    ensures |r| == |out| + len && out <= r
    decreases len
  {
    if len == 0 then out else CopyBack(out + [out[|out| - dist]], len - 1, dist)
  }

  /** Overlapping copies repeat what they have just written. */
  lemma {:induction false} CopyBackRepeats(out: seq<byte>, len: nat, dist: nat, n: nat)
    requires 0 < dist <= |out| && |out| <= n < |out| + len
    ensures var r := CopyBack(out, len, dist); r[n] == r[n - dist]
    decreases len
  {
    var out1 := out + [out[|out| - dist]];
    if n == |out| {
      assert CopyBack(out, len, dist)[n] == out1[n];
      assert CopyBack(out, len, dist)[n - dist] == out1[n - dist];
    } else {
      CopyBackRepeats(out1, len - 1, dist, n);
    }
  }

  /** Any string with that property is the copy: the property determines it. */
  lemma {:induction false} CopyBackUnique(out: seq<byte>, len: nat, dist: nat, r: seq<byte>)
    requires 0 < dist <= |out| && |r| == |out| + len && out <= r
    requires forall n :: |out| <= n < |r| ==> r[n] == r[n - dist]
    ensures r == CopyBack(out, len, dist)
    decreases len
  {
    if len > 0 {
      assert r[|out|] == r[|out| - dist] == out[|out| - dist];
      assert out + [out[|out| - dist]] <= r;
      CopyBackUnique(out + [out[|out| - dist]], len - 1, dist, r);
    } else {
      assert r == out;
    }
  }

  /** A distance alphabet has at most 32 symbols. */
  type Distances = d: Lengths | |d| <= 32 witness []

  /** The length and distance of a copy token that begins at q after its length symbol z. */
  datatype Copy = NoCode | Copy(len: nat, dist: nat, q: nat)

  ghost function CopyAt(d: Distances, bits: Stream, z: nat, q: nat): Copy
    requires z <= 30
  {
    var len := LengthBase(z) + Window(bits, q, LengthExtra(z));
    var q1 := q + LengthExtra(z);
    match SymbolAt(d, bits, q1)
    case None => NoCode
    case Some(y) =>
      var q2 := q1 + d[y];
      Copy(len, DistBase(y) + Window(bits, q2, DistExtra(y)), q2 + DistExtra(y))
  }

  /** What one turn of the loop in _ssfn__parse_huffman_block does. */
  datatype Turn = Go(q: nat, out: seq<byte>) | End(r: Result)

  /** Appends the copied bytes.  A distance symbol without a meaning would copy bytes that were
      never written. */
  function Paste(out: seq<byte>, c: Copy): Turn {
    match c
    case NoCode => End(Fail)
    case Copy(len, dist, q) =>
      if |out| < dist then End(Fail)
      else if dist == 0 then End(Undefined)
      else Go(q, CopyBack(out, len, dist))
  }

  /** One turn after decoding symbol z, whose code ends at q. */
  ghost function SymbolTurn(bits: Stream, d: Distances, z: nat, q: nat, out: seq<byte>): Turn
    requires z < 288
  {
    if z < 256 then Go(q, out + [z])
    else if z == 256 then End(Done(q, out))
    else Paste(out, CopyAt(d, bits, z - 257, q))
  }

  type Step = (nat, seq<byte>) -> Turn

  ghost function TokenTurn(bits: Stream, l: Lengths, d: Distances): Step {
    (q: nat, out: seq<byte>) =>
      match SymbolAt(l, bits, q)
      case None => End(Fail)
      case Some(z) => SymbolTurn(bits, d, z, q + l[z], out)
  }

  /** A block of at most `turns` turns. */
  function BlockOf(turns: nat, turn: Step, q: nat, out: seq<byte>): Result {
    if turns == 0 then More else
    match turn(q, out)
    case End(r) => r
    case Go(q1, out1) => BlockOf(turns - 1, turn, q1, out1)
  }

  /** _ssfn__parse_huffman_block for at most `turns` tokens. */
  ghost function TokenRun(turns: nat, bits: Stream, l: Lengths, d: Distances, q: nat, out: seq<byte>)
    : Result
  {
    BlockOf(turns, TokenTurn(bits, l, d), q, out)
  }

  function Align(q: nat): (r: nat)
    ensures r >= q && r % 8 == 0
  {
    if q % 8 == 0 then q else q + 8 - q % 8
  }

  ghost function ByteAt(bits: Stream, p: nat): byte
  {
    assert Pow2(8) == 256;
    WindowBound(bits, 8 * p, 8);
    Window(bits, 8 * p, 8)
  }

  ghost function Bytes(bits: Stream, p: nat, n: nat): (s: seq<byte>)
    ensures |s| == n
  {
    seq<byte>(n, i requires 0 <= i => ByteAt(bits, p + i))
  }

  /** _ssfn__parse_uncompressed_block. */
  ghost function StoredRun(bits: Stream, q: nat, out: seq<byte>): Result {
    var p := Align(q) / 8;
    var len := ByteAt(bits, p + 1) * 256 + ByteAt(bits, p);
    var nlen := ByteAt(bits, p + 3) * 256 + ByteAt(bits, p + 2);
    if nlen != 0xFFFF - len then Fail else Done(8 * (p + 4 + len), out + Bytes(bits, p + 4, len))
  }

  // Dynamic code tables (section 3.2.7).

  /** The symbol whose code length is sent in place i: the table dezigzag. */
  function Place(i: nat): (k: nat)
    requires i < 19
    ensures k < 19
  {
    match i
    case 0 => 16
    case 1 => 17
    case 2 => 18
    case 3 => 0
    case 4 => 8
    case 5 => 7
    case 6 => 9
    case 7 => 6
    case 8 => 10
    case 9 => 5
    case 10 => 11
    case 11 => 4
    case 12 => 12
    case 13 => 3
    case 14 => 13
    case 15 => 2
    case 16 => 14
    case 17 => 1
    case _ => 15
  }

  /** When the code length of symbol j is sent: the inverse of dezigzag. */
  function Sent(j: nat): (i: nat)
    requires j < 19
    ensures i < 19
  {
    if j >= 16 then j - 16 else if j == 0 then 3 else if j < 8 then 19 - 2 * j else 2 * j - 12
  }

  lemma PlaceSent(i: nat)
    requires i < 19
    ensures Sent(Place(i)) == i && Place(Sent(i)) == i
  {
  }

  /** The length of symbol j after n code lengths of three bits have been read from q on. */
  ghost function SizeAt(bits: Stream, q: nat, n: nat, j: nat): (s: nat)
    requires j < 19
    ensures s < 8
  {
    WindowBound(bits, q + 3 * Sent(j), 3);
    assert Pow2(3) == 8;
    if Sent(j) < n then Window(bits, q + 3 * Sent(j), 3) else 0
  }

  /** The code-length code. */
  ghost function SizesAt(bits: Stream, q: nat, n: nat): (s: seq<nat>)
    ensures |s| == 19 && forall j :: 0 <= j < 19 ==> s[j] == SizeAt(bits, q, n, j)
  {
    seq<nat>(19, j requires 0 <= j < 19 => SizeAt(bits, q, n, j))
  }

  lemma SizesSmall(bits: Stream, q: nat, n: nat)
    ensures Below(SizesAt(bits, q, n), 8)
  {
  }

  function Repeated(x: nat, n: nat): (s: seq<nat>)
    ensures |s| == n && forall i :: 0 <= i < n ==> s[i] == x
  {
    seq<nat>(n, i requires 0 <= i => x)
  }

  datatype CodeLengths = NoLengths | CodeLengths(l: seq<nat>, q: nat)

  predicate Below(s: seq<nat>, n: nat) { forall i :: 0 <= i < |s| ==> s[i] < n }

  predicate Small(acc: seq<nat>) { Below(acc, 16) }

  /** What one code-length symbol c < 19 stands for: a run of n copies of x, ending at q. */
  datatype Run = NoRun | Run(x: nat, n: nat, q: nat)

  ghost function RunAt(bits: Stream, c: nat, q: nat, acc: seq<nat>): (r: Run)
    requires Small(acc)
    ensures r.Run? ==> r.x < 16 && r.n > 0
  {
    if c < 16 then Run(c, 1, q)
    else if c == 16 then
      if acc == [] then NoRun else Run(acc[|acc| - 1], Window(bits, q, 2) + 3, q + 2)
    else if c == 17 then Run(0, Window(bits, q, 3) + 3, q + 3)
    else Run(0, Window(bits, q, 7) + 11, q + 7)
  }

  /** The code-length symbol at q and its extra bits. */
  ghost function ItemAt(bits: Stream, cl: Lengths, q: nat, acc: seq<nat>): (r: Run)
    requires |cl| == 19 && Small(acc)
    ensures r.Run? ==> r.x < 16 && r.n > 0
  {
    match SymbolAt(cl, bits, q)
    case None => NoRun
    case Some(c) => RunAt(bits, c, q + cl[c], acc)
  }

  /** The loop that reads `total` code lengths after the ones in acc. */
  ghost function LengthsAt(bits: Stream, cl: Lengths, total: nat, q: nat, acc: seq<nat>)
    : (r: CodeLengths)
    requires |cl| == 19 && |acc| <= total && Small(acc)
    ensures r.CodeLengths? ==> |r.l| == total && Small(r.l)
    decreases total - |acc|
  {
    if |acc| == total then CodeLengths(acc, q) else
    match ItemAt(bits, cl, q, acc)
    case NoRun => NoLengths
    case Run(x, n, q1) =>
      if total - |acc| < n then NoLengths
      else LengthsAt(bits, cl, total, q1, acc + Repeated(x, n))
  }

  datatype Codes = NoCodes | Codes(l: Lengths, d: Distances, q: nat)

  function SplitCodes(r: CodeLengths, hlit: nat, hdist: nat): (c: Codes)
    requires hlit <= 288 && hdist <= 32
    requires r.CodeLengths? ==> |r.l| == hlit + hdist && Small(r.l)
    ensures c.Codes? ==> Accepts(c.l) && Accepts(c.d)
  {
    if r.NoLengths? then NoCodes
    else if Accepts(r.l[..hlit]) && Accepts(r.l[hlit..]) then Codes(r.l[..hlit], r.l[hlit..], r.q)
    else NoCodes
  }

  /** The three counts of a header. */
  datatype Counts = Counts(hlit: nat, hdist: nat, hclen: nat) {
    predicate Ok() { hlit <= 288 && hdist <= 32 && hclen <= 19 }
  }

  ghost function CountsAt(bits: Stream, q: nat): (n: Counts)
    ensures n.Ok()
  {
    HeaderBounds(bits, q);
    Counts(Window(bits, q, 5) + 257, Window(bits, q + 5, 5) + 1, Window(bits, q + 10, 4) + 4)
  }

  /** The two codes written in the code cl. */
  ghost function BothAt(bits: Stream, cl: Lengths, n: Counts, q: nat): (c: Codes)
    requires |cl| == 19 && n.Ok()
    ensures c.Codes? ==> Accepts(c.l) && Accepts(c.d)
  {
    SplitCodes(LengthsAt(bits, cl, n.hlit + n.hdist, q, []), n.hlit, n.hdist)
  }

  /** The two codes after the counts n. */
  ghost function CodesWith(bits: Stream, q: nat, n: Counts): (c: Codes)
    requires n.Ok()
    ensures c.Codes? ==> Accepts(c.l) && Accepts(c.d)
  {
    SizesSmall(bits, q, n.hclen);
    var cl := SizesAt(bits, q, n.hclen);
    if !Accepts(cl) then NoCodes
    else BothAt(bits, cl, n, q + 3 * n.hclen)
  }

  /** _ssfn__compute_huffman_codes. */
  ghost function CodesAt(bits: Stream, q: nat): (c: Codes)
    ensures c.Codes? ==> Accepts(c.l) && Accepts(c.d)
  {
    CodesWith(bits, q + 14, CountsAt(bits, q))
  }

  lemma HeaderBounds(bits: Stream, q: nat)
    ensures Window(bits, q, 5) < 32 && Window(bits, q + 5, 5) < 32 && Window(bits, q + 10, 4) < 16
  {
    WindowBound(bits, q, 5);
    WindowBound(bits, q + 5, 5);
    WindowBound(bits, q + 10, 4);
    assert Pow2(5) == 32 && Pow2(4) == 16;
  }

  /** The fixed code lengths (section 3.2.6). */
  function FixedLengths(): (l: Lengths)
    ensures |l| == 288
  {
    seq<nat>(288, i requires 0 <= i =>
      if i <= 143 then 8 else if i <= 255 then 9 else if i <= 279 then 7 else 8)
  }

  function FixedDistances(): (d: Distances)
    ensures |d| == 32
  {
    seq<nat>(32, i requires 0 <= i => 5)
  }

  /** One block after its final bit. */
  ghost function BlockRun(turns: nat, bits: Stream, q: nat, out: seq<byte>): Result {
    var kind := Window(bits, q, 2);
    if kind == 0 then StoredRun(bits, q + 2, out)
    else if kind == 3 then Fail
    else if kind == 1 then
      if Accepts(FixedLengths()) && Accepts(FixedDistances()) then
        TokenRun(turns, bits, FixedLengths(), FixedDistances(), q + 2, out)
      else Fail
    else
      match CodesAt(bits, q + 2)
      case NoCodes => Fail
      case Codes(l, d, q1) => TokenRun(turns, bits, l, d, q1, out)
  }

  type BlockReader = (nat, seq<byte>) -> Result

  /** _ssfn__parse_zlib for at most `blocks` blocks. */
  ghost function InflateRun(blocks: nat, read: BlockReader, bits: Stream, q: nat, out: seq<byte>): Result {
    if blocks == 0 then More else
    var r := read(q + 1, out);
    if !r.Done? || Window(bits, q, 1) == 1 then r
    else InflateRun(blocks - 1, read, bits, r.q, r.out)
  }

  ghost function ReadBlock(turns: nat, bits: Stream): BlockReader {
    (q: nat, out: seq<byte>) => BlockRun(turns, bits, q, out)
  }
}
