/** DEFLATE streams as RFC 1951 defines them, and the proof that the decoder inverts them. */
module Deflate {
  import opened Wrappers
  import opened Bits
  import opened Huffman
  import opened HuffmanTables
  import opened BitStream
  import opened Inflate

  // ---------------------------------------------------------------------------------------
  // Streams
  // ---------------------------------------------------------------------------------------

  /** Length symbols 257 + z and distance symbols y that have a meaning. */
  type LengthSymbol = z: nat | z < 29
  type DistSymbol = y: nat | y < 30

  /** A literal byte, or a copy given by its length and distance symbols and extra bits. */
  datatype Token = Literal(b: byte) | Match(z: LengthSymbol, zx: nat, y: DistSymbol, yx: nat)

  /** One step of the code-length alphabet (section 3.2.7). */
  datatype Item = Length(n: nat) | Repeat(x: nat) | Zeros(x: nat) | ManyZeros(x: nat)

  /** `sizes` are the three-bit lengths in the order in which they are transmitted. */
  datatype Header = Header(hlit: nat, hdist: nat, sizes: seq<nat>, items: seq<Item>)

  datatype Block =
    | Stored(pad: seq<bool>, data: seq<byte>)
    | Fixed(tokens: seq<Token>)
    | Dynamic(h: Header, tokens: seq<Token>)

  /** The low k bits of n, lowest first. */
  function Little(n: nat, k: nat): (b: seq<bool>)
    ensures |b| == k
  {
    if k == 0 then [] else [n % 2 == 1] + Little(n / 2, k - 1)
  }

  lemma {:induction false} NumberOfLittle(n: nat, k: nat)
    requires n < Pow2(k)
    ensures Number(Little(n, k)) == n
  {
    if k > 0 {
      NumberOfLittle(n / 2, k - 1);
      assert Little(n, k)[1..] == Little(n / 2, k - 1);
    }
  }

  /** Bits at q that encode n are read back as n. */
  lemma ReadsLittle(bits: Stream, q: nat, n: nat, k: nat)
    requires n < Pow2(k) && Holds(bits, q, Little(n, k))
    ensures Window(bits, q, k) == n
  {
    WindowNumber(bits, q, Little(n, k));
    NumberOfLittle(n, k);
  }

  /** A codeword at q is decoded as its symbol. */
  lemma ReadsSymbol(l: Lengths, bits: Stream, q: nat, i: nat)
    requires Accepts(l) && i < |l| && l[i] > 0 && Holds(bits, q, Codeword(l, i))
    ensures SymbolAt(l, bits, q) == Some(i)
  {
    var s := l[i];
    var x := Window(bits, q, 16);
    WindowTake(bits, q, s, 16 - s);
    WindowNumber(bits, q, Codeword(l, i));
    assert Codeword(l, i) + [] == Codeword(l, i);
    NumberBound(Codeword(l, i));
    Parts(Number(Codeword(l, i)), s, 0, Number(Codeword(l, i)));
    CodewordMatches(l, i, [], x);
    LookupIs(l, i, x);
  }

  // ---------------------------------------------------------------------------------------
  // Tokens
  // ---------------------------------------------------------------------------------------

  predicate HasCode(l: Lengths, i: nat) { i < |l| && l[i] > 0 }

  predicate TokenOk(l: Lengths, d: Distances, t: Token) {
    match t
    case Literal(b) => HasCode(l, b)
    case Match(z, zx, y, yx) =>
      && HasCode(l, 257 + z) && zx < Pow2(LengthExtra(z))
      && HasCode(d, y) && yx < Pow2(DistExtra(y))
  }

  predicate TokensOk(l: Lengths, d: Distances, ts: seq<Token>) {
    forall t :: t in ts ==> TokenOk(l, d, t)
  }

  function CopyLength(t: Token): nat
    requires t.Match?
  {
    LengthBase(t.z) + t.zx
  }

  function CopyDistance(t: Token): (r: nat)
    requires t.Match?
    ensures r > 0
  {
    DistBase(t.y) + t.yx
  }

  function Word(l: Lengths, i: nat): seq<bool> { if i < |l| then Codeword(l, i) else [] }

  /** A copy token after its length symbol. */
  function CopyBits(d: Distances, t: Token): seq<bool>
    requires t.Match?
  {
    Little(t.zx, LengthExtra(t.z)) + (Word(d, t.y) + Little(t.yx, DistExtra(t.y)))
  }

  function EncodeToken(l: Lengths, d: Distances, t: Token): seq<bool> {
    match t
    case Literal(b) => Word(l, b)
    case Match(_, _, _, _) => Word(l, 257 + t.z) + CopyBits(d, t)
  }

  function Encoder(l: Lengths, d: Distances): Token -> seq<bool> { t => EncodeToken(l, d, t) }

  function Encodable(l: Lengths, d: Distances): Token -> bool { t => TokenOk(l, d, t) }

  /** The encodings of the elements of ts, one after the other, and an end mark. */
  function EncodeAll<T>(enc: T -> seq<bool>, ts: seq<T>, end: seq<bool>): seq<bool> {
    if ts == [] then end else enc(ts[0]) + EncodeAll(enc, ts[1..], end)
  }

  /** The tokens and the end-of-block symbol. */
  function EncodeTokens(l: Lengths, d: Distances, ts: seq<Token>): seq<bool> {
    EncodeAll(Encoder(l, d), ts, Word(l, 256))
  }

  /** What one token appends to out, if it does not reach back before the start. */
  function Append(out: seq<byte>, t: Token): Option<seq<byte>> {
    match t
    case Literal(b) => Some(out + [b])
    case Match(_, _, _, _) =>
      if CopyDistance(t) > |out| then None
      else Some(CopyBack(out, CopyLength(t), CopyDistance(t)))
  }

  /** What the tokens append to out, or nothing if one reaches back before the start. */
  function Expand(out: seq<byte>, ts: seq<Token>): Option<seq<byte>>
    decreases ts
  {
    if ts == [] then Some(out)
    else
      match Append(out, ts[0])
      case None => None
      case Some(out1) => Expand(out1, ts[1..])
  }

  /** The three parts of a copy token after its length symbol. */
  lemma ReadsParts(d: Distances, bits: Stream, q: nat, zx: nat, zk: nat, y: nat, yx: nat, yk: nat)
    requires Accepts(d) && HasCode(d, y) && zx < Pow2(zk) && yx < Pow2(yk)
    requires Holds(bits, q, Little(zx, zk) + (Codeword(d, y) + Little(yx, yk)))
    ensures Window(bits, q, zk) == zx && SymbolAt(d, bits, q + zk) == Some(y)
    ensures Window(bits, q + zk + d[y], yk) == yx
  {
    var zb, yb := Little(zx, zk), Little(yx, yk);
    HoldsSplit(bits, q, zb, Codeword(d, y) + yb);
    HoldsSplit(bits, q + |zb|, Codeword(d, y), yb);
    ReadsLittle(bits, q, zx, zk);
    ReadsSymbol(d, bits, q + |zb|, y);
    ReadsLittle(bits, q + |zb| + d[y], yx, yk);
  }

  lemma ReadsCopy(l: Lengths, d: Distances, bits: Stream, q: nat, t: Token)
    requires Accepts(d) && TokenOk(l, d, t) && t.Match? && Holds(bits, q, CopyBits(d, t))
    ensures CopyAt(d, bits, t.z, q) ==
            Copy(CopyLength(t), CopyDistance(t), q + |CopyBits(d, t)|)
  {
    ReadsParts(d, bits, q, t.zx, LengthExtra(t.z), t.y, t.yx, DistExtra(t.y));
  }

  /** A length symbol and what follows it. */
  lemma ReadsHead(l: Lengths, bits: Stream, q: nat, i: nat, rest: seq<bool>)
    requires Accepts(l) && HasCode(l, i) && Holds(bits, q, Word(l, i) + rest)
    ensures SymbolAt(l, bits, q) == Some(i) && Holds(bits, q + l[i], rest)
  {
    HoldsSplit(bits, q, Word(l, i), rest);
    ReadsSymbol(l, bits, q, i);
  }

  /** A copy token: the decoder consumes its encoding and does the copy. */
  lemma ReadsMatch(bits: Stream, l: Lengths, d: Distances, q: nat, t: Token)
    requires Accepts(l) && Accepts(d) && TokenOk(l, d, t) && t.Match?
    requires Holds(bits, q, Word(l, 257 + t.z) + CopyBits(d, t))
    ensures SymbolAt(l, bits, q) == Some(257 + t.z)
    ensures CopyAt(d, bits, t.z, q + l[257 + t.z])
            == Copy(CopyLength(t), CopyDistance(t), q + l[257 + t.z] + |CopyBits(d, t)|)
  {
    ReadsHead(l, bits, q, 257 + t.z, CopyBits(d, t));
    ReadsCopy(l, d, bits, q + l[257 + t.z], t);
  }

  /** One turn for a copy token. */
  lemma CopyTurn(bits: Stream, l: Lengths, d: Distances, q: nat, out: seq<byte>, i: nat, c: Copy)
    requires SymbolAt(l, bits, q) == Some(i) && i > 256
    requires CopyAt(d, bits, i - 257, q + l[i]) == c
    ensures TokenTurn(bits, l, d)(q, out) == Paste(out, c)
  {
  }

  lemma LiteralTurn(bits: Stream, l: Lengths, d: Distances, q: nat, out: seq<byte>, b: byte)
    requires Accepts(l) && HasCode(l, b) && Holds(bits, q, Word(l, b))
    ensures TokenTurn(bits, l, d)(q, out) == Go(q + |Word(l, b)|, out + [b])
  {
    ReadsSymbol(l, bits, q, b);
  }

  /** One token: the decoder consumes its encoding and appends what it stands for. */
  lemma ReadsToken(bits: Stream, l: Lengths, d: Distances, q: nat, out: seq<byte>, t: Token)
    requires Accepts(l) && Accepts(d) && TokenOk(l, d, t)
    requires Holds(bits, q, EncodeToken(l, d, t))
    ensures TokenTurn(bits, l, d)(q, out) == Landing(q + |EncodeToken(l, d, t)|, Append(out, t))
  {
    match t
    case Literal(b) => LiteralTurn(bits, l, d, q, out, b);
    case Match(_, _, _, _) =>
      ReadsMatch(bits, l, d, q, t);
      CopyTurn(bits, l, d, q, out, 257 + t.z,
               Copy(CopyLength(t), CopyDistance(t), q + l[257 + t.z] + |CopyBits(d, t)|));
  }

  function Landing(q: nat, out: Option<seq<byte>>): Turn {
    match out
    case None => End(Fail)
    case Some(r) => Go(q, r)
  }

  function Outcome(q: nat, out: Option<seq<byte>>): Result {
    match out
    case None => Fail
    case Some(r) => Done(q, r)
  }

  /** `turn` consumes encoded tokens and the end of the block. */
  ghost predicate Reads(turn: Step, bits: Stream, ok: Token -> bool, enc: Token -> seq<bool>,
                        end: seq<bool>)
  {
    && (forall q: nat, out, t | ok(t) && Holds(bits, q, enc(t)) ::
          turn(q, out) == Landing(q + |enc(t)|, Append(out, t)))
    && (forall q: nat, out | Holds(bits, q, end) :: turn(q, out) == End(Done(q + |end|, out)))
  }

  lemma {:induction false} ReadsAll(turns: nat, turn: Step, bits: Stream, ok: Token -> bool,
                                    enc: Token -> seq<bool>, end: seq<bool>, q: nat,
                                    out: seq<byte>, ts: seq<Token>)
    requires Reads(turn, bits, ok, enc, end) && forall t :: t in ts ==> ok(t)
    requires turns > |ts| && Holds(bits, q, EncodeAll(enc, ts, end))
    ensures BlockOf(turns, turn, q, out) ==
            Outcome(q + |EncodeAll(enc, ts, end)|, Expand(out, ts))
    decreases ts
  {
    if ts != [] {
      var a := enc(ts[0]);
      HoldsSplit(bits, q, a, EncodeAll(enc, ts[1..], end));
      match Append(out, ts[0])
      case None =>
      case Some(out1) =>
        ReadsAll(turns - 1, turn, bits, ok, enc, end, q + |a|, out1, ts[1..]);
    }
  }

  lemma EndTurn(bits: Stream, l: Lengths, d: Distances, q: nat, out: seq<byte>)
    requires Accepts(l) && HasCode(l, 256) && Holds(bits, q, Word(l, 256))
    ensures TokenTurn(bits, l, d)(q, out) == End(Done(q + |Word(l, 256)|, out))
  {
    ReadsSymbol(l, bits, q, 256);
  }

  lemma TurnReads(bits: Stream, l: Lengths, d: Distances)
    requires Accepts(l) && Accepts(d) && HasCode(l, 256)
    ensures Reads(TokenTurn(bits, l, d), bits, Encodable(l, d), Encoder(l, d), Word(l, 256))
  {
    var turn, ok, enc := TokenTurn(bits, l, d), Encodable(l, d), Encoder(l, d);
    forall q: nat, out, t | ok(t) && Holds(bits, q, enc(t))
      ensures turn(q, out) == Landing(q + |enc(t)|, Append(out, t))
    {
      ReadsToken(bits, l, d, q, out, t);
    }
    forall q: nat, out | Holds(bits, q, Word(l, 256))
      ensures turn(q, out) == End(Done(q + |Word(l, 256)|, out))
    {
      EndTurn(bits, l, d, q, out);
    }
  }

  /** Decoding the encoding of any tokens gives their expansion, ends on the right bit, and
      fails exactly when a copy reaches back before the start of the output. */
  lemma TokensRoundTrip(turns: nat, bits: Stream, l: Lengths, d: Distances, q: nat,
                        out: seq<byte>, ts: seq<Token>)
    requires Accepts(l) && Accepts(d) && TokensOk(l, d, ts) && HasCode(l, 256)
    requires turns > |ts| && Holds(bits, q, EncodeTokens(l, d, ts))
    ensures TokenRun(turns, bits, l, d, q, out) ==
            Outcome(q + |EncodeTokens(l, d, ts)|, Expand(out, ts))
  {
    TurnReads(bits, l, d);
    ReadsAll(turns, TokenTurn(bits, l, d), bits, Encodable(l, d), Encoder(l, d), Word(l, 256),
             q, out, ts);
  }

  // ---------------------------------------------------------------------------------------
  // Stored blocks
  // ---------------------------------------------------------------------------------------

  function EncodeBytes(data: seq<byte>): seq<bool> { EncodeAll((b: byte) => Little(b, 8), data, []) }

  /** LEN, NLEN and the data (section 3.2.4). */
  function StoredBytes(data: seq<byte>): seq<byte>
    requires |data| <= 0xFFFF
  {
    var n := |data|;
    [n % 256, n / 256, (0xFFFF - n) % 256, (0xFFFF - n) / 256] + data
  }

  lemma {:induction false} ReadsBytes(bits: Stream, p: nat, data: seq<byte>)
    requires Holds(bits, 8 * p, EncodeBytes(data))
    ensures Bytes(bits, p, |data|) == data && |EncodeBytes(data)| == 8 * |data|
    decreases data
  {
    if data != [] {
      var a, b := Little(data[0], 8), EncodeBytes(data[1..]);
      HoldsSplit(bits, 8 * p, a, b);
      assert Pow2(8) == 256;
      ReadsLittle(bits, 8 * p, data[0], 8);
      assert 8 * p + 8 == 8 * (p + 1);
      ReadsBytes(bits, p + 1, data[1..]);
      BytesStep(bits, p, |data|);
    }
  }

  lemma BytesStep(bits: Stream, p: nat, n: nat)
    requires n > 0
    ensures Bytes(bits, p, n) == [ByteAt(bits, p)] + Bytes(bits, p + 1, n - 1)
  {
    var a, b := Bytes(bits, p, n), [ByteAt(bits, p)] + Bytes(bits, p + 1, n - 1);
    forall i | 0 <= i < n ensures a[i] == b[i] {
      if i > 0 { assert p + i == p + 1 + (i - 1); }
    }
  }

  lemma BytesTail(bits: Stream, p: nat, k: nat, n: nat)
    ensures Bytes(bits, p + k, n) == Bytes(bits, p, k + n)[k..]
  {
    var a, b := Bytes(bits, p + k, n), Bytes(bits, p, k + n)[k..];
    forall i | 0 <= i < n ensures a[i] == b[i] {
      assert p + k + i == p + (k + i);
    }
  }

  lemma StoredHeader(bits: Stream, p: nat, data: seq<byte>)
    requires |data| <= 0xFFFF && Bytes(bits, p, 4 + |data|) == StoredBytes(data)
    ensures ByteAt(bits, p + 1) * 256 + ByteAt(bits, p) == |data|
    ensures ByteAt(bits, p + 3) * 256 + ByteAt(bits, p + 2) == 0xFFFF - |data|
    ensures Bytes(bits, p + 4, |data|) == data
  {
    var w := Bytes(bits, p, 4 + |data|);
    assert w[0] == ByteAt(bits, p) && w[1] == ByteAt(bits, p + 1);
    assert w[2] == ByteAt(bits, p + 2) && w[3] == ByteAt(bits, p + 3);
    BytesTail(bits, p, 4, |data|);
  }

  /** A stored block resumes at the next byte boundary and ends after its last byte. */
  lemma StoredRoundTrip(bits: Stream, q: nat, out: seq<byte>, pad: seq<bool>, data: seq<byte>)
    requires |data| <= 0xFFFF && |pad| == Align(q) - q
    requires Holds(bits, q, pad + EncodeBytes(StoredBytes(data)))
    ensures StoredRun(bits, q, out)
            == Done(q + |pad + EncodeBytes(StoredBytes(data))|, out + data)
  {
    var w := StoredBytes(data);
    var p := Align(q) / 8;
    HoldsSplit(bits, q, pad, EncodeBytes(w));
    ReadsBytes(bits, p, w);
    StoredHeader(bits, p, data);
  }

  // ---------------------------------------------------------------------------------------
  // The fixed codes
  // ---------------------------------------------------------------------------------------

  lemma {:induction false} CountRange(l: Lengths, a: nat, b: nat, x: nat, s: nat)
    requires a <= b <= |l| && forall i :: a <= i < b ==> l[i] == x
    ensures CountTo(l, b, s) == CountTo(l, a, s) + (if x == s then b - a else 0)
  {
    if a < b { CountRange(l, a, b - 1, x, s); }
  }

  lemma FixedCounts(s: nat)
    ensures Count(FixedLengths(), s) ==
            (if s == 7 then 24 else if s == 8 then 152 else if s == 9 then 112 else 0)
    ensures Count(FixedDistances(), s) == if s == 5 then 32 else 0
  {
    var l, d := FixedLengths(), FixedDistances();
    CountRange(l, 0, 144, 8, s);
    CountRange(l, 144, 256, 9, s);
    CountRange(l, 256, 280, 7, s);
    CountRange(l, 280, 288, 8, s);
    CountRange(d, 0, 32, 5, s);
  }

  lemma {:induction false} FixedFirst(s: nat)
    ensures s <= 7 ==> FirstCode(FixedLengths(), s) == 0
    ensures s <= 5 ==> FirstCode(FixedDistances(), s) == 0
  {
    if s > 1 {
      FixedFirst(s - 1);
      FixedCounts(s - 1);
    }
  }

  /** The builder accepts the fixed codes. */
  lemma FixedAccepted()
    ensures Accepts(FixedLengths()) && Accepts(FixedDistances())
  {
    var l := FixedLengths();
    FixedFirst(7);
    FixedCounts(7);
    FixedCounts(8);
    assert FirstCode(l, 8) == 48 && FirstCode(l, 9) == 400;
    assert Pow2(5) == 32 && Pow2(7) == 128 && Pow2(8) == 256 && Pow2(9) == 512;
    forall s | 1 <= s < 16 ensures AcceptsAt(l, s) && AcceptsAt(FixedDistances(), s) {
      FixedCounts(s);
      FixedFirst(s);
    }
  }

  // ---------------------------------------------------------------------------------------
  // Dynamic codes
  // ---------------------------------------------------------------------------------------

  /** The code lengths by symbol. */
  function Unzigzag(sizes: seq<nat>): (s: seq<nat>)
    ensures |s| == 19
    ensures forall j :: 0 <= j < 19 ==> s[j] == if Sent(j) < |sizes| then sizes[Sent(j)] else 0
  {
    seq<nat>(19, j requires 0 <= j < 19 => if Sent(j) < |sizes| then sizes[Sent(j)] else 0)
  }

  function EncodeSizes(sizes: seq<nat>): seq<bool> {
    if sizes == [] then []
    else EncodeSizes(sizes[..|sizes| - 1]) + Little(sizes[|sizes| - 1], 3)
  }

  ghost predicate SizeRead(bits: Stream, q: nat, sizes: seq<nat>, i: nat) {
    i < |sizes| ==> Window(bits, q + 3 * i, 3) == sizes[i]
  }

  lemma {:induction false} ReadsEach(bits: Stream, q: nat, sizes: seq<nat>)
    requires Below(sizes, 8) && Holds(bits, q, EncodeSizes(sizes))
    ensures |EncodeSizes(sizes)| == 3 * |sizes| && forall i: nat :: SizeRead(bits, q, sizes, i)
    decreases |sizes|
  {
    if sizes != [] {
      var n := |sizes| - 1;
      HoldsSplit(bits, q, EncodeSizes(sizes[..n]), Little(sizes[n], 3));
      ReadsEach(bits, q, sizes[..n]);
      assert Pow2(3) == 8;
      ReadsLittle(bits, q + 3 * n, sizes[n], 3);
      forall i: nat ensures SizeRead(bits, q, sizes, i) {
        assert SizeRead(bits, q, sizes[..n], i);
      }
    }
  }

  lemma ReadsSizes(bits: Stream, q: nat, sizes: seq<nat>)
    requires |sizes| <= 19 && Below(sizes, 8)
    requires Holds(bits, q, EncodeSizes(sizes))
    ensures |EncodeSizes(sizes)| == 3 * |sizes| && SizesAt(bits, q, |sizes|) == Unzigzag(sizes)
  {
    ReadsEach(bits, q, sizes);
    forall j | 0 <= j < 19 ensures SizesAt(bits, q, |sizes|)[j] == Unzigzag(sizes)[j] {
      assert SizeRead(bits, q, sizes, Sent(j));
    }
  }

  predicate ItemOk(cl: Lengths, it: Item) {
    match it
    case Length(n) => n < 16 && HasCode(cl, n)
    case Repeat(x) => x < 4 && HasCode(cl, 16)
    case Zeros(x) => x < 8 && HasCode(cl, 17)
    case ManyZeros(x) => x < 128 && HasCode(cl, 18)
  }

  function EncodeItem(cl: Lengths, it: Item): seq<bool> {
    match it
    case Length(n) => Word(cl, n)
    case Repeat(x) => Word(cl, 16) + Little(x, 2)
    case Zeros(x) => Word(cl, 17) + Little(x, 3)
    case ManyZeros(x) => Word(cl, 18) + Little(x, 7)
  }

  /** How often an item repeats which code length, after the ones in acc (section 3.2.7). */
  function Copies(it: Item): (n: nat)
    ensures n > 0
  {
    match it
    case Length(_) => 1
    case Repeat(x) => x + 3
    case Zeros(x) => x + 3
    case ManyZeros(x) => x + 11
  }

  function Copied(acc: seq<nat>, it: Item): nat {
    match it
    case Length(n) => n
    case Repeat(_) => if acc == [] then 0 else acc[|acc| - 1]
    case Zeros(_) => 0
    case ManyZeros(_) => 0
  }

  function Unpack(acc: seq<nat>, items: seq<Item>): (r: seq<nat>)
    ensures |r| >= |acc| + |items|
    decreases items
  {
    if items == [] then acc
    else Unpack(acc + Repeated(Copied(acc, items[0]), Copies(items[0])), items[1..])
  }

  lemma ReadsExtra(cl: Lengths, bits: Stream, q: nat, acc: seq<nat>, i: nat, x: nat, k: nat)
    requires Accepts(cl) && HasCode(cl, i) && x < Pow2(k) && |cl| == 19 && Small(acc)
    requires Holds(bits, q, Word(cl, i) + Little(x, k))
    ensures ItemAt(bits, cl, q, acc) == RunAt(bits, i, q + cl[i], acc)
    ensures Window(bits, q + cl[i], k) == x && q + |Word(cl, i) + Little(x, k)| == q + cl[i] + k
  {
    ReadsHead(cl, bits, q, i, Little(x, k));
    ReadsLittle(bits, q + cl[i], x, k);
  }

  lemma ReadsItem(bits: Stream, cl: Lengths, q: nat, acc: seq<nat>, it: Item)
    requires Accepts(cl) && |cl| == 19 && ItemOk(cl, it) && Small(acc)
    requires it.Repeat? ==> acc != []
    requires Holds(bits, q, EncodeItem(cl, it))
    ensures ItemAt(bits, cl, q, acc) == Run(Copied(acc, it), Copies(it), q + |EncodeItem(cl, it)|)
  {
    match it
    case Length(n) =>
      ReadsSymbol(cl, bits, q, n);
    case Repeat(x) =>
      assert Pow2(2) == 4;
      ReadsExtra(cl, bits, q, acc, 16, x, 2);
    case Zeros(x) =>
      assert Pow2(3) == 8;
      ReadsExtra(cl, bits, q, acc, 17, x, 3);
    case ManyZeros(x) =>
      assert Pow2(7) == 128;
      ReadsExtra(cl, bits, q, acc, 18, x, 7);
  }

  function ItemEncoder(cl: Lengths): Item -> seq<bool> { it => EncodeItem(cl, it) }

  /** Decoding the encoding of the items gives the code lengths they describe. */
  lemma {:induction false} ReadsItems(bits: Stream, cl: Lengths, total: nat, q: nat,
                                      acc: seq<nat>, items: seq<Item>)
    requires Accepts(cl) && |cl| == 19 && Small(acc) && |Unpack(acc, items)| == total
    requires forall it :: it in items ==> ItemOk(cl, it)
    requires acc == [] && items != [] ==> !items[0].Repeat?
    requires Holds(bits, q, EncodeAll(ItemEncoder(cl), items, []))
    ensures LengthsAt(bits, cl, total, q, acc)
            == CodeLengths(Unpack(acc, items), q + |EncodeAll(ItemEncoder(cl), items, [])|)
    decreases items
  {
    if items != [] {
      var it := items[0];
      var a, b := EncodeItem(cl, it), EncodeAll(ItemEncoder(cl), items[1..], []);
      var q1, acc1 := q + |a|, acc + Repeated(Copied(acc, it), Copies(it));
      HoldsSplit(bits, q, a, b);
      ReadsItem(bits, cl, q, acc, it);
      RunThen(bits, cl, total, q, acc, Copied(acc, it), Copies(it), q1);
      ReadsItems(bits, cl, total, q1, acc1, items[1..]);
    }
  }

  /** One run of code lengths and the others. */
  lemma RunThen(bits: Stream, cl: Lengths, total: nat, q: nat, acc: seq<nat>, x: nat, n: nat,
                q1: nat)
    requires |cl| == 19 && Small(acc) && ItemAt(bits, cl, q, acc) == Run(x, n, q1)
    requires |acc| + n <= total && |acc| < total
    ensures Small(acc + Repeated(x, n))
    ensures LengthsAt(bits, cl, total, q, acc)
            == LengthsAt(bits, cl, total, q1, acc + Repeated(x, n))
  {
  }

  // The whole header.

  function TotalLengths(h: Header): seq<nat> { Unpack([], h.items) }

  predicate HeaderOk(h: Header) {
    && 257 <= h.hlit <= 288 && 1 <= h.hdist <= 32 && 4 <= |h.sizes| <= 19
    && Below(h.sizes, 8)
    && (h.items != [] ==> !h.items[0].Repeat?)
    && |TotalLengths(h)| == h.hlit + h.hdist
  }

  lemma UnzigzagSmall(sizes: seq<nat>)
    requires |sizes| <= 19 && Below(sizes, 8)
    ensures Below(Unzigzag(sizes), 8)
  {
    forall j | 0 <= j < 19 ensures Unzigzag(sizes)[j] < 8 {
      assert Sent(j) < |sizes| ==> sizes[Sent(j)] < 8;
    }
  }

  /** The code in which the items are written. */
  function SizeCode(h: Header): (cl: Lengths)
    requires HeaderOk(h)
    ensures |cl| == 19
  {
    UnzigzagSmall(h.sizes);
    Unzigzag(h.sizes)
  }

  predicate ItemsOk(h: Header)
    requires HeaderOk(h)
  {
    Accepts(SizeCode(h)) && forall it :: it in h.items ==> ItemOk(SizeCode(h), it)
  }

  function EncodeCounts(h: Header): seq<bool>
    requires HeaderOk(h)
  {
    Little(h.hlit - 257, 5) + (Little(h.hdist - 1, 5) + Little(|h.sizes| - 4, 4))
  }

  function EncodeItems(h: Header): seq<bool>
    requires HeaderOk(h)
  {
    EncodeAll(ItemEncoder(SizeCode(h)), h.items, [])
  }

  function EncodeHeader(h: Header): seq<bool>
    requires HeaderOk(h)
  {
    EncodeCounts(h) + (EncodeSizes(h.sizes) + EncodeItems(h))
  }

  lemma ReadsCounts(bits: Stream, q: nat, h: Header)
    requires HeaderOk(h) && Holds(bits, q, EncodeCounts(h))
    ensures CountsAt(bits, q) == Counts(h.hlit, h.hdist, |h.sizes|) && |EncodeCounts(h)| == 14
  {
    var a, b, c := Little(h.hlit - 257, 5), Little(h.hdist - 1, 5), Little(|h.sizes| - 4, 4);
    assert Pow2(5) == 32 && Pow2(4) == 16;
    HoldsSplit(bits, q, a, b + c);
    HoldsSplit(bits, q + 5, b, c);
    ReadsLittle(bits, q, h.hlit - 257, 5);
    ReadsLittle(bits, q + 5, h.hdist - 1, 5);
    ReadsLittle(bits, q + 10, |h.sizes| - 4, 4);
  }

  lemma {:induction false} UnpackSmall(cl: Lengths, acc: seq<nat>, items: seq<Item>)
    requires Small(acc) && forall it :: it in items ==> ItemOk(cl, it)
    ensures Small(Unpack(acc, items))
    decreases items
  {
    if items != [] {
      assert ItemOk(cl, items[0]);
      UnpackSmall(cl, acc + Repeated(Copied(acc, items[0]), Copies(items[0])), items[1..]);
    }
  }

  /** The codes after the counts n, from the sizes and the items read after them. */
  lemma ReadsTables(bits: Stream, q: nat, n: Counts, cl: Lengths, items: seq<Item>)
    requires n.Ok() && |cl| == 19 && SizesAt(bits, q, n.hclen) == cl && Accepts(cl)
    requires |Unpack([], items)| == n.hlit + n.hdist && Small(Unpack([], items))
    requires forall it :: it in items ==> ItemOk(cl, it)
    requires items != [] ==> !items[0].Repeat?
    requires Holds(bits, q + 3 * n.hclen, EncodeAll(ItemEncoder(cl), items, []))
    ensures CodesWith(bits, q, n) == SplitCodes(
        CodeLengths(Unpack([], items),
                    q + 3 * n.hclen + |EncodeAll(ItemEncoder(cl), items, [])|), n.hlit, n.hdist)
  {
    ReadsItems(bits, cl, n.hlit + n.hdist, q + 3 * n.hclen, [], items);
  }

  /** The codes after the counts, from the encoding w of the header's sizes and items. */
  lemma ReadsTail(bits: Stream, q: nat, h: Header, w: seq<bool>)
    requires HeaderOk(h) && ItemsOk(h) && w == EncodeSizes(h.sizes) + EncodeItems(h)
    requires Holds(bits, q, w)
    ensures Small(TotalLengths(h))
    ensures CodesWith(bits, q, Counts(h.hlit, h.hdist, |h.sizes|))
            == SplitCodes(CodeLengths(TotalLengths(h), q + |w|), h.hlit, h.hdist)
  {
    var cl := SizeCode(h);
    UnpackSmall(cl, [], h.items);
    HoldsSplit(bits, q, EncodeSizes(h.sizes), EncodeItems(h));
    ReadsSizes(bits, q, h.sizes);
    ReadsTables(bits, q, Counts(h.hlit, h.hdist, |h.sizes|), cl, h.items);
  }

  /** Decoding the encoding of a header gives the codes that it describes. */
  lemma HeaderRoundTrip(bits: Stream, q: nat, h: Header)
    requires HeaderOk(h) && ItemsOk(h) && Holds(bits, q, EncodeHeader(h))
    ensures Small(TotalLengths(h))
    ensures CodesAt(bits, q) ==
      SplitCodes(CodeLengths(TotalLengths(h), q + |EncodeHeader(h)|), h.hlit, h.hdist)
  {
    var w := EncodeSizes(h.sizes) + EncodeItems(h);
    HoldsSplit(bits, q, EncodeCounts(h), w);
    ReadsCounts(bits, q, h);
    ReadsTail(bits, q + 14, h, w);
  }

  // ---------------------------------------------------------------------------------------
  // Streams
  // ---------------------------------------------------------------------------------------

  /** The codes of a block are accepted and have what its tokens use. */
  predicate CodesOk(l: seq<nat>, d: seq<nat>, ts: seq<Token>) {
    && |l| <= 288 && Small(l) && |d| <= 32 && Small(d)
    && Accepts(l) && Accepts(d) && HasCode(l, 256) && TokensOk(l, d, ts)
  }

  predicate BlockOk(q: nat, b: Block) {
    match b
    case Stored(pad, data) => |data| <= 0xFFFF && |pad| == Align(q + 2) - (q + 2)
    case Fixed(ts) => CodesOk(FixedLengths(), FixedDistances(), ts)
    case Dynamic(h, ts) =>
      && HeaderOk(h) && ItemsOk(h)
      && CodesOk(TotalLengths(h)[..h.hlit], TotalLengths(h)[h.hlit..], ts)
  }

  /** A block that starts at q, after its final bit. */
  function EncodeBlock(q: nat, b: Block): seq<bool>
    requires BlockOk(q, b)
  {
    match b
    case Stored(pad, data) => Little(0, 2) + (pad + EncodeBytes(StoredBytes(data)))
    case Fixed(ts) => Little(1, 2) + EncodeTokens(FixedLengths(), FixedDistances(), ts)
    case Dynamic(h, ts) =>
      Little(2, 2) + (EncodeHeader(h)
        + EncodeTokens(TotalLengths(h)[..h.hlit], TotalLengths(h)[h.hlit..], ts))
  }

  function BlockText(out: seq<byte>, b: Block): Option<seq<byte>> {
    match b
    case Stored(_, data) => Some(out + data)
    case Fixed(ts) => Expand(out, ts)
    case Dynamic(_, ts) => Expand(out, ts)
  }

  function BlockSize(b: Block): nat { if b.Stored? then 0 else |b.tokens| }

  lemma ReadsKind(bits: Stream, q: nat, kind: nat, rest: seq<bool>)
    requires kind < 4 && Holds(bits, q, Little(kind, 2) + rest)
    ensures Window(bits, q, 2) == kind && Holds(bits, q + 2, rest)
  {
    HoldsSplit(bits, q, Little(kind, 2), rest);
    assert Pow2(2) == 4;
    ReadsLittle(bits, q, kind, 2);
  }

  lemma StoredBlock(turns: nat, bits: Stream, q: nat, out: seq<byte>, b: Block)
    requires b.Stored? && BlockOk(q, b) && Holds(bits, q, EncodeBlock(q, b))
    ensures BlockRun(turns, bits, q, out)
            == Done(q + |EncodeBlock(q, b)|, out + b.data)
  {
    ReadsKind(bits, q, 0, b.pad + EncodeBytes(StoredBytes(b.data)));
    StoredRoundTrip(bits, q + 2, out, b.pad, b.data);
  }

  lemma FixedBlock(turns: nat, bits: Stream, q: nat, out: seq<byte>, b: Block)
    requires b.Fixed? && BlockOk(q, b) && turns > |b.tokens|
    requires Holds(bits, q, EncodeBlock(q, b))
    ensures BlockRun(turns, bits, q, out)
            == Outcome(q + |EncodeBlock(q, b)|, Expand(out, b.tokens))
  {
    var l, d := FixedLengths(), FixedDistances();
    ReadsKind(bits, q, 1, EncodeTokens(l, d, b.tokens));
    TokensRoundTrip(turns, bits, l, d, q + 2, out, b.tokens);
  }

  /** What the tokens of a block need of its codes. */
  predicate CodesFor(c: Codes, ts: seq<Token>) {
    && c.Codes? && Accepts(c.l) && Accepts(c.d) && HasCode(c.l, 256) && TokensOk(c.l, c.d, ts)
  }

  /** A dynamic block after its header. */
  lemma AfterHeader(turns: nat, bits: Stream, q: nat, out: seq<byte>, c: Codes, ts: seq<Token>)
    requires CodesFor(c, ts) && turns > |ts| && Window(bits, q, 2) == 2
    requires CodesAt(bits, q + 2) == c && Holds(bits, c.q, EncodeTokens(c.l, c.d, ts))
    ensures BlockRun(turns, bits, q, out)
            == Outcome(c.q + |EncodeTokens(c.l, c.d, ts)|, Expand(out, ts))
  {
    TokensRoundTrip(turns, bits, c.l, c.d, c.q, out, ts);
  }

  /** The codes of a dynamic block. */
  lemma DynamicParts(q: nat, b: Block, q1: nat) returns (c: Codes)
    requires b.Dynamic? && BlockOk(q, b)
    ensures CodesFor(c, b.tokens) && c.q == q1 && Small(TotalLengths(b.h))
    ensures EncodeBlock(q, b)
            == Little(2, 2) + (EncodeHeader(b.h) + EncodeTokens(c.l, c.d, b.tokens))
    ensures SplitCodes(CodeLengths(TotalLengths(b.h), q1), b.h.hlit, b.h.hdist) == c
  {
    UnpackSmall(SizeCode(b.h), [], b.h.items);
    c := Codes(TotalLengths(b.h)[..b.h.hlit], TotalLengths(b.h)[b.h.hlit..], q1);
  }

  lemma ReadsCodes(bits: Stream, q: nat, h: Header, c: Codes)
    requires HeaderOk(h) && ItemsOk(h) && Holds(bits, q, EncodeHeader(h))
    requires Small(TotalLengths(h))
    requires SplitCodes(CodeLengths(TotalLengths(h), q + |EncodeHeader(h)|), h.hlit, h.hdist) == c
    ensures CodesAt(bits, q) == c
  {
    HeaderRoundTrip(bits, q, h);
  }

  lemma DynamicSplit(bits: Stream, q: nat, h: seq<bool>, w: seq<bool>, q1: nat)
    requires Holds(bits, q, Little(2, 2) + (h + w)) && q1 == q + 2 + |h|
    ensures Window(bits, q, 2) == 2 && Holds(bits, q + 2, h) && Holds(bits, q1, w)
    ensures |Little(2, 2) + (h + w)| == 2 + |h| + |w|
  {
    ReadsKind(bits, q, 2, h + w);
    HoldsSplit(bits, q + 2, h, w);
  }

  lemma DynamicBlock(turns: nat, bits: Stream, q: nat, out: seq<byte>, b: Block)
    requires b.Dynamic? && BlockOk(q, b) && turns > |b.tokens|
    requires Holds(bits, q, EncodeBlock(q, b))
    ensures BlockRun(turns, bits, q, out)
            == Outcome(q + |EncodeBlock(q, b)|, Expand(out, b.tokens))
  {
    var q1 := q + 2 + |EncodeHeader(b.h)|;
    var c := DynamicParts(q, b, q1);
    DynamicSplit(bits, q, EncodeHeader(b.h), EncodeTokens(c.l, c.d, b.tokens), q1);
    ReadsCodes(bits, q + 2, b.h, c);
    AfterHeader(turns, bits, q, out, c, b.tokens);
  }

  /** Every block decodes to what it says, whichever of its encodings was chosen. */
  lemma BlockRoundTrip(turns: nat, bits: Stream, q: nat, out: seq<byte>, b: Block)
    requires BlockOk(q, b) && turns > BlockSize(b) && Holds(bits, q, EncodeBlock(q, b))
    ensures BlockRun(turns, bits, q, out)
            == Outcome(q + |EncodeBlock(q, b)|, BlockText(out, b))
  {
    match b
    case Stored(_, _) => StoredBlock(turns, bits, q, out, b);
    case Fixed(_) => FixedBlock(turns, bits, q, out, b);
    case Dynamic(_, _) => DynamicBlock(turns, bits, q, out, b);
  }

  type BlockCode = (nat, Block) -> seq<bool>

  /** The blocks of a stream that begins at q are well formed, each at its own position. */
  predicate AllOk(ok: (nat, Block) -> bool, enc: BlockCode, q: nat, bs: seq<Block>)
    decreases bs
  {
    bs == [] || (ok(q + 1, bs[0]) && AllOk(ok, enc, q + 1 + |enc(q + 1, bs[0])|, bs[1..]))
  }

  /** The blocks, each after its final bit. */
  function AllBlocks(enc: BlockCode, q: nat, bs: seq<Block>): seq<bool>
    decreases bs
  {
    if bs == [] then []
    else
      var w := enc(q + 1, bs[0]);
      [|bs| == 1] + (w + AllBlocks(enc, q + 1 + |w|, bs[1..]))
  }

  function StreamText(out: seq<byte>, bs: seq<Block>): Option<seq<byte>>
    decreases bs
  {
    if bs == [] then Some(out)
    else
      match BlockText(out, bs[0])
      case None => None
      case Some(out1) => StreamText(out1, bs[1..])
  }

  lemma ReadsFinal(bits: Stream, q: nat, final: bool, w: seq<bool>, rest: seq<bool>)
    requires Holds(bits, q, [final] + (w + rest))
    ensures Window(bits, q, 1) == (if final then 1 else 0)
    ensures Holds(bits, q + 1, w) && Holds(bits, q + 1 + |w|, rest)
  {
    HoldsSplit(bits, q, [final], w + rest);
    HoldsSplit(bits, q + 1, w, rest);
    assert Agrees(bits, q, [final], 0);
    assert Window(bits, q + 1, 0) == 0;
  }

  predicate ReadsOne(read: BlockReader, bits: Stream, turns: nat, ok: (nat, Block) -> bool,
                     enc: BlockCode, q: nat, out: seq<byte>, b: Block)
  {
    ok(q, b) && turns > BlockSize(b) && Holds(bits, q, enc(q, b)) ==>
      read(q, out) == Outcome(q + |enc(q, b)|, BlockText(out, b))
  }

  ghost predicate ReadsBlocks(read: BlockReader, bits: Stream, turns: nat,
                              ok: (nat, Block) -> bool, enc: BlockCode)
  {
    forall q: nat, out, b :: ReadsOne(read, bits, turns, ok, enc, q, out, b)
  }

  lemma {:induction false} ReadsStream(blocks: nat, turns: nat, read: BlockReader, bits: Stream,
                                       ok: (nat, Block) -> bool, enc: BlockCode, q: nat,
                                       out: seq<byte>, bs: seq<Block>)
    requires ReadsBlocks(read, bits, turns, ok, enc)
    requires bs != [] && AllOk(ok, enc, q, bs) && Holds(bits, q, AllBlocks(enc, q, bs))
    requires blocks >= |bs| && forall b :: b in bs ==> turns > BlockSize(b)
    ensures InflateRun(blocks, read, bits, q, out)
            == Outcome(q + |AllBlocks(enc, q, bs)|, StreamText(out, bs))
    decreases bs
  {
    var w := enc(q + 1, bs[0]);
    var q1 := q + 1 + |w|;
    ReadsFinal(bits, q, |bs| == 1, w, AllBlocks(enc, q1, bs[1..]));
    assert ReadsOne(read, bits, turns, ok, enc, q + 1, out, bs[0]);
    match BlockText(out, bs[0])
    case None =>
    case Some(out1) =>
      if |bs| > 1 {
        ReadsStream(blocks - 1, turns, read, bits, ok, enc, q1, out1, bs[1..]);
      }
  }

  function BlockCheck(): (nat, Block) -> bool { (q: nat, b: Block) => BlockOk(q, b) }

  function BlockEncoder(): BlockCode {
    (q: nat, b: Block) => if BlockOk(q, b) then EncodeBlock(q, b) else []
  }

  predicate StreamOk(q: nat, bs: seq<Block>) {
    bs != [] && AllOk(BlockCheck(), BlockEncoder(), q, bs)
  }

  lemma ReadsBlock(turns: nat, bits: Stream, q: nat, out: seq<byte>, b: Block)
    ensures ReadsOne(ReadBlock(turns, bits), bits, turns, BlockCheck(), BlockEncoder(), q, out, b)
  {
    if BlockOk(q, b) && turns > BlockSize(b) && Holds(bits, q, EncodeBlock(q, b)) {
      BlockRoundTrip(turns, bits, q, out, b);
    }
  }

  lemma AllRead(turns: nat, bits: Stream)
    ensures ReadsBlocks(ReadBlock(turns, bits), bits, turns, BlockCheck(), BlockEncoder())
  {
    var read, ok, enc := ReadBlock(turns, bits), BlockCheck(), BlockEncoder();
    forall q: nat, out, b ensures ReadsOne(read, bits, turns, ok, enc, q, out, b) {
      ReadsBlock(turns, bits, q, out, b);
    }
  }

  /** Decoding a stream gives what its blocks say, one after the other, and ends on the right
      bit; it fails exactly when a copy reaches back before the start of the output. */
  lemma StreamRoundTrip(blocks: nat, turns: nat, bits: Stream, q: nat, out: seq<byte>,
                        bs: seq<Block>)
    requires StreamOk(q, bs) && Holds(bits, q, AllBlocks(BlockEncoder(), q, bs))
    requires blocks >= |bs| && forall b :: b in bs ==> turns > BlockSize(b)
    ensures InflateRun(blocks, ReadBlock(turns, bits), bits, q, out)
            == Outcome(q + |AllBlocks(BlockEncoder(), q, bs)|, StreamText(out, bs))
  {
    AllRead(turns, bits);
    ReadsStream(blocks, turns, ReadBlock(turns, bits), bits, BlockCheck(), BlockEncoder(), q, out,
                bs);
  }

  // ---------------------------------------------------------------------------------------
  // Everything can be encoded
  // ---------------------------------------------------------------------------------------

  function LiteralTokens(data: seq<byte>): (ts: seq<Token>)
    ensures |ts| == |data| && forall i :: 0 <= i < |ts| ==> ts[i] == Literal(data[i])
  {
    seq(|data|, i requires 0 <= i < |data| => Literal(data[i]))
  }

  lemma {:induction false} LiteralsExpand(out: seq<byte>, data: seq<byte>)
    ensures Expand(out, LiteralTokens(data)) == Some(out + data)
    decreases data
  {
    if data == [] {
      assert out + data == out;
    } else {
      LiteralsExpand(out + [data[0]], data[1..]);
      assert LiteralTokens(data)[1..] == LiteralTokens(data[1..]);
      assert out + [data[0]] + data[1..] == out + data;
    }
  }

  /** Every byte string has an encoding that decodes to it. */
  lemma EverythingEncodes(data: seq<byte>) returns (bs: seq<Block>)
    ensures StreamOk(0, bs) && StreamText([], bs) == Some(data)
  {
    var ts := LiteralTokens(data);
    bs := [Fixed(ts)];
    FixedAccepted();
    LiteralsExpand([], data);
    assert [] + data == data;
    assert TokensOk(FixedLengths(), FixedDistances(), ts);
    assert AllOk(BlockCheck(), BlockEncoder(), 1 + |BlockEncoder()(1, bs[0])|, bs[1..]);
    assert StreamText(data, bs[1..]) == Some(data);
  }

  /** The lengths and the distances of consecutive symbols have no gap between them. */
  lemma LengthGap(z: nat)
    requires z < 28
    ensures LengthBase(z) + Pow2(LengthExtra(z)) == if z < 27 then LengthBase(z + 1) else 259
  {
    if z == 27 {
      assert Pow2(5) == 32;
    } else if z >= 4 {
      var e: nat, r := z / 4 - 1, z % 4;
      assert LengthExtra(z) == e && LengthExtra(z + 1) == if r == 3 then e + 1 else e;
      assert (z + 1) % 4 == if r == 3 then 0 else r + 1;
      assert z % 2 == r % 2 && (z + 1) % 2 == (r + 1) % 2;
      Doubles(e);
    }
  }

  lemma Doubles(e: nat)
    ensures Pow2(e + 1) == 2 * Pow2(e) && Pow2(e + 2) == 4 * Pow2(e) && Pow2(e + 3) == 8 * Pow2(e)
  {
    assert Pow2(e + 3) == 2 * Pow2(e + 2);
    assert Pow2(e + 2) == 2 * Pow2(e + 1);
  }

  lemma DistGap(y: nat)
    requires y < 30
    ensures DistBase(y) + Pow2(DistExtra(y)) == if y < 29 then DistBase(y + 1) else 32769
  {
    if y >= 2 {
      var e := DistExtra(y);
      assert Pow2(e + 1) == 2 * Pow2(e);
      if y % 2 == 1 { assert Pow2(e + 2) == 2 * Pow2(e + 1); }
      if y == 29 { assert Pow2(13) == 8192; }
    }
  }

  /** Every length and distance that the format allows has a token. */
  lemma {:induction false} LengthEncodes(len: nat, n: nat) returns (z: LengthSymbol, x: nat)
    requires 3 <= len < LengthBase(n) + Pow2(LengthExtra(n)) && n < 28 && len <= 257
    ensures x < Pow2(LengthExtra(z)) && LengthBase(z) + x == len
  {
    if len >= LengthBase(n) {
      z, x := n, len - LengthBase(n);
    } else {
      LengthGap(n - 1);
      z, x := LengthEncodes(len, n - 1);
    }
  }

  lemma {:induction false} DistanceEncodes(dist: nat, n: nat) returns (y: DistSymbol, x: nat)
    requires 1 <= dist < DistBase(n) + Pow2(DistExtra(n)) && n < 30
    ensures x < Pow2(DistExtra(y)) && DistBase(y) + x == dist
  {
    if dist >= DistBase(n) {
      y, x := n, dist - DistBase(n);
    } else {
      DistGap(n - 1);
      y, x := DistanceEncodes(dist, n - 1);
    }
  }

  lemma CopyEncodes(len: nat, dist: nat) returns (t: Token)
    requires 3 <= len <= 258 && 1 <= dist <= 32768
    ensures t.Match? && CopyLength(t) == len && CopyDistance(t) == dist
    ensures t.zx < Pow2(LengthExtra(t.z)) && t.yx < Pow2(DistExtra(t.y))
  {
    LengthGap(27);
    DistGap(29);
    var z: LengthSymbol, x: nat := 28, 0;
    if len < 258 { z, x := LengthEncodes(len, 27); }
    var y, dx := DistanceEncodes(dist, 29);
    t := Match(z, x, y, dx);
  }
}
