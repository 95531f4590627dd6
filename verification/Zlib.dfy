/** The inflate decoder on the encodings of RFC 1951. */
module Zlib {
  import opened BitStream
  import opened Inflate
  import opened InflateDecoder
  import opened Deflate

  /** What the decoder does with one block, on streams that hold encoded blocks. */
  lemma Reader(turns: nat, bits: Stream) returns (read: BlockReader)
    ensures IsReader(read, turns, bits)
    ensures ReadsBlocks(read, bits, turns, BlockCheck(), BlockEncoder())
  {
    read := ReadBlock(turns, bits);
    AllRead(turns, bits);
  }

  /** _ssfn_zlib_decode; the loops are cut off after `blocks` and `turns`. */
  method ZlibDecode(input: seq<byte>, blocks: nat, turns: nat, ghost read: BlockReader)
    returns (s: Status, out: seq<byte>)
    requires IsReader(read, turns, BitsOf(input))
    ensures Answers(s, out, InflateRun(blocks, read, BitsOf(input), 0, []))
  {
    BytesServe(input);
    var d := new Decoder(input, BitsOf(input));
    s := d.Inflate(blocks, turns, read);
    out := d.out;
  }

  predicate Answers(s: Status, out: seq<byte>, r: Result) {
    match s
    case Fine => r.Done? && out == r.out
    case Failed => r == Fail
    case Unwritten => r == Undefined
    case Cut => r == More
  }

  /** The outcome on a stream that holds encoded blocks. */
  lemma Expected(blocks: nat, turns: nat, bits: Stream, read: BlockReader,
                 ok: (nat, Block) -> bool, enc: BlockCode, bs: seq<Block>)
    requires ReadsBlocks(read, bits, turns, ok, enc)
    requires bs != [] && AllOk(ok, enc, 0, bs) && Holds(bits, 0, AllBlocks(enc, 0, bs))
    requires blocks >= |bs| && forall b :: b in bs ==> turns > BlockSize(b)
    ensures var r := InflateRun(blocks, read, bits, 0, []);
            match StreamText([], bs)
            case None => r == Fail
            case Some(text) => r.Done? && r.out == text
  {
    ReadsStream(blocks, turns, read, bits, ok, enc, 0, [], bs);
  }

  /** The decoder inverts every encoding: whatever mixture of blocks, codes and copies a stream
      uses, decoding it gives exactly what it stands for, and it is refused exactly when a copy
      reaches back before the start. */
  method Unzip(input: seq<byte>, blocks: nat, turns: nat, ghost bs: seq<Block>)
    returns (ok: bool, out: seq<byte>)
    requires StreamOk(0, bs) && Holds(BitsOf(input), 0, AllBlocks(BlockEncoder(), 0, bs))
    requires blocks >= |bs| && forall b :: b in bs ==> turns > BlockSize(b)
    ensures ok <==> StreamText([], bs).Some?
    ensures ok ==> out == StreamText([], bs).value
  {
    ghost var bits := BitsOf(input);
    ghost var read := Reader(turns, bits);
    Expected(blocks, turns, bits, read, BlockCheck(), BlockEncoder(), bs);
    var s;
    s, out := ZlibDecode(input, blocks, turns, read);
    ok := s == Fine;
  }
}
