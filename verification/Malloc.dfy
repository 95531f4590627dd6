/** The kernel's allocator (base/memory/malloc.cpp): a walk over block headers in memory.

The code adds sizes to header pointers, so with headers of h bytes a block of n bytes takes
h * (n + h) bytes; a fresh block's payload begins 4 * h bytes after its header, and a reused
block's h * h bytes after it.  Addresses are taken modulo the address space, `word`.  A request is
a size_t of 64 bits (base/include/stdint.h); a header keeps it in an int.
*/
module Malloc {
  import opened Bits

  const WIDE: nat := 0x1_0000_0000_0000_0000

  type Size = n: nat | n < WIDE

  const INT: nat := 0x1_0000_0000

  /** An int that a size is assigned to, as a size_t again: the low 32 bits, sign-extended. */
  function Int(size: Size): (n: Size)
    ensures size < INT / 2 ==> n == size
  {
    var low := size % INT;
    if low < INT / 2 then low else low + (WIDE - INT)
  }

  /** A block; its size is the int of the header, as the comparison with a size_t converts it. */
  datatype Header = Header(size: nat, taken: bool)

  /** The addresses at which a header with the magic begins.  Only malloc writes the magic: neither
      payloads nor memory that has never been a header carry it. */
  type Memory = map<nat, Header>

  /** The region of memory, the size of a header and the size of the address space. */
  datatype Config = Config(base: nat, len: nat, h: nat, word: nat) {
    predicate Ok() {
      4 <= h && base + h < word / 2 && word <= INT && base + len < WIDE / 2
    }

    function Start(): nat { base + h }

    /** (int)d < big.len + big.addr, where the upper half of the addresses is negative. */
    predicate InRange(d: nat) { d < word / 2 && d < base + len }

    /** The end check, in 64 bits: (int)d + sizeof(alloc_struct) + size > big.addr + big.len. */
    predicate Admits(d: nat, size: Size) { (d + h + size) % WIDE <= base + len }

    /** d += size + sizeof(alloc_struct). */
    function After(d: nat, size: nat): nat
      requires word > 0
    {
      (d + Span(h, size)) % word
    }

    /** Not even the largest request that the end check admits leads out of the address space. */
    predicate RegionFits() { len < h || base + h + h * (len - h) < word }
  }

  // ---------------------------------------------------------------------------------------
  // What malloc and free do to the headers
  // ---------------------------------------------------------------------------------------

  datatype Found = Old(d: nat) | New(d: nat) | Nothing | Searching

  /** The walk of malloc from d on, past at most n headers. */
  function Search(c: Config, mem: Memory, size: Size, d: nat, n: nat): Found
    requires c.Ok()
    decreases n
  {
    if !c.InRange(d) then Nothing
    else if d !in mem then if c.Admits(d, size) then New(d) else Nothing
    else if !mem[d].taken && mem[d].size >= size then Old(d)
    else if n == 0 then Searching
    else Search(c, mem, size, c.After(d, mem[d].size), n - 1)
  }

  /** The headers once the block found has been taken. */
  function Taken(c: Config, mem: Memory, f: Found, size: Size): Memory
    requires c.Ok()
  {
    match f
    case Old(d) => if d in mem then mem[d := mem[d].(taken := true)] else mem
    case New(d) => mem[d := Header(Int(size), true)]
    case _ => mem
  }

  /** free, of any pointer at all. */
  function Freed(c: Config, mem: Memory, p: nat): Memory
    requires c.Ok()
  {
    var d := (p - 4 * c.h) % c.word;
    if d in mem && mem[d].taken then mem[d := mem[d].(taken := false)] else mem
  }

  datatype Op = Request(size: Size) | Release(p: nat)

  /** The headers after one call that returns. */
  ghost predicate Steps(c: Config, mem: Memory, op: Op, mem1: Memory)
    requires c.Ok()
  {
    match op
    case Request(size) =>
      exists n: nat ::
        var f := Search(c, mem, size, c.Start(), n);
        !f.Searching? && mem1 == Taken(c, mem, f, size)
    case Release(p) => mem1 == Freed(c, mem, p)
  }

  /** The headers after a history of calls, from empty memory. */
  ghost predicate Reaches(c: Config, ops: seq<Op>, mem: Memory)
    requires c.Ok()
    decreases |ops|
  {
    if ops == [] then mem == map[]
    else
      var last := |ops| - 1;
      exists m: Memory :: Reaches(c, ops[..last], m) && Steps(c, m, ops[last], mem)
  }

  predicate Apart(a: nat, n: nat, b: nat, m: nat) { a + n <= b || b + m <= a }

  ghost predicate AllApart(h: nat, mem: Memory) {
    forall d, e :: d in mem && e in mem && d != e ==> Apart(d, h, e, h)
  }

  // ---------------------------------------------------------------------------------------
  // The chain of blocks
  // ---------------------------------------------------------------------------------------

  function Span(h: nat, size: nat): (n: nat)
    ensures n >= h * size
  {
    Distribute(h, size, 1);
    assert h * (size + h) == h * size + h * h && h * h >= 0 && h * size >= 0;
    h * (size + h)
  }

  /** Address of block i; that of block |blocks| is where the next one will be. */
  function Addr(base: nat, h: nat, blocks: seq<Header>, i: nat): nat
    requires i <= |blocks|
  {
    if i == 0 then base + h else Addr(base, h, blocks, i - 1) + Span(h, blocks[i - 1].size)
  }

  function End(base: nat, h: nat, blocks: seq<Header>): nat { Addr(base, h, blocks, |blocks|) }

  /** Every payload fits into its block behind the header, wherever it begins. */
  lemma PayloadFits(h: nat, size: nat, request: nat)
    requires h >= 4 && request <= size
    ensures h <= 4 * h && 4 * h + request <= Span(h, size)
    ensures h <= h * h && h * h + request <= Span(h, size)
    ensures h > 0 && Span(h, size) > 0
  {
    assert Span(h, size) == h * size + h * h;
    assert (h - 1) * size >= 0 && h * size == (h - 1) * size + size;
    assert (h - 4) * h >= 0 && h * h == (h - 4) * h + 4 * h;
  }

  lemma {:induction false} AddrGrows(base: nat, h: nat, blocks: seq<Header>, i: nat, j: nat)
    requires h >= 4 && i < j <= |blocks|
    ensures Addr(base, h, blocks, i) + Span(h, blocks[i].size) <= Addr(base, h, blocks, j)
    ensures Addr(base, h, blocks, i) + h <= Addr(base, h, blocks, j)
  {
    PayloadFits(h, blocks[i].size, 0);
    if i + 1 < j { AddrGrows(base, h, blocks, i, j - 1); }
  }

  lemma {:induction false} AddrSame(base: nat, h: nat, b: seq<Header>, c: seq<Header>, i: nat)
    requires i <= |b| && i <= |c| && forall j :: 0 <= j < i ==> b[j].size == c[j].size
    ensures Addr(base, h, b, i) == Addr(base, h, c, i)
  {
    if i > 0 { AddrSame(base, h, b, c, i - 1); }
  }

  ghost predicate BlockAt(base: nat, h: nat, mem: Memory, blocks: seq<Header>, i: nat) {
    i < |blocks| ==>
      Addr(base, h, blocks, i) in mem && mem[Addr(base, h, blocks, i)] == blocks[i]
  }

  ghost predicate HeaderAt(base: nat, h: nat, mem: Memory, blocks: seq<Header>, d: nat) {
    d in mem ==> exists i: nat :: i < |blocks| && d == Addr(base, h, blocks, i)
  }

  /** The headers in memory are exactly those of the blocks, one behind the other. */
  ghost predicate Chain(base: nat, h: nat, mem: Memory, blocks: seq<Header>) {
    && (forall i: nat :: BlockAt(base, h, mem, blocks, i))
    && (forall d: nat :: HeaderAt(base, h, mem, blocks, d))
  }

  /** Block i becomes taken or free. */
  lemma ChainMark(base: nat, h: nat, mem: Memory, blocks: seq<Header>, i: nat, taken: bool)
    requires h >= 4 && Chain(base, h, mem, blocks) && i < |blocks|
    ensures var d, b := Addr(base, h, blocks, i), blocks[i := blocks[i].(taken := taken)];
      && d in mem && mem[d] == blocks[i] && Chain(base, h, mem[d := mem[d].(taken := taken)], b)
      && forall j: nat | j <= |b| :: Addr(base, h, b, j) == Addr(base, h, blocks, j)
  {
    var d, b := Addr(base, h, blocks, i), blocks[i := blocks[i].(taken := taken)];
    assert BlockAt(base, h, mem, blocks, i);
    var mem1 := mem[d := mem[d].(taken := taken)];
    forall j: nat | j <= |b| ensures Addr(base, h, b, j) == Addr(base, h, blocks, j) {
      AddrSame(base, h, b, blocks, j);
    }
    forall j: nat ensures BlockAt(base, h, mem1, b, j) {
      assert BlockAt(base, h, mem, blocks, j);
      if j < i { AddrGrows(base, h, blocks, j, i); }
      else if i < j < |b| { AddrGrows(base, h, blocks, i, j); }
    }
    forall e: nat ensures HeaderAt(base, h, mem1, b, e) {
      assert HeaderAt(base, h, mem, blocks, e);
      if e in mem1 {
        var j: nat :| j < |blocks| && e == Addr(base, h, blocks, j);
        assert e == Addr(base, h, b, j);
      }
    }
  }

  /** A new block behind the others. */
  lemma ChainAppend(base: nat, h: nat, mem: Memory, blocks: seq<Header>, size: nat)
    requires h >= 4 && Chain(base, h, mem, blocks)
    ensures var d, b := End(base, h, blocks), blocks + [Header(size, true)];
      && d !in mem && Chain(base, h, mem[d := Header(size, true)], b)
      && End(base, h, b) == d + Span(h, size)
      && forall j: nat | j <= |blocks| :: Addr(base, h, b, j) == Addr(base, h, blocks, j)
  {
    var d, b := End(base, h, blocks), blocks + [Header(size, true)];
    var mem1 := mem[d := Header(size, true)];
    NotInChain(base, h, mem, blocks);
    forall j: nat | j <= |blocks| ensures Addr(base, h, b, j) == Addr(base, h, blocks, j) {
      AddrSame(base, h, b, blocks, j);
    }
    forall j: nat ensures BlockAt(base, h, mem1, b, j) {
      assert BlockAt(base, h, mem, blocks, j);
    }
    forall e: nat ensures HeaderAt(base, h, mem1, b, e) {
      assert HeaderAt(base, h, mem, blocks, e);
      if e in mem {
        var j: nat :| j < |blocks| && e == Addr(base, h, blocks, j);
        assert e == Addr(base, h, b, j);
      } else if e == d {
        assert e == Addr(base, h, b, |blocks|);
      }
    }
  }

  lemma NotInChain(base: nat, h: nat, mem: Memory, blocks: seq<Header>)
    requires h >= 4 && Chain(base, h, mem, blocks)
    ensures End(base, h, blocks) !in mem
  {
    var d := End(base, h, blocks);
    assert HeaderAt(base, h, mem, blocks, d);
    if d in mem {
      var j: nat :| j < |blocks| && d == Addr(base, h, blocks, j);
      AddrGrows(base, h, blocks, j, |blocks|);
    }
  }

  /** The headers of a chain never overlap. */
  lemma ChainApart(base: nat, h: nat, mem: Memory, blocks: seq<Header>)
    requires h >= 4 && Chain(base, h, mem, blocks)
    ensures AllApart(h, mem)
  {
    forall d, e | d in mem && e in mem && d != e ensures Apart(d, h, e, h) {
      assert HeaderAt(base, h, mem, blocks, d) && HeaderAt(base, h, mem, blocks, e);
      var i: nat :| i < |blocks| && d == Addr(base, h, blocks, i);
      var j: nat :| j < |blocks| && e == Addr(base, h, blocks, j);
      if i < j { AddrGrows(base, h, blocks, i, j); } else { AddrGrows(base, h, blocks, j, i); }
    }
  }

  // ---------------------------------------------------------------------------------------
  // When no history overlaps
  // ---------------------------------------------------------------------------------------

  /** The chain ends inside the address space. */
  ghost predicate Sound(c: Config, mem: Memory, blocks: seq<Header>) {
    Chain(c.base, c.h, mem, blocks) && End(c.base, c.h, blocks) < c.word
  }

  /** A step from block i of a sound chain leads to block i + 1. */
  lemma NextBlock(c: Config, mem: Memory, blocks: seq<Header>, i: nat)
    requires c.Ok() && Sound(c, mem, blocks) && i < |blocks|
    ensures var d := Addr(c.base, c.h, blocks, i);
      d in mem && mem[d] == blocks[i]
      && c.After(d, mem[d].size) == Addr(c.base, c.h, blocks, i + 1)
  {
    assert BlockAt(c.base, c.h, mem, blocks, i);
    if i + 1 < |blocks| { AddrGrows(c.base, c.h, blocks, i + 1, |blocks|); }
    InWord(Addr(c.base, c.h, blocks, i + 1), c.word);
  }

  lemma InWord(n: nat, word: nat)
    requires n < word
    ensures n % word == n
  {
  }

  /** Block j cannot be handed out for a request. */
  predicate Unfit(blocks: seq<Header>, j: nat, size: nat)
    requires j < |blocks|
  {
    blocks[j].taken || blocks[j].size < size
  }

  /** What a walk over a sound chain from block i finds, and that it ends. */
  lemma {:induction false} SearchChain(c: Config, mem: Memory, blocks: seq<Header>, size: Size,
                                       i: nat, n: nat)
    returns (k: nat)
    requires c.Ok() && Sound(c, mem, blocks) && i <= |blocks|
    ensures var f := Search(c, mem, size, Addr(c.base, c.h, blocks, i), n);
      && (n >= |blocks| - i ==> !f.Searching?)
      && (f.Old? ==> k < |blocks| && f.d == Addr(c.base, c.h, blocks, k) && !Unfit(blocks, k, size))
      && (f.New? ==> f.d == End(c.base, c.h, blocks) && c.InRange(f.d) && c.Admits(f.d, size))
    decreases n
  {
    k := i;
    NotInChain(c.base, c.h, mem, blocks);
    if i < |blocks| {
      NextBlock(c, mem, blocks, i);
      if n > 0 && Unfit(blocks, i, size) { k := SearchChain(c, mem, blocks, size, i + 1, n - 1); }
    }
  }

  /** A request of no more than the end of the region does not overflow the end check. */
  lemma PlainCheck(c: Config, d: nat, size: Size)
    requires c.Ok() && c.InRange(d) && size <= c.base + c.len
    ensures c.Admits(d, size) <==> d + c.h + size <= c.base + c.len
  {
    InWord(d + c.h + size, WIDE);
  }

  /** A block that ends inside the address space has a size that its header can hold. */
  lemma SmallSize(c: Config, d: nat, size: Size)
    requires c.Ok() && d + Span(c.h, size) < c.word
    ensures Int(size) == size
  {
    Quadruple(c.h, size + c.h);
  }

  lemma Quadruple(h: nat, n: nat)
    requires h >= 4
    ensures 4 * n <= h * n
  {
    assert (h - 4) * n >= 0;
  }

  /** In a region that fits, a request that is admitted stays in the address space. */
  lemma AdmittedFits(c: Config, d: nat, size: Size)
    requires c.Ok() && c.RegionFits() && c.Start() <= d && d + c.h + size <= c.base + c.len
    ensures d + Span(c.h, size) < c.word && Int(size) == size
  {
    AdmittedSpan(c, d, size);
    SmallSize(c, d, size);
  }

  lemma AdmittedSpan(c: Config, d: nat, size: Size)
    requires c.Ok() && c.RegionFits() && c.Start() <= d && d + c.h + size <= c.base + c.len
    ensures d + Span(c.h, size) < c.word
  {
    var t, n := d - c.Start(), size + c.h;
    Scaled(c.h, n, t, c.len - c.h);
  }

  lemma Scaled(h: nat, n: nat, t: nat, room: nat)
    requires h >= 1 && n + t <= room
    ensures h * n + t <= h * room
  {
    var rest := room - n - t;
    assert h * room == h * n + h * t + h * rest;
    assert h * t >= t && h * rest >= 0;
  }

  /** A call that asks for no more than the end of the region. */
  predicate Modest(c: Config, op: Op) { op.Request? ==> op.size <= c.base + c.len }

  predicate Asked(c: Config, ops: seq<Op>) { forall i :: 0 <= i < |ops| ==> Modest(c, ops[i]) }

  /** Every such call keeps the chain in a region that fits. */
  lemma StepKeeps(c: Config, mem: Memory, blocks: seq<Header>, op: Op, mem1: Memory)
    returns (blocks1: seq<Header>)
    requires c.Ok() && c.RegionFits() && Sound(c, mem, blocks) && Steps(c, mem, op, mem1)
    requires Modest(c, op)
    ensures Sound(c, mem1, blocks1)
  {
    var base, h := c.base, c.h;
    blocks1 := blocks;
    match op
    case Request(size) =>
      var n: nat :| (var f := Search(c, mem, size, c.Start(), n);
                     !f.Searching? && mem1 == Taken(c, mem, f, size));
      var k := SearchChain(c, mem, blocks, size, 0, n);
      match Search(c, mem, size, c.Start(), n) {
        case Old(d) =>
          ChainMark(base, h, mem, blocks, k, true);
          blocks1 := blocks[k := blocks[k].(taken := true)];
        case New(d) =>
          ChainAppend(base, h, mem, blocks, size);
          if blocks != [] { AddrGrows(base, h, blocks, 0, |blocks|); }
          PlainCheck(c, d, size);
          AdmittedFits(c, d, size);
          blocks1 := blocks + [Header(size, true)];
        case _ =>
      }
    case Release(p) =>
      var d := (p - 4 * h) % c.word;
      assert HeaderAt(base, h, mem, blocks, d);
      if d in mem && mem[d].taken {
        var k: nat :| k < |blocks| && d == Addr(base, h, blocks, k);
        ChainMark(base, h, mem, blocks, k, false);
        blocks1 := blocks[k := blocks[k].(taken := false)];
      }
  }

  lemma {:induction false} HistoryKeeps(c: Config, ops: seq<Op>, mem: Memory)
    returns (blocks: seq<Header>)
    requires c.Ok() && c.RegionFits() && Reaches(c, ops, mem) && Asked(c, ops)
    ensures Sound(c, mem, blocks)
    decreases |ops|
  {
    if ops == [] {
      blocks := [];
    } else {
      var last := |ops| - 1;
      var m: Memory :| Reaches(c, ops[..last], m) && Steps(c, m, ops[last], mem);
      var was := HistoryKeeps(c, ops[..last], m);
      blocks := StepKeeps(c, m, was, ops[last], mem);
    }
  }

  /** The 32-bit kernel: headers of 28 bytes, and a region behind the first pages. */
  predicate Kernel(c: Config) {
    c.h == 28 && c.word == 0x1_0000_0000 && 784 <= c.base && c.base + 28 < c.word / 2
    && c.base + c.len <= c.word / 2
  }

  /** Headers do not overlap after the history ops, if all its calls return. */
  ghost predicate SafeAfter(c: Config, ops: seq<Op>, mem: Memory)
    requires c.Ok()
  {
    Reaches(c, ops, mem) ==> AllApart(c.h, mem)
  }

  /** While no request exceeds the end of the region, exactly the regions that fit are safe from
      overlapping headers in every history. */
  lemma NeverOverlapsIff(c: Config)
    requires Kernel(c)
    ensures (forall ops, mem :: Asked(c, ops) ==> SafeAfter(c, ops, mem)) <==> c.RegionFits()
  {
    if c.RegionFits() {
      forall ops, mem | Asked(c, ops) ensures SafeAfter(c, ops, mem) {
        if Reaches(c, ops, mem) {
          var blocks := HistoryKeeps(c, ops, mem);
          ChainApart(c.base, c.h, mem, blocks);
        }
      }
    } else {
      var ops, mem := Overlaps(c);
      assert Asked(c, ops) && !SafeAfter(c, ops, mem);
    }
  }

  // ---------------------------------------------------------------------------------------
  // Histories that overlap
  // ---------------------------------------------------------------------------------------

  /** A walk that comes to d finds free memory there. */
  lemma Lands(c: Config, mem: Memory, size: Size, d: nat, n: nat)
    requires c.Ok() && c.InRange(d) && d !in mem && c.Admits(d, size)
    ensures Search(c, mem, size, d, n) == New(d)
  {
  }

  /** A walk passes the taken block at d. */
  lemma Passes(c: Config, mem: Memory, size: Size, d: nat, next: nat, n: nat)
    requires c.Ok() && c.InRange(d) && d in mem && mem[d].taken
    requires c.After(d, mem[d].size) == next
    ensures Search(c, mem, size, d, n + 1) == Search(c, mem, size, next, n)
  {
  }

  /** A request that finds free memory at d writes a header there. */
  lemma Requested(c: Config, mem: Memory, size: Size, n: nat, d: nat)
    requires c.Ok() && Search(c, mem, size, c.Start(), n) == New(d)
    ensures Steps(c, mem, Request(size), mem[d := Header(Int(size), true)])
  {
  }

  lemma ReachesNone(c: Config)
    requires c.Ok()
    ensures Reaches(c, [], map[])
  {
  }

  lemma ReachesNext(c: Config, ops: seq<Op>, mem: Memory, op: Op, mem1: Memory)
    requires c.Ok() && Reaches(c, ops, mem) && Steps(c, mem, op, mem1)
    ensures Reaches(c, ops + [op], mem1)
  {
    assert (ops + [op])[..|ops|] == ops;
  }

  /** The step behind a block of the requested size leads from d to e. */
  predicate Leads(c: Config, d: nat, size: Size, e: nat)
    requires c.Ok()
  {
    c.InRange(d) && c.Admits(d, size) && c.After(d, Int(size)) == e
  }

  lemma OneRequest(c: Config, s1: Size) returns (mem: Memory)
    requires c.Ok() && c.InRange(c.Start()) && c.Admits(c.Start(), s1)
    ensures Reaches(c, [Request(s1)], mem) && mem == map[c.Start() := Header(Int(s1), true)]
  {
    mem := map[][c.Start() := Header(Int(s1), true)];
    ReachesNone(c);
    Lands(c, map[], s1, c.Start(), 0);
    Requested(c, map[], s1, 0, c.Start());
    ReachesNext(c, [], map[], Request(s1), mem);
    assert [] + [Request(s1)] == [Request(s1)];
  }

  lemma TwoRequests(c: Config, s1: Size, d: nat, s2: Size) returns (mem: Memory)
    requires c.Ok() && Leads(c, c.Start(), s1, d) && d != c.Start()
    requires c.InRange(d) && c.Admits(d, s2)
    ensures Reaches(c, [Request(s1)] + [Request(s2)], mem)
    ensures mem == map[c.Start() := Header(Int(s1), true), d := Header(Int(s2), true)]
  {
    var mem1 := OneRequest(c, s1);
    mem := mem1[d := Header(Int(s2), true)];
    Lands(c, mem1, s2, d, 0);
    Passes(c, mem1, s2, c.Start(), d, 0);
    Requested(c, mem1, s2, 1, d);
    ReachesNext(c, [Request(s1)], mem1, Request(s2), mem);
  }

  lemma ThreeRequests(c: Config, s1: Size, d: nat, s2: Size, e: nat, s3: Size)
    returns (mem: Memory)
    requires c.Ok() && Leads(c, c.Start(), s1, d) && Leads(c, d, s2, e)
    requires d != c.Start() && e != c.Start() && e != d && c.InRange(e) && c.Admits(e, s3)
    ensures Reaches(c, [Request(s1)] + [Request(s2)] + [Request(s3)], mem)
    ensures c.Start() in mem && d in mem && e in mem
  {
    var mem2 := TwoRequests(c, s1, d, s2);
    mem := mem2[e := Header(Int(s3), true)];
    Lands(c, mem2, s3, e, 0);
    Passes(c, mem2, s3, d, e, 0);
    Passes(c, mem2, s3, c.Start(), d, 1);
    Requested(c, mem2, s3, 2, e);
    ReachesNext(c, [Request(s1)] + [Request(s2)], mem2, Request(s3), mem);
  }

  /** The address behind a block in the 32-bit address space, whatever was asked for: n is that
      address plus some multiple of the address space. */
  lemma StepTo(c: Config, d: nat, size: Size, n: nat, k: int)
    requires Kernel(c) && n < c.word && d + 28 * (size + 28) == n + c.word * k
    ensures c.After(d, Int(size)) == n
  {
    var q := size / c.word;
    var lost := if Int(size) <= size then q else q + 1;
    assert Span(28, Int(size)) == 28 * (Int(size) + 28);
    Modulo(d + Span(28, Int(size)), n);
  }

  lemma Modulo(x: nat, n: nat)
    requires n < 0x1_0000_0000 && (x - n) % 0x1_0000_0000 == 0
    ensures x % 0x1_0000_0000 == n
  {
  }

  /** Requests of no more than the region, whose second block begins at the bottom of memory, and
      whose third one would begin inside the first header. */
  lemma OverlapSizes(c: Config) returns (s1: Size, w: nat, s2: Size, d: nat)
    requires Kernel(c) && !c.RegionFits()
    ensures c.Start() + 28 * (s1 + 28) == c.word + w && w < 28
    ensures c.Start() + 28 + s1 <= c.base + c.len && w + 28 + s2 <= c.base + c.len
    ensures w + 28 * (s2 + 28) == d && (d == c.Start() + 24 || d == c.Start() - 4)
    ensures d + 29 <= c.base + c.len
  {
    var gap := c.word - c.Start();
    var k := (gap + 27) / 28;
    s1, w := k - 28, 28 * k - gap;
    d := c.Start() + 24;
    s2 := (d - w) / 28 - 28;
    assert 28 * 153391689 + 4 == c.word;
    assert d - w == 28 * (153391690 - k);
  }

  /** Three such requests after which two headers overlap. */
  lemma Overlaps(c: Config) returns (ops: seq<Op>, mem: Memory)
    requires Kernel(c) && !c.RegionFits()
    ensures Asked(c, ops) && Reaches(c, ops, mem) && !AllApart(c.h, mem)
  {
    var s1, w, s2, d := OverlapSizes(c);
    StepTo(c, c.Start(), s1, w, 1);
    StepTo(c, w, s2, d, 0);
    PlainCheck(c, c.Start(), s1);
    PlainCheck(c, w, s2);
    PlainCheck(c, d, 1);
    mem := ThreeRequests(c, s1, w, s2, d, 1);
    ops := [Request(s1)] + [Request(s2)] + [Request(1)];
    assert !Apart(d, 28, c.Start(), 28);
  }

  // ---------------------------------------------------------------------------------------
  // Requests of any size
  // ---------------------------------------------------------------------------------------

  // A request near 2^64 overflows the end check, so it is admitted, and the walk goes backwards
  // from its block.

  /** The place of the headers within 28 bytes. */
  function Phase(c: Config): nat
    requires c.Ok()
  {
    c.Start() % c.h
  }

  /** The last address of the region at which a header can be. */
  function Top(c: Config): nat
    requires c.Ok() && c.Start() < c.base + c.len
  {
    var last := c.base + c.len - 1;
    last - (last - Phase(c)) % c.h
  }

  /** No walk can lead around the address space into the region: neither forwards from the lowest
      address of a header nor backwards from the highest. */
  predicate NoWayAround(c: Config)
    requires c.Ok()
  {
    var end := c.base + c.len;
    end <= c.Start()
    || (c.h * end - (c.h - 1) * Phase(c) < c.word && (c.h - 1) * Top(c) + end <= c.word)
  }

  /** The walk stays on addresses of one phase or leaves the region. */
  predicate InPhase(c: Config, d: nat)
    requires c.Ok()
  {
    c.InRange(d) ==> d % c.h == Phase(c)
  }

  ghost predicate Tame(c: Config, mem: Memory)
    requires c.Ok()
  {
    forall d :: d in mem ==> c.InRange(d) && InPhase(c, d) && InPhase(c, c.After(d, mem[d].size))
  }

  lemma {:induction false} SearchTame(c: Config, mem: Memory, size: Size, d: nat, n: nat)
    requires c.Ok() && Tame(c, mem) && InPhase(c, d)
    ensures var f := Search(c, mem, size, d, n);
      f.New? ==> c.InRange(f.d) && InPhase(c, f.d) && c.Admits(f.d, size)
    decreases n
  {
    if c.InRange(d) && d in mem && n > 0 {
      SearchTame(c, mem, size, c.After(d, mem[d].size), n - 1);
    }
  }

  /** The last number below `end` of the phase of `start`. */
  lemma LastOfPhase(start: nat, end: nat, d: nat)
    requires start < end && d < end && d % 28 == start % 28
    ensures d <= end - 1 - (end - 1 - start % 28) % 28
  {
  }

  lemma Shifted(d: int, n: int, k: int)
    requires n == d + 28 * k
    ensures n % 28 == d % 28
  {
  }

  /** Where no way leads around, no block leads out of phase, whatever its size: forwards it ends in
      phase, backwards too or else it comes around behind the region. */
  lemma StaysInPhase(c: Config, d: nat, size: Size)
    requires Kernel(c) && NoWayAround(c) && c.Start() < c.base + c.len
    requires c.InRange(d) && InPhase(c, d) && c.Admits(d, size)
    ensures InPhase(c, c.After(d, Int(size)))
  {
    LastOfPhase(c.Start(), c.base + c.len, d);
    if d + 28 + size < WIDE {
      InWord(d + 28 + size, WIDE);
      var n := d + 28 * (size + 28);
      assert n <= 28 * (c.base + c.len) - 27 * d && d >= Phase(c) by { AtLeast(d, c.Start()); }
      StepTo(c, d, size, n, 0);
      Shifted(d, n, size + 28);
    } else {
      var back := WIDE - size - 28;
      var n := d - 28 * back;
      assert -27 * d <= n && n < d + 784 && d <= Top(c);
      if n >= 0 {
        StepTo(c, d, size, n, 28 * (WIDE / c.word));
        Shifted(d, n, -back);
      } else {
        StepTo(c, d, size, n + c.word, 28 * (WIDE / c.word) - 1);
      }
    }
  }

  lemma AtLeast(d: nat, start: nat)
    requires d % 28 == start % 28
    ensures d >= start % 28
  {
  }

  lemma {:induction false} HistoryTame(c: Config, ops: seq<Op>, mem: Memory)
    requires Kernel(c) && NoWayAround(c) && Reaches(c, ops, mem)
    ensures Tame(c, mem)
    decreases |ops|
  {
    if ops != [] {
      var last := |ops| - 1;
      var m: Memory :| Reaches(c, ops[..last], m) && Steps(c, m, ops[last], mem);
      HistoryTame(c, ops[..last], m);
      if ops[last].Request? {
        var size := ops[last].size;
        var n: nat :| (var f := Search(c, m, size, c.Start(), n);
                       !f.Searching? && mem == Taken(c, m, f, size));
        SearchTame(c, m, size, c.Start(), n);
        var f := Search(c, m, size, c.Start(), n);
        if f.New? { StaysInPhase(c, f.d, size); }
      }
    }
  }

  lemma TameApart(c: Config, mem: Memory)
    requires Kernel(c) && Tame(c, mem)
    ensures AllApart(c.h, mem)
  {
    forall d, e | d in mem && e in mem && d != e ensures Apart(d, c.h, e, c.h) { PhaseGap(d, e); }
  }

  lemma PhaseGap(d: nat, e: nat)
    requires d != e && d % 28 == e % 28
    ensures Apart(d, 28, e, 28)
  {
  }

  /** Forwards around the address space: the first block leads back to the lowest address, the
      second one from there around to an address beside it. */
  lemma AroundForwards(c: Config) returns (ops: seq<Op>, mem: Memory)
    requires Kernel(c) && c.Start() < c.base + c.len
    requires 28 * (c.base + c.len) - 27 * Phase(c) >= c.word
    ensures Reaches(c, ops, mem) && !AllApart(c.h, mem)
  {
    var r := Phase(c);
    var s1: Size := WIDE - 28 - c.Start() / 28;
    StepTo(c, c.Start(), s1, r, 28 * (WIDE / c.word));
    var k := (c.word - r + 27) / 28;
    var s2: Size, w := k - 28, r + 28 * k - c.word;
    StepTo(c, r, s2, w, 1);
    InWord(c.Start() + 28 + s1 - WIDE, WIDE);
    InWord(r + 28 + s2, WIDE);
    InWord(w + 29, WIDE);
    mem := ThreeRequests(c, s1, r, s2, w, 1);
    ops := [Request(s1)] + [Request(s2)] + [Request(1)];
    assert !Apart(w, 28, r, 28);
  }

  /** A size whose block leads from d on by k headers, and that the end check admits. */
  lemma Forwards(c: Config, d: nat, k: nat) returns (size: Size)
    requires Kernel(c) && c.InRange(d) && d + 28 * k < c.base + c.len && k > 0
    ensures c.Admits(d, size) && c.After(d, Int(size)) == d + 28 * k
  {
    if k < 28 {
      size := WIDE + k - 28;
      InWord(d + k, WIDE);
      StepTo(c, d, size, d + 28 * k, 28 * (WIDE / c.word));
    } else {
      size := k - 28;
      InWord(d + k, WIDE);
      StepTo(c, d, size, d + 28 * k, 0);
    }
  }

  /** Backwards around the address space from an address at the end, to an address beside it. */
  lemma Backwards(c: Config, d: nat, k: nat) returns (size: Size, e: nat)
    requires Kernel(c) && d == c.Start() + 28 * k && d < c.base + c.len <= d + 28
    requires 27 * d + c.base + c.len > c.word
    ensures c.Admits(d, size) && c.After(d, Int(size)) == e && e != c.Start() && e != d
    ensures c.base + c.len - 28 <= e < c.base + c.len && !Apart(e, 28, d, 28)
  {
    var end := c.base + c.len;
    var back := (c.word + d - end) / 28 + 1;
    size, e := WIDE - 28 - back, c.word + d - 28 * back;
    Around(d, back);
    StepTo(c, d, size, e, 28 * (WIDE / c.word) - 1);
    assert e - c.Start() == 28 * (153391689 + k - back) + 4;
  }

  /** The end check of a size that goes back by so many bytes. */
  lemma Around(d: nat, back: nat)
    requires back <= d < INT
    ensures (d + 28 + (WIDE - 28 - back)) % WIDE == d - back
  {
  }

  lemma LastIsInPhase(start: nat, end: nat) returns (k: nat)
    requires start < end
    ensures end - 1 - (end - 1 - start % 28) % 28 == start + 28 * k
  {
    var d := end - 1 - (end - 1 - start % 28) % 28;
    LastOfPhase(start, end, start);
    k := (d - start) / 28;
  }

  /** Backwards around the address space, from the last address at which a header can be. */
  lemma AroundBackwards(c: Config) returns (ops: seq<Op>, mem: Memory)
    requires Kernel(c) && c.Start() < c.base + c.len && 27 * Top(c) + c.base + c.len > c.word
    ensures Reaches(c, ops, mem) && !AllApart(c.h, mem)
  {
    var k := LastIsInPhase(c.Start(), c.base + c.len);
    ops, mem := BackwardsFrom(c, Top(c), k);
  }

  lemma BackwardsFrom(c: Config, d: nat, k: nat) returns (ops: seq<Op>, mem: Memory)
    requires Kernel(c) && d == c.Start() + 28 * k && d < c.base + c.len <= d + 28
    requires 27 * d + c.base + c.len > c.word
    ensures Reaches(c, ops, mem) && !AllApart(c.h, mem)
  {
    var s2, e := Backwards(c, d, k);
    var s3: Size := WIDE - 28;
    Around(e, 0);
    if k == 0 {
      mem := TwoRequests(c, s2, e, s3);
      ops := [Request(s2)] + [Request(s3)];
    } else {
      var s1 := Forwards(c, c.Start(), k);
      mem := ThreeRequests(c, s1, d, s2, e, s3);
      ops := [Request(s1)] + [Request(s2)] + [Request(s3)];
    }
    assert d in mem && e in mem && !Apart(e, 28, d, 28);
  }

  /** Whatever is requested, exactly the regions without a way around are safe from overlapping
      headers in every history. */
  lemma AlwaysApartIff(c: Config)
    requires Kernel(c)
    ensures (forall ops, mem :: SafeAfter(c, ops, mem)) <==> NoWayAround(c)
  {
    if NoWayAround(c) {
      forall ops, mem ensures SafeAfter(c, ops, mem) {
        if Reaches(c, ops, mem) {
          HistoryTame(c, ops, mem);
          TameApart(c, mem);
        }
      }
    } else if 28 * (c.base + c.len) - 27 * Phase(c) >= c.word {
      var ops, mem := AroundForwards(c);
      assert !SafeAfter(c, ops, mem);
    } else {
      var ops, mem := AroundBackwards(c);
      assert !SafeAfter(c, ops, mem);
    }
  }

  /** The largest request of all is granted, and the next header goes inside the memory granted. */
  lemma LargestIsGranted(c: Config)
    requires Kernel(c) && c.Start() + 28 <= c.base + c.len
    ensures Search(c, map[], WIDE - 1, c.Start(), 0) == New(c.Start())
    ensures c.After(c.Start(), Int(WIDE - 1)) == c.Start() + 756
  {
    InWord(c.Start() + 27, WIDE);
    StepTo(c, c.Start(), WIDE - 1, c.Start() + 756, 28 * (WIDE / c.word));
  }

  /** A region can be safe from modest requests and yet not from all. */
  lemma FitsButUnsafe() returns (c: Config, ops: seq<Op>, mem: Memory)
    ensures Kernel(c) && c.RegionFits() && !SafeAfter(c, ops, mem)
  {
    c := Config(200000000, 100000000, 28, 0x1_0000_0000);
    ops, mem := AroundForwards(c);
  }

  // ---------------------------------------------------------------------------------------
  // Live allocations
  // ---------------------------------------------------------------------------------------

  /** What a caller holds: a pointer into block i, and how many bytes it asked for. */
  datatype Live = Live(p: nat, i: nat, request: nat)

  ghost predicate LiveOk(base: nat, h: nat, blocks: seq<Header>, x: Live) {
    && x.i < |blocks| && blocks[x.i].taken && x.request <= blocks[x.i].size
    && (x.p == Addr(base, h, blocks, x.i) + 4 * h || x.p == Addr(base, h, blocks, x.i) + h * h)
  }

  /** No two callers hold the same block. */
  ghost predicate LivesOk(base: nat, h: nat, blocks: seq<Header>, lives: set<Live>) {
    && (forall x :: x in lives ==> LiveOk(base, h, blocks, x))
    && (forall x, y :: x in lives && y in lives && x.i == y.i ==> x == y)
  }

  /** Payloads of live allocations never overlap each other. */
  lemma PayloadsApart(base: nat, h: nat, blocks: seq<Header>, lives: set<Live>, x: Live, y: Live)
    requires h >= 4 && LivesOk(base, h, blocks, lives) && x in lives && y in lives && x != y
    ensures Apart(x.p, x.request, y.p, y.request)
  {
    PayloadFits(h, blocks[x.i].size, x.request);
    PayloadFits(h, blocks[y.i].size, y.request);
    if x.i < y.i {
      AddrGrows(base, h, blocks, x.i, y.i);
    } else {
      AddrGrows(base, h, blocks, y.i, x.i);
    }
  }

  /** Nor any header. */
  lemma HeadersApart(base: nat, h: nat, blocks: seq<Header>, lives: set<Live>, x: Live, j: nat)
    requires h >= 4 && LivesOk(base, h, blocks, lives) && x in lives && j < |blocks|
    ensures Apart(x.p, x.request, Addr(base, h, blocks, j), h)
  {
    PayloadFits(h, blocks[x.i].size, x.request);
    PayloadFits(h, blocks[j].size, 0);
    if x.i < j {
      AddrGrows(base, h, blocks, x.i, j);
    } else if j < x.i {
      AddrGrows(base, h, blocks, j, x.i);
    }
  }

  /** Payloads of a sound chain lie inside the address space. */
  lemma PayloadsInside(c: Config, mem: Memory, blocks: seq<Header>, lives: set<Live>, x: Live)
    requires c.Ok() && Sound(c, mem, blocks) && LivesOk(c.base, c.h, blocks, lives) && x in lives
    ensures x.p + x.request < c.word
  {
    PayloadFits(c.h, blocks[x.i].size, x.request);
    AddrGrows(c.base, c.h, blocks, x.i, |blocks|);
  }

  // ---------------------------------------------------------------------------------------
  // The allocator
  // ---------------------------------------------------------------------------------------

  datatype Result = NoMemory | Pointer(p: nat)

  /** The pointer that malloc returns. */
  function PointerTo(c: Config, f: Found): Result
    requires c.Ok()
  {
    match f
    case Old(d) => Pointer((d + c.h * c.h) % c.word)
    case New(d) => Pointer((d + 4 * c.h) % c.word)
    case _ => NoMemory
  }

  lemma Square(h: nat)
    requires h >= 4
    ensures h * h >= 4 * h
  {
    assert (h - 4) * h >= 0;
  }

  /** A block ends in the address space and holds its request iff it would with an exact size. */
  lemma FitsIff(c: Config, d: nat, size: Size)
    requires c.Ok()
    ensures d + Span(c.h, size) < c.word <==> d + Span(c.h, Int(size)) < c.word && size <= Int(size)
    ensures d + Span(c.h, size) < c.word ==> Int(size) == size
  {
    if d + Span(c.h, size) < c.word {
      SmallSize(c, d, size);
    } else if size <= Int(size) {
      assert c.h * (Int(size) - size) >= 0;
      assert Span(c.h, Int(size)) == Span(c.h, size) + c.h * (Int(size) - size);
    }
  }

  /** A new block behind the others: the callers still hold what they held, and the new one holds
      what it asked for iff the header does. */
  lemma LivesAppend(base: nat, h: nat, blocks: seq<Header>, lives: set<Live>, size: Size)
    requires LivesOk(base, h, blocks, lives)
    ensures var b := blocks + [Header(Int(size), true)];
      var x := Live(End(base, h, blocks) + 4 * h, |blocks|, size);
      && (forall y :: y in lives ==> y.i != |blocks|)
      && (LivesOk(base, h, b, lives + {x}) <==> size <= Int(size))
  {
    var b := blocks + [Header(Int(size), true)];
    var x := Live(End(base, h, blocks) + 4 * h, |blocks|, size);
    forall y | y in lives ensures y.i != |blocks| && LiveOk(base, h, b, y) {
      assert LiveOk(base, h, blocks, y);
      AddrSame(base, h, b, blocks, y.i);
    }
    AddrSame(base, h, b, blocks, |blocks|);
    assert LiveOk(base, h, b, x) <==> size <= Int(size);
    assert x in lives + {x};
  }

  class Allocator {
    const c: Config
    var memory: Memory
    ghost var blocks: seq<Header>
    ghost var lives: set<Live>

    constructor (config: Config)
      requires config.Ok()
      ensures Valid() && lives == {} && blocks == [] && c == config
    {
      c := config;
      memory, blocks, lives := map[], [], {};
    }

    ghost predicate Valid()
      reads this
    {
      c.Ok() && Sound(c, memory, blocks) && LivesOk(c.base, c.h, blocks, lives)
    }

    /** The request can be checked before the call: its block would end in the address space. */
    ghost predicate Fits(size: Size)
      reads this
    {
      End(c.base, c.h, blocks) + Span(c.h, size) < c.word
    }

    /** malloc: the first free block that is large enough, or else a new one at the end.  The
        allocator stays sound exactly if no new block was needed or the request fits; in a region
        that fits, it does unless the request overflows the end check. */
    method Malloc(size: Size) returns (r: Result)
      requires Valid()
      modifies this
      ensures var f := Search(c, old(memory), size, c.Start(), |old(blocks)|);
        !f.Searching? && memory == Taken(c, old(memory), f, size) && r == PointerTo(c, f)
      ensures Valid() <==> |blocks| == |old(blocks)| || old(Fits(size))
      ensures c.RegionFits() && size <= c.base + c.len ==> Valid()
      ensures Chain(c.base, c.h, memory, blocks)
      ensures size < INT / 2 ==> LivesOk(c.base, c.h, blocks, lives)
      ensures r.NoMemory? ==> lives == old(lives) && blocks == old(blocks)
      ensures r.Pointer? ==> exists x: Live ::
        && x.p % c.word == r.p && x.request == size && lives == old(lives) + {x} && x !in old(lives)
        && x.i <= |old(blocks)| && (forall j: nat | j < x.i :: Unfit(old(blocks), j, size))
        && if x.i < |old(blocks)| then
             !Unfit(old(blocks), x.i, size)
             && blocks == old(blocks)[x.i := old(blocks)[x.i].(taken := true)]
           else blocks == old(blocks) + [Header(Int(size), true)]
    {
      var d := c.Start();
      ghost var i: nat, n := 0, |blocks|;
      while c.InRange(d)
        invariant Valid() && lives == old(lives) && blocks == old(blocks) && memory == old(memory)
        invariant i <= n == |blocks| && d == Addr(c.base, c.h, blocks, i)
        invariant forall j: nat | j < i :: Unfit(blocks, j, size)
        invariant Search(c, memory, size, c.Start(), n) == Search(c, memory, size, d, n - i)
        decreases n - i
      {
        if d in memory {
          InChain(d, i);
          NextBlock(c, memory, blocks, i);
          if !memory[d].taken && memory[d].size >= size {
            Take(d, i, size);
            return Pointer((d + c.h * c.h) % c.word);
          }
          d := c.After(d, memory[d].size);
          i := i + 1;
        } else {
          assert i < n ==> BlockAt(c.base, c.h, memory, blocks, i);
          if !c.Admits(d, size) { return NoMemory; }
          Append(d, size);
          return Pointer((d + 4 * c.h) % c.word);
        }
      }
      return NoMemory;
    }

    /** An address with a header is not past the end of the chain. */
    lemma InChain(d: nat, i: nat)
      requires Valid() && d in memory && i <= |blocks| && d == Addr(c.base, c.h, blocks, i)
      ensures i < |blocks|
    {
      NotInChain(c.base, c.h, memory, blocks);
    }

    /** Takes the free block i. */
    method Take(d: nat, ghost i: nat, size: Size)
      requires Valid() && i < |blocks| && d == Addr(c.base, c.h, blocks, i)
      requires !Unfit(blocks, i, size)
      modifies this
      ensures Valid() && memory == Taken(c, old(memory), Old(d), size)
      ensures lives == old(lives) + {Live(d + c.h * c.h, i, size)}
      ensures blocks == old(blocks)[i := old(blocks)[i].(taken := true)]
      ensures forall y :: y in old(lives) ==> y.i != i
    {
      forall y | y in lives ensures y.i != i { assert LiveOk(c.base, c.h, blocks, y); }
      ChainMark(c.base, c.h, memory, blocks, i, true);
      memory := memory[d := memory[d].(taken := true)];
      blocks := blocks[i := blocks[i].(taken := true)];
      lives := lives + {Live(d + c.h * c.h, i, size)};
      forall y | y in old(lives) ensures LiveOk(c.base, c.h, blocks, y) {
        assert old(LiveOk(c.base, c.h, blocks, y));
      }
    }

    /** Writes a header behind the last block. */
    method Append(d: nat, size: Size)
      requires Valid() && d == End(c.base, c.h, blocks) && c.InRange(d) && c.Admits(d, size)
      modifies this
      ensures Chain(c.base, c.h, memory, blocks)
      ensures size < INT / 2 ==> LivesOk(c.base, c.h, blocks, lives)
      ensures memory == Taken(c, old(memory), New(d), size)
      ensures Valid() <==> old(Fits(size))
      ensures c.RegionFits() && size <= c.base + c.len ==> Valid()
      ensures blocks == old(blocks) + [Header(Int(size), true)]
      ensures lives == old(lives) + {Live(d + 4 * c.h, |old(blocks)|, size)}
      ensures forall y :: y in old(lives) ==> y.i != |old(blocks)|
    {
      LivesAppend(c.base, c.h, blocks, lives, size);
      ChainAppend(c.base, c.h, memory, blocks, Int(size));
      FitsIff(c, d, size);
      if blocks != [] { AddrGrows(c.base, c.h, blocks, 0, |blocks|); }
      if c.RegionFits() && size <= c.base + c.len {
        PlainCheck(c, d, size);
        AdmittedFits(c, d, size);
      }
      memory := memory[d := Header(Int(size), true)];
      lives := lives + {Live(d + 4 * c.h, |blocks|, size)};
      blocks := blocks + [Header(Int(size), true)];
    }

    /** free of a live pointer: a block handed out fresh becomes free again; a block handed out a
        second time does not, because free looks for its header in the wrong place. */
    method Free(ghost x: Live, mem: nat)
      requires Valid() && x in lives && mem == x.p
      modifies this
      ensures Valid() && lives == old(lives) - {x} && memory == Freed(c, old(memory), mem)
      ensures var fresh1 := x.p == old(Addr(c.base, c.h, blocks, x.i)) + 4 * c.h;
        blocks == if fresh1 then old(blocks)[x.i := old(blocks)[x.i].(taken := false)]
                  else old(blocks)
    {
      ghost var start := Addr(c.base, c.h, blocks, x.i);
      FreeAddress(x);
      var d := (mem - 4 * c.h) % c.word;
      if x.p != start + 4 * c.h {
        NoHeaderInside(x.i, d);
      } else {
        ChainMark(c.base, c.h, memory, blocks, x.i, false);
      }
      lives := lives - {x};
      if d in memory && memory[d].taken {
        memory := memory[d := memory[d].(taken := false)];
        blocks := blocks[x.i := blocks[x.i].(taken := false)];
        forall y | y in lives ensures LiveOk(c.base, c.h, blocks, y) {
          assert old(LiveOk(c.base, c.h, blocks, y));
        }
      }
    }

    /** Where free looks for the header of a live pointer. */
    lemma FreeAddress(x: Live)
      requires Valid() && x in lives
      ensures x.p >= 4 * c.h && (x.p - 4 * c.h) % c.word == x.p - 4 * c.h
    {
      assert LiveOk(c.base, c.h, blocks, x);
      PayloadsInside(c, memory, blocks, lives, x);
      Square(c.h);
      InWord(x.p - 4 * c.h, c.word);
    }

    /** Between a header and the end of its block there is no header: payloads do not carry the
        magic, and neither does memory behind the last block. */
    lemma NoHeaderInside(i: nat, d: nat)
      requires Valid() && i < |blocks| && c.h > 4
      requires d == Addr(c.base, c.h, blocks, i) + c.h * c.h - 4 * c.h
      ensures d !in memory
    {
      PayloadFits(c.h, blocks[i].size, 0);
      assert c.h * c.h - 4 * c.h == (c.h - 4) * c.h;
      Multiple(c.h - 4, c.h);
      assert HeaderAt(c.base, c.h, memory, blocks, d);
      if d in memory {
        var j: nat :| j < |blocks| && d == Addr(c.base, c.h, blocks, j);
        if j < i { AddrGrows(c.base, c.h, blocks, j, i); }
        else if i < j { AddrGrows(c.base, c.h, blocks, i, j); }
      }
    }
  }
}
