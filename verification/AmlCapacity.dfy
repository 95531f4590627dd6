/** The capacities of the interpreter's four stacks (lai/core/exec_impl.h).

A turn reserves a slot on the stacks it is going to push to, which doubles a full one; pushing
checks the capacity.  With one exception no turn pushes more than it has reserved or popped.
*/
module AmlCapacity {
  import opened Wrappers
  import opened AmlMachine
  import opened AmlAlignment

  /** A number for each of the four stacks: items on it, slots reserved, or capacity. */
  datatype Sizes = Sizes(ctx: nat, blk: nat, stk: nat, ops: nat)

  function SizesOf(s: State): Sizes {
    Sizes(Depth(s.ctx), Depth(s.blk), Depth(s.stk), |s.ops|)
  }

  predicate Grown(z: Sizes, k: Sizes, z1: Sizes) {
    z1.ctx <= z.ctx + k.ctx && z1.blk <= z.blk + k.blk && z1.stk <= z.stk + k.stk
    && z1.ops <= z.ops + k.ops
  }

  const NO_SLOTS := Sizes(0, 0, 0, 0)

  /** What lai_exec_parse reserves for an opcode; for a BankField it asks for two operands but
      secures only one. */
  function OpcodeSlots(opcode: nat): Sizes {
    if opcode in {0xA3, 0xCC, 0x9F, 0xA5} || IsDeclaration(opcode) then NO_SLOTS
    else if opcode == 0xA4 || OpModes(opcode).Some? || NodeModes(opcode).Some? then
      Sizes(0, 0, 1, 0)
    else if opcode in {0x11, 0xA2, 0xA0} then Sizes(0, 1, 1, 0)
    else if opcode in {0x12, 0x5B87} then Sizes(0, 1, 1, 1)
    else if IsScope(opcode) then Sizes(1, 1, 1, 0)
    else Sizes(0, 0, 0, 1)
  }

  /** The opcode at the program counter. */
  function OpcodeAt(s: State): nat
    requires s.ctx.Push? && s.blk.Push?
  {
    var code, pc := s.ctx.top.code, s.blk.top.pc;
    if Fetch(code, pc) == 0x5B then 0x5B00 + Fetch(code, pc + 1) else Fetch(code, pc)
  }

  predicate NameAhead(s: State)
    requires s.ctx.Push? && s.blk.Push?
  {
    IsName(Fetch(s.ctx.top.code, s.blk.top.pc))
  }

  function ParseSlots(mode: Mode, s: State): Sizes
    requires s.ctx.Push? && s.blk.Push?
  {
    if IsImmediate(mode) then Sizes(0, 0, 0, 1)
    else if NameAhead(s) then Sizes(0, 0, 1, 1)
    else OpcodeSlots(OpcodeAt(s))
  }

  predicate ParsesBank(mode: Mode, s: State)
    requires s.ctx.Push? && s.blk.Push?
  {
    !IsImmediate(mode) && !NameAhead(s) && OpcodeAt(s) == 0x5B87
  }

  lemma {:induction false} PopShrinks(n: nat, stk: Stack<Item>, blk: Stack<Blk>)
    requires PopNested(n, stk, blk).Unwound?
    ensures Depth(PopNested(n, stk, blk).stk) <= Depth(stk)
    ensures Depth(PopNested(n, stk, blk).blk) <= Depth(blk)
  {
    if n > 0 { PopShrinks(n - 1, stk.below, blk.below); }
  }

  lemma NameGrows(H: Host, mode: Mode, s: State)
    requires s.ctx.Push? && s.blk.Push?
    ensures ParseName(H, mode, s).Go? ==>
      Grown(SizesOf(s), Sizes(0, 0, 1, 1), SizesOf(ParseName(H, mode, s).s))
  {
  }

  lemma UnwindShrinks(s: State)
    ensures ParseBreak(s).Go? ==> Grown(SizesOf(s), NO_SLOTS, SizesOf(ParseBreak(s).s))
    ensures ParseContinue(s).Go? ==> Grown(SizesOf(s), NO_SLOTS, SizesOf(ParseContinue(s).s))
  {
    var r := FindLoop(s.stk);
    if r.Found? {
      if PopNested(r.depth, s.stk, s.blk).Unwound? { PopShrinks(r.depth, s.stk, s.blk); }
      if PopNested(r.depth + 1, s.stk, s.blk).Unwound? { PopShrinks(r.depth + 1, s.stk, s.blk); }
    }
  }

  lemma SetPcDepth(s: State)
    requires s.blk.Push?
    ensures forall pc: nat :: Depth(SetPc(s, pc).blk) == Depth(s.blk)
  {
  }

  lemma BlockGrows(H: Host, mode: Mode, s: State, opPc: nat, pc: nat)
    requires s.ctx.Push? && s.blk.Push?
    ensures ParseIf(s, opPc, pc).Go? ==>
      Grown(SizesOf(s), Sizes(0, 1, 1, 0), SizesOf(ParseIf(s, opPc, pc).s))
    ensures ParseWhile(s, opPc, pc).Go? ==>
      Grown(SizesOf(s), Sizes(0, 1, 1, 0), SizesOf(ParseWhile(s, opPc, pc).s))
    ensures ParseAggregate(mode, s, opPc, pc, false).Go? ==>
      Grown(SizesOf(s), Sizes(0, 1, 1, 0), SizesOf(ParseAggregate(mode, s, opPc, pc, false).s))
    ensures ParseAggregate(mode, s, opPc, pc, true).Go? ==>
      Grown(SizesOf(s), Sizes(0, 1, 1, 1), SizesOf(ParseAggregate(mode, s, opPc, pc, true).s))
  {
    SetPcDepth(s);
  }

  lemma ScopeGrows(H: Host, s: State, opcode: nat)
    requires s.ctx.Push? && s.blk.Push?
    ensures ParseScope(H, s, opcode).Go? ==>
      Grown(SizesOf(s), Sizes(1, 1, 1, 0), SizesOf(ParseScope(H, s, opcode).s))
    ensures ParseBank(H, s).Go? ==>
      var z, z1 := SizesOf(s), SizesOf(ParseBank(H, s).s);
      z1 == Sizes(z.ctx, z.blk + 1, z.stk + 1, z.ops + 2)
  {
    SetPcDepth(s);
    var e := H.openScope(s.w, opcode, s.ctx.top, s.blk.top);
    if e.Did? {
      assert Depth(SetInv(SetPc(s, e.value.endPc), e.inv).ctx) == Depth(s.ctx);
    }
  }

  lemma DataGrows(H: Host, mode: Mode, s: State, opcode: nat, pc: nat)
    requires s.ctx.Push? && s.blk.Push? && IsData(opcode)
    ensures ParseOpcode(H, mode, s, opcode, pc).Go? ==>
      Grown(SizesOf(s), Sizes(0, 0, 0, 1), SizesOf(ParseOpcode(H, mode, s, opcode, pc).s))
  {
  }

  predicate IsFlow(opcode: nat) { opcode in {0xA3, 0xCC, 0x9F, 0xA5, 0xA4} }

  lemma FlowGrows(H: Host, mode: Mode, s: State, opcode: nat, pc: nat)
    requires s.ctx.Push? && s.blk.Push? && IsFlow(opcode)
    ensures ParseOpcode(H, mode, s, opcode, pc).Go? ==>
      Grown(SizesOf(s), OpcodeSlots(opcode), SizesOf(ParseOpcode(H, mode, s, opcode, pc).s))
  {
    UnwindShrinks(s);
  }

  predicate OpensBlock(opcode: nat) { opcode in {0x11, 0xA2, 0xA0, 0x12} }

  lemma OpensGrows(H: Host, mode: Mode, s: State, opcode: nat, pc: nat)
    requires s.ctx.Push? && s.blk.Push? && OpensBlock(opcode)
    ensures ParseOpcode(H, mode, s, opcode, pc).Go? ==>
      Grown(SizesOf(s), OpcodeSlots(opcode), SizesOf(ParseOpcode(H, mode, s, opcode, pc).s))
  {
    var opPc := s.blk.top.pc;
    BlockGrows(H, mode, s, opPc, pc);
    BlockOpcode(H, mode, s, opcode, pc);
  }

  lemma BlockOpcode(H: Host, mode: Mode, s: State, opcode: nat, pc: nat)
    requires s.ctx.Push? && s.blk.Push? && OpensBlock(opcode)
    ensures ParseOpcode(H, mode, s, opcode, pc) ==
      if opcode == 0xA0 then ParseIf(s, s.blk.top.pc, pc)
      else if opcode == 0xA2 then ParseWhile(s, s.blk.top.pc, pc)
      else ParseAggregate(mode, s, s.blk.top.pc, pc, opcode == 0x12)
    ensures OpcodeSlots(opcode) == if opcode == 0x12 then Sizes(0, 1, 1, 1) else Sizes(0, 1, 1, 0)
  {
    BlockSlots(opcode);
  }

  lemma BlockSlots(opcode: nat)
    requires OpensBlock(opcode)
    ensures OpcodeSlots(opcode) == if opcode == 0x12 then Sizes(0, 1, 1, 1) else Sizes(0, 1, 1, 0)
    ensures ConstWidth(opcode).None?
  {
  }

  lemma OpcodeGrows(H: Host, mode: Mode, s: State, opcode: nat, pc: nat)
    requires s.ctx.Push? && s.blk.Push? && opcode != 0x5B87
    ensures ParseOpcode(H, mode, s, opcode, pc).Go? ==>
      Grown(SizesOf(s), OpcodeSlots(opcode), SizesOf(ParseOpcode(H, mode, s, opcode, pc).s))
  {
    if IsData(opcode) {
      DataSlots(opcode);
      DataGrows(H, mode, s, opcode, pc);
    } else if IsFlow(opcode) {
      FlowGrows(H, mode, s, opcode, pc);
    } else if OpensBlock(opcode) {
      OpensGrows(H, mode, s, opcode, pc);
    } else if IsScope(opcode) || IsDeclaration(opcode) {
      DeclareGrows(H, mode, s, opcode, pc);
    } else {
      ItemGrows(H, mode, s, opcode, pc);
    }
  }

  lemma DataSlots(opcode: nat)
    requires IsData(opcode)
    ensures OpcodeSlots(opcode) == Sizes(0, 0, 0, 1)
  {
  }

  lemma DeclareGrows(H: Host, mode: Mode, s: State, opcode: nat, pc: nat)
    requires s.ctx.Push? && s.blk.Push? && (IsScope(opcode) || IsDeclaration(opcode))
    ensures ParseOpcode(H, mode, s, opcode, pc).Go? ==>
      Grown(SizesOf(s), OpcodeSlots(opcode), SizesOf(ParseOpcode(H, mode, s, opcode, pc).s))
  {
    if IsScope(opcode) {
      ScopeGrows(H, s, opcode);
      ScopeOpcode(H, mode, s, opcode, pc);
    }
  }

  lemma ScopeOpcode(H: Host, mode: Mode, s: State, opcode: nat, pc: nat)
    requires s.ctx.Push? && s.blk.Push? && IsScope(opcode)
    ensures ParseOpcode(H, mode, s, opcode, pc) == ParseScope(H, s, opcode)
    ensures OpcodeSlots(opcode) == Sizes(1, 1, 1, 0)
  {
    ScopeSlots(opcode);
  }

  lemma ScopeSlots(opcode: nat)
    requires IsScope(opcode)
    ensures OpcodeSlots(opcode) == Sizes(1, 1, 1, 0) && ConstWidth(opcode).None?
    ensures OpModes(opcode).None? && NodeModes(opcode).None?
  {
  }

  lemma ItemGrows(H: Host, mode: Mode, s: State, opcode: nat, pc: nat)
    requires s.ctx.Push? && s.blk.Push? && opcode != 0x5B87 && !IsData(opcode) && !IsFlow(opcode)
    requires !OpensBlock(opcode) && !IsScope(opcode) && !IsDeclaration(opcode)
    ensures ParseOpcode(H, mode, s, opcode, pc).Go? ==>
      Grown(SizesOf(s), OpcodeSlots(opcode), SizesOf(ParseOpcode(H, mode, s, opcode, pc).s))
  {
    assert ParseOpcode(H, mode, s, opcode, pc).Go? ==>
      OpModes(opcode).Some? || NodeModes(opcode).Some?;
  }

  /** Parsing pushes no more than it has reserved, except that a BankField pushes two operands. */
  lemma ParseGrows(H: Host, mode: Mode, s: State)
    requires s.ctx.Push? && s.blk.Push? && Parse(H, mode, s).Go?
    ensures var z1 := SizesOf(Parse(H, mode, s).s);
      if ParsesBank(mode, s) then z1.ops == |s.ops| + 2
      else Grown(SizesOf(s), ParseSlots(mode, s), z1)
    ensures ParsesBank(mode, s) ==>
      SizesOf(Parse(H, mode, s).s)
      == Sizes(Depth(s.ctx), Depth(s.blk) + 1, Depth(s.stk) + 1, |s.ops| + 2)
  {
    var opcode := OpcodeAt(s);
    if IsImmediate(mode) {
    } else if NameAhead(s) {
      NameGrows(H, mode, s);
    } else {
      ScopeGrows(H, s, opcode);
      if opcode != 0x5B87 {
        OpcodeGrows(H, mode, s, opcode, s.blk.top.pc + if opcode >= 0x5B00 then 2 else 1);
      }
    }
  }

  // ---------------------------------------------------------------------------------------
  // Turns
  // ---------------------------------------------------------------------------------------

  /** What a turn does: it parses in some mode, or it reduces the item on top. */
  function TurnMode(s: State): Option<Mode>
    requires s.stk.Push? && s.ctx.Push? && s.blk.Push?
  {
    var it, more := s.stk.top, s.blk.top.pc != s.blk.top.limit;
    match it
    case Populate => if more then Some(Exec) else None
    case Method(_) => if more then Some(Exec) else None
    case Loop(_, iterating, _) => LeafMode(s, iterating, more, it.frame)
    case Cond(_, branch, _, _, _) => LeafMode(s, branch, more, it.frame)
    case Buffer(frame, _) => LeafMode(s, false, more, frame)
    case Return(frame) => LeafMode(s, false, more, frame)
    case Package(_, _, phase, _) =>
      if phase == 0 then Some(ImmByte) else if phase == 2 && more then Some(Data) else None
    case Node(frame, _, modes) => ModeAt(modes, |s.ops| - frame)
    case Op(frame, _, modes, _) => ModeAt(modes, |s.ops| - frame)
    case Invoke(frame, argc, _) => if |s.ops| - frame != argc + 1 then Some(Object) else None
    case BankField(frame) => if |s.ops| != frame + 3 then Some(Object) else None
  }

  function LeafMode(s: State, body: bool, more: bool, frame: nat): Option<Mode> {
    if body then if more then Some(Exec) else None
    else if |s.ops| != frame + 1 then Some(Object) else None
  }

  function ModeAt(modes: seq<Mode>, k: int): Option<Mode> {
    if 0 <= k < |modes| then Some(modes[k]) else None
  }

  /** What a turn reserves. */
  function TurnSlots(s: State): Sizes
    requires s.stk.Push? && s.ctx.Push? && s.blk.Push?
  {
    match TurnMode(s)
    case Some(mode) => ParseSlots(mode, s)
    case None =>
      match s.stk.top
      case Method(_) => Sizes(0, 0, 0, 1)
      case Op(_, _, _, _) => Sizes(0, 0, 0, 1)
      case Invoke(_, _, _) => Sizes(1, 1, 0, 0)
      case _ => NO_SLOTS
  }

  /** The turn parses a BankField. */
  predicate BankTurn(s: State)
    requires s.stk.Push? && s.ctx.Push? && s.blk.Push?
  {
    TurnMode(s).Some? && ParsesBank(TurnMode(s).value, s)
  }

  /** The sizes when the turn reserves: a package pops an element before it goes on parsing. */
  function SizesAt(s: State): Sizes {
    if s.stk.Push? && s.stk.top.Package? && s.stk.top.phase == 2
       && |s.ops| == s.stk.top.frame + 2
    then SizesOf(s).(ops := |s.ops| - 1) else SizesOf(s)
  }

  /** What a turn must leave. */
  predicate TurnOk(s: State, r: Outcome)
    requires s.stk.Push? && s.ctx.Push? && s.blk.Push?
  {
    r.Go? ==>
      if BankTurn(s) then SizesOf(r.s).ops <= |s.ops| + 2
      else Grown(SizesAt(s), TurnSlots(s), SizesOf(r.s))
  }

  lemma StatementsGrow(root: bool, H: Host, s: State)
    requires Active(root, s) && (s.stk.top.Populate? || s.stk.top.Method?)
    ensures TurnOk(s, if s.stk.top.Populate? then ProcessPopulate(H, s) else ProcessMethod(H, s))
  {
    if Parse(H, Exec, s).Go? { ParseGrows(H, Exec, s); }
  }

  lemma LoopGrows(root: bool, H: Host, s: State)
    requires Active(root, s) && s.stk.top.Loop?
    ensures TurnOk(s, ProcessLoop(H, s))
  {
    if Parse(H, Exec, s).Go? { ParseGrows(H, Exec, s); }
    if Parse(H, Object, s).Go? { ParseGrows(H, Object, s); }
    SetPcDepth(s);
  }

  lemma CondGrows(root: bool, H: Host, s: State)
    requires Active(root, s) && s.stk.top.Cond?
    ensures TurnOk(s, ProcessCond(H, s))
  {
    if Parse(H, Exec, s).Go? { ParseGrows(H, Exec, s); }
    if Parse(H, Object, s).Go? { ParseGrows(H, Object, s); }
  }

  lemma BufferGrows(root: bool, H: Host, s: State)
    requires Active(root, s) && s.stk.top.Buffer? && s.blk.top.pc <= s.blk.top.limit
    ensures TurnOk(s, ProcessBuffer(H, s))
  {
    if Parse(H, Object, s).Go? { ParseGrows(H, Object, s); }
  }

  lemma ReturnGrows(root: bool, H: Host, s: State)
    requires Active(root, s) && s.stk.top.Return?
    ensures TurnOk(s, ProcessReturn(H, s))
  {
    if Parse(H, Object, s).Go? { ParseGrows(H, Object, s); }
    var m := FindMethod(PopItem(s).stk);
    if m.Found? && PopNested(m.depth, s.stk.below, s.blk).Unwound? {
      PopShrinks(m.depth, s.stk.below, s.blk);
    }
  }

  lemma OperatorGrows(root: bool, H: Host, s: State)
    requires Active(root, s) && (s.stk.top.Op? || s.stk.top.Node?)
    ensures TurnOk(s, if s.stk.top.Op? then ProcessOp(H, s) else ProcessNode(H, s))
  {
    var m := TurnMode(s);
    if m.Some? && Parse(H, m.value, s).Go? { ParseGrows(H, m.value, s); }
  }

  lemma CallGrows(root: bool, H: Host, s: State)
    requires Active(root, s) && (s.stk.top.Invoke? || s.stk.top.BankField?)
    ensures TurnOk(s, if s.stk.top.Invoke? then ProcessInvoke(H, s) else ProcessBank(H, s))
  {
    if Parse(H, Object, s).Go? { ParseGrows(H, Object, s); }
  }

  lemma PackageGrows(root: bool, H: Host, s: State)
    requires Active(root, s) && s.stk.top.Package?
    ensures TurnOk(s, ProcessPackage(H, s))
  {
    if s.stk.top.phase < 2 {
      SizeGrows(root, H, s);
    } else if |s.ops| == s.stk.top.frame + 2 {
      ElementGrows(root, H, s);
    } else {
      FinishGrows(H, s);
    }
  }

  lemma SizeGrows(root: bool, H: Host, s: State)
    requires Active(root, s) && s.stk.top.Package? && s.stk.top.phase < 2
    ensures TurnOk(s, ProcessPackage(H, s))
  {
    if s.stk.top.phase == 0 {
      if Parse(H, ImmByte, s).Go? { ParseGrows(H, ImmByte, s); }
    }
  }

  lemma ElementGrows(root: bool, H: Host, s: State)
    requires Active(root, s) && s.stk.top.Package? && s.stk.top.phase == 2
    requires |s.ops| == s.stk.top.frame + 2
    ensures TurnOk(s, ProcessPackage(H, s))
  {
    var it := s.stk.top;
    var pkg, init := ObjAt(s.ops, it.frame), ObjAt(s.ops, it.frame + 1);
    if pkg.Got? && init.Got? {
      var s1 := s.(stk := s.stk.(top := it.(index := it.index + 1)), ops := s.ops[..|s.ops| - 1],
                   w := H.packageStore(s.w, init.value, pkg.value, it.index));
      ElementTurn(H, s, s1, pkg.value, init.value);
      StoredGrows(H, s, s1);
    }
  }

  lemma ElementTurn(H: Host, s: State, s1: State, pkg: Value, init: Value)
    requires s.stk.Push? && s.stk.top.Package? && s.stk.top.phase >= 2 && s.ctx.Push?
    requires s.blk.Push? && |s.ops| == s.stk.top.frame + 2
    requires ObjAt(s.ops, s.stk.top.frame) == Got(pkg)
    requires ObjAt(s.ops, s.stk.top.frame + 1) == Got(init)
    requires var it := s.stk.top;
      s1 == s.(stk := s.stk.(top := it.(index := it.index + 1)), ops := s.ops[..|s.ops| - 1],
               w := H.packageStore(s.w, init, pkg, it.index))
    ensures ProcessPackage(H, s) ==
      if s.stk.top.index >= H.packageSize(s.w, pkg) then Stop(Panic(PackageOverflow))
      else FinishPackage(H, s1)
  {
  }

  lemma FinishGrows(H: Host, s: State)
    requires s.stk.Push? && s.stk.top.Package? && s.ctx.Push? && s.blk.Push?
    requires s.stk.top.phase == 2
    ensures TurnOk(s, FinishPackage(H, s))
  {
    if Parse(H, Data, s).Go? { ParseGrows(H, Data, s); }
  }

  /** Storing an element pops it first. */
  lemma StoredGrows(H: Host, s: State, s1: State)
    requires s.stk.Push? && s.stk.top.Package? && s.ctx.Push? && s.blk.Push?
    requires s1.stk.Push? && s1.stk.top.Package? && s1.stk.top.phase == s.stk.top.phase == 2
    requires s1.ctx == s.ctx && s1.blk == s.blk && Depth(s1.stk) == Depth(s.stk)
    requires |s1.ops| + 1 == |s.ops|
    ensures TurnOk(s, FinishPackage(H, s1))
  {
    FinishGrows(H, s1);
  }

  /** No turn pushes more on a stack than it has reserved or popped, unless it parses a
      BankField. */
  lemma TurnGrows(root: bool, H: Host, s: State)
    requires Active(root, s)
    ensures TurnOk(s, Process(H, s))
  {
    if s.blk.top.pc <= s.blk.top.limit {
      match s.stk.top
      case Populate => StatementsGrow(root, H, s);
      case Method(_) => StatementsGrow(root, H, s);
      case Loop(_, _, _) => LoopGrows(root, H, s);
      case Cond(_, _, _, _, _) => CondGrows(root, H, s);
      case Buffer(_, _) => BufferGrows(root, H, s);
      case Return(_) => ReturnGrows(root, H, s);
      case Op(_, _, _, _) => OperatorGrows(root, H, s);
      case Node(_, _, _) => OperatorGrows(root, H, s);
      case Invoke(_, _, _) => CallGrows(root, H, s);
      case BankField(_) => CallGrows(root, H, s);
      case Package(_, _, _, _) => PackageGrows(root, H, s);
    }
  }

  // ---------------------------------------------------------------------------------------
  // Capacities
  // ---------------------------------------------------------------------------------------

  /** Reserving doubles a stack that is full. */
  function Reserve(cap: nat, size: nat, slots: nat): nat {
    if slots > 0 && size == cap then 2 * cap else cap
  }

  function ReserveAll(c: Sizes, z: Sizes, k: Sizes): Sizes {
    Sizes(Reserve(c.ctx, z.ctx, k.ctx), Reserve(c.blk, z.blk, k.blk),
          Reserve(c.stk, z.stk, k.stk), Reserve(c.ops, z.ops, k.ops))
  }

  predicate Room(c: Sizes, z: Sizes) {
    && 2 <= c.ctx && 2 <= c.blk && 2 <= c.stk && 2 <= c.ops
    && z.ctx <= c.ctx && z.blk <= c.blk && z.stk <= c.stk && z.ops <= c.ops
  }

  lemma SlotsBound(mode: Mode, s: State)
    requires s.ctx.Push? && s.blk.Push?
    ensures var k := ParseSlots(mode, s); k.ctx <= 1 && k.blk <= 1 && k.stk <= 1 && k.ops <= 1
  {
  }

  /** Whatever a turn pushes fits, unless it parses a BankField. */
  lemma TurnFits(root: bool, H: Host, s: State, c: Sizes)
    requires Active(root, s) && Room(c, SizesOf(s)) && !BankTurn(s) && Process(H, s).Go?
    ensures Room(ReserveAll(c, SizesAt(s), TurnSlots(s)), SizesOf(Process(H, s).s))
  {
    TurnGrows(root, H, s);
    if TurnMode(s).Some? { SlotsBound(TurnMode(s).value, s); }
  }

  /** A BankField fits exactly when the operand stack is not one short of full: only a full stack is
      doubled, and two operands are pushed. */
  lemma BankFitsIff(H: Host, mode: Mode, s: State, c: Sizes)
    requires s.ctx.Push? && s.blk.Push? && ParsesBank(mode, s) && Parse(H, mode, s).Go?
    requires Room(c, SizesOf(s))
    ensures Room(ReserveAll(c, SizesOf(s), ParseSlots(mode, s)), SizesOf(Parse(H, mode, s).s))
            <==> |s.ops| + 1 != c.ops
  {
    ParseGrows(H, mode, s);
  }

  /** No BankField is parsed in the first n turns. */
  predicate NoBank(step: State -> Outcome, n: nat, s: State) {
    n == 0 || s.stk.Empty? || s.ctx.Empty? || s.blk.Empty?
    || (!BankTurn(s) && (step(s).Go? ==> NoBank(step, n - 1, step(s).s)))
  }

  /** The capacities after n turns. */
  function CapsAfter(step: State -> Outcome, n: nat, s: State, c: Sizes): Sizes {
    if n == 0 || s.stk.Empty? || s.ctx.Empty? || s.blk.Empty? || step(s).Stop? then c
    else CapsAfter(step, n - 1, step(s).s, ReserveAll(c, SizesAt(s), TurnSlots(s)))
  }

  /** In every run without a BankField no stack ever outgrows its capacity. */
  lemma {:induction false} RunFits(root: bool, H: Host, step: State -> Outcome, n: nat, s: State,
                                   c: Sizes)
    requires IsStep(step, H) && Aligned(root, s) && Room(c, SizesOf(s)) && NoBank(step, n, s)
    requires Run(step, n, s).Go?
    ensures Room(CapsAfter(step, n, s, c), SizesOf(Run(step, n, s).s))
  {
    if n > 0 && s.stk.Push? {
      HasFrames(root, s);
      if step(s).Go? {
        var s1, c1 := step(s).s, ReserveAll(c, SizesAt(s), TurnSlots(s));
        StepFits(root, H, step, s, c, s1, c1);
        RunFits(root, H, step, n - 1, s1, c1);
      }
    }
  }

  lemma HasFrames(root: bool, s: State)
    requires Aligned(root, s) && s.stk.Push?
    ensures s.ctx.Push? && s.blk.Push?
  {
  }

  lemma StepFits(root: bool, H: Host, step: State -> Outcome, s: State, c: Sizes, s1: State,
                 c1: Sizes)
    requires IsStep(step, H) && Active(root, s) && Room(c, SizesOf(s)) && !BankTurn(s)
    requires step(s) == Go(s1) && c1 == ReserveAll(c, SizesAt(s), TurnSlots(s))
    ensures Aligned(root, s1) && Room(c1, SizesOf(s1))
  {
    assert Turn(s);
    TurnKeepsAlignment(root, H, s);
    TurnFits(root, H, s, c);
  }
}
