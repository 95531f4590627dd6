/** The four stacks of the AML interpreter stay aligned on every bytecode.

lai_exec_run asserts stack agreement only when it is done.  The invariant below describes every
state in between: which context and block each item owns, where each operand frame starts, how
many operands of which kind it holds, and which item waits for the result of the one above it.
*/
module AmlAlignment {
  import opened Wrappers
  import opened AmlMachine

  // ---------------------------------------------------------------------------------------
  // Invariant
  // ---------------------------------------------------------------------------------------

  /** Modes that evaluate to an object; the others may leave a name. */
  predicate YieldsObject(m: Mode) {
    m.Data? || m.Object? || m.ImmByte? || m.ImmWord? || m.ImmDword?
  }

  predicate ModesAgree(modes: seq<Mode>, held: seq<Operand>) {
    |held| <= |modes|
    && (forall i :: 0 <= i < |modes| ==> WantsResult(modes[i]))
    && forall i :: 0 <= i < |held| && YieldsObject(modes[i]) ==> held[i].Obj?
  }

  predicate IsHandle(o: Operand) { o.Resolved? && o.handle.Some? }

  predicate AtMostOneObject(held: seq<Operand>) {
    |held| <= 1 && (|held| == 1 ==> held[0].Obj?)
  }

  /** Items that record the start of their operand frame. */
  predicate HasFrame(it: Item) { !it.Populate? && !it.Method? }

  /** The operands an item may hold in its frame. */
  predicate Holds(it: Item, held: seq<Operand>) {
    match it
    case Populate => held == []
    case Method(_) => held == []
    case Loop(_, iterating, _) => if iterating then held == [] else AtMostOneObject(held)
    case Cond(_, branch, _, _, _) => if branch then held == [] else AtMostOneObject(held)
    case Buffer(_, _) => AtMostOneObject(held)
    case Package(_, _, phase, _) =>
      AllObj(held, |held|)
      && (if phase == 0 then |held| == 1 else if phase == 1 then |held| == 2
          else phase == 2 && 1 <= |held| <= 2)
    case Node(_, _, modes) => ModesAgree(modes, held)
    case Op(_, opcode, modes, _) => OpModes(opcode) == Some(modes) && ModesAgree(modes, held)
    case Invoke(_, argc, _) =>
      1 <= |held| <= argc + 1 && IsHandle(held[0]) && AllObj(held[1..], |held| - 1)
    case Return(_) => AtMostOneObject(held)
    case BankField(_) =>
      2 <= |held| <= 3 && IsHandle(held[0]) && IsHandle(held[1]) && (|held| == 3 ==> held[2].Obj?)
  }

  /** The mode in which an item holding these operands parses next, if it does. */
  function NextMode(it: Item, held: seq<Operand>): Option<Mode> {
    match it
    case Populate => Some(Exec)
    case Method(_) => Some(Exec)
    case Loop(_, iterating, _) =>
      if iterating then Some(Exec) else if held == [] then Some(Object) else None
    case Cond(_, branch, _, _, _) =>
      if branch then Some(Exec) else if held == [] then Some(Object) else None
    case Buffer(_, _) => if held == [] then Some(Object) else None
    case Package(_, _, phase, _) =>
      if phase == 2 && |held| == 1 then Some(Data) else None
    case Node(_, _, modes) => if |held| < |modes| then Some(modes[|held|]) else None
    case Op(_, _, modes, _) => if |held| < |modes| then Some(modes[|held|]) else None
    case Invoke(_, argc, _) => if |held| < argc + 1 then Some(Object) else None
    case Return(_) => if held == [] then Some(Object) else None
    case BankField(_) => if |held| < 3 then Some(Object) else None
  }

  /** Whether the item leaves an operand for the item below when it is done. */
  predicate Delivers(it: Item) {
    match it
    case Method(want) => want
    case Buffer(_, want) => want
    case Package(_, _, _, want) => want
    case Op(_, _, _, want) => want
    case Invoke(_, _, want) => want
    case _ => false
  }

  predicate OwnsBlock(it: Item) {
    it.Populate? || it.Method? || it.Loop? || it.Cond? || it.Buffer? || it.Package?
    || it.BankField?
  }

  predicate OwnsContext(it: Item) { it.Populate? || it.Method? }

  function Frame(it: Item, n: nat): nat { if HasFrame(it) then it.frame else n }

  function Depth<T>(st: Stack<T>): nat { if st.Empty? then 0 else 1 + Depth(st.below) }

  /** The stacks under an item that will leave a result iff `result`: `nctx` contexts, `nblk`
      blocks and the operands `ops`.  The bottom item answers to the caller of the
      interpreter, who expects a result iff `root`. */
  predicate Waiting(root: bool, stk: Stack<Item>, nctx: nat, nblk: nat, ops: seq<Operand>,
                    result: bool)
    decreases stk, 1
  {
    if stk.Empty? then nctx == 0 && nblk == 0 && ops == [] && result == root
    else
      var f := Frame(stk.top, |ops|);
      && f <= |ops|
      && Holds(stk.top, ops[f..])
      && NextMode(stk.top, ops[f..]).Some?
      && (result ==> WantsResult(NextMode(stk.top, ops[f..]).value))
      && Below(root, stk, nctx, nblk, ops)
  }

  /** The item on top owns its block and context, and the stacks below it wait for it. */
  predicate Below(root: bool, stk: Stack<Item>, nctx: nat, nblk: nat, ops: seq<Operand>)
    requires stk.Push? && Frame(stk.top, |ops|) <= |ops|
    decreases stk, 0
  {
    var it := stk.top;
    && nctx > 0 && nblk > 0
    && Waiting(root, stk.below, if OwnsContext(it) then nctx - 1 else nctx,
               if OwnsBlock(it) then nblk - 1 else nblk, ops[..Frame(it, |ops|)], Delivers(it))
  }

  /** Every state of a run: the top item may be about to reduce, the items below it wait. */
  predicate AlignedStacks(root: bool, stk: Stack<Item>, nctx: nat, nblk: nat, ops: seq<Operand>) {
    if stk.Empty? then
      nctx == 0 && nblk == 0 && |ops| == (if root then 1 else 0) && AllObj(ops, |ops|)
    else
      var f := Frame(stk.top, |ops|);
      f <= |ops| && Holds(stk.top, ops[f..]) && Below(root, stk, nctx, nblk, ops)
  }

  predicate Aligned(root: bool, s: State) {
    AlignedStacks(root, s.stk, Depth(s.ctx), Depth(s.blk), s.ops)
  }

  /** What every turn must give: an aligned state or a stop that is no internal assertion. */
  predicate Good(root: bool, r: Outcome) {
    match r
    case Go(s) => Aligned(root, s)
    case Stop(why) => !why.Check?
  }

  // ---------------------------------------------------------------------------------------
  // Delivering results and pushing items
  // ---------------------------------------------------------------------------------------

  /** The item on top of s waits and its next operand is parsed in the given mode. */
  predicate Parsing(root: bool, s: State, mode: Mode) {
    && s.stk.Push? && s.ctx.Push? && s.blk.Push?
    && Waiting(root, s.stk, Depth(s.ctx), Depth(s.blk), s.ops, WantsResult(mode))
    && NextMode(s.stk.top, s.ops[Frame(s.stk.top, |s.ops|)..]) == Some(mode)
  }

  lemma HoldsOneMore(it: Item, held: seq<Operand>, mode: Mode, o: Operand)
    requires Holds(it, held) && NextMode(it, held) == Some(mode) && WantsResult(mode)
    requires YieldsObject(mode) ==> o.Obj?
    ensures HasFrame(it) && Holds(it, held + [o])
  {
    if it.Invoke? { assert (held + [o])[1..] == held[1..] + [o]; }
  }

  lemma PushKeeps(root: bool, s: State, mode: Mode, o: Operand)
    requires Parsing(root, s, mode) && WantsResult(mode)
    requires YieldsObject(mode) ==> o.Obj?
    ensures Aligned(root, PushOp(s, o))
  {
    PushStacks(root, s.stk, Depth(s.ctx), Depth(s.blk), s.ops, mode, o);
  }

  lemma PushStacks(root: bool, stk: Stack<Item>, nctx: nat, nblk: nat, ops: seq<Operand>,
                   mode: Mode, o: Operand)
    requires stk.Push? && Waiting(root, stk, nctx, nblk, ops, true) && WantsResult(mode)
    requires NextMode(stk.top, ops[Frame(stk.top, |ops|)..]) == Some(mode)
    requires YieldsObject(mode) ==> o.Obj?
    ensures AlignedStacks(root, stk, nctx, nblk, ops + [o])
  {
    var f := Frame(stk.top, |ops|);
    HoldsOneMore(stk.top, ops[f..], mode, o);
    assert (ops + [o])[f..] == ops[f..] + [o];
    assert (ops + [o])[..f] == ops[..f];
  }

  /** A waiting stack that is handed its result, or nothing, is aligned again. */
  lemma Resume(root: bool, stk: Stack<Item>, nctx: nat, nblk: nat, ops: seq<Operand>,
               result: bool, v: Value)
    requires Waiting(root, stk, nctx, nblk, ops, result)
    ensures AlignedStacks(root, stk, nctx, nblk, if result then ops + [Obj(v)] else ops)
  {
    if stk.Push? && result {
      PushStacks(root, stk, nctx, nblk, ops, NextMode(stk.top, ops[Frame(stk.top, |ops|)..]).value,
                 Obj(v));
    }
  }

  lemma ResumeState(root: bool, s: State, result: bool, v: Value)
    requires Waiting(root, s.stk, Depth(s.ctx), Depth(s.blk), s.ops, result)
    ensures Aligned(root, Deliver(s, result, v))
  {
    Resume(root, s.stk, Depth(s.ctx), Depth(s.blk), s.ops, result, v);
  }

  /** A new item whose frame starts at the top of the operand stack. */
  lemma PushItemKeeps(root: bool, s: State, it: Item, held: seq<Operand>, nctx: nat, nblk: nat,
                      mode: Mode)
    requires Parsing(root, s, mode)
    requires Delivers(it) ==> WantsResult(mode)
    requires HasFrame(it) ==> it.frame == |s.ops|
    requires Holds(it, held)
    requires nctx == Depth(s.ctx) + (if OwnsContext(it) then 1 else 0)
    requires nblk == Depth(s.blk) + (if OwnsBlock(it) then 1 else 0)
    ensures AlignedStacks(root, Push(it, s.stk), nctx, nblk, s.ops + held)
  {
    var ops := s.ops + held;
    var f := Frame(it, |ops|);
    assert ops[f..] == held;
    assert ops[..f] == s.ops;
  }

  // ---------------------------------------------------------------------------------------
  // Unwinding
  // ---------------------------------------------------------------------------------------

  lemma {:induction false} FoundLoopUnwinds(root: bool, stk: Stack<Item>, nctx: nat,
                                            blk: Stack<Blk>, ops: seq<Operand>, n: nat)
    requires stk.Push? && Waiting(root, stk, nctx, Depth(blk), ops, false)
    requires FindLoop(stk).Found? && (n == FindLoop(stk).depth || n == FindLoop(stk).depth + 1)
    ensures PopNested(n, stk, blk).Unwound?
    ensures var u := PopNested(n, stk, blk);
            AlignedStacks(root, u.stk, nctx, Depth(u.blk), ops)
  {
    assert ops[|ops|..] == [] && ops[..|ops|] == ops;
    if n == 0 {
    } else {
      assert stk.top.frame == |ops| by {
        assert ops[stk.top.frame..] == [];
      }
      if FindLoop(stk).depth == 0 {
        assert PopNested(0, stk.below, blk.below).Unwound?;
        Resume(root, stk.below, nctx, Depth(blk.below), ops, false, Uninit);
      } else {
        FoundLoopUnwinds(root, stk.below, nctx, blk.below, ops, n - 1);
      }
    }
  }

  lemma {:induction false} FoundMethodUnwinds(root: bool, stk: Stack<Item>, nctx: nat,
                                              blk: Stack<Blk>, ops: seq<Operand>)
    requires stk.Push? && Waiting(root, stk, nctx, Depth(blk), ops, false)
    requires FindMethod(stk).Found?
    ensures var r := FindMethod(stk); var u := PopNested(r.depth, stk, blk);
            u.Unwound? && u.stk.Push? && u.blk.Push? && nctx > 0
            && Waiting(root, u.stk.below, nctx - 1, Depth(u.blk.below), ops, r.want)
  {
    assert ops[..|ops|] == ops;
    if stk.top.Method? {
    } else {
      assert stk.top.frame == |ops| by {
        assert ops[stk.top.frame..] == [];
      }
      FoundMethodUnwinds(root, stk.below, nctx, blk.below, ops);
    }
  }

  // ---------------------------------------------------------------------------------------
  // Parsing
  // ---------------------------------------------------------------------------------------

  lemma SamePc(root: bool, s: State, mode: Mode, pc: nat, inv: Option<Invocation>, w: World)
    requires Parsing(root, s, mode)
    ensures Parsing(root, SetPc(s, pc), mode)
    ensures Parsing(root, SetInv(SetPc(s, pc), inv).(w := w), mode)
    ensures Parsing(root, SetPc(s, pc).(w := w), mode)
  {
  }

  lemma IdleKeeps(root: bool, s: State, mode: Mode)
    requires Parsing(root, s, mode)
    ensures Aligned(root, s)
  {
  }

  lemma ConstantKeeps(root: bool, mode: Mode, s: State, v: Value)
    requires Parsing(root, s, mode)
    ensures Good(root, Constant(mode, s, v))
  {
    if mode.Data? || mode.Object? { PushKeeps(root, s, mode, Obj(v)); }
  }

  lemma EffectKeeps(root: bool, mode: Mode, s: State, want: bool, e: Effect<Value>)
    requires Parsing(root, s, mode) && want == WantsResult(mode)
    ensures Good(root, EffectValue(s, want, e))
  {
    if e.Did? && want { PushKeeps(root, s.(w := e.w), mode, Obj(e.value)); }
  }

  lemma ImmediateKeeps(root: bool, mode: Mode, s: State, n: nat)
    requires Parsing(root, s, mode) && WantsResult(mode) && n <= 8
    ensures Good(root, ParseImmediate(s, n))
  {
    var r := ParseImmediate(s, n);
    if r.Go? {
      SamePc(root, s, mode, s.blk.top.pc + n, None, s.w);
      PushKeeps(root, SetPc(s, s.blk.top.pc + n), mode, r.s.ops[|s.ops|]);
    }
  }

  predicate IsImmediate(m: Mode) { m.ImmByte? || m.ImmWord? || m.ImmDword? }

  lemma NameOutcome(H: Host, mode: Mode, s: State)
    requires s.ctx.Push? && s.blk.Push?
    ensures var c, pc := s.ctx.top, s.blk.top.pc;
      var n := NameLength(c.code, pc);
      n.Some? ==>
        var name, s1 := Slice(c.code, pc, n.value), SetPc(s, pc + n.value);
        ParseName(H, mode, s) ==
          if mode.Data? then EffectValue(s1, true, H.newString(s.w, name))
          else if !Resolves(mode) then Go(PushOp(s1, Unresolved(c.handle, name)))
          else ParseResolved(H, mode, s1, H.resolve(s.w, c.handle, name))
  {
  }

  lemma NameKeeps(root: bool, H: Host, mode: Mode, s: State)
    requires Parsing(root, s, mode) && !IsImmediate(mode)
    ensures Good(root, ParseName(H, mode, s))
  {
    var c, pc := s.ctx.top, s.blk.top.pc;
    match NameLength(c.code, pc)
    case None =>
    case Some(n) =>
      NameOutcome(H, mode, s);
      SamePc(root, s, mode, pc + n, None, s.w);
      NameLands(root, H, mode, SetPc(s, pc + n), Slice(c.code, pc, n));
  }

  /** What a name does once it has been read. */
  lemma NameLands(root: bool, H: Host, mode: Mode, s: State, name: seq<byte>)
    requires Parsing(root, s, mode) && !IsImmediate(mode)
    ensures mode.Data? ==> Good(root, EffectValue(s, true, H.newString(s.w, name)))
    ensures !mode.Data? && !Resolves(mode) ==>
      Good(root, Go(PushOp(s, Unresolved(s.ctx.top.handle, name))))
    ensures Resolves(mode) ==>
      Good(root, ParseResolved(H, mode, s, H.resolve(s.w, s.ctx.top.handle, name)))
  {
    if mode.Data? {
      EffectKeeps(root, mode, s, true, H.newString(s.w, name));
    } else if !Resolves(mode) {
      PushKeeps(root, s, mode, Unresolved(s.ctx.top.handle, name));
    } else {
      ResolvedKeeps(root, H, mode, s, H.resolve(s.w, s.ctx.top.handle, name));
    }
  }

  lemma ResolvedKeeps(root: bool, H: Host, mode: Mode, s: State, found: Lookup)
    requires Parsing(root, s, mode) && Resolves(mode)
    ensures Good(root, ParseResolved(H, mode, s, found))
  {
    match found
    case Missing =>
      if mode.OptReference? { PushKeeps(root, s, mode, Resolved(None)); }
    case MethodNode(h, argc) =>
      if Invokes(mode) {
        var it := Invoke(|s.ops|, argc % 8, WantsResult(mode));
        PushItemKeeps(root, s, it, [Resolved(Some(h))], Depth(s.ctx), Depth(s.blk), mode);
      } else {
        PushKeeps(root, s, mode, Resolved(Some(h)));
      }
    case ObjectNode(h) =>
      if Invokes(mode) {
        EffectKeeps(root, mode, s, WantsResult(mode), H.access(s.w, h));
      } else {
        PushKeeps(root, s, mode, Resolved(Some(h)));
      }
  }

  lemma IfKeeps(root: bool, mode: Mode, s: State, opPc: nat, pc: nat)
    requires Parsing(root, s, mode)
    ensures Good(root, ParseIf(s, opPc, pc))
  {
    var r := ParseIf(s, opPc, pc);
    if r.Go? {
      assert Depth(r.s.blk.below) == Depth(s.blk);
      PushItemKeeps(root, s, r.s.stk.top, [], Depth(s.ctx), Depth(r.s.blk), mode);
      assert s.ops + [] == s.ops;
    }
  }

  lemma WhileKeeps(root: bool, mode: Mode, s: State, opPc: nat, pc: nat)
    requires Parsing(root, s, mode)
    ensures Good(root, ParseWhile(s, opPc, pc))
  {
    var r := ParseWhile(s, opPc, pc);
    if r.Go? {
      assert Depth(r.s.blk.below) == Depth(s.blk);
      PushItemKeeps(root, s, r.s.stk.top, [], Depth(s.ctx), Depth(r.s.blk), mode);
      assert s.ops + [] == s.ops;
    }
  }

  lemma AggregateKeeps(root: bool, mode: Mode, s: State, opPc: nat, pc: nat, package: bool)
    requires Parsing(root, s, mode)
    ensures Good(root, ParseAggregate(mode, s, opPc, pc, package))
  {
    var r := ParseAggregate(mode, s, opPc, pc, package);
    if r.Go? {
      assert Depth(r.s.blk.below) == Depth(s.blk);
      var held := if package then [Obj(Uninit)] else [];
      PushItemKeeps(root, s, r.s.stk.top, held, Depth(s.ctx), Depth(r.s.blk), mode);
      assert s.ops + held == r.s.ops;
    }
  }

  lemma NotResult(root: bool, s: State, mode: Mode)
    requires Parsing(root, s, mode)
    ensures Waiting(root, s.stk, Depth(s.ctx), Depth(s.blk), s.ops, false)
  {
  }

  lemma UnwindKeeps(root: bool, mode: Mode, s: State)
    requires Parsing(root, s, mode)
    ensures Good(root, ParseBreak(s)) && Good(root, ParseContinue(s))
  {
    NotResult(root, s, mode);
    if FindLoop(s.stk).Found? {
      var m := FindLoop(s.stk).depth;
      FoundLoopUnwinds(root, s.stk, Depth(s.ctx), s.blk, s.ops, m);
      FoundLoopUnwinds(root, s.stk, Depth(s.ctx), s.blk, s.ops, m + 1);
    }
  }

  lemma VariableKeeps(root: bool, mode: Mode, s: State, o: Operand)
    requires Parsing(root, s, mode) && IsVariable(o)
    ensures Good(root, ParseVariable(mode, s, o))
  {
    var r := ParseVariable(mode, s, o);
    if r.Go? { PushKeeps(root, s, mode, r.s.ops[|s.ops|]); }
  }

  lemma ScopeKeeps(root: bool, H: Host, mode: Mode, s: State, opcode: nat)
    requires Parsing(root, s, mode)
    ensures Good(root, ParseScope(H, s, opcode))
  {
    var r := ParseScope(H, s, opcode);
    if r.Go? {
      assert Depth(r.s.blk.below) == Depth(s.blk) && Depth(r.s.ctx.below) == Depth(s.ctx);
      PushItemKeeps(root, s, Populate, [], Depth(r.s.ctx), Depth(r.s.blk), mode);
      assert s.ops + [] == s.ops;
    }
  }

  lemma BankKeeps(root: bool, H: Host, mode: Mode, s: State)
    requires Parsing(root, s, mode)
    ensures Good(root, ParseBank(H, s))
  {
    var r := ParseBank(H, s);
    if r.Go? {
      assert Depth(r.s.blk.below) == Depth(s.blk);
      var held := r.s.ops[|s.ops|..];
      assert r.s.ops == s.ops + held;
      PushItemKeeps(root, s, r.s.stk.top, held, Depth(s.ctx), Depth(r.s.blk), mode);
    }
  }

  lemma StringKeeps(root: bool, H: Host, mode: Mode, s: State, pc: nat)
    requires Parsing(root, s, mode)
    ensures Good(root, ParseString(H, mode, s, pc))
  {
    var n := StringLength(s.ctx.top.code, pc, s.blk.top.limit);
    SamePc(root, s, mode, pc + n + 1, None, s.w);
    var s1 := SetPc(s, pc + n + 1);
    ConstantKeeps(root, mode, s1, Uninit);
    if mode.Data? || mode.Object? {
      EffectKeeps(root, mode, s1, true, H.newString(s.w, Slice(s.ctx.top.code, pc, n)));
    }
  }

  lemma OperatorKeeps(root: bool, mode: Mode, s: State, it: Item)
    requires Parsing(root, s, mode) && HasFrame(it) && it.frame == |s.ops| && Holds(it, [])
    requires !OwnsContext(it) && !OwnsBlock(it) && (Delivers(it) ==> WantsResult(mode))
    ensures Aligned(root, PushItem(s, it))
  {
    assert s.ops + [] == s.ops;
    PushItemKeeps(root, s, it, [], Depth(s.ctx), Depth(s.blk), mode);
  }

  lemma DeclarationKeeps(root: bool, mode: Mode, s: State, e: Effect<nat>)
    requires Parsing(root, s, mode) && e.Did?
    ensures Aligned(root, SetInv(SetPc(s, e.value), e.inv).(w := e.w))
  {
    SamePc(root, s, mode, e.value, e.inv, e.w);
    IdleKeeps(root, SetInv(SetPc(s, e.value), e.inv).(w := e.w), mode);
  }

  /** The opcodes that stand for constants. */
  predicate IsConstant(opcode: nat) {
    opcode in {0x00, 0x01, 0xFF, 0x5B30, 0x5B33} || ConstWidth(opcode).Some?
  }

  lemma ConstantsKeep(root: bool, H: Host, mode: Mode, s: State, opcode: nat, pc: nat)
    requires Parsing(root, s, mode) && !IsImmediate(mode) && IsConstant(opcode)
    ensures Good(root, ParseOpcode(H, mode, s, opcode, pc))
  {
    if ConstWidth(opcode).Some? {
      WidthKeeps(root, H, mode, s, opcode, pc);
    } else {
      var s1 := SetPc(s, pc);
      SamePc(root, s, mode, pc, None, s.w);
      if opcode == 0x00 && (mode.Reference? || mode.OptReference?) {
        PushKeeps(root, s1, mode, NullName);
      } else {
        ConstantKeeps(root, mode, s1, FixedConstant(H, s.w, opcode));
      }
    }
  }

  /** The constants of an opcode of their own. */
  function FixedConstant(H: Host, w: World, opcode: nat): Value {
    if opcode == 0x00 then Int(0) else if opcode == 0x01 then Int(1)
    else if opcode == 0xFF then Int(ONES) else if opcode == 0x5B30 then Int(0x2020_0712)
    else if H.timer(w).Some? then Int(H.timer(w).value) else Uninit
  }

  lemma WidthKeeps(root: bool, H: Host, mode: Mode, s: State, opcode: nat, pc: nat)
    requires Parsing(root, s, mode) && !IsImmediate(mode) && ConstWidth(opcode).Some?
    ensures Good(root, ParseOpcode(H, mode, s, opcode, pc))
  {
    var n := ConstWidth(opcode).value;
    var p := ParseInt(s.ctx.top.code, pc, s.blk.top.limit, n);
    if p.Parsed? {
      BoundedLittleEndian(Slice(s.ctx.top.code, pc, n));
      SamePc(root, s, mode, p.pc, None, s.w);
      ConstantKeeps(root, mode, SetPc(s, p.pc), Int(p.value));
    }
  }

  lemma DataKeeps(root: bool, H: Host, mode: Mode, s: State, opcode: nat, pc: nat)
    requires Parsing(root, s, mode) && !IsImmediate(mode) && IsData(opcode)
    ensures Good(root, ParseOpcode(H, mode, s, opcode, pc))
  {
    if IsConstant(opcode) {
      ConstantsKeep(root, H, mode, s, opcode, pc);
    } else {
      var s1 := SetPc(s, pc);
      SamePc(root, s, mode, pc, None, s.w);
      if opcode == 0x0D {
        StringKeeps(root, H, mode, s, pc);
      } else if 0x60 <= opcode <= 0x67 {
        VariableKeeps(root, mode, s1, LocalName(opcode - 0x60));
      } else if 0x68 <= opcode <= 0x6E {
        VariableKeeps(root, mode, s1, ArgName(opcode - 0x68));
      } else if mode.Reference? || mode.OptReference? {
        PushKeeps(root, s1, mode, DebugName);
      }
    }
  }

  lemma OpcodeKeeps(root: bool, H: Host, mode: Mode, s: State, opcode: nat, pc: nat)
    requires Parsing(root, s, mode) && !IsImmediate(mode)
    ensures Good(root, ParseOpcode(H, mode, s, opcode, pc))
  {
    var opPc := s.blk.top.pc;
    if IsData(opcode) {
      DataKeeps(root, H, mode, s, opcode, pc);
    } else if opcode == 0x11 || opcode == 0x12 {
      AggregateKeeps(root, mode, s, opPc, pc, opcode == 0x12);
    } else if opcode == 0xA2 {
      WhileKeeps(root, mode, s, opPc, pc);
    } else if opcode == 0x9F || opcode == 0xA5 {
      UnwindKeeps(root, mode, s);
    } else if opcode == 0xA0 {
      IfKeeps(root, mode, s, opPc, pc);
    } else if IsScope(opcode) {
      ScopeKeeps(root, H, mode, s, opcode);
    } else if IsDeclaration(opcode) {
      var e := H.declare(s.w, opcode, s.ctx.top, s.blk.top);
      if e.Did? { DeclarationKeeps(root, mode, s, e); }
    } else if opcode == 0x5B87 {
      BankKeeps(root, H, mode, s);
    } else {
      ItemKeeps(root, H, mode, s, opcode, pc);
    }
  }

  /** The rest of the opcode switch. */
  lemma ItemOutcome(H: Host, mode: Mode, s: State, opcode: nat, pc: nat)
    requires s.ctx.Push? && s.blk.Push? && !IsData(opcode) && !IsScope(opcode)
    requires !IsDeclaration(opcode)
    requires opcode !in {0x11, 0x12, 0xA2, 0x9F, 0xA5, 0xA0, 0x5B87}
    ensures ParseOpcode(H, mode, s, opcode, pc) ==
      if opcode == 0xA3 || opcode == 0xCC then Go(SetPc(s, pc))
      else if opcode == 0xA4 then Go(PushItem(SetPc(s, pc), Return(|s.ops|)))
      else if opcode == 0xA1 then Stop(Panic(ElseWithoutIf))
      else if opcode == 0x13 then Stop(Panic(Unmodelled))
      else if OpModes(opcode).Some? then
        Go(PushItem(SetPc(s, pc), Op(|s.ops|, opcode, OpModes(opcode).value, WantsResult(mode))))
      else if NodeModes(opcode).Some? then
        Go(PushItem(SetPc(s, pc), Node(|s.ops|, opcode, NodeModes(opcode).value)))
      else Stop(Panic(UnexpectedOpcode))
  {
  }

  lemma ItemKeeps(root: bool, H: Host, mode: Mode, s: State, opcode: nat, pc: nat)
    requires Parsing(root, s, mode) && !IsData(opcode) && !IsScope(opcode)
    requires !IsDeclaration(opcode)
    requires opcode !in {0x11, 0x12, 0xA2, 0x9F, 0xA5, 0xA0, 0x5B87}
    ensures Good(root, ParseOpcode(H, mode, s, opcode, pc))
  {
    var s1 := SetPc(s, pc);
    SamePc(root, s, mode, pc, None, s.w);
    ItemOutcome(H, mode, s, opcode, pc);
    if opcode == 0xA3 || opcode == 0xCC {
      IdleKeeps(root, s1, mode);
    } else if opcode == 0xA4 {
      OperatorKeeps(root, mode, s1, Return(|s.ops|));
    } else {
      var op, node := OpModes(opcode), NodeModes(opcode);
      if op.Some? { OpKeepsHeld(root, mode, s1, opcode, op.value); }
      if node.Some? { NodeKeepsHeld(root, mode, s1, opcode, node.value); }
    }
  }

  lemma OpKeepsHeld(root: bool, mode: Mode, s: State, opcode: nat, modes: seq<Mode>)
    requires Parsing(root, s, mode) && OpModes(opcode) == Some(modes)
    ensures Aligned(root, PushItem(s, Op(|s.ops|, opcode, modes, WantsResult(mode))))
  {
    OperatorKeeps(root, mode, s, Op(|s.ops|, opcode, modes, WantsResult(mode)));
  }

  lemma NodeKeepsHeld(root: bool, mode: Mode, s: State, opcode: nat, modes: seq<Mode>)
    requires Parsing(root, s, mode) && NodeModes(opcode) == Some(modes)
    ensures Aligned(root, PushItem(s, Node(|s.ops|, opcode, modes)))
  {
    OperatorKeeps(root, mode, s, Node(|s.ops|, opcode, modes));
  }

  lemma ParseKeeps(root: bool, H: Host, mode: Mode, s: State)
    requires Parsing(root, s, mode)
    ensures Good(root, Parse(H, mode, s))
  {
    var pc, limit, code := s.blk.top.pc, s.blk.top.limit, s.ctx.top.code;
    if pc >= limit {
    } else if IsImmediate(mode) {
      ImmediateKeeps(root, mode, s, if mode.ImmByte? then 1 else if mode.ImmWord? then 2 else 4);
    } else if IsName(Fetch(code, pc)) {
      NameKeeps(root, H, mode, s);
    } else if Fetch(code, pc) == 0x5B {
      OpcodeKeeps(root, H, mode, s, 0x5B00 + Fetch(code, pc + 1), pc + 2);
    } else {
      OpcodeKeeps(root, H, mode, s, Fetch(code, pc), pc + 1);
    }
  }

  // ---------------------------------------------------------------------------------------
  // One turn
  // ---------------------------------------------------------------------------------------

  /** An aligned state with something to process. */
  predicate Active(root: bool, s: State) {
    s.stk.Push? && s.ctx.Push? && s.blk.Push? && Aligned(root, s)
  }

  function Held(s: State): seq<Operand>
    requires s.stk.Push? && Frame(s.stk.top, |s.ops|) <= |s.ops|
  {
    s.ops[Frame(s.stk.top, |s.ops|)..]
  }

  lemma ActiveParses(root: bool, H: Host, s: State, mode: Mode)
    requires Active(root, s) && NextMode(s.stk.top, Held(s)) == Some(mode)
    ensures Good(root, Parse(H, mode, s))
  {
    ParseKeeps(root, H, mode, s);
  }

  /** Removing the finished top item and its operands leaves the stacks below waiting. */
  lemma FinishKeeps(root: bool, s: State, t: State, v: Value)
    requires Active(root, s)
    requires t.stk == s.stk.below
    requires Depth(t.ctx) == if OwnsContext(s.stk.top) then Depth(s.ctx.below) else Depth(s.ctx)
    requires Depth(t.blk) == if OwnsBlock(s.stk.top) then Depth(s.blk.below) else Depth(s.blk)
    requires t.ops == s.ops[..Frame(s.stk.top, |s.ops|)]
    ensures Aligned(root, Deliver(t, Delivers(s.stk.top), v))
  {
    ResumeState(root, t, Delivers(s.stk.top), v);
  }

  lemma PopulateKeeps(root: bool, H: Host, s: State)
    requires Active(root, s) && s.stk.top.Populate?
    ensures Good(root, ProcessPopulate(H, s))
  {
    if s.blk.top.pc == s.blk.top.limit {
      FinishKeeps(root, s, PopBlkItem(s).(ctx := s.ctx.below), Uninit);
    } else {
      ActiveParses(root, H, s, Exec);
    }
  }

  lemma MethodKeeps(root: bool, H: Host, s: State)
    requires Active(root, s) && s.stk.top.Method?
    ensures Good(root, ProcessMethod(H, s))
  {
    if s.blk.top.pc != s.blk.top.limit {
      ActiveParses(root, H, s, Exec);
    } else if s.ops == [] {
      var t := PopBlkItem(s).(ctx := s.ctx.below, w := Cleanup(H, s.w, s.ctx.top.inv));
      FinishKeeps(root, s, t, Int(0));
    }
  }

  lemma BufferKeeps(root: bool, H: Host, s: State)
    requires Active(root, s) && s.stk.top.Buffer? && s.blk.top.pc <= s.blk.top.limit
    ensures Good(root, ProcessBuffer(H, s))
  {
    var it, b := s.stk.top, s.blk.top;
    if |s.ops| == it.frame {
      ActiveParses(root, H, s, Object);
    } else {
      assert s.ops[it.frame] == Held(s)[0];
      var e := H.newBuffer(s.w, s.ops[it.frame].value, Slice(s.ctx.top.code, b.pc, b.limit - b.pc));
      if e.Did? {
        FinishKeeps(root, s, PopBlkItem(s).(ops := s.ops[..it.frame], w := e.w), e.value);
      }
    }
  }

  /** The top item changes its phase and its operands but not its frame, block or context. */
  lemma RephaseKeeps(root: bool, s: State, t: State)
    requires Active(root, s) && t.stk.Push? && HasFrame(s.stk.top)
    requires t.stk.below == s.stk.below && Depth(t.ctx) == Depth(s.ctx)
    requires Depth(t.blk) == Depth(s.blk)
    requires HasFrame(t.stk.top) && t.stk.top.frame == s.stk.top.frame <= |t.ops|
    requires OwnsBlock(t.stk.top) == OwnsBlock(s.stk.top)
    requires Delivers(t.stk.top) == Delivers(s.stk.top)
    requires t.ops[..s.stk.top.frame] == s.ops[..s.stk.top.frame]
    requires Holds(t.stk.top, Held(t))
    ensures Aligned(root, t)
  {
  }

  lemma FinishPackageKeeps(root: bool, H: Host, s: State)
    requires Active(root, s) && s.stk.top.Package? && s.stk.top.phase == 2
    requires |s.ops| == s.stk.top.frame + 1
    ensures Good(root, FinishPackage(H, s))
  {
    var it := s.stk.top;
    if s.blk.top.pc != s.blk.top.limit {
      ActiveParses(root, H, s, Data);
    } else {
      assert s.ops[it.frame] == Held(s)[0];
      FinishKeeps(root, s, PopBlkItem(s).(ops := s.ops[..it.frame]), s.ops[it.frame].value);
      assert s.ops == s.ops[..it.frame] + [s.ops[it.frame]];
    }
  }

  lemma PackageSizeKeeps(root: bool, H: Host, s: State)
    requires Active(root, s) && s.stk.top.Package? && s.stk.top.phase == 0
    ensures Good(root, ProcessPackage(H, s))
  {
    var it := s.stk.top;
    var r := Parse(H, ImmByte, s);
    if s.blk.top.pc < s.blk.top.limit && ParseImmediate(s, 1).Go? {
      var o := r.s.ops[|s.ops|];
      assert r == ParseImmediate(s, 1) && r.s.ops == s.ops + [o];
      var t := r.s.(stk := s.stk.(top := it.(phase := 1)));
      assert t.ops[it.frame..] == Held(s) + [o] && t.ops[..it.frame] == s.ops[..it.frame];
      assert Depth(t.blk.below) == Depth(s.blk.below);
      RephaseKeeps(root, s, t);
    }
  }

  lemma PackageCreationKeeps(root: bool, H: Host, s: State)
    requires Active(root, s) && s.stk.top.Package? && s.stk.top.phase == 1
    ensures Good(root, ProcessPackage(H, s))
  {
    var it := s.stk.top;
    assert Held(s)[1] == s.ops[it.frame + 1];
    var size := s.ops[it.frame + 1].value;
    if size.Int? && H.newPackage(s.w, size.n).Did? {
      var e := H.newPackage(s.w, size.n);
      var t := s.(stk := s.stk.(top := it.(phase := 2)),
                  ops := s.ops[..|s.ops| - 1][it.frame := Obj(e.value)], w := e.w);
      assert Held(t) == [Obj(e.value)] && t.ops[..it.frame] == s.ops[..it.frame];
      RephaseKeeps(root, s, t);
    }
  }

  lemma PackageStoreKeeps(root: bool, H: Host, s: State, t: State)
    requires Active(root, s) && s.stk.top.Package? && s.stk.top.phase == 2
    requires |s.ops| == s.stk.top.frame + 2
    requires t.stk == s.stk.(top := s.stk.top.(index := s.stk.top.index + 1))
    requires t.ops == s.ops[..|s.ops| - 1] && t.ctx == s.ctx && t.blk == s.blk
    ensures Active(root, t)
  {
    var it := s.stk.top;
    assert Held(t) == [Held(s)[0]] && t.ops[..it.frame] == s.ops[..it.frame];
    RephaseKeeps(root, s, t);
  }

  lemma PackageKeeps(root: bool, H: Host, s: State)
    requires Active(root, s) && s.stk.top.Package?
    ensures Good(root, ProcessPackage(H, s))
  {
    var it := s.stk.top;
    if it.phase == 0 {
      PackageSizeKeeps(root, H, s);
    } else if it.phase == 1 {
      PackageCreationKeeps(root, H, s);
    } else if |s.ops| == it.frame + 2 {
      assert Held(s)[0] == s.ops[it.frame] && Held(s)[1] == s.ops[it.frame + 1];
      var pkg, init := s.ops[it.frame].value, s.ops[it.frame + 1].value;
      var t := s.(stk := s.stk.(top := it.(index := it.index + 1)), ops := s.ops[..|s.ops| - 1],
                  w := H.packageStore(s.w, init, pkg, it.index));
      PackageStoreKeeps(root, H, s, t);
      FinishPackageKeeps(root, H, t);
    } else {
      FinishPackageKeeps(root, H, s);
    }
  }

  lemma NodeReduces(root: bool, H: Host, s: State, t: State)
    requires Active(root, s) && s.stk.top.Node? && t.stk == s.stk.below && t.blk == s.blk
    requires t.ops == s.ops[..s.stk.top.frame] && Depth(t.ctx) == Depth(s.ctx)
    ensures Aligned(root, t)
  {
    FinishKeeps(root, s, t, Uninit);
  }

  lemma NodeKeeps(root: bool, H: Host, s: State)
    requires Active(root, s) && s.stk.top.Node?
    ensures Good(root, ProcessNode(H, s))
  {
    var it := s.stk.top;
    if |Held(s)| < |it.modes| {
      ActiveParses(root, H, s, it.modes[|Held(s)|]);
    } else {
      var e := H.reduceNode(s.w, it.opcode, s.ctx.top, s.ops[it.frame..]);
      var s1 := PopItem(s).(ops := s.ops[..it.frame]);
      if e.Did? {
        NodeReduces(root, H, s, SetInv(s1, e.inv).(w := e.w));
      } else {
        NodeReduces(root, H, s, s1);
      }
    }
  }

  /** Reduction never meets an operand of the wrong kind. */
  lemma ReduceNeverChecks(H: Host, opcode: nat, w: World, inv: Option<Invocation>,
                          ops: seq<Operand>)
    requires OpModes(opcode).Some? && |ops| == |OpModes(opcode).value|
    requires ModesAgree(OpModes(opcode).value, ops)
    ensures var r := ReduceOp(H, opcode, w, inv, ops); r.Halted? ==> !r.why.Check?
  {
    var modes := OpModes(opcode).value;
    if IsArith(opcode) || IsLogic(opcode) {
      assert YieldsObject(modes[0]) && YieldsObject(modes[1]);
    } else if opcode in {0x92, 0x80, 0x70} {
      assert YieldsObject(modes[0]);
    }
  }

  lemma OpKeeps(root: bool, H: Host, s: State)
    requires Active(root, s) && s.stk.top.Op?
    ensures Good(root, ProcessOp(H, s))
  {
    var it := s.stk.top;
    if |Held(s)| < |it.modes| {
      ActiveParses(root, H, s, it.modes[|Held(s)|]);
    } else {
      ReduceNeverChecks(H, it.opcode, s.w, s.ctx.top.inv, Held(s));
      match ReduceOp(H, it.opcode, s.w, s.ctx.top.inv, Held(s))
      case Halted(_) =>
      case Reduced(v, w, inv) =>
        FinishKeeps(root, s, PopItem(SetInv(s, inv)).(ops := s.ops[..it.frame], w := w), v);
    }
  }

  lemma InvokeKeeps(root: bool, H: Host, s: State)
    requires Active(root, s) && s.stk.top.Invoke?
    ensures Good(root, ProcessInvoke(H, s))
  {
    var it := s.stk.top;
    if |Held(s)| < it.argc + 1 {
      ActiveParses(root, H, s, Object);
    } else {
      var call := s.ops[it.frame];
      var args := s.ops[it.frame + 1..];
      assert call == Held(s)[0] && args == Held(s)[1..];
      var m := H.methodInfo(s.w, call.handle.value);
      var s1 := PopItem(s).(ops := s.ops[..it.frame]);
      if m.overridden {
        var e := H.osMethod(s.w, call.handle.value, Arguments(args));
        if e.Did? { FinishKeeps(root, s, s1.(w := e.w), e.value); }
      } else {
        var t := Enter(s1, m, call.handle.value, Arguments(args), it.want);
        assert t.ops[..|t.ops|] == t.ops;
        assert Depth(t.ctx.below) == Depth(s.ctx) && Depth(t.blk.below) == Depth(s.blk);
      }
    }
  }

  lemma ReturnKeeps(root: bool, H: Host, s: State)
    requires Active(root, s) && s.stk.top.Return?
    ensures Good(root, ProcessReturn(H, s))
  {
    var it := s.stk.top;
    if |s.ops| == it.frame {
      ActiveParses(root, H, s, Object);
    } else {
      assert s.ops[it.frame] == Held(s)[0];
      var v := s.ops[it.frame].value;
      if FindMethod(s.stk.below).Found? {
        FoundMethodUnwinds(root, s.stk.below, Depth(s.ctx), s.blk, s.ops[..it.frame]);
        var found := FindMethod(s.stk.below);
        var u := PopNested(found.depth, s.stk.below, s.blk);
        Resume(root, u.stk.below, Depth(s.ctx) - 1, Depth(u.blk.below), s.ops[..it.frame],
               found.want, v);
      }
    }
  }

  lemma LoopKeeps(root: bool, H: Host, s: State)
    requires Active(root, s) && s.stk.top.Loop?
    ensures Good(root, ProcessLoop(H, s))
  {
    var it := s.stk.top;
    if it.iterating {
      if s.blk.top.pc != s.blk.top.limit {
        ActiveParses(root, H, s, Exec);
      } else {
        RephaseKeeps(root, s, SetPc(s, it.pred).(stk := s.stk.(top := it.(iterating := false))));
      }
    } else if |s.ops| == it.frame {
      ActiveParses(root, H, s, Object);
    } else {
      assert s.ops[it.frame] == Held(s)[0];
      var t := s.(ops := s.ops[..it.frame]);
      RephaseKeeps(root, s, t.(stk := s.stk.(top := it.(iterating := true))));
      FinishKeeps(root, s, PopBlkItem(t), Uninit);
    }
  }

  lemma CondKeeps(root: bool, H: Host, s: State)
    requires Active(root, s) && s.stk.top.Cond?
    ensures Good(root, ProcessCond(H, s))
  {
    var it := s.stk.top;
    if it.branch {
      if s.blk.top.pc != s.blk.top.limit {
        ActiveParses(root, H, s, Exec);
      } else {
        assert s.ops[..it.frame] == s.ops;
        FinishKeeps(root, s, PopBlkItem(s), Uninit);
      }
    } else if |s.ops| == it.frame {
      ActiveParses(root, H, s, Object);
    } else {
      assert s.ops[it.frame] == Held(s)[0];
      var t := s.(ops := s.ops[..it.frame], stk := s.stk.(top := it.(branch := true)));
      RephaseKeeps(root, s, t);
      RephaseKeeps(root, s, t.(blk := s.blk.(top := Blk(it.elsePc, it.elseLimit))));
      FinishKeeps(root, s, PopBlkItem(s.(ops := s.ops[..it.frame])), Uninit);
    }
  }

  lemma BankFieldKeeps(root: bool, H: Host, s: State)
    requires Active(root, s) && s.stk.top.BankField?
    ensures Good(root, ProcessBank(H, s))
  {
    var it := s.stk.top;
    assert forall i :: 0 <= i < |Held(s)| ==> Held(s)[i] == s.ops[it.frame + i];
    if |Held(s)| < 3 {
      ActiveParses(root, H, s, Object);
    } else {
      assert Held(s)[0] == s.ops[it.frame] && Held(s)[1] == s.ops[it.frame + 1];
      assert Held(s)[2] == s.ops[it.frame + 2];
      var r := ProcessBank(H, s);
      if r.Go? { FinishKeeps(root, s, r.s, Uninit); }
    }
  }

  /** Main invariant: a turn on an aligned state gives an aligned state, and none of the
      interpreter's internal assertions can fail. */
  lemma TurnKeepsAlignment(root: bool, H: Host, s: State)
    requires s.stk.Push? && Aligned(root, s)
    ensures Good(root, Process(H, s))
  {
    if s.blk.top.pc <= s.blk.top.limit {
      match s.stk.top
      case Populate => PopulateKeeps(root, H, s);
      case Method(_) => MethodKeeps(root, H, s);
      case Buffer(_, _) => BufferKeeps(root, H, s);
      case Package(_, _, _, _) => PackageKeeps(root, H, s);
      case Node(_, _, _) => NodeKeeps(root, H, s);
      case Op(_, _, _, _) => OpKeeps(root, H, s);
      case Invoke(_, _, _) => InvokeKeeps(root, H, s);
      case Return(_) => ReturnKeeps(root, H, s);
      case Loop(_, _, _) => LoopKeeps(root, H, s);
      case Cond(_, _, _, _, _) => CondKeeps(root, H, s);
      case BankField(_) => BankFieldKeeps(root, H, s);
    }
  }

  lemma {:induction false} RunKeepsAlignment(root: bool, H: Host, step: State -> Outcome, n: nat,
                                             s: State)
    requires IsStep(step, H) && Aligned(root, s)
    ensures Good(root, Run(step, n, s))
  {
    if n > 0 && s.stk.Push? {
      assert Turn(s);
      TurnKeepsAlignment(root, H, s);
      if step(s).Go? { RunKeepsAlignment(root, H, step, n - 1, step(s).s); }
    }
  }

  // ---------------------------------------------------------------------------------------
  // Whole runs
  // ---------------------------------------------------------------------------------------

  /** lai_populate starts on empty stacks with one Populate item. */
  function PopulateStart(code: seq<byte>, handle: Handle, w: World): State {
    State(Push(Ctx(code, handle, None), Empty), Push(Blk(0, |code|), Empty), Push(Populate, Empty),
          [], w)
  }

  /** lai_eval_args starts on empty stacks by entering the method with its arguments. */
  function EvalStart(m: MethodInfo, h: Handle, args: seq<Value>, w: World): State {
    Enter(State(Empty, Empty, Empty, [], w), m, h, args, true)
  }

  lemma StartsAligned(code: seq<byte>, h: Handle, e: State, w: World)
    requires e.stk == Push(Method(true), Empty) && e.ops == []
    requires Depth(e.ctx) == 1 && Depth(e.blk) == 1
    ensures Aligned(false, PopulateStart(code, h, w)) && Aligned(true, e)
  {
    var s := PopulateStart(code, h, w);
    assert s.ops[..0] == [] && s.ops[0..] == [];
    assert Depth(s.ctx.below) == 0 && Depth(s.blk.below) == 0;
  }

  /** lai_populate ends with every stack empty, whatever the bytecode. */
  lemma PopulateEndsClean(H: Host, step: State -> Outcome, n: nat, code: seq<byte>, h: Handle,
                          w: World)
    requires IsStep(step, H)
    ensures var r := Run(step, n, PopulateStart(code, h, w));
            match r
            case Stop(why) => !why.Check?
            case Go(s) => s.stk.Empty? ==> s.ctx.Empty? && s.blk.Empty? && s.ops == []
  {
    StartsAligned(code, h, EvalStart(MethodInfo(code, 0, false), h, [], w), w);
    RunKeepsAlignment(false, H, step, n, PopulateStart(code, h, w));
  }

  /** lai_eval_args ends with empty stacks and exactly one object on the operand stack. */
  lemma EvalEndsWithOneResult(H: Host, step: State -> Outcome, n: nat, m: MethodInfo, h: Handle,
                              args: seq<Value>, w: World)
    requires IsStep(step, H)
    ensures var r := Run(step, n, EvalStart(m, h, args, w));
            match r
            case Stop(why) => !why.Check?
            case Go(s) =>
              s.stk.Empty? ==> s.ctx.Empty? && s.blk.Empty? && |s.ops| == 1 && s.ops[0].Obj?
  {
    StartsAligned(m.code, h, EvalStart(m, h, args, w), w);
    RunKeepsAlignment(true, H, step, n, EvalStart(m, h, args, w));
  }
}
