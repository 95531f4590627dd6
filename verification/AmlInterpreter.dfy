/** The interpreter object of lai/core/exec.c: the four stacks as fields updated in place.

Every method is proved against the machine of AmlMachine, whose runs AmlAlignment and
AmlRefinement describe.
*/
module AmlInterpreter {
  import opened Wrappers
  import opened AmlMachine
  import opened AmlAlignment

  class Interpreter {
    const H: Host
    var ctx: Stack<Ctx>
    var blk: Stack<Blk>
    var stk: Stack<Item>
    var ops: seq<Operand>
    var w: World

    constructor (H: Host, w: World)
      ensures this.H == H && Snapshot() == State(Empty, Empty, Empty, [], w)
    {
      this.H := H;
      this.w := w;
      ctx, blk, stk, ops := Empty, Empty, Empty, [];
    }

    function Snapshot(): State
      reads this
    {
      State(ctx, blk, stk, ops, w)
    }

    /** The object has followed an outcome of the machine: it is in the new state, or it
        reports why the run stops. */
    predicate Follows(r: Outcome, stop: Option<Why>)
      reads this
    {
      match r
      case Go(s) => stop == None && Snapshot() == s
      case Stop(why) => stop == Some(why)
    }

    method PushItem(it: Item)
      modifies this`stk
      ensures stk == Push(it, old(stk))
    {
      stk := Push(it, stk);
    }

    method PushBlock(pc: nat, limit: nat)
      modifies this`blk
      ensures blk == Push(Blk(pc, limit), old(blk))
    {
      blk := Push(Blk(pc, limit), blk);
    }

    method CommitPc(pc: nat)
      requires blk.Push?
      modifies this`blk
      ensures blk == Push(Blk(pc, old(blk).top.limit), old(blk).below)
    {
      blk := Push(Blk(pc, blk.top.limit), blk.below);
    }

    method Deliver(want: bool, v: Value)
      modifies this`ops
      ensures ops == if want then old(ops) + [Obj(v)] else old(ops)
    {
      if want { ops := ops + [Obj(v)]; }
    }

    /** The search loop of Break and Continue: how many items lie above the innermost loop. */
    method SearchLoop() returns (r: Search)
      ensures r == FindLoop(stk)
    {
      var m: nat := 0;
      var rest := stk;
      while rest.Push? && rest.top.Cond?
        invariant FindLoop(stk) == Add(m, FindLoop(rest))
        decreases rest
      {
        rest := rest.below;
        m := m + 1;
      }
      if rest.Empty? {
        r := Nowhere;
      } else if rest.top.Loop? {
        r := Found(m, false);
      } else {
        r := Blocked;
      }
    }

    /** The search loop of Return, below the Return item itself. */
    method SearchMethod(start: Stack<Item>) returns (r: Search)
      ensures r == FindMethod(start)
    {
      var m: nat := 0;
      var rest := start;
      while rest.Push? && (rest.top.Cond? || rest.top.Loop?)
        invariant FindMethod(start) == Add(m, FindMethod(rest))
        decreases rest
      {
        rest := rest.below;
        m := m + 1;
      }
      if rest.Empty? {
        r := Nowhere;
      } else if rest.top.Method? {
        r := Found(m, rest.top.want);
      } else {
        r := Blocked;
      }
    }

    /** Pops n conditions and loops with their blocks. */
    method Unwind(n: nat) returns (stop: Option<Why>)
      modifies this`stk, this`blk
      ensures match PopNested(n, old(stk), old(blk))
              case Broken(c) => stop == Some(Check(c))
              case Unwound(stk', blk') => stop == None && stk == stk' && blk == blk'
    {
      var i := 0;
      while i < n
        invariant 0 <= i <= n
        invariant PopNested(n, old(stk), old(blk)) == PopNested(n - i, stk, blk)
      {
        if stk.Empty? || !(stk.top.Cond? || stk.top.Loop?) { return Some(Check(UnwindKind)); }
        if blk.Empty? { return Some(Check(PopEmpty)); }
        blk := blk.below;
        stk := stk.below;
        i := i + 1;
      }
      stop := None;
    }

    method Break() returns (stop: Option<Why>)
      modifies this`stk, this`blk
      ensures Follows(ParseBreak(old(Snapshot())), stop)
    {
      var r := SearchLoop();
      match r
      case Nowhere => stop := Some(Panic(OutsideLoop));
      case Blocked => stop := Some(Panic(CannotSkip));
      case Found(m, _) => stop := Unwind(m + 1);
    }

    method Continue() returns (stop: Option<Why>)
      modifies this`stk, this`blk
      ensures Follows(ParseContinue(old(Snapshot())), stop)
    {
      var r := SearchLoop();
      match r
      case Nowhere => stop := Some(Panic(OutsideLoop));
      case Blocked => stop := Some(Panic(CannotSkip));
      case Found(m, _) => stop := Unwind(m);
    }

    method OpenIf(opPc: nat, pc: nat) returns (stop: Option<Why>)
      requires ctx.Push? && blk.Push?
      modifies this`stk, this`blk
      ensures Follows(ParseIf(old(Snapshot()), opPc, pc), stop)
    {
      var code, limit := ctx.top.code, blk.top.limit;
      var size := ParseVarint(code, pc, limit);
      if size.NoParse? { return Some(Failed(ExecutionFailure)); }
      var end := opPc + 1 + size.value;
      var next := end;
      var it := Cond(|ops|, false, false, 0, end + 1);
      if end < limit && Fetch(code, end) == 0xA1 {
        var elseSize := ParseVarint(code, end + 1, limit);
        if elseSize.NoParse? { return Some(Failed(ExecutionFailure)); }
        next := end + 1 + elseSize.value;
        it := Cond(|ops|, false, true, elseSize.pc, next);
      }
      CommitPc(next);
      PushBlock(size.pc, end);
      PushItem(it);
      stop := None;
    }

    method OpenWhile(opPc: nat, pc: nat) returns (stop: Option<Why>)
      requires ctx.Push? && blk.Push?
      modifies this`stk, this`blk
      ensures Follows(ParseWhile(old(Snapshot()), opPc, pc), stop)
    {
      var size := ParseVarint(ctx.top.code, pc, blk.top.limit);
      if size.NoParse? { return Some(Failed(ExecutionFailure)); }
      var end := opPc + 1 + size.value;
      CommitPc(end);
      PushBlock(size.pc, end);
      PushItem(Loop(|ops|, false, size.pc));
      stop := None;
    }

    /** Continues with the world of a host operation, delivering its value. */
    method TakeEffect(want: bool, e: Effect<Value>) returns (stop: Option<Why>)
      modifies this`ops, this`w
      ensures Follows(EffectValue(old(Snapshot()), want, e), stop)
    {
      match e
      case Did(v, w', _) =>
        Deliver(want, v);
        w := w';
        stop := None;
      case Refused(why) => stop := Some(Failed(why));
      case Panicked => stop := Some(Panic(HostPanic));
    }

    method PushConstant(mode: Mode, v: Value) returns (stop: Option<Why>)
      modifies this`ops
      ensures Follows(Constant(mode, old(Snapshot()), v), stop)
    {
      if mode.Data? || mode.Object? {
        ops := ops + [Obj(v)];
      } else if !mode.Exec? {
        return Some(Panic(BadMode));
      }
      stop := None;
    }

    /** The immediate modes: a little-endian number of n bytes. */
    method PushImmediate(n: nat) returns (stop: Option<Why>)
      requires ctx.Push? && blk.Push? && n <= 8
      modifies this`blk, this`ops
      ensures Follows(ParseImmediate(old(Snapshot()), n), stop)
    {
      var b := blk.top;
      var r := ParseInt(ctx.top.code, b.pc, b.limit, n);
      if r.NoParse? { return Some(Failed(ExecutionFailure)); }
      BoundedLittleEndian(Slice(ctx.top.code, b.pc, n));
      CommitPc(r.pc);
      ops := ops + [Obj(Int(r.value))];
      stop := None;
    }

    /** A name: an unresolved name, a node, the value of an object, or a call. */
    method ReadName(mode: Mode) returns (stop: Option<Why>)
      requires ctx.Push? && blk.Push?
      modifies this`blk, this`stk, this`ops, this`w
      ensures Follows(ParseName(H, mode, old(Snapshot())), stop)
    {
      var c, pc := ctx.top, blk.top.pc;
      var n := NameLength(c.code, pc);
      if n.None? { return Some(Panic(BadName)); }
      var name := Slice(c.code, pc, n.value);
      CommitPc(pc + n.value);
      if mode.Data? {
        stop := TakeEffect(true, H.newString(w, name));
      } else if !Resolves(mode) {
        ops := ops + [Unresolved(c.handle, name)];
        stop := None;
      } else {
        stop := UseNode(mode, H.resolve(w, c.handle, name));
      }
    }

    method UseNode(mode: Mode, found: Lookup) returns (stop: Option<Why>)
      modifies this`stk, this`ops, this`w
      ensures Follows(ParseResolved(H, mode, old(Snapshot()), found), stop)
    {
      stop := None;
      match found
      case Missing =>
        if !mode.OptReference? { return Some(Failed(UnexpectedResult)); }
        ops := ops + [Resolved(None)];
      case MethodNode(h, argc) =>
        if Invokes(mode) { PushItem(Invoke(|ops|, argc % 8, WantsResult(mode))); }
        ops := ops + [Resolved(Some(h))];
      case ObjectNode(h) =>
        if Invokes(mode) {
          stop := TakeEffect(WantsResult(mode), H.access(w, h));
        } else {
          ops := ops + [Resolved(Some(h))];
        }
    }

    method OpenAggregate(mode: Mode, opPc: nat, pc: nat, package: bool) returns (stop: Option<Why>)
      requires ctx.Push? && blk.Push?
      modifies this`stk, this`blk, this`ops
      ensures Follows(ParseAggregate(mode, old(Snapshot()), opPc, pc, package), stop)
    {
      var size := ParseVarint(ctx.top.code, pc, blk.top.limit);
      if size.NoParse? { return Some(Failed(ExecutionFailure)); }
      var end := opPc + 1 + size.value;
      CommitPc(end);
      PushBlock(size.pc, end);
      if package {
        PushItem(Package(|ops|, 0, 0, WantsResult(mode)));
        ops := ops + [Obj(Uninit)];
      } else {
        PushItem(Buffer(|ops|, WantsResult(mode)));
      }
      stop := None;
    }

    method PushVariable(mode: Mode, o: Operand) returns (stop: Option<Why>)
      requires ctx.Push? && IsVariable(o)
      modifies this`ops
      ensures Follows(ParseVariable(mode, old(Snapshot()), o), stop)
    {
      if mode.Reference? || mode.OptReference? {
        ops := ops + [o];
      } else if !mode.Object? {
        return Some(Panic(BadMode));
      } else if ctx.top.inv.None? {
        return Some(Panic(NoInvocation));
      } else {
        ops := ops + [Obj(ReadVariable(ctx.top.inv.value.env, o))];
      }
      stop := None;
    }

    method OpenScope(opcode: nat) returns (stop: Option<Why>)
      requires ctx.Push? && blk.Push?
      modifies this
      ensures Follows(ParseScope(H, old(Snapshot()), opcode), stop)
    {
      var c := ctx.top;
      match H.openScope(w, opcode, c, blk.top)
      case Did(v, w', inv) =>
        CommitPc(v.endPc);
        PushBlock(v.bodyPc, v.endPc);
        ctx := Push(Ctx(c.code, v.handle, None), Push(c.(inv := inv), ctx.below));
        PushItem(Populate);
        w := w';
        stop := None;
      case Refused(why) => stop := Some(Failed(why));
      case Panicked => stop := Some(Panic(HostPanic));
    }

    method OpenBank() returns (stop: Option<Why>)
      requires ctx.Push? && blk.Push?
      modifies this
      ensures Follows(ParseBank(H, old(Snapshot())), stop)
    {
      match H.openBank(w, ctx.top, blk.top)
      case Did(v, w', _) =>
        CommitPc(v.endPc);
        PushBlock(v.bodyPc, v.endPc);
        PushItem(BankField(|ops|));
        ops := ops + [Resolved(Some(v.region))];
        ops := ops + [Resolved(Some(v.bank))];
        w := w';
        stop := None;
      case Refused(why) => stop := Some(Failed(why));
      case Panicked => stop := Some(Panic(HostPanic));
    }

    method PushString(mode: Mode, pc: nat) returns (stop: Option<Why>)
      requires ctx.Push? && blk.Push?
      modifies this`blk, this`ops, this`w
      ensures Follows(ParseString(H, mode, old(Snapshot()), pc), stop)
    {
      var code, limit := ctx.top.code, blk.top.limit;
      var n := StringLength(code, pc, limit);
      if pc + n >= limit { return Some(Panic(UnterminatedString)); }
      CommitPc(pc + n + 1);
      if mode.Data? || mode.Object? {
        stop := TakeEffect(true, H.newString(w, Slice(code, pc, n)));
      } else {
        stop := PushConstant(mode, Uninit);
      }
    }

    method Declare(opcode: nat) returns (stop: Option<Why>)
      requires ctx.Push? && blk.Push? && IsDeclaration(opcode)
      modifies this
      ensures var s, e := old(Snapshot()), H.declare(old(w), opcode, old(ctx).top, old(blk).top);
        Follows(if e.Did? then Go(SetInv(SetPc(s, e.value), e.inv).(w := e.w)) else Stop(Fails(e)),
                stop)
    {
      match H.declare(w, opcode, ctx.top, blk.top)
      case Did(pc, w', inv) =>
        CommitPc(pc);
        ctx := Push(ctx.top.(inv := inv), ctx.below);
        w := w';
        stop := None;
      case Refused(why) => stop := Some(Failed(why));
      case Panicked => stop := Some(Panic(HostPanic));
    }

    /** The opcodes of constants, strings and variables; pc is the address behind the opcode. */
    method ReadData(mode: Mode, opcode: nat, pc: nat) returns (stop: Option<Why>)
      requires ctx.Push? && blk.Push? && IsData(opcode)
      modifies this`blk, this`ops, this`w
      ensures Follows(ParseOpcode(H, mode, old(Snapshot()), opcode, pc), stop)
    {
      if opcode == 0x0D {
        stop := PushString(mode, pc);
        return;
      }
      if ConstWidth(opcode).Some? {
        stop := ReadConstant(mode, ConstWidth(opcode).value, pc);
        return;
      }
      CommitPc(pc);
      if opcode == 0x00 && (mode.Reference? || mode.OptReference?) {
        ops := ops + [NullName];
        stop := None;
      } else if opcode == 0x5B31 {
        if !mode.Reference? && !mode.OptReference? { return Some(Panic(BadMode)); }
        ops := ops + [DebugName];
        stop := None;
      } else if 0x60 <= opcode <= 0x67 {
        stop := PushVariable(mode, LocalName(opcode - 0x60));
      } else if 0x68 <= opcode <= 0x6E {
        stop := PushVariable(mode, ArgName(opcode - 0x68));
      } else if opcode == 0x5B33 {
        var time := H.timer(w);
        if (mode.Data? || mode.Object?) && time.None? { return Some(Panic(NoTimer)); }
        stop := PushConstant(mode, if time.Some? then Int(time.value) else Uninit);
      } else {
        stop := PushConstant(mode, if opcode == 0x00 then Int(0) else if opcode == 0x01 then Int(1)
                                   else if opcode == 0xFF then Int(ONES) else Int(0x2020_0712));
      }
    }

    method ReadConstant(mode: Mode, n: nat, pc: nat) returns (stop: Option<Why>)
      requires ctx.Push? && blk.Push? && n <= 8
      modifies this`blk, this`ops
      ensures var s := old(Snapshot());
        var r := ParseInt(s.ctx.top.code, pc, s.blk.top.limit, n);
        if r.NoParse? then stop == Some(Failed(ExecutionFailure))
        else r.value <= ONES && Follows(Constant(mode, SetPc(s, r.pc), Int(r.value)), stop)
    {
      var r := ParseInt(ctx.top.code, pc, blk.top.limit, n);
      if r.NoParse? { return Some(Failed(ExecutionFailure)); }
      BoundedLittleEndian(Slice(ctx.top.code, pc, n));
      CommitPc(r.pc);
      stop := PushConstant(mode, Int(r.value));
    }

    /** The opcode switch of lai_exec_parse; pc is the address behind the opcode. */
    method ReadOpcode(mode: Mode, opcode: nat, pc: nat) returns (stop: Option<Why>)
      requires ctx.Push? && blk.Push?
      modifies this
      ensures Follows(ParseOpcode(H, mode, old(Snapshot()), opcode, pc), stop)
    {
      var opPc := blk.top.pc;
      if IsData(opcode) {
        stop := ReadData(mode, opcode, pc);
      } else if opcode == 0x11 || opcode == 0x12 {
        stop := OpenAggregate(mode, opPc, pc, opcode == 0x12);
      } else if opcode == 0xA2 {
        stop := OpenWhile(opPc, pc);
      } else if opcode == 0xA0 {
        stop := OpenIf(opPc, pc);
      } else if opcode == 0x9F {
        stop := Continue();
      } else if opcode == 0xA5 {
        stop := Break();
      } else if IsScope(opcode) {
        stop := OpenScope(opcode);
      } else if IsDeclaration(opcode) {
        stop := Declare(opcode);
      } else if opcode == 0x5B87 {
        stop := OpenBank();
      } else {
        stop := OpenItem(mode, opcode, pc);
      }
    }

    /** The opcodes that evaluate operands, and those that do nothing or are refused. */
    method OpenItem(mode: Mode, opcode: nat, pc: nat) returns (stop: Option<Why>)
      requires ctx.Push? && blk.Push? && !IsData(opcode) && !IsScope(opcode)
      requires !IsDeclaration(opcode)
      requires opcode !in {0x11, 0x12, 0xA2, 0xA0, 0x9F, 0xA5, 0x5B87}
      modifies this`blk, this`stk
      ensures Follows(ParseOpcode(H, mode, old(Snapshot()), opcode, pc), stop)
    {
      if opcode == 0x13 { return Some(Panic(Unmodelled)); }
      if opcode == 0xA1 { return Some(Panic(ElseWithoutIf)); }
      CommitPc(pc);
      stop := None;
      if opcode == 0xA3 || opcode == 0xCC {
      } else if opcode == 0xA4 {
        PushItem(Return(|ops|));
      } else if OpModes(opcode).Some? {
        PushItem(Op(|ops|, opcode, OpModes(opcode).value, WantsResult(mode)));
      } else if NodeModes(opcode).Some? {
        PushItem(Node(|ops|, opcode, NodeModes(opcode).value));
      } else {
        stop := Some(Panic(UnexpectedOpcode));
      }
    }

    /** lai_exec_parse. */
    method Parse(mode: Mode) returns (stop: Option<Why>)
      requires ctx.Push? && blk.Push?
      modifies this
      ensures Follows(AmlMachine.Parse(H, mode, old(Snapshot())), stop)
    {
      var code, pc, limit := ctx.top.code, blk.top.pc, blk.top.limit;
      var b := Fetch(code, pc);
      if pc >= limit {
        stop := Some(Panic(EscapedCode));
      } else if IsImmediate(mode) {
        stop := PushImmediate(if mode.ImmByte? then 1 else if mode.ImmWord? then 2 else 4);
      } else if IsName(b) {
        stop := ReadName(mode);
      } else if b != 0x5B {
        stop := ReadOpcode(mode, b, pc + 1);
      } else if pc + 1 == limit {
        stop := Some(Panic(SplitOpcode));
      } else {
        stop := ReadOpcode(mode, 0x5B00 + Fetch(code, pc + 1), pc + 2);
      }
    }

    method ProcessPopulate() returns (stop: Option<Why>)
      requires stk.Push? && stk.top.Populate? && ctx.Push? && blk.Push?
      modifies this
      ensures Follows(AmlMachine.ProcessPopulate(H, old(Snapshot())), stop)
    {
      if blk.top.pc != blk.top.limit {
        stop := Parse(Exec);
      } else {
        blk := blk.below;
        ctx := ctx.below;
        stk := stk.below;
        stop := None;
      }
    }

    method ProcessBuffer() returns (stop: Option<Why>)
      requires stk.Push? && stk.top.Buffer? && ctx.Push? && blk.Push?
      requires blk.top.pc <= blk.top.limit
      modifies this
      ensures Follows(AmlMachine.ProcessBuffer(H, old(Snapshot())), stop)
    {
      var it, b := stk.top, blk.top;
      if |ops| > it.frame + 1 { return Some(Check(TooManyOperands)); }
      if |ops| != it.frame + 1 {
        stop := Parse(Object);
        return;
      }
      if !ops[it.frame].Obj? { return Some(Check(OperandTag)); }
      var size := ops[it.frame].value;
      ops := ops[..it.frame];
      var e := H.newBuffer(w, size, Slice(ctx.top.code, b.pc, b.limit - b.pc));
      blk := blk.below;
      stk := stk.below;
      stop := TakeEffect(it.want, e);
    }

    method ProcessPackage() returns (stop: Option<Why>)
      requires stk.Push? && stk.top.Package? && ctx.Push? && blk.Push?
      modifies this
      ensures Follows(AmlMachine.ProcessPackage(H, old(Snapshot())), stop)
    {
      var it := stk.top;
      if it.frame >= |ops| { return Some(Check(MissingOperand)); }
      if it.phase == 0 {
        var before := stk;
        stop := Parse(ImmByte);
        if stop == None && stk == before { stk := Push(it.(phase := 1), before.below); }
      } else if it.phase == 1 {
        stop := CreatePackage();
      } else {
        if |ops| == it.frame + 2 {
          stop := StoreElement();
          if stop != None { return; }
        }
        stop := EndPackage();
      }
    }

    /** The size of the package has been evaluated. */
    method CreatePackage() returns (stop: Option<Why>)
      requires stk.Push? && stk.top.Package? && ctx.Push? && blk.Push?
      requires stk.top.phase == 1 && stk.top.frame < |ops|
      modifies this
      ensures Follows(AmlMachine.ProcessPackage(H, old(Snapshot())), stop)
    {
      var it := stk.top;
      match ObjAt(ops, it.frame + 1)
      case Missed(c) => stop := Some(Check(c));
      case Got(size) =>
        if GetInt(size).Bad? { return Some(GetInt(size).why); }
        match H.newPackage(w, size.n)
        case Refused(why) => stop := Some(Failed(why));
        case Panicked => stop := Some(Panic(HostPanic));
        case Did(pkg, w', _) =>
          ops := ops[..|ops| - 1];
          if it.frame >= |ops| { return Some(Check(MissingOperand)); }
          ops := ops[it.frame := Obj(pkg)];
          stk := Push(it.(phase := 2), stk.below);
          w := w';
          stop := None;
    }

    /** An element of the package has been evaluated; the rest of the turn is EndPackage. */
    method StoreElement() returns (stop: Option<Why>)
      requires stk.Push? && stk.top.Package? && ctx.Push? && blk.Push?
      requires stk.top.phase != 0 && stk.top.phase != 1 && |ops| == stk.top.frame + 2
      modifies this`stk, this`ops, this`w
      ensures stk.Push? && stk.top.Package?
      ensures AmlMachine.ProcessPackage(H, old(Snapshot()))
              == if stop == None then FinishPackage(H, Snapshot()) else Stop(stop.value)
    {
      var it := stk.top;
      var pkg, init := ObjAt(ops, it.frame), ObjAt(ops, it.frame + 1);
      if pkg.Missed? || init.Missed? { return Some(Check(OperandTag)); }
      if it.index >= H.packageSize(w, pkg.value) { return Some(Panic(PackageOverflow)); }
      w := H.packageStore(w, init.value, pkg.value, it.index);
      stk := Push(it.(index := it.index + 1), stk.below);
      ops := ops[..|ops| - 1];
      stop := None;
    }

    method EndPackage() returns (stop: Option<Why>)
      requires stk.Push? && stk.top.Package? && ctx.Push? && blk.Push?
      modifies this
      ensures Follows(FinishPackage(H, old(Snapshot())), stop)
    {
      var it := stk.top;
      if |ops| != it.frame + 1 { return Some(Check(PackageShape)); }
      if blk.top.pc != blk.top.limit {
        stop := Parse(Data);
      } else {
        if !it.want { ops := ops[..it.frame]; }
        blk := blk.below;
        stk := stk.below;
        stop := None;
      }
    }

    method ProcessNode() returns (stop: Option<Why>)
      requires stk.Push? && stk.top.Node? && ctx.Push? && blk.Push?
      modifies this
      ensures Follows(AmlMachine.ProcessNode(H, old(Snapshot())), stop)
    {
      var it := stk.top;
      var k := |ops| - it.frame;
      if !(0 <= k <= |it.modes|) { return Some(Check(ModeIndex)); }
      if k < |it.modes| {
        stop := Parse(it.modes[k]);
        return;
      }
      var e := H.reduceNode(w, it.opcode, ctx.top, ops[it.frame..]);
      if e.Panicked? { return Some(Panic(HostPanic)); }
      ops := ops[..it.frame];
      stk := stk.below;
      if e.Did? {
        ctx := Push(ctx.top.(inv := e.inv), ctx.below);
        w := e.w;
      }
      stop := None;
    }

    method ProcessBank() returns (stop: Option<Why>)
      requires stk.Push? && stk.top.BankField? && ctx.Push? && blk.Push?
      modifies this
      ensures Follows(AmlMachine.ProcessBank(H, old(Snapshot())), stop)
    {
      var it := stk.top;
      if |ops| > it.frame + 3 { return Some(Check(TooManyOperands)); }
      if |ops| != it.frame + 3 {
        stop := Parse(Object);
        return;
      }
      var r, b := ops[it.frame], ops[it.frame + 1];
      if !(r.Resolved? && r.handle.Some? && b.Resolved? && b.handle.Some?) {
        return Some(Check(MethodTag));
      }
      if !ops[it.frame + 2].Obj? { return Some(Check(OperandTag)); }
      var v := ops[it.frame + 2].value;
      if GetInt(v).Bad? { return Some(GetInt(v).why); }
      match H.bankFields(w, ctx.top, r.handle.value, b.handle.value, v.n, blk.top)
      case Refused(why) => stop := Some(Failed(why));
      case Panicked => stop := Some(Panic(HostPanic));
      case Did(_, w', inv) =>
        ops := ops[..it.frame];
        blk := blk.below;
        stk := stk.below;
        ctx := Push(ctx.top.(inv := inv), ctx.below);
        w := w';
        stop := None;
    }

    method ProcessLoop() returns (stop: Option<Why>)
      requires stk.Push? && stk.top.Loop? && ctx.Push? && blk.Push?
      modifies this
      ensures Follows(AmlMachine.ProcessLoop(H, old(Snapshot())), stop)
    {
      var it := stk.top;
      if it.iterating {
        if blk.top.pc != blk.top.limit {
          stop := Parse(Exec);
        } else {
          stk := Push(it.(iterating := false), stk.below);
          CommitPc(it.pred);
          stop := None;
        }
      } else if |ops| > it.frame + 1 {
        stop := Some(Check(TooManyOperands));
      } else if |ops| != it.frame + 1 {
        stop := Parse(Object);
      } else if !ops[it.frame].Obj? {
        stop := Some(Check(OperandTag));
      } else {
        var v := ops[it.frame].value;
        ops := ops[..it.frame];
        if GetInt(v).Bad? { return Some(GetInt(v).why); }
        if v.n != 0 {
          stk := Push(it.(iterating := true), stk.below);
        } else {
          blk := blk.below;
          stk := stk.below;
        }
        stop := None;
      }
    }

    method ProcessCond() returns (stop: Option<Why>)
      requires stk.Push? && stk.top.Cond? && ctx.Push? && blk.Push?
      modifies this
      ensures Follows(AmlMachine.ProcessCond(H, old(Snapshot())), stop)
    {
      var it := stk.top;
      if it.branch {
        if blk.top.pc != blk.top.limit {
          stop := Parse(Exec);
        } else {
          blk := blk.below;
          stk := stk.below;
          stop := None;
        }
      } else if |ops| > it.frame + 1 {
        stop := Some(Check(TooManyOperands));
      } else if |ops| != it.frame + 1 {
        stop := Parse(Object);
      } else if !ops[it.frame].Obj? {
        stop := Some(Check(OperandTag));
      } else {
        var v := ops[it.frame].value;
        ops := ops[..it.frame];
        if GetInt(v).Bad? { return Some(GetInt(v).why); }
        if v.n != 0 {
          stk := Push(it.(branch := true), stk.below);
        } else if it.hasElse {
          stk := Push(it.(branch := true), stk.below);
          blk := Push(Blk(it.elsePc, it.elseLimit), blk.below);
        } else {
          blk := blk.below;
          stk := stk.below;
        }
        stop := None;
      }
    }

    method ProcessMethod() returns (stop: Option<Why>)
      requires stk.Push? && stk.top.Method? && ctx.Push? && blk.Push?
      modifies this
      ensures Follows(AmlMachine.ProcessMethod(H, old(Snapshot())), stop)
    {
      if blk.top.pc != blk.top.limit {
        stop := Parse(Exec);
      } else if ops != [] {
        stop := Some(Panic(OperandsBeforeReturn));
      } else {
        Deliver(stk.top.want, Int(0));
        w := Cleanup(H, w, ctx.top.inv);
        blk := blk.below;
        ctx := ctx.below;
        stk := stk.below;
        stop := None;
      }
    }

    method ProcessReturn() returns (stop: Option<Why>)
      requires stk.Push? && stk.top.Return? && ctx.Push? && blk.Push?
      modifies this
      ensures Follows(AmlMachine.ProcessReturn(H, old(Snapshot())), stop)
    {
      var it := stk.top;
      if |ops| > it.frame + 1 { return Some(Check(TooManyOperands)); }
      if |ops| != it.frame + 1 {
        stop := Parse(Object);
        return;
      }
      if !ops[it.frame].Obj? { return Some(Check(OperandTag)); }
      var v := ops[it.frame].value;
      ops := ops[..it.frame];
      var found := SearchMethod(stk.below);
      if found.Nowhere? { return Some(Panic(OutsideMethod)); }
      if found.Blocked? { return Some(Panic(CannotSkip)); }
      Deliver(found.want, v);
      w := Cleanup(H, w, ctx.top.inv);
      stk := stk.below;
      stop := Unwind(found.depth);
      if stop != None { return; }
      if stk.Empty? || blk.Empty? { return Some(Check(PopEmpty)); }
      ctx := ctx.below;
      blk := blk.below;
      stk := stk.below;
    }

    method ProcessOp() returns (stop: Option<Why>)
      requires stk.Push? && stk.top.Op? && ctx.Push? && blk.Push?
      modifies this
      ensures Follows(AmlMachine.ProcessOp(H, old(Snapshot())), stop)
    {
      var it := stk.top;
      var k := |ops| - it.frame;
      if !(0 <= k <= |it.modes|) { return Some(Check(ModeIndex)); }
      if k < |it.modes| {
        stop := Parse(it.modes[k]);
        return;
      }
      match ReduceOp(H, it.opcode, w, ctx.top.inv, ops[it.frame..])
      case Halted(why) => stop := Some(why);
      case Reduced(v, w', inv) =>
        ctx := Push(ctx.top.(inv := inv), ctx.below);
        ops := ops[..it.frame];
        Deliver(it.want, v);
        stk := stk.below;
        w := w';
        stop := None;
    }

    /** Calls a method once its name and its arguments are on the operand stack. */
    method ProcessInvoke() returns (stop: Option<Why>)
      requires stk.Push? && stk.top.Invoke? && ctx.Push? && blk.Push?
      modifies this
      ensures Follows(AmlMachine.ProcessInvoke(H, old(Snapshot())), stop)
    {
      var it := stk.top;
      var k := |ops| - it.frame;
      if k > it.argc + 1 { return Some(Check(TooManyOperands)); }
      if k != it.argc + 1 {
        stop := Parse(Object);
        return;
      }
      var call := ops[it.frame];
      var operands := ops[it.frame + 1..];
      if !(call.Resolved? && call.handle.Some?) { return Some(Check(MethodTag)); }
      if !AllObj(operands, |operands|) { return Some(Check(OperandTag)); }
      var m := H.methodInfo(w, call.handle.value);
      var args := Arguments(operands);
      ops := ops[..it.frame];
      stk := stk.below;
      stop := None;
      if m.overridden {
        stop := TakeEffect(it.want, H.osMethod(w, call.handle.value, args));
      } else {
        var inv := Invocation(Env(args, NO_LOCALS), []);
        ctx := Push(Ctx(m.code, call.handle.value, Some(inv)), ctx);
        PushBlock(0, m.size);
        PushItem(Method(it.want));
      }
    }

    /** One turn of the main loop. */
    method Process() returns (stop: Option<Why>)
      requires stk.Push?
      modifies this
      ensures Follows(AmlMachine.Process(H, old(Snapshot())), stop)
    {
      if ctx.Empty? { return Some(Check(NoContext)); }
      if blk.Empty? { return Some(Check(NoBlock)); }
      if blk.top.pc > blk.top.limit { return Some(Panic(EscapedCode)); }
      match stk.top
      case Method(_) => stop := ProcessMethod();
      case Op(_, _, _, _) => stop := ProcessOp();
      case Invoke(_, _, _) => stop := ProcessInvoke();
      case Return(_) => stop := ProcessReturn();
      case Loop(_, _, _) => stop := ProcessLoop();
      case Cond(_, _, _, _, _) => stop := ProcessCond();
      case Populate => stop := ProcessPopulate();
      case Buffer(_, _) => stop := ProcessBuffer();
      case Package(_, _, _, _) => stop := ProcessPackage();
      case Node(_, _, _) => stop := ProcessNode();
      case BankField(_) => stop := ProcessBank();
    }

    /** lai_exec_run, cut off after a number of turns.  From aligned stacks it stays aligned,
        never fails an internal assertion, and ends as the machine does. */
    method Run(turns: nat, ghost step: State -> Outcome, ghost root: bool)
      returns (stop: Option<Why>)
      requires IsStep(step, H) && Aligned(root, Snapshot())
      modifies this
      ensures Follows(AmlMachine.Run(step, turns, old(Snapshot())), stop)
      ensures stop == None ==> Aligned(root, Snapshot())
      ensures stop != None ==> !stop.value.Check?
    {
      var i := 0;
      ghost var s0 := Snapshot();
      stop := None;
      while i < turns && stk.Push?
        invariant 0 <= i <= turns && stop == None && Aligned(root, Snapshot())
        invariant AmlMachine.Run(step, turns, s0) == AmlMachine.Run(step, turns - i, Snapshot())
      {
        ghost var s := Snapshot();
        RunTurn(root, H, step, turns - i, s);
        stop := Process();
        if stop != None { return; }
        i := i + 1;
      }
    }
  }

  /** One turn of a run, together with what it keeps. */
  lemma RunTurn(root: bool, H: Host, step: State -> Outcome, n: nat, s: State)
    requires IsStep(step, H) && Aligned(root, s) && s.stk.Push? && n > 0
    ensures match AmlMachine.Process(H, s)
            case Go(t) => Aligned(root, t)
                          && AmlMachine.Run(step, n, s) == AmlMachine.Run(step, n - 1, t)
            case Stop(why) => !why.Check? && AmlMachine.Run(step, n, s) == Stop(why)
  {
    assert Turn(s);
    TurnKeepsAlignment(root, H, s);
  }

  /** Searching deeper by m items. */
  function Add(m: nat, r: Search): Search {
    if r.Found? then r.(depth := r.depth + m) else r
  }
}
