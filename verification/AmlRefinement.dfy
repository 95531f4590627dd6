/** The stack machine computes what the recursive evaluator says.

For every program of the fragment, however its constants and package lengths are encoded, the
machine and the evaluator terminate on the same inputs and with the same verdict: the same
value, the same error or the same panic.
*/
module AmlRefinement {
  import opened Wrappers
  import opened AmlMachine
  import opened AmlAlignment
  import S = AmlSyntax

  // ---------------------------------------------------------------------------------------
  // Code in memory
  // ---------------------------------------------------------------------------------------

  predicate CodeAt(code: seq<byte>, pc: nat, bs: seq<byte>) {
    pc + |bs| <= |code| && code[pc..pc + |bs|] == bs
  }

  lemma CodeSplit(code: seq<byte>, pc: nat, a: seq<byte>, b: seq<byte>)
    requires CodeAt(code, pc, a + b)
    ensures CodeAt(code, pc, a) && CodeAt(code, pc + |a|, b)
  {
    var c := code[pc..pc + |a + b|];
    assert c[..|a|] == a && c[|a|..] == b;
  }

  lemma CodeByte(code: seq<byte>, pc: nat, bs: seq<byte>, i: nat)
    requires CodeAt(code, pc, bs) && i < |bs|
    ensures Fetch(code, pc + i) == bs[i]
  {
    assert code[pc..pc + |bs|][i] == code[pc + i];
  }

  lemma CodeSlice(code: seq<byte>, pc: nat, bs: seq<byte>)
    requires CodeAt(code, pc, bs)
    ensures Slice(code, pc, |bs|) == bs
  {
    forall i | 0 <= i < |bs| ensures Slice(code, pc, |bs|)[i] == bs[i] {
      CodeByte(code, pc, bs, i);
    }
  }

  lemma {:induction false} BytesDecode(n: nat, k: nat)
    requires n < S.Power256(k)
    ensures LittleEndian(S.Bytes(n, k)) == n
  {
    if k > 0 {
      BytesDecode(n / 256, k - 1);
      assert S.Bytes(n, k)[1..] == S.Bytes(n / 256, k - 1);
    }
  }

  lemma ConstDecode(code: seq<byte>, pc: nat, limit: nat, n: nat, k: nat)
    requires n < S.Power256(k) && CodeAt(code, pc, S.Bytes(n, k)) && pc + k <= limit
    ensures ParseInt(code, pc, limit, k) == Parsed(n, pc + k)
  {
    CodeSlice(code, pc, S.Bytes(n, k));
    BytesDecode(n, k);
  }

  /** The bytes of a package length, the lower digits first. */
  lemma PkgBytes(k: nat, n: nat)
    requires S.PkgFits(k, n) && k > 1
    ensures var p, t := S.PkgLength(k, n), n + k;
      && p[0] == 64 * (k - 1) + t % 16 && p[1] == t / 16 % 256
      && (k >= 3 ==> p[2] == t / 16 / 256 % 256)
      && (k == 4 ==> p[3] == t / 16 / 256 / 256 % 256)
  {
    var p, t := S.PkgLength(k, n), n + k;
    assert p[1..] == S.Bytes(t / 16, k - 1);
    assert p[1] == p[1..][0];
    if k >= 3 { assert p[2] == p[1..][1] == S.Bytes(t / 16 / 256, k - 2)[0]; }
    if k == 4 {
      assert p[3] == p[1..][2] == S.Bytes(t / 16 / 256, 2)[1]
                  == S.Bytes(t / 16 / 256 / 256, 1)[0];
    }
  }

  /** Package lengths decode to the length of the package, themselves included. */
  lemma PkgDecode(code: seq<byte>, pc: nat, limit: nat, k: nat, n: nat)
    requires S.PkgFits(k, n) && CodeAt(code, pc, S.PkgLength(k, n)) && pc + k <= limit
    ensures ParseVarint(code, pc, limit) == Parsed(n + k, pc + k)
  {
    var p := S.PkgLength(k, n);
    CodeByte(code, pc, p, 0);
    if k > 1 {
      PkgBytes(k, n);
      CodeByte(code, pc, p, 1);
      if k >= 3 { CodeByte(code, pc, p, 2); }
      if k == 4 { CodeByte(code, pc, p, 3); }
      PkgNumber(n + k, k);
    }
  }

  /** The number that the bytes of a package length make up. */
  lemma PkgNumber(t: nat, k: nat)
    requires t < if k == 2 then 0x1000 else if k == 3 then 0x10_0000 else 0x1000_0000
    ensures k == 2 ==> t % 16 + 16 * (t / 16 % 256) == t
    ensures k == 3 ==> t % 16 + 16 * (t / 16 % 256) + 4096 * (t / 16 / 256 % 256) == t
    ensures k == 4 ==> t % 16 + 16 * (t / 16 % 256) + 4096 * (t / 16 / 256 % 256)
                       + 1048576 * (t / 16 / 256 / 256 % 256) == t
  {
  }

  // ---------------------------------------------------------------------------------------
  // States of a run
  // ---------------------------------------------------------------------------------------

  /** A method of node h is running with no nodes of its own. */
  predicate InMethod(s: State, h: Handle) {
    && s.stk.Push? && s.ctx.Push? && s.blk.Push?
    && s.ctx.top.handle == h && s.ctx.top.inv.Some? && s.ctx.top.inv.value.nodes == []
    && S.PlainEnv(s.ctx.top.inv.value.env)
  }

  function EnvOf(s: State): Env
    requires s.ctx.Push? && s.ctx.top.inv.Some?
  {
    s.ctx.top.inv.value.env
  }

  function SetEnv(s: State, env: Env): State
    requires s.ctx.Push?
  {
    s.(ctx := s.ctx.(top := s.ctx.top.(inv := Some(Invocation(env, [])))))
  }

  /** s with the program counter, the variables and the operands replaced. */
  function After(s: State, pc: nat, env: Env, ops: seq<Operand>): State
    requires s.ctx.Push? && s.blk.Push?
  {
    SetPc(SetEnv(s, env), pc).(ops := ops)
  }

  /** The top item parses in the given mode at its next turn, from code that begins with bs. */
  predicate Wants(s: State, mode: Mode) {
    && s.stk.Push? && Frame(s.stk.top, |s.ops|) <= |s.ops|
    && NextMode(s.stk.top, Held(s)) == Some(mode)
  }

  predicate Ahead(code: seq<byte>, pc: nat, limit: nat, bs: seq<byte>) {
    CodeAt(code, pc, bs) && pc + |bs| <= limit
  }

  predicate CodeAhead(s: State, bs: seq<byte>) {
    && s.ctx.Push? && s.blk.Push?
    && Ahead(s.ctx.top.code, s.blk.top.pc, s.blk.top.limit, bs)
  }

  lemma AheadSplit(code: seq<byte>, pc: nat, limit: nat, a: seq<byte>, b: seq<byte>)
    requires Ahead(code, pc, limit, a + b)
    ensures Ahead(code, pc, limit, a) && Ahead(code, pc + |a|, limit, b)
  {
    CodeSplit(code, pc, a, b);
  }

  lemma WantsParses(H: Host, s: State, mode: Mode)
    requires Wants(s, mode) && s.ctx.Push? && s.blk.Push? && s.blk.top.pc < s.blk.top.limit
    ensures Process(H, s) == Parse(H, mode, s)
  {
  }

  // ---------------------------------------------------------------------------------------
  // Runs
  // ---------------------------------------------------------------------------------------

  /** n turns from s give the verdict r: the state t, the same stop, or n >= fuel turns. */
  ghost predicate Meets(step: State -> Outcome, n: nat, s: State, fuel: nat, r: S.EResult,
                        t: State)
  {
    match r
    case Val(_, _) => Run(step, n, s) == Go(t)
    case Abort(why) => Run(step, n, s) == Stop(why)
    case Fuel => n >= fuel && Running(Run(step, n, s))
  }

  /** The state after an expression: its value is pushed if wanted. */
  function Pushed(s: State, len: nat, want: bool, r: S.EResult): State
    requires s.ctx.Push? && s.blk.Push?
  {
    if r.Val? then
      After(s, s.blk.top.pc + len, r.env, if want then s.ops + [Obj(r.v)] else s.ops)
    else s
  }

  lemma OneTurn(H: Host, step: State -> Outcome, s: State)
    requires IsStep(step, H) && s.stk.Push?
    ensures Run(step, 1, s) == Process(H, s)
  {
    assert Turn(s);
    var r := step(s);
    assert r.Go? ==> Run(step, 0, r.s) == r;
  }

  /** Prefixing a verdict with n turns from s to s1. */
  lemma Prefix(step: State -> Outcome, n: nat, s: State, s1: State, m: nat, fuel: nat,
               r: S.EResult, t: State)
    requires Run(step, n, s) == Go(s1) && Meets(step, m, s1, fuel, r, t)
    ensures Meets(step, n + m, s, fuel, r, t)
  {
    RunCompose(step, n, m, s);
  }

  lemma Follow(step: State -> Outcome, n: nat, s: State, s1: State, m: nat)
    requires Run(step, n, s) == Go(s1)
    ensures Run(step, n + m, s) == Run(step, m, s1)
  {
    RunCompose(step, n, m, s);
  }

  // ---------------------------------------------------------------------------------------
  // Single turns of operators
  // ---------------------------------------------------------------------------------------

  /** A one-byte opcode ahead is handed to the opcode switch. */
  lemma OpcodeTurn(H: Host, s: State, mode: Mode, op: byte)
    requires Wants(s, mode) && (mode.Object? || mode.Exec? || mode.Reference?)
    requires CodeAhead(s, [op]) && !IsName(op) && op != 0x5B
    ensures Process(H, s) == ParseOpcode(H, mode, s, op, s.blk.top.pc + 1)
  {
    WantsParses(H, s, mode);
    CodeByte(s.ctx.top.code, s.blk.top.pc, [op], 0);
  }

  lemma OpcodeRuns(H: Host, step: State -> Outcome, s: State, mode: Mode, op: byte)
    requires IsStep(step, H) && Wants(s, mode) && (mode.Object? || mode.Exec? || mode.Reference?)
    requires CodeAhead(s, [op]) && !IsName(op) && op != 0x5B
    ensures Run(step, 1, s) == ParseOpcode(H, mode, s, op, s.blk.top.pc + 1)
  {
    OpcodeTurn(H, s, mode, op);
    OneTurn(H, step, s);
  }

  predicate IsOperator(op: byte) {
    IsArith(op) || IsLogic(op) || op in {0x70, 0x75, 0x76, 0x80, 0x92}
  }

  lemma OperatorOpcode(H: Host, s: State, mode: Mode, op: byte, pc: nat)
    requires s.ctx.Push? && s.blk.Push? && IsOperator(op)
    ensures OpModes(op).Some?
    ensures ParseOpcode(H, mode, s, op, pc)
         == Go(PushItem(SetPc(s, pc), Op(|s.ops|, op, OpModes(op).value, WantsResult(mode))))
  {
    OperatorModes(op);
    PlainOpcode(op);
  }

  lemma OperatorModes(op: byte)
    requires IsOperator(op)
    ensures 0x70 <= op <= 0x95 && OpModes(op).Some?
  {
  }

  lemma PlainOpcode(op: byte)
    requires 0x70 <= op <= 0x95
    ensures ConstWidth(op).None? && !IsScope(op) && !IsDeclaration(op)
  {
  }

  /** An operator of the fragment opens an Op item. */
  lemma OperatorOpens(H: Host, s: State, mode: Mode, op: byte)
    requires Wants(s, mode) && (mode.Object? || mode.Exec?) && CodeAhead(s, [op])
    requires IsOperator(op)
    ensures OpModes(op).Some?
    ensures Process(H, s) == Go(PushItem(SetPc(s, s.blk.top.pc + 1),
                                         Op(|s.ops|, op, OpModes(op).value, mode.Object?)))
  {
    assert op >= 0x70;
    OpcodeTurn(H, s, mode, op);
    OperatorOpcode(H, s, mode, op, s.blk.top.pc + 1);
  }

  /** An Op item whose operands so far are `vals`, above the operands `base`. */
  predicate Operating(s: State, base: seq<Operand>, vals: seq<Operand>) {
    s.stk.Push? && s.stk.top.Op? && s.stk.top.frame == |base| && s.ops == base + vals
  }

  lemma OperatorWants(s: State, base: seq<Operand>, vals: seq<Operand>)
    requires Operating(s, base, vals) && |vals| < |s.stk.top.modes|
    ensures Wants(s, s.stk.top.modes[|vals|])
  {
    assert s.ops[|base|..] == vals;
  }

  lemma TargetPushes(H: Host, s: State, base: seq<Operand>, vals: seq<Operand>, t: S.Target)
    requires Operating(s, base, vals) && |vals| < |s.stk.top.modes|
    requires s.stk.top.modes[|vals|] == Reference
    requires CodeAhead(s, [S.EncodeTarget(t)]) && S.TargetOk(t)
    ensures Process(H, s) == Go(PushOp(SetPc(s, s.blk.top.pc + 1), S.TargetOperand(t)))
  {
    OperatorWants(s, base, vals);
    WantsParses(H, s, Reference);
    CodeByte(s.ctx.top.code, s.blk.top.pc, [S.EncodeTarget(t)], 0);
  }

  /** The verdict of an operator, as the machine's reduction reports it. */
  function AsReduced(r: S.EResult, w: World): Reduced
    requires !r.Fuel?
  {
    if r.Val? then Reduced(r.v, w, Some(Invocation(r.env, []))) else Halted(r.why)
  }

  lemma OperatorReduces(H: Host, s: State, base: seq<Operand>, vals: seq<Operand>, r: S.EResult)
    requires Operating(s, base, vals) && |vals| == |s.stk.top.modes|
    requires s.ctx.Push? && s.blk.Push? && s.blk.top.pc <= s.blk.top.limit && !r.Fuel?
    requires ReduceOp(H, s.stk.top.opcode, s.w, s.ctx.top.inv, vals) == AsReduced(r, s.w)
    ensures Process(H, s) == if r.Abort? then Stop(r.why) else
              Go(Deliver(PopItem(SetEnv(s, r.env)).(ops := base), s.stk.top.want, r.v))
  {
    assert s.ops[|base|..] == vals && s.ops[..|base|] == base;
  }

  lemma ArithReduces(H: Host, op: byte, w: World, env: Env, a: Value, b: Value, t: S.Target)
    requires IsArith(op) && S.PlainEnv(env) && S.TargetOk(t)
    ensures ReduceOp(H, op, w, Some(Invocation(env, [])), [Obj(a), Obj(b), S.TargetOperand(t)])
         == AsReduced(S.Assign(Compute(op, a, b), t, env), w)
  {
  }

  lemma LogicReduces(H: Host, op: byte, w: World, env: Env, a: Value, b: Value)
    requires IsLogic(op) && S.PlainEnv(env) && !a.Ref? && !b.Ref?
    ensures ReduceOp(H, op, w, Some(Invocation(env, [])), [Obj(a), Obj(b)])
         == AsReduced(S.Assign(Compute(op, a, b), S.NoTarget, env), w)
  {
  }

  lemma UnaryReduces(H: Host, w: World, env: Env, a: Value, t: S.Target)
    requires S.PlainEnv(env) && S.TargetOk(t) && !a.Ref?
    ensures var inv := Some(Invocation(env, []));
      && ReduceOp(H, 0x80, w, inv, [Obj(a), S.TargetOperand(t)])
         == AsReduced(S.Assign(ComputeUnary(0x80, a), t, env), w)
      && ReduceOp(H, 0x92, w, inv, [Obj(a)])
         == AsReduced(S.Assign(ComputeUnary(0x92, a), S.NoTarget, env), w)
      && ReduceOp(H, 0x70, w, inv, [Obj(a), S.TargetOperand(t)])
         == AsReduced(S.Assign(Ok(a), t, env), w)
  {
  }

  lemma BumpReduces(H: Host, op: byte, w: World, env: Env, t: S.Target)
    requires (op == 0x75 || op == 0x76) && S.PlainEnv(env) && S.TargetOk(t)
    ensures ReduceOp(H, op, w, Some(Invocation(env, [])), [S.TargetOperand(t)])
         == if t.NoTarget? then Halted(Panic(BadTarget))
            else AsReduced(S.Assign(ComputeStep(op, ReadVariable(env, S.TargetOperand(t))), t, env),
                           w)
  {
  }

  // ---------------------------------------------------------------------------------------
  // Expressions
  // ---------------------------------------------------------------------------------------

  /** The machine of a host that holds the program. */
  ghost predicate Ready(H: Host, step: State -> Outcome, P: S.Program, w: World) {
    IsStep(step, H) && S.ProgramOk(P) && S.Loaded(H, w, P)
  }

  /** s is about to evaluate an expression whose encoding lies ahead; `want` tells whether its
      value is pushed. */
  ghost predicate AtExpr(H: Host, step: State -> Outcome, P: S.Program, h: Handle, s: State,
                         want: bool, bs: seq<byte>)
  {
    && Ready(H, step, P, s.w) && InMethod(s, h)
    && Wants(s, if want then Object else Exec) && CodeAhead(s, bs)
  }

  predicate Clean(s: State) { s.ops == [] }

  lemma ConstOpcode(H: Host, s: State, mode: Mode, n: u64, width: nat, pc: nat)
    requires s.ctx.Push? && s.blk.Push? && (mode.Object? || mode.Exec?) && S.ConstOk(n, width)
    requires Ahead(s.ctx.top.code, pc, s.blk.top.limit, S.EncodeConst(n, width)[1..])
    ensures ParseOpcode(H, mode, s, S.EncodeConst(n, width)[0], pc)
         == Go(Deliver(SetPc(s, pc + |S.EncodeConst(n, width)| - 1), mode.Object?, Int(n)))
  {
    if width > 0 { ConstDecode(s.ctx.top.code, pc, s.blk.top.limit, n, width); }
  }

  lemma ConstTurn(H: Host, s: State, mode: Mode, n: u64, width: nat)
    requires Wants(s, mode) && (mode.Object? || mode.Exec?) && S.ConstOk(n, width)
    requires CodeAhead(s, S.EncodeConst(n, width))
    ensures Process(H, s) == Go(Deliver(
              SetPc(s, s.blk.top.pc + |S.EncodeConst(n, width)|), mode.Object?, Int(n)))
  {
    var bs := S.EncodeConst(n, width);
    assert bs == [bs[0]] + bs[1..];
    AheadSplit(s.ctx.top.code, s.blk.top.pc, s.blk.top.limit, [bs[0]], bs[1..]);
    var pc, len := s.blk.top.pc + 1, |bs|;
    assert pc + len - 1 == s.blk.top.pc + len;
    OpcodeTurn(H, s, mode, bs[0]);
    ConstOpcode(H, s, mode, n, width, pc);
  }

  lemma VariableTurn(H: Host, s: State, h: Handle, mode: Mode, t: S.Target)
    requires Wants(s, mode) && (mode.Object? || mode.Exec?) && InMethod(s, h)
    requires S.TargetOk(t) && !t.NoTarget? && CodeAhead(s, [S.EncodeTarget(t)])
    ensures Process(H, s) ==
      if mode.Object? then Go(PushOp(SetPc(s, s.blk.top.pc + 1),
                                     Obj(ReadVariable(EnvOf(s), S.TargetOperand(t)))))
      else Stop(Panic(BadMode))
  {
    OpcodeTurn(H, s, mode, S.EncodeTarget(t));
  }

  /** The last turn of an operator: all operands are there. */
  lemma OperatorEnds(H: Host, step: State -> Outcome, s: State, h: Handle, s1: State, len: nat,
                     vals: seq<Operand>, want: bool, fuel: nat, r: S.EResult)
    requires IsStep(step, H) && InMethod(s, h) && InMethod(s1, h) && !r.Fuel?
    requires Operating(s1, s.ops, vals) && |vals| == |s1.stk.top.modes| && s1.stk.top.want == want
    requires s1.stk.below == s.stk && s1.w == s.w
    requires s1.ctx == SetEnv(s, EnvOf(s1)).ctx && s1.blk == SetPc(s, s.blk.top.pc + len).blk
    requires s1.blk.top.pc <= s1.blk.top.limit
    requires ReduceOp(H, s1.stk.top.opcode, s1.w, s1.ctx.top.inv, vals) == AsReduced(r, s1.w)
    ensures Meets(step, 1, s1, fuel, r, Pushed(s, len, want, r))
  {
    OneTurn(H, step, s1);
    OperatorReduces(H, s1, s.ops, vals, r);
  }

  /** s while its operator `it` is being evaluated. */
  function Inside(s: State, it: Item, pc: nat, env: Env, vals: seq<Operand>): State
    requires s.ctx.Push? && s.blk.Push?
  {
    After(PushItem(s, it), pc, env, s.ops + vals)
  }

  lemma InsidePushed(s: State, it: Item, pc: nat, env: Env, vals: seq<Operand>, len: nat,
                     r: S.EResult)
    requires s.ctx.Push? && s.blk.Push? && r.Val?
    ensures Pushed(Inside(s, it, pc, env, vals), len, true, r)
         == Inside(s, it, pc + len, r.env, vals + [Obj(r.v)])
  {
    assert s.ops + vals + [Obj(r.v)] == s.ops + (vals + [Obj(r.v)]);
  }

  lemma InsideAtExpr(H: Host, step: State -> Outcome, P: S.Program, h: Handle, s: State, it: Item,
                     pc: nat, env: Env, vals: seq<Operand>, bs: seq<byte>)
    requires Ready(H, step, P, s.w) && InMethod(s, h) && S.PlainEnv(env)
    requires it.Op? && it.frame == |s.ops|
    requires |vals| < |it.modes| && it.modes[|vals|] == Object
    requires Ahead(s.ctx.top.code, pc, s.blk.top.limit, bs)
    ensures AtExpr(H, step, P, h, Inside(s, it, pc, env, vals), true, bs)
  {
    OperatorWants(Inside(s, it, pc, env, vals), s.ops, vals);
  }

  /** The turn that opens an operator item leads from s to its first operand. */
  ghost predicate Opens(step: State -> Outcome, s: State, it: Item)
    requires s.ctx.Push? && s.blk.Push? && s.ctx.top.inv.Some?
  {
    && it.Op? && it.frame == |s.ops|
    && Run(step, 1, s) == Go(Inside(s, it, s.blk.top.pc + 1, EnvOf(s), []))
  }

  lemma OperatorStarts(H: Host, step: State -> Outcome, s: State, h: Handle, want: bool, op: byte)
    requires IsStep(step, H) && IsOperator(op) && InMethod(s, h)
    requires Wants(s, if want then Object else Exec) && CodeAhead(s, [op])
    ensures OpModes(op).Some? && Opens(step, s, Op(|s.ops|, op, OpModes(op).value, want))
  {
    OperatorOpens(H, s, if want then Object else Exec, op);
    OneTurn(H, step, s);
    assert s.ops + [] == s.ops;
  }

  /** Operand e of an operator that holds `vals`: from s1 to the state s2 that holds one more. */
  lemma SimOperand(H: Host, step: State -> Outcome, P: S.Program, fuel: nat, h: Handle,
                   s: State, it: Item, pc: nat, env: Env, vals: seq<Operand>, e: S.Expr,
                   rest: seq<byte>)
    returns (n: nat, s2: State)
    requires Ready(H, step, P, s.w) && InMethod(s, h) && S.PlainEnv(env)
    requires it.Op? && it.frame == |s.ops| && S.ExprOk(P, h, e)
    requires |vals| < |it.modes| && it.modes[|vals|] == Object
    requires Ahead(s.ctx.top.code, pc, s.blk.top.limit, S.EncodeExpr(e) + rest)
    decreases fuel, e, 5
    ensures var r := S.Eval(P, fuel, h, Clean(s) && vals == [], true, e, env);
            && Meets(step, n, Inside(s, it, pc, env, vals), fuel, r, s2)
            && (r.Val? ==>
                  s2 == Inside(s, it, pc + |S.EncodeExpr(e)|, r.env, vals + [Obj(r.v)])
                  && Ahead(s.ctx.top.code, s2.blk.top.pc, s.blk.top.limit, rest))
  {
    var s1 := Inside(s, it, pc, env, vals);
    AheadSplit(s.ctx.top.code, pc, s.blk.top.limit, S.EncodeExpr(e), rest);
    InsideAtExpr(H, step, P, h, s, it, pc, env, vals, S.EncodeExpr(e));
    n := SimExpr(H, step, P, fuel, h, true, e, s1);
    var r := S.Eval(P, fuel, h, Clean(s) && vals == [], true, e, env);
    assert Clean(s1) == (Clean(s) && vals == []);
    s2 := Pushed(s1, |S.EncodeExpr(e)|, true, r);
    if r.Val? { InsidePushed(s, it, pc, env, vals, |S.EncodeExpr(e)|, r); }
  }

  /** The next operand of an operator that was reached from s in m turns. */
  lemma SimNext(H: Host, step: State -> Outcome, P: S.Program, fuel: nat, h: Handle, s: State,
                m: nat, it: Item, pc: nat, env: Env, vals: seq<Operand>, e: S.Expr,
                rest: seq<byte>)
    returns (n: nat, s2: State)
    requires Ready(H, step, P, s.w) && InMethod(s, h) && S.PlainEnv(env)
    requires it.Op? && it.frame == |s.ops| && S.ExprOk(P, h, e)
    requires |vals| < |it.modes| && it.modes[|vals|] == Object
    requires Ahead(s.ctx.top.code, pc, s.blk.top.limit, S.EncodeExpr(e) + rest)
    requires Run(step, m, s) == Go(Inside(s, it, pc, env, vals))
    decreases fuel, e, 6
    ensures var r := S.Eval(P, fuel, h, Clean(s) && vals == [], true, e, env);
            && Meets(step, n, s, fuel, r, s2) && n >= m
            && (r.Val? ==>
                  s2 == Inside(s, it, pc + |S.EncodeExpr(e)|, r.env, vals + [Obj(r.v)])
                  && Ahead(s.ctx.top.code, s2.blk.top.pc, s.blk.top.limit, rest))
  {
    var k;
    k, s2 := SimOperand(H, step, P, fuel, h, s, it, pc, env, vals, e, rest);
    Prefix(step, m, s, Inside(s, it, pc, env, vals), k, fuel,
           S.Eval(P, fuel, h, Clean(s) && vals == [], true, e, env), s2);
    n := m + k;
  }

  /** The first operand of an operator, whose opcode has been parsed. */
  lemma SimFirst(H: Host, step: State -> Outcome, P: S.Program, fuel: nat, h: Handle, s: State,
                 it: Item, e: S.Expr, rest: seq<byte>)
    returns (n: nat, s2: State, r: S.EResult)
    requires Ready(H, step, P, s.w) && InMethod(s, h) && Opens(step, s, it)
    requires S.ExprOk(P, h, e) && |it.modes| > 0 && it.modes[0] == Object
    requires Ahead(s.ctx.top.code, s.blk.top.pc + 1, s.blk.top.limit, S.EncodeExpr(e) + rest)
    decreases fuel, e, 7
    ensures r == S.Eval(P, fuel, h, Clean(s), true, e, EnvOf(s)) && n > 0
    ensures Meets(step, n, s, fuel, r, s2)
    ensures r.Val? ==>
              && s2 == Inside(s, it, s.blk.top.pc + 1 + |S.EncodeExpr(e)|, r.env, [Obj(r.v)])
              && Ahead(s.ctx.top.code, s2.blk.top.pc, s.blk.top.limit, rest)
  {
    n, s2 := SimNext(H, step, P, fuel, h, s, 1, it, s.blk.top.pc + 1, EnvOf(s), [], e, rest);
    r := S.Eval(P, fuel, h, Clean(s), true, e, EnvOf(s));
    if r.Val? { assert [] + [Obj(r.v)] == [Obj(r.v)]; }
  }

  /** The second operand of an operator that holds the value a. */
  lemma SimSecond(H: Host, step: State -> Outcome, P: S.Program, fuel: nat, h: Handle, s: State,
                  m: nat, it: Item, pc: nat, env: Env, a: Value, e: S.Expr, rest: seq<byte>)
    returns (n: nat, s2: State, r: S.EResult)
    requires Ready(H, step, P, s.w) && InMethod(s, h) && S.PlainEnv(env)
    requires it.Op? && it.frame == |s.ops| && S.ExprOk(P, h, e)
    requires |it.modes| > 1 && it.modes[1] == Object
    requires Ahead(s.ctx.top.code, pc, s.blk.top.limit, S.EncodeExpr(e) + rest)
    requires Run(step, m, s) == Go(Inside(s, it, pc, env, [Obj(a)]))
    decreases fuel, e, 7
    ensures r == S.Eval(P, fuel, h, false, true, e, env) && Meets(step, n, s, fuel, r, s2)
    ensures r.Val? ==>
              && s2 == Inside(s, it, pc + |S.EncodeExpr(e)|, r.env, [Obj(a), Obj(r.v)])
              && Ahead(s.ctx.top.code, s2.blk.top.pc, s.blk.top.limit, rest)
  {
    n, s2 := SimNext(H, step, P, fuel, h, s, m, it, pc, env, [Obj(a)], e, rest);
    r := S.Eval(P, fuel, h, false, true, e, env);
    if r.Val? { assert [Obj(a)] + [Obj(r.v)] == [Obj(a), Obj(r.v)]; }
  }

  /** From a state in which only the target of an operator is missing to its verdict. */
  lemma TargetEnds(H: Host, step: State -> Outcome, s: State, h: Handle, s1: State, len: nat,
                   vals: seq<Operand>, t: S.Target, want: bool, fuel: nat, r: S.EResult)
    requires IsStep(step, H) && InMethod(s, h) && InMethod(s1, h) && !r.Fuel?
    requires Operating(s1, s.ops, vals) && |vals| + 1 == |s1.stk.top.modes|
    requires s1.stk.top.modes[|vals|] == Reference && s1.stk.top.want == want
    requires s1.stk.below == s.stk && s1.w == s.w && len > 0
    requires s1.ctx == SetEnv(s, EnvOf(s1)).ctx && s1.blk == SetPc(s, s.blk.top.pc + len - 1).blk
    requires CodeAhead(s1, [S.EncodeTarget(t)]) && S.TargetOk(t)
    requires ReduceOp(H, s1.stk.top.opcode, s1.w, s1.ctx.top.inv, vals + [S.TargetOperand(t)])
          == AsReduced(r, s1.w)
    ensures Meets(step, 2, s1, fuel, r, Pushed(s, len, want, r))
  {
    TargetPushes(H, s1, s.ops, vals, t);
    OneTurn(H, step, s1);
    var s2 := PushOp(SetPc(s1, s1.blk.top.pc + 1), S.TargetOperand(t));
    assert s2.ops == s.ops + (vals + [S.TargetOperand(t)]);
    OperatorEnds(H, step, s, h, s2, len, vals + [S.TargetOperand(t)], want, fuel, r);
    Prefix(step, 1, s1, s2, 1, fuel, r, Pushed(s, len, want, r));
  }

  lemma SimConst(H: Host, step: State -> Outcome, P: S.Program, fuel: nat, h: Handle, want: bool,
                 e: S.Expr, s: State)
    returns (n: nat)
    requires AtExpr(H, step, P, h, s, want, S.EncodeExpr(e)) && S.ExprOk(P, h, e) && e.Const?
    ensures var r := S.Eval(P, fuel, h, Clean(s), want, e, EnvOf(s));
            Meets(step, n, s, fuel, r, Pushed(s, |S.EncodeExpr(e)|, want, r))
  {
    ConstRuns(H, step, s, want, e.n, e.width);
    SamePushed(s, |S.EncodeExpr(e)|, want, Int(e.n));
    n := 1;
  }

  lemma ConstRuns(H: Host, step: State -> Outcome, s: State, want: bool, n: u64, width: nat)
    requires IsStep(step, H) && Wants(s, if want then Object else Exec) && S.ConstOk(n, width)
    requires CodeAhead(s, S.EncodeConst(n, width))
    ensures Run(step, 1, s)
         == Go(Deliver(SetPc(s, s.blk.top.pc + |S.EncodeConst(n, width)|), want, Int(n)))
  {
    ConstTurn(H, s, if want then Object else Exec, n, width);
    OneTurn(H, step, s);
  }

  lemma SamePushed(s: State, len: nat, want: bool, v: Value)
    requires s.ctx.Push? && s.blk.Push? && s.ctx.top.inv.Some? && s.ctx.top.inv.value.nodes == []
    ensures Pushed(s, len, want, S.Val(v, EnvOf(s)))
         == Deliver(SetPc(s, s.blk.top.pc + len), want, v)
  {
  }

  lemma SimVariable(H: Host, step: State -> Outcome, P: S.Program, fuel: nat, h: Handle,
                    want: bool, e: S.Expr, t: S.Target, s: State)
    returns (n: nat)
    requires AtExpr(H, step, P, h, s, want, S.EncodeExpr(e)) && S.ExprOk(P, h, e)
    requires match t case NoTarget => false
                     case ToLocal(i) => e == S.LocalVar(i)
                     case ToArg(i) => e == S.ArgVar(i)
    ensures var r := S.Eval(P, fuel, h, Clean(s), want, e, EnvOf(s));
            Meets(step, n, s, fuel, r, Pushed(s, |S.EncodeExpr(e)|, want, r))
  {
    VariableTurn(H, s, h, if want then Object else Exec, t);
    OneTurn(H, step, s);
    n := 1;
  }

  /** Arithmetic with both operands evaluated. */
  lemma ArithEnds(H: Host, step: State -> Outcome, s: State, h: Handle, op: byte, pc: nat,
                  env: Env, a: Value, b: Value, t: S.Target, len: nat, want: bool, fuel: nat)
    returns (r: S.EResult)
    requires IsStep(step, H) && InMethod(s, h) && IsArith(op) && S.PlainEnv(env) && S.TargetOk(t)
    requires len > 0 && pc == s.blk.top.pc + len - 1
    requires Ahead(s.ctx.top.code, pc, s.blk.top.limit, [S.EncodeTarget(t)])
    ensures r == S.Assign(Compute(op, a, b), t, env) && OpModes(op).Some?
    ensures Meets(step, 2, Inside(s, Op(|s.ops|, op, OpModes(op).value, want), pc, env,
                                  [Obj(a), Obj(b)]),
                  fuel, r, Pushed(s, len, want, r))
  {
    assert OpModes(op) == Some([Object, Object, Reference]);
    var it := Op(|s.ops|, op, OpModes(op).value, want);
    var vals := [Obj(a), Obj(b)];
    r := S.Assign(Compute(op, a, b), t, env);
    ArithReduces(H, op, s.w, env, a, b, t);
    assert vals + [S.TargetOperand(t)] == [Obj(a), Obj(b), S.TargetOperand(t)];
    TargetEnds(H, step, s, h, Inside(s, it, pc, env, vals), len, vals, t, want, fuel, r);
  }

  lemma LogicEnds(H: Host, step: State -> Outcome, s: State, h: Handle, op: byte, pc: nat,
                  env: Env, a: Value, b: Value, len: nat, want: bool, fuel: nat)
    returns (r: S.EResult)
    requires IsStep(step, H) && InMethod(s, h) && IsLogic(op) && S.PlainEnv(env)
    requires !a.Ref? && !b.Ref? && pc == s.blk.top.pc + len && pc <= s.blk.top.limit
    ensures r == S.Assign(Compute(op, a, b), S.NoTarget, env) && OpModes(op).Some?
    ensures Meets(step, 1, Inside(s, Op(|s.ops|, op, OpModes(op).value, want), pc, env,
                                  [Obj(a), Obj(b)]),
                  fuel, r, Pushed(s, len, want, r))
  {
    assert OpModes(op) == Some([Object, Object]);
    var it := Op(|s.ops|, op, OpModes(op).value, want);
    r := S.Assign(Compute(op, a, b), S.NoTarget, env);
    LogicReduces(H, op, s.w, env, a, b);
    OperatorEnds(H, step, s, h, Inside(s, it, pc, env, [Obj(a), Obj(b)]), len, [Obj(a), Obj(b)],
                 want, fuel, r);
  }

  /** Not, LNot and Store with their operand evaluated. */
  lemma UnaryEnds(H: Host, step: State -> Outcome, s: State, h: Handle, op: nat, pc: nat,
                  env: Env, a: Value, t: S.Target, len: nat, want: bool, fuel: nat)
    returns (n: nat, r: S.EResult)
    requires IsStep(step, H) && InMethod(s, h) && S.PlainEnv(env) && S.TargetOk(t) && !a.Ref?
    requires op == 0x80 || op == 0x70 || (op == 0x92 && t.NoTarget?)
    requires len > 0 && pc == s.blk.top.pc + len - (if op == 0x92 then 0 else 1)
    requires Ahead(s.ctx.top.code, pc, s.blk.top.limit,
                   if op == 0x92 then [] else [S.EncodeTarget(t)])
    ensures r == UnaryVerdict(op, S.Val(a, env), t)
    ensures Meets(step, n, Inside(s, Op(|s.ops|, op, OpModes(op).value, want), pc, env, [Obj(a)]),
                  fuel, r, Pushed(s, len, want, r))
  {
    var s2 := Inside(s, Op(|s.ops|, op, OpModes(op).value, want), pc, env, [Obj(a)]);
    r := UnaryVerdict(op, S.Val(a, env), t);
    UnaryReduces(H, s.w, env, a, t);
    if op == 0x92 {
      n := 1;
      OperatorEnds(H, step, s, h, s2, len, [Obj(a)], want, fuel, r);
    } else {
      n := 2;
      assert [Obj(a)] + [S.TargetOperand(t)] == [Obj(a), S.TargetOperand(t)];
      TargetEnds(H, step, s, h, s2, len, [Obj(a)], t, want, fuel, r);
    }
  }

  lemma {:induction false} SimExpr(H: Host, step: State -> Outcome, P: S.Program, fuel: nat,
                                   h: Handle, want: bool, e: S.Expr, s: State)
    returns (n: nat)
    requires AtExpr(H, step, P, h, s, want, S.EncodeExpr(e)) && S.ExprOk(P, h, e)
    decreases fuel, e, 4
    ensures var r := S.Eval(P, fuel, h, Clean(s), want, e, EnvOf(s));
            Meets(step, n, s, fuel, r, Pushed(s, |S.EncodeExpr(e)|, want, r))
  {
    match e
    case Const(k, width) =>
      n := SimConst(H, step, P, fuel, h, want, e, s);
    case LocalVar(i) =>
      n := SimVariable(H, step, P, fuel, h, want, e, S.ToLocal(i), s);
    case ArgVar(i) =>
      n := SimVariable(H, step, P, fuel, h, want, e, S.ToArg(i), s);
    case Binary(op, a, b, t) => n := SimBinary(H, step, P, fuel, h, want, e, s);
    case Logical(op, a, b) => n := SimBinary(H, step, P, fuel, h, want, e, s);
    case Not(a, t) => n := SimUnary(H, step, P, fuel, h, want, e, 0x80, a, t, s);
    case Store(a, t) => n := SimUnary(H, step, P, fuel, h, want, e, 0x70, a, t, s);
    case LogicalNot(a) => n := SimUnary(H, step, P, fuel, h, want, e, 0x92, a, S.NoTarget, s);
    case Bump(op, t) => n := SimBump(H, step, P, fuel, h, want, e, s);
    case Call(_, _) => n := SimCall(H, step, P, fuel, h, want, e, s);
  }

  /** Both operands of a binary operator, leaving the code of its target. */
  lemma SimBoth(H: Host, step: State -> Outcome, P: S.Program, fuel: nat, h: Handle, it: Item,
                a: S.Expr, b: S.Expr, rest: seq<byte>, s: State, e: S.Expr)
    returns (n: nat, s3: State, ra: S.EResult, rb: S.EResult)
    requires Ready(H, step, P, s.w) && InMethod(s, h) && Opens(step, s, it)
    requires |it.modes| >= 2 && it.modes[0] == it.modes[1] == Object
    requires Ahead(s.ctx.top.code, s.blk.top.pc + 1, s.blk.top.limit,
                   S.EncodeExpr(a) + (S.EncodeExpr(b) + rest))
    requires S.ExprOk(P, h, a) && S.ExprOk(P, h, b)
    requires (e.Binary? || e.Logical?) && e.a == a && e.b == b
    decreases fuel, e, 1
    ensures ra == S.Eval(P, fuel, h, Clean(s), true, a, EnvOf(s))
    ensures rb == if ra.Val? then S.Eval(P, fuel, h, false, true, b, ra.env) else ra
    ensures Meets(step, n, s, fuel, rb, s3)
    ensures rb.Val? ==>
              && s3 == Inside(s, it, s.blk.top.pc + 1 + |S.EncodeExpr(a)| + |S.EncodeExpr(b)|,
                              rb.env, [Obj(ra.v), Obj(rb.v)])
              && Ahead(s.ctx.top.code, s3.blk.top.pc, s.blk.top.limit, rest)
  {
    var k, s2;
    k, s2, ra := SimFirst(H, step, P, fuel, h, s, it, a, S.EncodeExpr(b) + rest);
    if ra.Val? {
      var pc := s.blk.top.pc + 1 + |S.EncodeExpr(a)|;
      assert Run(step, k, s) == Go(Inside(s, it, pc, ra.env, [Obj(ra.v)]));
      n, s3, rb := SimSecond(H, step, P, fuel, h, s, k, it, pc, ra.env, ra.v, b, rest);
    } else {
      n, s3, rb := k, s2, ra;
    }
  }

  lemma SimBinary(H: Host, step: State -> Outcome, P: S.Program, fuel: nat, h: Handle, want: bool,
                  e: S.Expr, s: State)
    returns (n: nat)
    requires AtExpr(H, step, P, h, s, want, S.EncodeExpr(e)) && S.ExprOk(P, h, e)
    requires e.Binary? || e.Logical?
    decreases fuel, e, 2
    ensures var r := S.Eval(P, fuel, h, Clean(s), want, e, EnvOf(s));
            Meets(step, n, s, fuel, r, Pushed(s, |S.EncodeExpr(e)|, want, r))
  {
    var A, B := S.EncodeExpr(e.a), S.EncodeExpr(e.b);
    var rest := if e.Binary? then [S.EncodeTarget(e.t)] else [];
    assert S.EncodeExpr(e) == [e.op] + (A + (B + rest));
    AheadSplit(s.ctx.top.code, s.blk.top.pc, s.blk.top.limit, [e.op], A + (B + rest));
    OperatorStarts(H, step, s, h, want, e.op);
    var it := Op(|s.ops|, e.op, OpModes(e.op).value, want);
    BinaryModes(e.op);
    var m, s3, ra, rb := SimBoth(H, step, P, fuel, h, it, e.a, e.b, rest, s, e);
    n := m;
    if rb.Val? {
      n := BinaryFinish(H, step, h, s, it, s3, m, ra.v, rb, e, want, fuel);
    }
  }

  lemma BinaryModes(op: byte)
    requires IsArith(op) || IsLogic(op)
    ensures OpModes(op) == Some(if IsArith(op) then [Object, Object, Reference]
                                else [Object, Object])
  {
  }

  /** The last turns of a binary operator. */
  lemma BinaryFinish(H: Host, step: State -> Outcome, h: Handle, s: State, it: Item, s3: State,
                     m: nat, a: Value, rb: S.EResult, e: S.Expr, want: bool, fuel: nat)
    returns (n: nat)
    requires IsStep(step, H) && InMethod(s, h) && rb.Val? && S.PlainEnv(rb.env)
    requires !a.Ref? && !rb.v.Ref?
    requires (e.Binary? && IsArith(e.op) && S.TargetOk(e.t)) || (e.Logical? && IsLogic(e.op))
    requires OpModes(e.op).Some? && it == Op(|s.ops|, e.op, OpModes(e.op).value, want)
    requires s3 == Inside(s, it, s.blk.top.pc + |S.EncodeExpr(e)| - (if e.Binary? then 1 else 0),
                          rb.env, [Obj(a), Obj(rb.v)])
    requires Ahead(s.ctx.top.code, s3.blk.top.pc, s.blk.top.limit,
                   if e.Binary? then [S.EncodeTarget(e.t)] else [])
    requires Run(step, m, s) == Go(s3)
    ensures var r := S.Operate(e.op, a, rb, if e.Binary? then e.t else S.NoTarget);
            Meets(step, n, s, fuel, r, Pushed(s, |S.EncodeExpr(e)|, want, r))
  {
    var len := |S.EncodeExpr(e)|;
    if e.Binary? {
      var r := ArithEnds(H, step, s, h, e.op, s3.blk.top.pc, rb.env, a, rb.v, e.t, len, want, fuel);
      Prefix(step, m, s, s3, 2, fuel, r, Pushed(s, len, want, r));
      n := m + 2;
    } else {
      var r := LogicEnds(H, step, s, h, e.op, s3.blk.top.pc, rb.env, a, rb.v, len, want, fuel);
      Prefix(step, m, s, s3, 1, fuel, r, Pushed(s, len, want, r));
      n := m + 1;
    }
  }

  /** The verdict of Not, LNot and Store on the value of their operand. */
  function UnaryVerdict(op: nat, ra: S.EResult, t: S.Target): S.EResult
    requires ra.Val? ==> S.PlainEnv(ra.env) && !ra.v.Ref?
  {
    if !ra.Val? then ra
    else if op == 0x70 then S.Assign(Ok(ra.v), t, ra.env)
    else S.Assign(ComputeUnary(op, ra.v), t, ra.env)
  }

  lemma SimUnary(H: Host, step: State -> Outcome, P: S.Program, fuel: nat, h: Handle, want: bool,
                 e: S.Expr, op: byte, a: S.Expr, t: S.Target, s: State)
    returns (n: nat)
    requires AtExpr(H, step, P, h, s, want, S.EncodeExpr(e)) && S.ExprOk(P, h, e)
    requires (e == S.Not(a, t) && op == 0x80) || (e == S.Store(a, t) && op == 0x70)
             || (e == S.LogicalNot(a) && op == 0x92 && t == S.NoTarget)
    decreases fuel, e, 2
    ensures var r := S.Eval(P, fuel, h, Clean(s), want, e, EnvOf(s));
            Meets(step, n, s, fuel, r, Pushed(s, |S.EncodeExpr(e)|, want, r))
  {
    var rest := if op == 0x92 then [] else [S.EncodeTarget(t)];
    assert S.EncodeExpr(e) == [op] + (S.EncodeExpr(a) + rest);
    AheadSplit(s.ctx.top.code, s.blk.top.pc, s.blk.top.limit, [op], S.EncodeExpr(a) + rest);
    OperatorStarts(H, step, s, h, want, op);
    var it := Op(|s.ops|, op, OpModes(op).value, want);
    assert it.modes[0] == Object;
    var m, s2, ra := SimFirst(H, step, P, fuel, h, s, it, a, rest);
    n := m;
    if ra.Val? {
      n := UnaryFinish(H, step, s, h, it, s2, m, ra, t, |S.EncodeExpr(e)|, want, fuel);
    }
  }

  lemma UnaryFinish(H: Host, step: State -> Outcome, s: State, h: Handle, it: Item, s2: State,
                    m: nat, ra: S.EResult, t: S.Target, len: nat, want: bool, fuel: nat)
    returns (n: nat)
    requires IsStep(step, H) && InMethod(s, h) && ra.Val? && S.PlainEnv(ra.env) && !ra.v.Ref?
    requires S.TargetOk(t) && it.Op? && OpModes(it.opcode).Some?
    requires it == Op(|s.ops|, it.opcode, OpModes(it.opcode).value, want)
    requires it.opcode == 0x80 || it.opcode == 0x70 || (it.opcode == 0x92 && t.NoTarget?)
    requires len > 0 && Run(step, m, s) == Go(s2)
    requires s2 == Inside(s, it, s.blk.top.pc + len - (if it.opcode == 0x92 then 0 else 1), ra.env,
                          [Obj(ra.v)])
    requires Ahead(s.ctx.top.code, s2.blk.top.pc, s.blk.top.limit,
                   if it.opcode == 0x92 then [] else [S.EncodeTarget(t)])
    ensures var r := UnaryVerdict(it.opcode, ra, t);
            Meets(step, n, s, fuel, r, Pushed(s, len, want, r))
  {
    var k, r := UnaryEnds(H, step, s, h, it.opcode, s2.blk.top.pc, ra.env, ra.v, t, len, want,
                          fuel);
    Prefix(step, m, s, s2, k, fuel, r, Pushed(s, len, want, r));
    n := m + k;
  }

  lemma SimBump(H: Host, step: State -> Outcome, P: S.Program, fuel: nat, h: Handle, want: bool,
                e: S.Expr, s: State)
    returns (n: nat)
    requires AtExpr(H, step, P, h, s, want, S.EncodeExpr(e)) && S.ExprOk(P, h, e) && e.Bump?
    decreases fuel, e, 2
    ensures var r := S.Eval(P, fuel, h, Clean(s), want, e, EnvOf(s));
            Meets(step, n, s, fuel, r, Pushed(s, |S.EncodeExpr(e)|, want, r))
  {
    var code, pc, limit := s.ctx.top.code, s.blk.top.pc, s.blk.top.limit;
    var t := S.TargetOperand(e.t);
    assert S.EncodeExpr(e) == [e.op] + [S.EncodeTarget(e.t)];
    AheadSplit(code, pc, limit, [e.op], [S.EncodeTarget(e.t)]);
    OperatorStarts(H, step, s, h, want, e.op);
    var s1 := Inside(s, Op(|s.ops|, e.op, OpModes(e.op).value, want), pc + 1, EnvOf(s), []);
    assert [] + [t] == [t];
    BumpReduces(H, e.op, s.w, EnvOf(s), e.t);
    var r := S.Eval(P, fuel, h, Clean(s), want, e, EnvOf(s));
    TargetEnds(H, step, s, h, s1, 2, [], e.t, want, fuel, r);
    Prefix(step, 1, s, s1, 2, fuel, r, Pushed(s, 2, want, r));
    n := 3;
  }

  // ---------------------------------------------------------------------------------------
  // Calls
  // ---------------------------------------------------------------------------------------

  function Objects(vs: seq<Value>): (r: seq<Operand>)
    ensures |r| == |vs| && forall i :: 0 <= i < |vs| ==> r[i] == Obj(vs[i])
  {
    seq<Operand>(|vs|, i requires 0 <= i < |vs| => Obj(vs[i]))
  }

  lemma NameTurn(H: Host, s: State, mode: Mode, name: seq<byte>)
    requires Wants(s, mode) && (mode.Object? || mode.Exec?)
    requires CodeAhead(s, name) && S.NameOk(name)
    ensures Process(H, s) == ParseResolved(H, mode, SetPc(s, s.blk.top.pc + 4),
                                           H.resolve(s.w, s.ctx.top.handle, name))
  {
    var code, pc := s.ctx.top.code, s.blk.top.pc;
    WantsParses(H, s, mode);
    CodeByte(code, pc, name, 0);
    CodeSlice(code, pc, name);
    assert Carets(code, pc) == 0;
    assert NameLength(code, pc) == Some(4);
  }

  /** An Invoke item holding the method's name and the first arguments. */
  predicate Invoking(s: State, base: seq<Operand>, callee: Handle, vs: seq<Value>) {
    s.stk.Push? && s.stk.top.Invoke? && s.stk.top.frame == |base|
    && s.ops == base + [Resolved(Some(callee))] + Objects(vs)
  }

  lemma InvokeWants(s: State, base: seq<Operand>, callee: Handle, vs: seq<Value>)
    requires Invoking(s, base, callee, vs) && |vs| < s.stk.top.argc
    ensures Wants(s, Object) && !Clean(s)
  {
  }

  ghost predicate MeetsArgs(step: State -> Outcome, n: nat, s: State, fuel: nat, r: S.AResult,
                            t: State)
  {
    match r
    case Vals(_, _) => Run(step, n, s) == Go(t)
    case AbortArgs(why) => Run(step, n, s) == Stop(why)
    case FuelArgs => n >= fuel && Running(Run(step, n, s))
  }

  function PushedArgs(s: State, len: nat, base: seq<Operand>, callee: Handle, vs: seq<Value>,
                      r: S.AResult): State
    requires s.ctx.Push? && s.blk.Push?
  {
    if r.Vals? then
      After(s, s.blk.top.pc + len, r.env, base + [Resolved(Some(callee))] + Objects(vs + r.vs))
    else s
  }

  lemma {:induction false} SimArgs(H: Host, step: State -> Outcome, P: S.Program, fuel: nat,
                                   h: Handle, args: S.Args, s: State, base: seq<Operand>,
                                   callee: Handle, vs: seq<Value>)
    returns (n: nat)
    requires Ready(H, step, P, s.w) && InMethod(s, h) && S.ArgsOk(P, h, args)
    requires Invoking(s, base, callee, vs) && |vs| + S.Length(args) == s.stk.top.argc
    requires CodeAhead(s, S.EncodeArgs(args))
    decreases fuel, args, 3
    ensures var r := S.EvalArgs(P, fuel, h, args, EnvOf(s));
            MeetsArgs(step, n, s, fuel, r, PushedArgs(s, |S.EncodeArgs(args)|, base, callee, vs, r))
  {
    if args.NoArgs? {
      assert vs + [] == vs;
      n := 0;
    } else {
      var code, pc, limit := s.ctx.top.code, s.blk.top.pc, s.blk.top.limit;
      var A := S.EncodeExpr(args.head);
      AheadSplit(code, pc, limit, A, S.EncodeArgs(args.rest));
      InvokeWants(s, base, callee, vs);
      var m := SimExpr(H, step, P, fuel, h, true, args.head, s);
      var ra := S.Eval(P, fuel, h, false, true, args.head, EnvOf(s));
      n := m;
      if ra.Val? {
        var s1 := Pushed(s, |A|, true, ra);
        assert Objects(vs + [ra.v]) == Objects(vs) + [Obj(ra.v)];
        assert s1.ops == base + [Resolved(Some(callee))] + Objects(vs + [ra.v]);
        var k := SimArgs(H, step, P, fuel, h, args.rest, s1, base, callee, vs + [ra.v]);
        n := m + k;
        Follow(step, m, s, s1, k);
        MoreArgs(step, n, k, s, s1, fuel, |A|, |S.EncodeArgs(args.rest)|, base, callee, vs, ra,
                 S.EvalArgs(P, fuel, h, args.rest, ra.env));
      }
    }
  }

  /** The first argument before the others. */
  function Cons(ra: S.EResult, rs: S.AResult): S.AResult
    requires ra.Val?
  {
    if rs.Vals? then S.Vals([ra.v] + rs.vs, rs.env) else rs
  }

  lemma MoreArgs(step: State -> Outcome, n: nat, k: nat, s: State, s1: State, fuel: nat, a: nat,
                 b: nat, base: seq<Operand>, callee: Handle, vs: seq<Value>, ra: S.EResult,
                 rs: S.AResult)
    requires s.ctx.Push? && s.blk.Push? && ra.Val? && s1 == Pushed(s, a, true, ra)
    requires Run(step, n, s) == Run(step, k, s1) && n >= k
    requires MeetsArgs(step, k, s1, fuel, rs, PushedArgs(s1, b, base, callee, vs + [ra.v], rs))
    ensures MeetsArgs(step, n, s, fuel, Cons(ra, rs),
                      PushedArgs(s, a + b, base, callee, vs, Cons(ra, rs)))
  {
    if rs.Vals? { assert vs + [ra.v] + rs.vs == vs + ([ra.v] + rs.vs); }
  }

  lemma NameRuns(H: Host, step: State -> Outcome, P: S.Program, h: Handle, want: bool,
                 name: seq<byte>, s: State)
    requires Ready(H, step, P, s.w) && InMethod(s, h) && S.NameOk(name)
    requires Wants(s, if want then Object else Exec) && CodeAhead(s, name)
    ensures var callee := P.link(h, name);
            Run(step, 1, s) ==
              if callee in P.methods then
                Go(PushOp(PushItem(SetPc(s, s.blk.top.pc + 4),
                                   Invoke(|s.ops|, P.methods[callee].argc, want)),
                          Resolved(Some(callee))))
              else Stop(Failed(UnexpectedResult))
  {
    var t := SetPc(s, s.blk.top.pc + 4);
    ResolvesAsLinked(H, s.w, P, h, name);
    ResolvedName(H, want, t, H.resolve(s.w, h, name));
    NameTurnRuns(H, step, s, if want then Object else Exec, name);
  }

  lemma ResolvesAsLinked(H: Host, w: World, P: S.Program, h: Handle, name: seq<byte>)
    requires S.Loaded(H, w, P) && S.ProgramOk(P)
    ensures H.resolve(w, h, name) ==
      (if P.link(h, name) in P.methods
       then MethodNode(P.link(h, name), P.methods[P.link(h, name)].argc) else Missing)
    ensures P.link(h, name) in P.methods ==> P.methods[P.link(h, name)].argc <= 7
  {
  }

  /** What a resolved name does: a missing one fails, a method is about to be invoked. */
  lemma ResolvedName(H: Host, want: bool, t: State, found: Lookup)
    ensures var r := ParseResolved(H, if want then Object else Exec, t, found);
            && (found.Missing? ==> r == Stop(Failed(UnexpectedResult)))
            && (found.MethodNode? && found.argc <= 7 ==>
                  r == Go(PushOp(PushItem(t, Invoke(|t.ops|, found.argc, want)),
                                 Resolved(Some(found.handle)))))
  {
  }

  lemma NameTurnRuns(H: Host, step: State -> Outcome, s: State, mode: Mode, name: seq<byte>)
    requires IsStep(step, H) && Wants(s, mode) && (mode.Object? || mode.Exec?)
    requires CodeAhead(s, name) && S.NameOk(name)
    ensures Run(step, 1, s) == ParseResolved(H, mode, SetPc(s, s.blk.top.pc + 4),
                                             H.resolve(s.w, s.ctx.top.handle, name))
  {
    NameTurn(H, s, mode, name);
    OneTurn(H, step, s);
  }

  lemma EnterRuns(H: Host, step: State -> Outcome, P: S.Program, callee: Handle, s: State,
                  base: seq<Operand>, vs: seq<Value>)
    requires Ready(H, step, P, s.w) && callee in P.methods
    requires s.ctx.Push? && s.blk.Push? && s.blk.top.pc <= s.blk.top.limit
    requires Invoking(s, base, callee, vs) && |vs| == s.stk.top.argc
    ensures Run(step, 1, s) == Go(Enter(PopItem(s).(ops := base), H.methodInfo(s.w, callee), callee,
                                        S.Pad(vs), s.stk.top.want))
  {
    OneTurn(H, step, s);
    var args := s.ops[|base| + 1..];
    assert s.ops[..|base|] == base && args == Objects(vs);
    assert Arguments(args) == S.Pad(vs);
    assert S.MethodLoaded(P, callee, H.methodInfo(s.w, callee));
  }

  /** A method entered on the waiting state `base`. */
  ghost predicate Entered(H: Host, P: S.Program, h: Handle, base: State, vs: seq<Value>,
                          want: bool, s: State)
  {
    && h in P.methods && (forall i :: 0 <= i < |vs| ==> !vs[i].Ref?)
    && s == Enter(base, H.methodInfo(base.w, h), h, S.Pad(vs), want)
  }

  /** A call with its arguments evaluated: entering the method and running it. */
  lemma SimEnter(H: Host, step: State -> Outcome, P: S.Program, fuel: nat, callee: Handle,
                 want: bool, s: State, base: seq<Operand>, vs: seq<Value>)
    returns (n: nat)
    requires Ready(H, step, P, s.w) && callee in P.methods
    requires s.ctx.Push? && s.blk.Push? && s.blk.top.pc <= s.blk.top.limit
    requires Invoking(s, base, callee, vs) && |vs| == s.stk.top.argc && s.stk.top.want == want
    requires forall i :: 0 <= i < |vs| ==> !vs[i].Ref?
    decreases fuel, P.methods[callee].body, 8
    ensures var r := S.CallMethod(P, fuel, callee, base == [], vs);
            n > 0 && (if r.Fuel? then n > fuel && Running(Run(step, n, s))
                      else if r.Abort? then Run(step, n, s) == Stop(r.why)
                      else Run(step, n, s) == Go(Deliver(PopItem(s).(ops := base), want, r.v)))
  {
    var b := PopItem(s).(ops := base);
    var t := Enter(b, H.methodInfo(s.w, callee), callee, S.Pad(vs), want);
    EnterRuns(H, step, P, callee, s, base, vs);
    var k := SimMethod(H, step, P, fuel, callee, want, b, vs, t);
    Follow(step, 1, s, t, k);
    n := 1 + k;
  }

  lemma SimCall(H: Host, step: State -> Outcome, P: S.Program, fuel: nat, h: Handle, want: bool,
                e: S.Expr, s: State)
    returns (n: nat)
    requires AtExpr(H, step, P, h, s, want, S.EncodeExpr(e)) && S.ExprOk(P, h, e) && e.Call?
    decreases fuel, e, 2
    ensures var r := S.Eval(P, fuel, h, Clean(s), want, e, EnvOf(s));
            Meets(step, n, s, fuel, r, Pushed(s, |S.EncodeExpr(e)|, want, r))
  {
    var callee := P.link(h, e.name);
    AheadSplit(s.ctx.top.code, s.blk.top.pc, s.blk.top.limit, e.name, S.EncodeArgs(e.args));
    NameRuns(H, step, P, h, want, e.name, s);
    n := 1;
    if callee in P.methods {
      var s1 := PushOp(PushItem(SetPc(s, s.blk.top.pc + 4),
                                Invoke(|s.ops|, P.methods[callee].argc, want)),
                       Resolved(Some(callee)));
      assert s1.ops == s.ops + [Resolved(Some(callee))] + Objects([]);
      var m := SimArgs(H, step, P, fuel, h, e.args, s1, s.ops, callee, []);
      var ra := S.EvalArgs(P, fuel, h, e.args, EnvOf(s));
      Follow(step, 1, s, s1, m);
      n := 1 + m;
      if ra.Vals? {
        assert [] + ra.vs == ra.vs;
        n := CallFinish(H, step, P, fuel, h, want, e, s, s1, m, ra);
      }
    }
  }

  /** The rest of a call whose arguments have been evaluated in m turns after its name. */
  lemma CallFinish(H: Host, step: State -> Outcome, P: S.Program, fuel: nat, h: Handle, want: bool,
                   e: S.Expr, s: State, s1: State, m: nat, ra: S.AResult)
    returns (n: nat)
    requires Ready(H, step, P, s.w) && InMethod(s, h) && S.ExprOk(P, h, e) && e.Call?
    requires CodeAhead(s, S.EncodeExpr(e)) && P.link(h, e.name) in P.methods
    requires ra == S.EvalArgs(P, fuel, h, e.args, EnvOf(s)) && ra.Vals?
    requires var callee := P.link(h, e.name);
      && s1 == PushOp(PushItem(SetPc(s, s.blk.top.pc + 4),
                               Invoke(|s.ops|, P.methods[callee].argc, want)),
                      Resolved(Some(callee)))
      && Run(step, 1 + m, s) == Go(PushedArgs(s1, |S.EncodeArgs(e.args)|, s.ops, callee, [], ra))
    decreases fuel, e, 1
    ensures var r := S.Eval(P, fuel, h, Clean(s), want, e, EnvOf(s));
            Meets(step, n, s, fuel, r, Pushed(s, |S.EncodeExpr(e)|, want, r))
  {
    var callee := P.link(h, e.name);
    var s2 := PushedArgs(s1, |S.EncodeArgs(e.args)|, s.ops, callee, [], ra);
    assert [] + ra.vs == ra.vs;
    n := 1 + m;
    if fuel > 0 {
      var k := SimEnter(H, step, P, fuel - 1, callee, want, s2, s.ops, ra.vs);
      Follow(step, 1 + m, s, s2, k);
      n := 1 + m + k;
    }
  }

  // ---------------------------------------------------------------------------------------
  // Statements
  // ---------------------------------------------------------------------------------------

  /** n turns from s give the verdict r of a statement of len bytes. */
  ghost predicate MeetsStmt(H: Host, step: State -> Outcome, n: nat, s: State, fuel: nat,
                            r: S.SResult, len: nat)
    requires s.ctx.Push? && s.blk.Push?
  {
    match r
    case Next(env) => Run(step, n, s) == Go(After(s, s.blk.top.pc + len, env, s.ops))
    case Broke(env) => Run(step, n, s) == ParseBreak(SetEnv(s, env))
    case Returned(v, env) => Run(step, n, s) == LeaveMethod(H, SetEnv(s, env), v)
    case AbortStmt(why) => Run(step, n, s) == Stop(why)
    case FuelStmt => n >= fuel && Running(Run(step, n, s))
  }

  /** s is about to run statements: its top item is a method or an open branch. */
  ghost predicate AtBody(H: Host, step: State -> Outcome, P: S.Program, h: Handle, s: State) {
    && Ready(H, step, P, s.w) && InMethod(s, h) && Wants(s, Exec)
    && (s.stk.top.Method? || s.stk.top.Loop? || s.stk.top.Cond?)
  }

  /** Statements and expressions are not empty and never begin like an Else. */
  lemma {:induction false} FirstByte(P: S.Program, h: Handle, e: S.Expr)
    requires S.ExprOk(P, h, e)
    ensures |S.EncodeExpr(e)| > 0 && S.EncodeExpr(e)[0] != 0xA1
  {
  }

  lemma BlockFirstByte(P: S.Program, h: Handle, b: S.Block)
    requires S.BlockOk(P, h, b)
    ensures b.Then? ==> |S.EncodeBlock(b)| > 0 && S.EncodeBlock(b)[0] != 0xA1
    ensures b.Then? ==> |S.EncodeStmt(b.s)| > 0
  {
    if b.Then? {
      match b.s
      case Do(e) => FirstByte(P, h, e);
      case _ =>
    }
  }

  /** No Else follows the len bytes ahead. */
  predicate NoElse(s: State, len: nat)
    requires s.ctx.Push? && s.blk.Push?
  {
    s.blk.top.pc + len < s.blk.top.limit ==> Fetch(s.ctx.top.code, s.blk.top.pc + len) != 0xA1
  }

  // Unwinding does not depend on the program counter of the block it leaves.

  lemma LeaveIgnoresPc(H: Host, s: State, pc: nat, v: Value)
    requires s.ctx.Push? && s.blk.Push?
    ensures LeaveMethod(H, SetPc(s, pc), v) == LeaveMethod(H, s, v)
  {
    if FindMethod(s.stk).Found? && FindMethod(s.stk).depth > 0 {
      var m := FindMethod(s.stk).depth;
      assert PopNested(m, s.stk, SetPc(s, pc).blk) == PopNested(m, s.stk, s.blk);
    }
  }

  lemma BreakIgnoresPc(s: State, pc: nat)
    requires s.ctx.Push? && s.blk.Push? && s.stk.Push?
    ensures ParseBreak(SetPc(s, pc)) == ParseBreak(s)
  {
    if FindLoop(s.stk).Found? {
      var m := FindLoop(s.stk).depth + 1;
      assert PopNested(m, s.stk, SetPc(s, pc).blk) == PopNested(m, s.stk, s.blk);
    }
  }

  /** A break or a return inside a condition unwinds the condition first. */
  lemma NestedUnwinds(H: Host, s: State, it: Item, b: Blk, v: Value)
    requires s.ctx.Push? && s.blk.Push? && it.Cond?
    ensures var t := s.(stk := Push(it, s.stk), blk := Push(b, s.blk));
            ParseBreak(t) == ParseBreak(s) && LeaveMethod(H, t, v) == LeaveMethod(H, s, v)
  {
    var t := s.(stk := Push(it, s.stk), blk := Push(b, s.blk));
    if FindLoop(s.stk).Found? {
      var m := FindLoop(s.stk).depth;
      assert PopNested(m + 2, t.stk, t.blk) == PopNested(m + 1, s.stk, s.blk);
    }
    if FindMethod(s.stk).Found? {
      var m := FindMethod(s.stk).depth;
      assert PopNested(m + 1, t.stk, t.blk) == PopNested(m, s.stk, s.blk);
    }
  }

  lemma LoopUnwinds(H: Host, s: State, it: Item, b: Blk, v: Value)
    requires s.ctx.Push? && s.blk.Push? && it.Loop?
    ensures var t := s.(stk := Push(it, s.stk), blk := Push(b, s.blk));
            ParseBreak(t) == Go(s) && LeaveMethod(H, t, v) == LeaveMethod(H, s, v)
  {
    var t := s.(stk := Push(it, s.stk), blk := Push(b, s.blk));
    assert PopNested(1, t.stk, t.blk) == Unwound(s.stk, s.blk) by {
      assert PopNested(0, s.stk, s.blk) == Unwound(s.stk, s.blk);
    }
    if FindMethod(s.stk).Found? {
      var m := FindMethod(s.stk).depth;
      assert PopNested(m + 1, t.stk, t.blk) == PopNested(m, s.stk, s.blk);
    }
  }

  // Single turns of statements.

  lemma ReturnOpcode(H: Host, s: State, pc: nat)
    requires s.ctx.Push? && s.blk.Push?
    ensures ParseOpcode(H, Exec, s, 0xA4, pc) == Go(PushItem(SetPc(s, pc), Return(|s.ops|)))
  {
  }

  lemma WhileOpcode(H: Host, s: State, pc: nat)
    requires s.ctx.Push? && s.blk.Push?
    ensures ParseOpcode(H, Exec, s, 0xA2, pc) == ParseWhile(s, s.blk.top.pc, pc)
  {
  }

  lemma IfOpcode(H: Host, s: State, pc: nat)
    requires s.ctx.Push? && s.blk.Push?
    ensures ParseOpcode(H, Exec, s, 0xA0, pc) == ParseIf(s, s.blk.top.pc, pc)
  {
  }

  lemma NoopRuns(H: Host, step: State -> Outcome, s: State)
    requires IsStep(step, H) && Wants(s, Exec) && CodeAhead(s, [0xA3])
    ensures Run(step, 1, s) == Go(SetPc(s, s.blk.top.pc + 1))
  {
    OpcodeRuns(H, step, s, Exec, 0xA3);
  }

  lemma BreakRuns(H: Host, step: State -> Outcome, s: State)
    requires IsStep(step, H) && Wants(s, Exec) && CodeAhead(s, [0xA5])
    ensures Run(step, 1, s) == ParseBreak(s)
  {
    OpcodeRuns(H, step, s, Exec, 0xA5);
  }

  lemma ReturnOpens(H: Host, step: State -> Outcome, s: State)
    requires IsStep(step, H) && Wants(s, Exec) && CodeAhead(s, [0xA4])
    ensures Run(step, 1, s) == Go(PushItem(SetPc(s, s.blk.top.pc + 1), Return(|s.ops|)))
  {
    OpcodeRuns(H, step, s, Exec, 0xA4);
    ReturnOpcode(H, s, s.blk.top.pc + 1);
  }

  lemma ReturnLeaves(H: Host, step: State -> Outcome, s: State, ops: seq<Operand>, v: Value)
    requires IsStep(step, H) && s.stk.Push? && s.stk.top == Return(|ops|)
    requires s.ctx.Push? && s.blk.Push? && s.blk.top.pc <= s.blk.top.limit
    requires s.ops == ops + [Obj(v)]
    ensures Run(step, 1, s) == LeaveMethod(H, PopItem(s).(ops := ops), v)
  {
    OneTurn(H, step, s);
    assert s.ops[..|ops|] == ops;
  }

  lemma WhileRuns(H: Host, step: State -> Outcome, s: State)
    requires IsStep(step, H) && Wants(s, Exec) && CodeAhead(s, [0xA2])
    ensures Run(step, 1, s) == ParseWhile(s, s.blk.top.pc, s.blk.top.pc + 1)
  {
    OpcodeRuns(H, step, s, Exec, 0xA2);
    WhileOpcode(H, s, s.blk.top.pc + 1);
  }

  lemma IfRuns(H: Host, step: State -> Outcome, s: State)
    requires IsStep(step, H) && Wants(s, Exec) && CodeAhead(s, [0xA0])
    ensures Run(step, 1, s) == ParseIf(s, s.blk.top.pc, s.blk.top.pc + 1)
  {
    OpcodeRuns(H, step, s, Exec, 0xA0);
    IfOpcode(H, s, s.blk.top.pc + 1);
  }

  /** The package length at pc covers a body of n bytes and is k bytes long. */
  predicate Covers(code: seq<byte>, pc: nat, limit: nat, k: nat, n: nat) {
    ParseVarint(code, pc, limit) == Parsed(k + n, pc + k)
  }

  lemma IfParses(s: State, k: nat, n: nat)
    requires s.ctx.Push? && s.blk.Push? && NoElse(s, 1 + k + n)
    requires Covers(s.ctx.top.code, s.blk.top.pc + 1, s.blk.top.limit, k, n)
    ensures var bodyPc := s.blk.top.pc + 1 + k;
            var end := bodyPc + n;
            ParseIf(s, s.blk.top.pc, s.blk.top.pc + 1)
            == Go(PushItem(PushBlk(SetPc(s, end), bodyPc, end),
                           Cond(|s.ops|, false, false, 0, end + 1)))
  {
  }

  lemma IfOpens(H: Host, step: State -> Outcome, s: State, k: nat, n: nat)
    requires IsStep(step, H) && Wants(s, Exec) && CodeAhead(s, [0xA0]) && NoElse(s, 1 + k + n)
    requires Covers(s.ctx.top.code, s.blk.top.pc + 1, s.blk.top.limit, k, n)
    ensures var bodyPc := s.blk.top.pc + 1 + k;
            var end := bodyPc + n;
            Run(step, 1, s) == Go(PushItem(PushBlk(SetPc(s, end), bodyPc, end),
                                           Cond(|s.ops|, false, false, 0, end + 1)))
  {
    IfRuns(H, step, s);
    IfParses(s, k, n);
  }

  lemma IfElseParses(s: State, k: nat, n: nat, ek: nat, en: nat)
    requires s.ctx.Push? && s.blk.Push?
    requires var code, pc, limit := s.ctx.top.code, s.blk.top.pc, s.blk.top.limit;
      var end := pc + 1 + k + n;
      && Covers(code, pc + 1, limit, k, n) && end < limit && Fetch(code, end) == 0xA1
      && Covers(code, end + 1, limit, ek, en)
    ensures var bodyPc := s.blk.top.pc + 1 + k;
            var end := bodyPc + n;
            var elsePc := end + 1 + ek;
            ParseIf(s, s.blk.top.pc, s.blk.top.pc + 1)
            == Go(PushItem(PushBlk(SetPc(s, elsePc + en), bodyPc, end),
                           Cond(|s.ops|, false, true, elsePc, elsePc + en)))
  {
  }

  lemma IfElseOpens(H: Host, step: State -> Outcome, s: State, k: nat, n: nat, ek: nat, en: nat)
    requires IsStep(step, H) && Wants(s, Exec) && CodeAhead(s, [0xA0])
    requires var code, pc, limit := s.ctx.top.code, s.blk.top.pc, s.blk.top.limit;
      var end := pc + 1 + k + n;
      && Covers(code, pc + 1, limit, k, n) && end < limit && Fetch(code, end) == 0xA1
      && Covers(code, end + 1, limit, ek, en)
    ensures var bodyPc := s.blk.top.pc + 1 + k;
            var end := bodyPc + n;
            var elsePc := end + 1 + ek;
            Run(step, 1, s) == Go(PushItem(PushBlk(SetPc(s, elsePc + en), bodyPc, end),
                                           Cond(|s.ops|, false, true, elsePc, elsePc + en)))
  {
    IfRuns(H, step, s);
    IfElseParses(s, k, n, ek, en);
  }

  /** s with an item, its block and the variables env; the enclosing block continues at next. */
  function Open(s: State, it: Item, b: Blk, next: nat, env: Env): State
    requires s.ctx.Push? && s.blk.Push?
  {
    SetEnv(s, env).(blk := Push(b, SetPc(s, next).blk), stk := Push(it, s.stk))
  }

  /** A condition or loop whose predicate is being evaluated. */
  predicate Guard(it: Item, n: nat) {
    (it.Cond? && it.frame == n && !it.branch) || (it.Loop? && it.frame == n && !it.iterating)
  }

  function Taken(it: Item): Item {
    match it
    case Cond(_, _, _, _, _) => it.(branch := true)
    case Loop(_, _, _) => it.(iterating := true)
    case _ => it
  }

  /** What a guard makes of the value of its predicate. */
  function Decided(s: State, it: Item, b: Blk, next: nat, env: Env, v: Value): Outcome
    requires s.ctx.Push? && s.blk.Push?
  {
    if GetInt(v).Bad? then Stop(GetInt(v).why)
    else if v.n != 0 then Go(Open(s, Taken(it), b, next, env))
    else if it.Cond? && it.hasElse then
      Go(Open(s, Taken(it), Blk(it.elsePc, it.elseLimit), next, env))
    else Go(SetPc(SetEnv(s, env), next))
  }

  lemma GuardDecides(H: Host, step: State -> Outcome, s: State, it: Item, b: Blk, next: nat,
                     env: Env, v: Value)
    requires IsStep(step, H) && s.ctx.Push? && s.blk.Push? && Guard(it, |s.ops|)
    requires b.pc <= b.limit
    ensures Run(step, 1, PushOp(Open(s, it, b, next, env), Obj(v)))
         == Decided(s, it, b, next, env, v)
  {
    var t := PushOp(Open(s, it, b, next, env), Obj(v));
    OneTurn(H, step, t);
    assert t.ops[..|s.ops|] == s.ops;
  }

  /** Evaluating the predicate of a guard, up to its decision. */
  lemma SimGuard(H: Host, step: State -> Outcome, P: S.Program, fuel: nat, h: Handle, s: State,
                 it: Item, b: Blk, next: nat, env: Env, c: S.Expr)
    returns (n: nat)
    requires Ready(H, step, P, s.w) && InMethod(s, h) && S.PlainEnv(env)
    requires Guard(it, |s.ops|) && S.ExprOk(P, h, c)
    requires Ahead(s.ctx.top.code, b.pc, b.limit, S.EncodeExpr(c))
    decreases fuel, c, 5
    ensures var r := S.Eval(P, fuel, h, Clean(s), true, c, env);
            var t := Open(s, it, b, next, env);
            match r
            case Abort(why) => Run(step, n, t) == Stop(why)
            case Fuel => n >= fuel && Running(Run(step, n, t))
            case Val(v, env') =>
              n > 0 && Run(step, n, t) == Decided(s, it, Blk(b.pc + |S.EncodeExpr(c)|, b.limit), next,
                                                  env', v)
  {
    var t := Open(s, it, b, next, env);
    assert t.ops[|s.ops|..] == [];
    n := SimExpr(H, step, P, fuel, h, true, c, t);
    var r := S.Eval(P, fuel, h, Clean(s), true, c, env);
    if r.Val? {
      var b' := Blk(b.pc + |S.EncodeExpr(c)|, b.limit);
      var t' := PushOp(Open(s, it, b', next, r.env), Obj(r.v));
      assert Run(step, n, t) == Go(t');
      GuardDecides(H, step, s, it, b', next, r.env, r.v);
      Follow(step, n, t, t', 1);
      n := n + 1;
    }
  }

  /** The end of a branch. */
  lemma BranchEnds(H: Host, step: State -> Outcome, s: State, it: Item, b: Blk, next: nat, env: Env)
    requires IsStep(step, H) && s.ctx.Push? && s.blk.Push?
    requires it.Cond? && it.branch && b.pc == b.limit
    ensures Run(step, 1, Open(s, it, b, next, env)) == Go(SetPc(SetEnv(s, env), next))
  {
    OneTurn(H, step, Open(s, it, b, next, env));
  }

  /** A statement list run inside a branch gives the same verdict for the condition. */
  lemma BranchMeets(H: Host, step: State -> Outcome, s: State, it: Item, b: Blk, next: nat,
                    env: Env, m: nat, n: nat, fuel: nat, r: S.SResult)
    returns (k: nat)
    requires IsStep(step, H) && s.ctx.Push? && s.blk.Push? && s.stk.Push?
    requires it.Cond? && it.branch && b.pc <= b.limit && next >= s.blk.top.pc
    requires Run(step, m, s) == Go(Open(s, it, b, next, env))
    requires MeetsStmt(H, step, n, Open(s, it, b, next, env), fuel, r, b.limit - b.pc)
    ensures MeetsStmt(H, step, k, s, fuel, r, next - s.blk.top.pc)
  {
    var t := Open(s, it, b, next, env);
    Follow(step, m, s, t, n);
    k := m + n;
    match r
    case Next(env') =>
      var t' := Open(s, it, Blk(b.limit, b.limit), next, env');
      BranchEnds(H, step, s, it, Blk(b.limit, b.limit), next, env');
      Follow(step, m + n, s, t', 1);
      k := m + n + 1;
    case Broke(env') =>
      NestedUnwinds(H, SetPc(SetEnv(s, env'), next), it, b, Uninit);
      BreakIgnoresPc(SetEnv(s, env'), next);
    case Returned(v, env') =>
      NestedUnwinds(H, SetPc(SetEnv(s, env'), next), it, b, v);
      LeaveIgnoresPc(H, SetEnv(s, env'), next, v);
    case AbortStmt(_) =>
    case FuelStmt =>
  }

  /** An opcode with its package: the length decodes and the package lies behind it. */
  lemma GuardedAhead(code: seq<byte>, pc: nat, limit: nat, op: byte, k: nat, body: seq<byte>)
    requires S.PkgFits(k, |body|) && Ahead(code, pc, limit, S.EncodeGuarded(op, k, body))
    ensures |S.EncodeGuarded(op, k, body)| == 1 + k + |body|
    ensures Ahead(code, pc, limit, [op]) && Fetch(code, pc) == op
    ensures Covers(code, pc + 1, limit, k, |body|)
    ensures Ahead(code, pc + 1 + k, pc + 1 + k + |body|, body)
  {
    var p := S.PkgLength(k, |body|);
    assert S.EncodeGuarded(op, k, body) == [op] + (p + body);
    AheadSplit(code, pc, limit, [op], p + body);
    AheadSplit(code, pc + 1, limit, p, body);
    CodeByte(code, pc, [op], 0);
    PkgDecode(code, pc + 1, limit, k, |body|);
  }

  lemma WhileOpens(H: Host, step: State -> Outcome, s: State, k: nat, n: nat)
    requires IsStep(step, H) && Wants(s, Exec) && CodeAhead(s, [0xA2])
    requires Covers(s.ctx.top.code, s.blk.top.pc + 1, s.blk.top.limit, k, n)
    ensures var bodyPc := s.blk.top.pc + 1 + k;
            var end := bodyPc + n;
            Run(step, 1, s) == Go(PushItem(PushBlk(SetPc(s, end), bodyPc, end),
                                           Loop(|s.ops|, false, bodyPc)))
  {
    WhileRuns(H, step, s);
  }

  // The statements themselves.

  /** A branch that a guard has opened: its statements, then the end of the branch. */
  lemma SimBranch(H: Host, step: State -> Outcome, P: S.Program, fuel: nat, h: Handle, s: State,
                  it: Item, b: Blk, next: nat, env: Env, body: S.Block, m: nat)
    returns (k: nat)
    requires AtBody(H, step, P, h, s) && S.PlainEnv(env) && S.BlockOk(P, h, body)
    requires it.Cond? && it.branch && it.frame == |s.ops| && next >= s.blk.top.pc
    requires Ahead(s.ctx.top.code, b.pc, b.limit, S.EncodeBlock(body))
    requires b.pc + |S.EncodeBlock(body)| == b.limit
    requires Run(step, m, s) == Go(Open(s, it, b, next, env))
    decreases fuel, body, 4
    ensures MeetsStmt(H, step, k, s, fuel, S.ExecBlock(P, fuel, h, Clean(s), body, env),
                      next - s.blk.top.pc)
  {
    var t := Open(s, it, b, next, env);
    assert t.ops[|s.ops|..] == [];
    var n := SimBlock(H, step, P, fuel, h, body, t);
    k := BranchMeets(H, step, s, it, b, next, env, m, n, fuel,
                     S.ExecBlock(P, fuel, h, Clean(s), body, env));
  }

  // Where the parts of a structured statement lie in its encoding.

  predicate IfLayout(code: seq<byte>, pc: nat, limit: nat, k: nat, c: seq<byte>, thn: seq<byte>) {
    var end := pc + 1 + k + |c| + |thn|;
    && Ahead(code, pc, limit, [0xA0]) && Covers(code, pc + 1, limit, k, |c| + |thn|)
    && Ahead(code, pc + 1 + k, end, c) && Ahead(code, pc + 1 + k + |c|, end, thn)
  }

  predicate ElseLayout(code: seq<byte>, pc: nat, limit: nat, ek: nat, els: seq<byte>) {
    && pc < limit && Fetch(code, pc) == 0xA1 && Covers(code, pc + 1, limit, ek, |els|)
    && Ahead(code, pc + 1 + ek, pc + 1 + ek + |els|, els)
  }

  predicate WhileLayout(code: seq<byte>, pc: nat, limit: nat, k: nat, c: seq<byte>,
                        body: seq<byte>)
  {
    var end := pc + 1 + k + |c| + |body|;
    && Ahead(code, pc, limit, [0xA2]) && Covers(code, pc + 1, limit, k, |c| + |body|)
    && Ahead(code, pc + 1 + k, end, c) && Ahead(code, pc + 1 + k + |c|, end, body)
  }

  lemma IfLaidOut(code: seq<byte>, pc: nat, limit: nat, k: nat, c: seq<byte>, thn: seq<byte>)
    requires S.PkgFits(k, |c + thn|) && Ahead(code, pc, limit, S.EncodeGuarded(0xA0, k, c + thn))
    ensures IfLayout(code, pc, limit, k, c, thn)
    ensures |S.EncodeGuarded(0xA0, k, c + thn)| == 1 + k + |c| + |thn|
  {
    GuardedAhead(code, pc, limit, 0xA0, k, c + thn);
    AheadSplit(code, pc + 1 + k, pc + 1 + k + |c + thn|, c, thn);
  }

  lemma ElseLaidOut(code: seq<byte>, pc: nat, limit: nat, ek: nat, els: seq<byte>)
    requires S.PkgFits(ek, |els|) && Ahead(code, pc, limit, S.EncodeGuarded(0xA1, ek, els))
    ensures ElseLayout(code, pc, limit, ek, els)
    ensures |S.EncodeGuarded(0xA1, ek, els)| == 1 + ek + |els|
  {
    GuardedAhead(code, pc, limit, 0xA1, ek, els);
  }

  lemma WhileLaidOut(code: seq<byte>, pc: nat, limit: nat, k: nat, c: seq<byte>, body: seq<byte>)
    requires S.PkgFits(k, |c + body|) && Ahead(code, pc, limit, S.EncodeGuarded(0xA2, k, c + body))
    ensures WhileLayout(code, pc, limit, k, c, body)
    ensures |S.EncodeGuarded(0xA2, k, c + body)| == 1 + k + |c| + |body|
  {
    GuardedAhead(code, pc, limit, 0xA2, k, c + body);
    AheadSplit(code, pc + 1 + k, pc + 1 + k + |c + body|, c, body);
  }

  lemma IfElseLaidOut(code: seq<byte>, pc: nat, limit: nat, k: nat, c: seq<byte>, thn: seq<byte>,
                      ek: nat, els: seq<byte>)
    requires S.PkgFits(k, |c + thn|) && S.PkgFits(ek, |els|)
    requires Ahead(code, pc, limit,
                   S.EncodeGuarded(0xA0, k, c + thn) + S.EncodeGuarded(0xA1, ek, els))
    ensures IfLayout(code, pc, limit, k, c, thn)
    ensures ElseLayout(code, pc + 1 + k + |c| + |thn|, limit, ek, els)
    ensures |S.EncodeGuarded(0xA0, k, c + thn) + S.EncodeGuarded(0xA1, ek, els)|
         == 1 + k + |c| + |thn| + 1 + ek + |els|
  {
    AheadSplit(code, pc, limit, S.EncodeGuarded(0xA0, k, c + thn), S.EncodeGuarded(0xA1, ek, els));
    IfLaidOut(code, pc, limit, k, c, thn);
    ElseLaidOut(code, pc + 1 + k + |c| + |thn|, limit, ek, els);
  }

  /** A branch or loop whose predicate and body lie ahead, up to the end of the block b. */
  predicate Guarded(code: seq<byte>, b: Blk, c: seq<byte>, body: seq<byte>) {
    && Ahead(code, b.pc, b.limit, c) && Ahead(code, b.pc + |c|, b.limit, body)
    && b.pc + |c| + |body| == b.limit
  }

  lemma LayoutGuards(code: seq<byte>, pc: nat, limit: nat, k: nat, c: seq<byte>, body: seq<byte>)
    returns (b: Blk)
    requires IfLayout(code, pc, limit, k, c, body) || WhileLayout(code, pc, limit, k, c, body)
    ensures Guarded(code, b, c, body) && b.pc == pc + 1 + k && b.limit == b.pc + |c| + |body|
  {
    b := Blk(pc + 1 + k, pc + 1 + k + |c| + |body|);
  }

  /** The turn that opens a condition without an Else. */
  lemma IfReady(H: Host, step: State -> Outcome, h: Handle, s: State, k: nat, c: seq<byte>,
                thn: seq<byte>, w: seq<byte>)
    returns (it: Item, b: Blk, next: nat)
    requires IsStep(step, H) && Wants(s, Exec) && InMethod(s, h) && S.PkgFits(k, |c + thn|)
    requires w == S.EncodeGuarded(0xA0, k, c + thn) && CodeAhead(s, w) && NoElse(s, |w|)
    ensures next == s.blk.top.pc + |w| && Guarded(s.ctx.top.code, b, c, thn)
    ensures it == Cond(|s.ops|, false, false, 0, next + 1)
    ensures Run(step, 1, s) == Go(Open(s, it, b, next, EnvOf(s)))
  {
    IfLaidOut(s.ctx.top.code, s.blk.top.pc, s.blk.top.limit, k, c, thn);
    b := LayoutGuards(s.ctx.top.code, s.blk.top.pc, s.blk.top.limit, k, c, thn);
    it, next := Cond(|s.ops|, false, false, 0, b.limit + 1), b.limit;
    IfOpened(H, step, h, s, k, |c| + |thn|, it, b);
  }

  lemma IfOpened(H: Host, step: State -> Outcome, h: Handle, s: State, k: nat, n: nat, it: Item,
                 b: Blk)
    requires IsStep(step, H) && Wants(s, Exec) && InMethod(s, h) && CodeAhead(s, [0xA0])
    requires NoElse(s, 1 + k + n) && b.pc == s.blk.top.pc + 1 + k && b.limit == b.pc + n
    requires Covers(s.ctx.top.code, s.blk.top.pc + 1, s.blk.top.limit, k, n)
    requires it == Cond(|s.ops|, false, false, 0, b.limit + 1)
    ensures Run(step, 1, s) == Go(Open(s, it, b, b.limit, EnvOf(s)))
  {
    IfOpens(H, step, s, k, n);
  }

  /** The turn that opens a condition with an Else. */
  lemma IfElseReady(H: Host, step: State -> Outcome, h: Handle, s: State, k: nat, c: seq<byte>,
                    thn: seq<byte>, ek: nat, els: seq<byte>, w: seq<byte>)
    returns (it: Item, b: Blk, next: nat)
    requires IsStep(step, H) && Wants(s, Exec) && InMethod(s, h) && S.PkgFits(k, |c + thn|)
    requires w == S.EncodeGuarded(0xA0, k, c + thn) + S.EncodeGuarded(0xA1, ek, els)
    requires S.PkgFits(ek, |els|) && CodeAhead(s, w)
    ensures next == s.blk.top.pc + |w| && Guarded(s.ctx.top.code, b, c, thn)
    ensures it == Cond(|s.ops|, false, true, next - |els|, next)
    ensures Ahead(s.ctx.top.code, next - |els|, next, els)
    ensures Run(step, 1, s) == Go(Open(s, it, b, next, EnvOf(s)))
  {
    b, next := IfElseBlocks(s.ctx.top.code, s.blk.top.pc, s.blk.top.limit, k, c, thn, ek, els, w);
    it := Cond(|s.ops|, false, true, next - |els|, next);
    IfElseOpened(H, step, h, s, k, |c| + |thn|, ek, |els|, it, b, next);
  }

  /** The two blocks of a condition with an Else. */
  lemma IfElseBlocks(code: seq<byte>, pc: nat, limit: nat, k: nat, c: seq<byte>, thn: seq<byte>,
                     ek: nat, els: seq<byte>, w: seq<byte>)
    returns (b: Blk, next: nat)
    requires S.PkgFits(k, |c + thn|) && S.PkgFits(ek, |els|) && Ahead(code, pc, limit, w)
    requires w == S.EncodeGuarded(0xA0, k, c + thn) + S.EncodeGuarded(0xA1, ek, els)
    ensures next == pc + |w| == b.limit + 1 + ek + |els| && Guarded(code, b, c, thn)
    ensures Ahead(code, next - |els|, next, els) && Ahead(code, pc, limit, [0xA0])
    ensures b.pc == pc + 1 + k && b.limit == b.pc + |c| + |thn| < limit
    ensures Fetch(code, b.limit) == 0xA1 && Covers(code, pc + 1, limit, k, |c| + |thn|)
    ensures Covers(code, b.limit + 1, limit, ek, |els|)
  {
    IfElseLaidOut(code, pc, limit, k, c, thn, ek, els);
    b := LayoutGuards(code, pc, limit, k, c, thn);
    next := b.limit + 1 + ek + |els|;
  }

  lemma IfElseOpened(H: Host, step: State -> Outcome, h: Handle, s: State, k: nat, n: nat, ek: nat,
                     en: nat, it: Item, b: Blk, next: nat)
    requires IsStep(step, H) && Wants(s, Exec) && InMethod(s, h) && CodeAhead(s, [0xA0])
    requires b.pc == s.blk.top.pc + 1 + k && b.limit == b.pc + n < s.blk.top.limit
    requires Covers(s.ctx.top.code, s.blk.top.pc + 1, s.blk.top.limit, k, n)
    requires Fetch(s.ctx.top.code, b.limit) == 0xA1
    requires Covers(s.ctx.top.code, b.limit + 1, s.blk.top.limit, ek, en)
    requires next == b.limit + 1 + ek + en && it == Cond(|s.ops|, false, true, next - en, next)
    ensures Run(step, 1, s) == Go(Open(s, it, b, next, EnvOf(s)))
  {
    IfElseOpens(H, step, s, k, n, ek, en);
    OpenIs(s, h, it, b, next);
  }

  lemma OpenIs(s: State, h: Handle, it: Item, b: Blk, next: nat)
    requires InMethod(s, h)
    ensures PushItem(PushBlk(SetPc(s, next), b.pc, b.limit), it) == Open(s, it, b, next, EnvOf(s))
  {
  }

  /** The turn that opens a loop. */
  lemma WhileReady(H: Host, step: State -> Outcome, h: Handle, s: State, k: nat, c: seq<byte>,
                   body: seq<byte>, w: seq<byte>)
    returns (b: Blk)
    requires IsStep(step, H) && Wants(s, Exec) && InMethod(s, h) && S.PkgFits(k, |c + body|)
    requires w == S.EncodeGuarded(0xA2, k, c + body) && CodeAhead(s, w)
    ensures b.limit == s.blk.top.pc + |w| && Guarded(s.ctx.top.code, b, c, body)
    ensures Run(step, 1, s) == Go(Open(s, Loop(|s.ops|, false, b.pc), b, b.limit, EnvOf(s)))
  {
    WhileLaidOut(s.ctx.top.code, s.blk.top.pc, s.blk.top.limit, k, c, body);
    b := LayoutGuards(s.ctx.top.code, s.blk.top.pc, s.blk.top.limit, k, c, body);
    WhileOpens(H, step, s, k, |c| + |body|);
  }

  /** A condition that opens in one turn, with its predicate and both branches laid out. */
  ghost predicate CondReady(step: State -> Outcome, s: State, it: Item, b: Blk, next: nat,
                            st: S.Stmt)
    requires s.ctx.Push? && s.ctx.top.inv.Some? && s.blk.Push?
  {
    && it.Cond? && Guard(it, |s.ops|) && next >= s.blk.top.pc
    && (st.If? || st.IfElse?) && (it.hasElse <==> st.IfElse?)
    && Guarded(s.ctx.top.code, b, S.EncodeExpr(st.c), S.EncodeBlock(st.thn))
    && (it.hasElse ==> Ahead(s.ctx.top.code, it.elsePc, it.elseLimit, S.EncodeBlock(st.els))
                       && it.elsePc + |S.EncodeBlock(st.els)| == it.elseLimit)
    && Run(step, 1, s) == Go(Open(s, it, b, next, EnvOf(s)))
  }

  lemma OpenIf(H: Host, step: State -> Outcome, P: S.Program, h: Handle, st: S.Stmt, s: State)
    returns (it: Item, b: Blk, next: nat)
    requires IsStep(step, H) && Wants(s, Exec) && InMethod(s, h) && S.StmtOk(P, h, st)
    requires st.If? && CodeAhead(s, S.EncodeStmt(st)) && NoElse(s, |S.EncodeStmt(st)|)
    ensures next == s.blk.top.pc + |S.EncodeStmt(st)| && CondReady(step, s, it, b, next, st)
  {
    it, b, next := IfReady(H, step, h, s, st.k, S.EncodeExpr(st.c), S.EncodeBlock(st.thn),
                           S.EncodeStmt(st));
  }

  lemma OpenIfElse(H: Host, step: State -> Outcome, P: S.Program, h: Handle, st: S.Stmt, s: State)
    returns (it: Item, b: Blk, next: nat)
    requires IsStep(step, H) && Wants(s, Exec) && InMethod(s, h) && S.StmtOk(P, h, st)
    requires st.IfElse? && CodeAhead(s, S.EncodeStmt(st))
    ensures next == s.blk.top.pc + |S.EncodeStmt(st)| && CondReady(step, s, it, b, next, st)
  {
    it, b, next := IfElseReady(H, step, h, s, st.k, S.EncodeExpr(st.c), S.EncodeBlock(st.thn),
                               st.ek, S.EncodeBlock(st.els), S.EncodeStmt(st));
  }

  /** A condition that has been opened in one turn. */
  lemma SimCond(H: Host, step: State -> Outcome, P: S.Program, fuel: nat, h: Handle, s: State,
                it: Item, b: Blk, next: nat, st: S.Stmt)
    returns (n: nat)
    requires AtBody(H, step, P, h, s) && S.StmtOk(P, h, st)
    requires CondReady(step, s, it, b, next, st)
    decreases fuel, st, 0
    ensures MeetsStmt(H, step, n, s, fuel, S.ExecStmt(P, fuel, h, Clean(s), st, EnvOf(s)),
                      next - s.blk.top.pc)
  {
    var t := Open(s, it, b, next, EnvOf(s));
    var m := SimGuard(H, step, P, fuel, h, s, it, b, next, EnvOf(s), st.c);
    Follow(step, 1, s, t, m);
    n := 1 + m;
    var r := S.Eval(P, fuel, h, Clean(s), true, st.c, EnvOf(s));
    if r.Val? && GetInt(r.v).Ok? {
      if r.v.n != 0 {
        n := SimBranch(H, step, P, fuel, h, s, Taken(it), Blk(b.pc + |S.EncodeExpr(st.c)|, b.limit),
                       next, r.env, st.thn, 1 + m);
      } else if it.hasElse {
        n := SimBranch(H, step, P, fuel, h, s, Taken(it), Blk(it.elsePc, it.elseLimit), next, r.env,
                       st.els, 1 + m);
      }
    }
  }

  lemma SimReturn(H: Host, step: State -> Outcome, P: S.Program, fuel: nat, h: Handle, st: S.Stmt,
                  s: State)
    returns (n: nat)
    requires AtBody(H, step, P, h, s) && S.StmtOk(P, h, st) && st.Return?
    requires CodeAhead(s, S.EncodeStmt(st))
    decreases fuel, st, 2
    ensures MeetsStmt(H, step, n, s, fuel, S.ExecStmt(P, fuel, h, Clean(s), st, EnvOf(s)),
                      |S.EncodeStmt(st)|)
  {
    var pc := s.blk.top.pc;
    AheadSplit(s.ctx.top.code, pc, s.blk.top.limit, [0xA4], S.EncodeExpr(st.e));
    ReturnOpens(H, step, s);
    var s1 := PushItem(SetPc(s, pc + 1), Return(|s.ops|));
    assert s1.ops[|s.ops|..] == [];
    var m := SimExpr(H, step, P, fuel, h, true, st.e, s1);
    var r := S.Eval(P, fuel, h, Clean(s), true, st.e, EnvOf(s));
    Follow(step, 1, s, s1, m);
    n := 1 + m;
    if r.Val? {
      var s2 := Pushed(s1, |S.EncodeExpr(st.e)|, true, r);
      ReturnLeaves(H, step, s2, s.ops, r.v);
      Follow(step, 1 + m, s, s2, 1);
      LeaveIgnoresPc(H, SetEnv(s, r.env), s2.blk.top.pc, r.v);
      n := 2 + m;
    }
  }

  lemma {:induction false} SimStmt(H: Host, step: State -> Outcome, P: S.Program, fuel: nat,
                                   h: Handle, st: S.Stmt, s: State)
    returns (n: nat)
    requires AtBody(H, step, P, h, s) && S.StmtOk(P, h, st)
    requires CodeAhead(s, S.EncodeStmt(st)) && NoElse(s, |S.EncodeStmt(st)|)
    decreases fuel, st, 3
    ensures MeetsStmt(H, step, n, s, fuel, S.ExecStmt(P, fuel, h, Clean(s), st, EnvOf(s)),
                      |S.EncodeStmt(st)|)
  {
    match st
    case Do(e) => n := SimExpr(H, step, P, fuel, h, false, e, s);
    case If(_, _, _) =>
      var it, b, next := OpenIf(H, step, P, h, st, s);
      n := SimCond(H, step, P, fuel, h, s, it, b, next, st);
    case IfElse(_, _, _, _, _) =>
      var it, b, next := OpenIfElse(H, step, P, h, st, s);
      n := SimCond(H, step, P, fuel, h, s, it, b, next, st);
    case While(_, _, _) =>
      var b := OpenLoop(H, step, P, h, st, s);
      n := SimWhile(H, step, P, fuel, h, st, s, b);
    case Break =>
      BreakRuns(H, step, s);
      n := 1;
    case Return(_) => n := SimReturn(H, step, P, fuel, h, st, s);
    case Noop =>
      NoopRuns(H, step, s);
      n := 1;
  }

  /** The code of a block: its first statement, not followed by an Else, and the rest. */
  lemma BlockParts(P: S.Program, h: Handle, b: S.Block, s: State, A: seq<byte>, B: seq<byte>)
    requires s.ctx.Push? && s.blk.Push? && S.BlockOk(P, h, b) && b.Then?
    requires A == S.EncodeStmt(b.s) && B == S.EncodeBlock(b.rest) && CodeAhead(s, A + B)
    requires s.blk.top.pc + |A| + |B| == s.blk.top.limit
    ensures CodeAhead(s, A) && NoElse(s, |A|)
    ensures Ahead(s.ctx.top.code, s.blk.top.pc + |A|, s.blk.top.limit, B)
  {
    AheadSplit(s.ctx.top.code, s.blk.top.pc, s.blk.top.limit, A, B);
    BlockFirstByte(P, h, b.rest);
    if B != [] { CodeByte(s.ctx.top.code, s.blk.top.pc + |A|, B, 0); }
  }

  /** Between two statements the item on top still wants to execute. */
  lemma StaysAtBody(H: Host, step: State -> Outcome, P: S.Program, h: Handle, s: State, s1: State,
                    pc: nat, env: Env)
    requires AtBody(H, step, P, h, s) && S.PlainEnv(env) && s1 == After(s, pc, env, s.ops)
    requires pc <= s.blk.top.limit
    ensures AtBody(H, step, P, h, s1) && EnvOf(s1) == env && (Clean(s1) <==> Clean(s))
  {
  }

  lemma {:induction false} SimBlock(H: Host, step: State -> Outcome, P: S.Program, fuel: nat,
                                    h: Handle, b: S.Block, s: State)
    returns (n: nat)
    requires AtBody(H, step, P, h, s) && S.BlockOk(P, h, b)
    requires CodeAhead(s, S.EncodeBlock(b))
    requires s.blk.top.pc + |S.EncodeBlock(b)| == s.blk.top.limit
    decreases fuel, b, 3
    ensures MeetsStmt(H, step, n, s, fuel, S.ExecBlock(P, fuel, h, Clean(s), b, EnvOf(s)),
                      |S.EncodeBlock(b)|)
  {
    if b.Done? {
      n := 0;
    } else {
      var A, B := S.EncodeStmt(b.s), S.EncodeBlock(b.rest);
      BlockParts(P, h, b, s, A, B);
      n := SimStmt(H, step, P, fuel, h, b.s, s);
      var r := S.ExecStmt(P, fuel, h, Clean(s), b.s, EnvOf(s));
      if r.Next? { n := SimRest(H, step, P, fuel, h, b.rest, s, n, |A|, r.env); }
    }
  }

  /** The statements of a block after the first, which took n turns and `a` bytes. */
  lemma SimRest(H: Host, step: State -> Outcome, P: S.Program, fuel: nat, h: Handle, b: S.Block,
                s: State, n: nat, a: nat, env: Env)
    returns (k: nat)
    requires AtBody(H, step, P, h, s) && S.BlockOk(P, h, b) && S.PlainEnv(env)
    requires Run(step, n, s) == Go(After(s, s.blk.top.pc + a, env, s.ops))
    requires Ahead(s.ctx.top.code, s.blk.top.pc + a, s.blk.top.limit, S.EncodeBlock(b))
    requires s.blk.top.pc + a + |S.EncodeBlock(b)| == s.blk.top.limit
    decreases fuel, b, 4
    ensures MeetsStmt(H, step, k, s, fuel, S.ExecBlock(P, fuel, h, Clean(s), b, env),
                      a + |S.EncodeBlock(b)|)
  {
    var s1 := After(s, s.blk.top.pc + a, env, s.ops);
    StaysAtBody(H, step, P, h, s, s1, s.blk.top.pc + a, env);
    var m := SimBlock(H, step, P, fuel, h, b, s1);
    Follow(step, n, s, s1, m);
    BlockChains(H, step, n, m, s, s1, fuel, S.ExecBlock(P, fuel, h, Clean(s), b, env), a,
                |S.EncodeBlock(b)|);
    k := n + m;
  }

  /** A verdict reached from the state after a first statement is reached from before it. */
  lemma BlockChains(H: Host, step: State -> Outcome, n: nat, m: nat, s: State, s1: State,
                    fuel: nat, r: S.SResult, a: nat, b: nat)
    requires s.ctx.Push? && s.blk.Push? && s.stk.Push? && s1.ctx.Push? && s1.blk.Push?
    requires s1.ctx.top.inv.Some?
    requires s1 == After(s, s.blk.top.pc + a, EnvOf(s1), s.ops)
    requires Run(step, n + m, s) == Run(step, m, s1) && MeetsStmt(H, step, m, s1, fuel, r, b)
    ensures MeetsStmt(H, step, n + m, s, fuel, r, a + b)
  {
    match r
    case Broke(env) => BreakIgnoresPc(SetEnv(s, env), s.blk.top.pc + a);
    case Returned(v, env) => LeaveIgnoresPc(H, SetEnv(s, env), s.blk.top.pc + a, v);
    case _ =>
  }

  // Loops.

  /** A loop verdict seen from the state `t` in which the loop item is on top of s. */
  ghost predicate MeetsLoop(H: Host, step: State -> Outcome, n: nat, s: State, next: nat, t: State,
                            fuel: nat, r: S.SResult)
    requires s.ctx.Push? && s.blk.Push?
  {
    match r
    case Next(env) => Run(step, n, t) == Go(SetPc(SetEnv(s, env), next))
    case Broke(env) => false
    case Returned(v, env) => Run(step, n, t) == LeaveMethod(H, SetEnv(s, env), v)
    case AbortStmt(why) => Run(step, n, t) == Stop(why)
    case FuelStmt => n + 1 >= fuel && Running(Run(step, n, t))
  }

  /** A loop that opens in one turn, with its predicate and its body laid out. */
  ghost predicate LoopReady(step: State -> Outcome, s: State, b: Blk, st: S.Stmt)
    requires s.ctx.Push? && s.ctx.top.inv.Some? && s.blk.Push?
  {
    && st.While? && b.limit >= s.blk.top.pc
    && Guarded(s.ctx.top.code, b, S.EncodeExpr(st.c), S.EncodeBlock(st.body))
    && Run(step, 1, s) == Go(Open(s, Loop(|s.ops|, false, b.pc), b, b.limit, EnvOf(s)))
  }

  lemma OpenLoop(H: Host, step: State -> Outcome, P: S.Program, h: Handle, st: S.Stmt, s: State)
    returns (b: Blk)
    requires IsStep(step, H) && Wants(s, Exec) && InMethod(s, h) && S.StmtOk(P, h, st)
    requires st.While? && CodeAhead(s, S.EncodeStmt(st))
    ensures b.limit == s.blk.top.pc + |S.EncodeStmt(st)| && LoopReady(step, s, b, st)
  {
    b := WhileReady(H, step, h, s, st.k, S.EncodeExpr(st.c), S.EncodeBlock(st.body),
                    S.EncodeStmt(st));
  }

  lemma SimWhile(H: Host, step: State -> Outcome, P: S.Program, fuel: nat, h: Handle, st: S.Stmt,
                 s: State, b: Blk)
    returns (n: nat)
    requires AtBody(H, step, P, h, s) && S.StmtOk(P, h, st) && LoopReady(step, s, b, st)
    decreases fuel, st, 2
    ensures MeetsStmt(H, step, n, s, fuel, S.ExecStmt(P, fuel, h, Clean(s), st, EnvOf(s)),
                      b.limit - s.blk.top.pc)
  {
    var t := Open(s, Loop(|s.ops|, false, b.pc), b, b.limit, EnvOf(s));
    var m := SimLoop(H, step, P, fuel, h, s, b, EnvOf(s), st.c, st.body);
    Follow(step, 1, s, t, m);
    n := 1 + m;
  }

  /** The turn that restarts a loop at its predicate. */
  lemma LoopRestarts(H: Host, step: State -> Outcome, s: State, pred: nat, end: nat, env: Env)
    requires IsStep(step, H) && s.ctx.Push? && s.blk.Push?
    ensures Run(step, 1, Open(s, Loop(|s.ops|, true, pred), Blk(end, end), end, env))
         == Go(Open(s, Loop(|s.ops|, false, pred), Blk(pred, end), end, env))
  {
    OneTurn(H, step, Open(s, Loop(|s.ops|, true, pred), Blk(end, end), end, env));
  }

  lemma {:induction false} SimLoop(H: Host, step: State -> Outcome, P: S.Program, fuel: nat,
                                   h: Handle, s: State, b: Blk, env: Env, c: S.Expr, body: S.Block)
    returns (n: nat)
    requires AtBody(H, step, P, h, s) && S.PlainEnv(env)
    requires S.ExprOk(P, h, c) && S.BlockOk(P, h, body)
    requires Guarded(s.ctx.top.code, b, S.EncodeExpr(c), S.EncodeBlock(body))
    decreases fuel, body, 6, c
    ensures MeetsLoop(H, step, n, s, b.limit,
                      Open(s, Loop(|s.ops|, false, b.pc), b, b.limit, env), fuel,
                      S.ExecWhile(P, fuel, h, Clean(s), c, body, env))
  {
    var it := Loop(|s.ops|, false, b.pc);
    var t := Open(s, it, b, b.limit, env);
    n := 0;
    if fuel > 0 {
      n := SimGuard(H, step, P, fuel - 1, h, s, it, b, b.limit, env, c);
      var r := S.Eval(P, fuel - 1, h, Clean(s), true, c, env);
      if r.Val? && GetInt(r.v).Ok? && r.v.n != 0 {
        n := SimIteration(H, step, P, fuel, h, s, b, t, n, r.env, c, body);
      }
    }
  }

  /** The body of a loop whose predicate has held, and the iterations after it. */
  lemma SimIteration(H: Host, step: State -> Outcome, P: S.Program, fuel: nat, h: Handle, s: State,
                     b: Blk, t: State, m: nat, env: Env, c: S.Expr, body: S.Block)
    returns (n: nat)
    requires AtBody(H, step, P, h, s) && S.PlainEnv(env) && fuel > 0
    requires S.ExprOk(P, h, c) && S.BlockOk(P, h, body)
    requires Guarded(s.ctx.top.code, b, S.EncodeExpr(c), S.EncodeBlock(body))
    requires Run(step, m, t) == Go(Open(s, Loop(|s.ops|, true, b.pc),
                                        Blk(b.pc + |S.EncodeExpr(c)|, b.limit), b.limit, env))
    decreases fuel, body, 5, c
    ensures MeetsLoop(H, step, n, s, b.limit, t, fuel,
              match S.ExecBlock(P, fuel - 1, h, Clean(s), body, env)
              case Next(env2) => S.ExecWhile(P, fuel - 1, h, Clean(s), c, body, env2)
              case Broke(env2) => S.Next(env2)
              case r => r)
  {
    var it, end := Loop(|s.ops|, true, b.pc), b.limit;
    var rest := Blk(b.pc + |S.EncodeExpr(c)|, end);
    var u := Open(s, it, rest, end, env);
    assert u.ops[|s.ops|..] == [];
    var k := SimBlock(H, step, P, fuel - 1, h, body, u);
    Follow(step, m, t, u, k);
    n := m + k;
    match S.ExecBlock(P, fuel - 1, h, Clean(s), body, env)
    case Next(env2) =>
      var u2 := Open(s, it, Blk(end, end), end, env2);
      var u3 := Open(s, Loop(|s.ops|, false, b.pc), b, end, env2);
      LoopRestarts(H, step, s, b.pc, end, env2);
      Follow(step, m + k, t, u2, 1);
      var j := SimLoop(H, step, P, fuel - 1, h, s, b, env2, c, body);
      Follow(step, m + k + 1, t, u3, j);
      n := m + k + 1 + j;
    case Broke(env2) =>
      LoopUnwinds(H, SetPc(SetEnv(s, env2), end), it, rest, Uninit);
    case Returned(v, env2) =>
      LoopUnwinds(H, SetPc(SetEnv(s, env2), end), it, rest, v);
      LeaveIgnoresPc(H, SetEnv(s, env2), end, v);
    case AbortStmt(_) =>
    case FuelStmt =>
  }

  lemma MethodReturns(H: Host, step: State -> Outcome, base: State, c: Ctx, want: bool, pc: nat)
    requires IsStep(step, H) && c.inv.Some? && c.inv.value.nodes == []
    ensures var t := State(Push(c, base.ctx), Push(Blk(pc, pc), base.blk),
                           Push(Method(want), base.stk), base.ops, base.w);
            Run(step, 1, t) == if base.ops != [] then Stop(Panic(OperandsBeforeReturn))
                               else Go(Deliver(base, want, Int(0)))
  {
    OneTurn(H, step, State(Push(c, base.ctx), Push(Blk(pc, pc), base.blk),
                           Push(Method(want), base.stk), base.ops, base.w));
  }

  lemma SimMethod(H: Host, step: State -> Outcome, P: S.Program, fuel: nat, h: Handle, want: bool,
                  base: State, vs: seq<Value>, s: State)
    returns (n: nat)
    requires Ready(H, step, P, s.w) && Entered(H, P, h, base, vs, want, s)
    decreases fuel, P.methods[h].body, 7
    ensures var r := S.CallMethod(P, fuel, h, base.ops == [], vs);
            if r.Fuel? then n >= fuel && Running(Run(step, n, s))
            else if r.Abort? then Run(step, n, s) == Stop(r.why)
            else Run(step, n, s) == Go(Deliver(base, want, r.v))
  {
    var body := P.methods[h].body;
    var env := Env(S.Pad(vs), NO_LOCALS);
    assert S.MethodLoaded(P, h, H.methodInfo(s.w, h));
    assert Ahead(s.ctx.top.code, 0, s.blk.top.limit, S.EncodeBlock(body));
    assert s.ops[|s.ops|..] == [];
    n := SimBlock(H, step, P, fuel, h, body, s);
    match S.ExecBlock(P, fuel, h, base.ops == [], body, env)
    case Next(env2) =>
      var t := After(s, |S.EncodeBlock(body)|, env2, s.ops);
      MethodReturns(H, step, base, t.ctx.top, want, |S.EncodeBlock(body)|);
      Follow(step, n, s, t, 1);
      n := n + 1;
    case Broke(_) =>
    case Returned(v, env2) =>
      assert PopNested(0, s.stk, s.blk) == Unwound(s.stk, s.blk);
    case AbortStmt(_) =>
    case FuelStmt =>
  }

  // ---------------------------------------------------------------------------------------
  // Main results
  // ---------------------------------------------------------------------------------------

  /** The state in which lai_eval_args starts a method with the given arguments. */
  function Begin(H: Host, h: Handle, vs: seq<Value>, w: World): State {
    EvalStart(H.methodInfo(w, h), h, S.Pad(vs), w)
  }

  /** The outcome of the machine that the evaluator's verdict stands for. */
  function Final(r: S.EResult, w: World): Outcome
    requires !r.Fuel?
  {
    if r.Val? then Go(State(Empty, Empty, Empty, [Obj(r.v)], w)) else Stop(r.why)
  }

  predicate Plain(vs: seq<Value>) { forall i :: 0 <= i < |vs| ==> !vs[i].Ref? }

  /** Whatever the evaluator computes, the machine computes; when the evaluator needs more fuel,
      the machine is still running after at least that many turns. */
  lemma EvaluatorToMachine(H: Host, step: State -> Outcome, P: S.Program, fuel: nat, h: Handle,
                           vs: seq<Value>, w: World)
    returns (n: nat)
    requires Ready(H, step, P, w) && h in P.methods && Plain(vs)
    ensures var r := S.CallMethod(P, fuel, h, true, vs);
            var o := Run(step, n, Begin(H, h, vs, w));
            if r.Fuel? then n >= fuel && Running(o) else o == Final(r, w)
  {
    var base := State(Empty, Empty, Empty, [], w);
    n := SimMethod(H, step, P, fuel, h, true, base, vs, Begin(H, h, vs, w));
  }

  /** A run that has ended stays as it is. */
  lemma EndedStays(step: State -> Outcome, n: nat, m: nat, s: State)
    requires !Running(Run(step, n, s)) && n <= m
    ensures Run(step, m, s) == Run(step, n, s)
  {
    RunCompose(step, n, m - n, s);
  }

  /** Whatever the machine ends with after n turns, the evaluator computes with fuel n + 1. */
  lemma MachineToEvaluator(H: Host, step: State -> Outcome, P: S.Program, n: nat, h: Handle,
                           vs: seq<Value>, w: World)
    requires Ready(H, step, P, w) && h in P.methods && Plain(vs)
    requires !Running(Run(step, n, Begin(H, h, vs, w)))
    ensures var r := S.CallMethod(P, n + 1, h, true, vs);
            !r.Fuel? && Run(step, n, Begin(H, h, vs, w)) == Final(r, w)
  {
    var s := Begin(H, h, vs, w);
    var m := EvaluatorToMachine(H, step, P, n + 1, h, vs, w);
    if n <= m {
      EndedStays(step, n, m, s);
    } else {
      EndedStays(step, m, n, s);
    }
  }

  /** Refinement: the machine ends with an outcome iff the evaluator, given enough fuel, reaches
      the verdict that stands for it. */
  lemma MachineRefinesEvaluator(H: Host, step: State -> Outcome, P: S.Program, h: Handle,
                                vs: seq<Value>, w: World, o: Outcome)
    requires Ready(H, step, P, w) && h in P.methods && Plain(vs) && !Running(o)
    ensures (exists n: nat :: Run(step, n, Begin(H, h, vs, w)) == o)
       <==> (exists fuel: nat :: !S.CallMethod(P, fuel, h, true, vs).Fuel?
                                 && Final(S.CallMethod(P, fuel, h, true, vs), w) == o)
  {
    if n: nat :| Run(step, n, Begin(H, h, vs, w)) == o {
      MachineToEvaluator(H, step, P, n, h, vs, w);
      assert !S.CallMethod(P, n + 1, h, true, vs).Fuel?;
    }
    if fuel: nat :| !S.CallMethod(P, fuel, h, true, vs).Fuel?
                    && Final(S.CallMethod(P, fuel, h, true, vs), w) == o {
      var n := EvaluatorToMachine(H, step, P, fuel, h, vs, w);
    }
  }
}
