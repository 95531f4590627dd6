/** The structured integer fragment of AML: syntax, encoding and a recursive evaluator.

Method bodies are built from constants, Locals and Args, Store, integer and logic operators,
Increment and Decrement, method calls, If/Else, While, Break, Return and Noop.  `EncodeBlock`
is their AML encoding and `ExecBlock` says what they mean, without any stack.
*/
module AmlSyntax {
  import opened AmlMachine

  // ---------------------------------------------------------------------------------------
  // Syntax
  // ---------------------------------------------------------------------------------------

  datatype Target = NoTarget | ToLocal(i: nat) | ToArg(i: nat)

  /** `width` is the number of bytes a constant is written with, 0 for the one-byte opcodes. */
  datatype Expr =
    | Const(n: u64, width: nat)
    | LocalVar(i: nat)
    | ArgVar(i: nat)
    | Binary(op: byte, a: Expr, b: Expr, t: Target)
    | Logical(op: byte, a: Expr, b: Expr)
    | Not(a: Expr, t: Target)
    | LogicalNot(a: Expr)
    | Store(a: Expr, t: Target)
    | Bump(op: byte, t: Target)
    | Call(name: seq<byte>, args: Args)

  datatype Args = NoArgs | MoreArgs(head: Expr, rest: Args)

  /** `k` and `ek` are the numbers of bytes the package lengths are written with. */
  datatype Stmt =
    | Do(e: Expr)
    | If(k: nat, c: Expr, thn: Block)
    | IfElse(k: nat, c: Expr, thn: Block, ek: nat, els: Block)
    | While(k: nat, c: Expr, body: Block)
    | Break
    | Return(e: Expr)
    | Noop

  datatype Block = Done | Then(s: Stmt, rest: Block)

  datatype MethodDef = MethodDef(argc: nat, body: Block)

  /** Methods by node, and the node each name denotes when resolved from a method. */
  datatype Program = Program(methods: map<Handle, MethodDef>, link: (Handle, seq<byte>) -> Handle)

  function Length(args: Args): nat { if args.NoArgs? then 0 else 1 + Length(args.rest) }

  // ---------------------------------------------------------------------------------------
  // Encoding
  // ---------------------------------------------------------------------------------------

  function Bytes(n: nat, k: nat): (s: seq<byte>)
    ensures |s| == k
  {
    if k == 0 then [] else [n % 256] + Bytes(n / 256, k - 1)
  }

  function Power256(k: nat): nat { if k == 0 then 1 else 256 * Power256(k - 1) }

  function EncodeConst(n: u64, width: nat): seq<byte> {
    if width == 0 then [if n == 0 then 0x00 else if n == 1 then 0x01 else 0xFF]
    else [if width == 1 then 0x0A else if width == 2 then 0x0B else if width == 4 then 0x0C
          else 0x0E] + Bytes(n, width)
  }

  /** Package length encoding of a body of n bytes, k bytes long itself. */
  function PkgLength(k: nat, n: nat): (s: seq<byte>)
    requires PkgFits(k, n)
    ensures |s| == k
  {
    if k == 1 then [n + 1]
    else [64 * (k - 1) + (n + k) % 16] + Bytes((n + k) / 16, k - 1)
  }

  predicate PkgFits(k: nat, n: nat) {
    (k == 1 && n + 1 < 64) || (k == 2 && n + 2 < 0x1000) || (k == 3 && n + 3 < 0x10_0000)
    || (k == 4 && n + 4 < 0x1000_0000)
  }

  function PkgSafe(k: nat, n: nat): (s: seq<byte>) {
    if PkgFits(k, n) then PkgLength(k, n) else []
  }

  function EncodeTarget(t: Target): byte {
    match t
    case NoTarget => 0x00
    case ToLocal(i) => if i < 8 then 0x60 + i else 0x60
    case ToArg(i) => if i < 7 then 0x68 + i else 0x68
  }

  function EncodeExpr(e: Expr): seq<byte> {
    match e
    case Const(n, width) => EncodeConst(n, width)
    case LocalVar(i) => [EncodeTarget(ToLocal(i))]
    case ArgVar(i) => [EncodeTarget(ToArg(i))]
    case Binary(op, a, b, t) => [op] + EncodeExpr(a) + EncodeExpr(b) + [EncodeTarget(t)]
    case Logical(op, a, b) => [op] + EncodeExpr(a) + EncodeExpr(b)
    case Not(a, t) => [0x80] + EncodeExpr(a) + [EncodeTarget(t)]
    case LogicalNot(a) => [0x92] + EncodeExpr(a)
    case Store(a, t) => [0x70] + EncodeExpr(a) + [EncodeTarget(t)]
    case Bump(op, t) => [op, EncodeTarget(t)]
    case Call(name, args) => name + EncodeArgs(args)
  }

  function EncodeArgs(args: Args): seq<byte> {
    if args.NoArgs? then [] else EncodeExpr(args.head) + EncodeArgs(args.rest)
  }

  function EncodeStmt(s: Stmt): seq<byte> {
    match s
    case Do(e) => EncodeExpr(e)
    case If(k, c, thn) => EncodeGuarded(0xA0, k, EncodeExpr(c) + EncodeBlock(thn))
    case IfElse(k, c, thn, ek, els) =>
      EncodeGuarded(0xA0, k, EncodeExpr(c) + EncodeBlock(thn))
      + EncodeGuarded(0xA1, ek, EncodeBlock(els))
    case While(k, c, body) => EncodeGuarded(0xA2, k, EncodeExpr(c) + EncodeBlock(body))
    case Break => [0xA5]
    case Return(e) => [0xA4] + EncodeExpr(e)
    case Noop => [0xA3]
  }

  /** An opcode, the package length and the package. */
  function EncodeGuarded(op: byte, k: nat, body: seq<byte>): seq<byte> {
    [op] + PkgSafe(k, |body|) + body
  }

  function EncodeBlock(b: Block): seq<byte> {
    if b.Done? then [] else EncodeStmt(b.s) + EncodeBlock(b.rest)
  }

  // ---------------------------------------------------------------------------------------
  // Well-formed programs
  // ---------------------------------------------------------------------------------------

  predicate TargetOk(t: Target) {
    match t
    case NoTarget => true
    case ToLocal(i) => i < 8
    case ToArg(i) => i < 7
  }

  predicate ConstOk(n: u64, width: nat) {
    if width == 0 then n == 0 || n == 1 || n == ONES
    else (width == 1 || width == 2 || width == 4 || width == 8) && n < Power256(width)
  }

  /** A single name segment: its first byte is no prefix character. */
  predicate NameOk(name: seq<byte>) {
    |name| == 4 && IsName(name[0]) && name[0] !in {0x2E, 0x2F, 0x5C, 0x5E}
  }

  predicate ExprOk(P: Program, h: Handle, e: Expr) {
    match e
    case Const(n, width) => ConstOk(n, width)
    case LocalVar(i) => i < 8
    case ArgVar(i) => i < 7
    case Binary(op, a, b, t) => IsArith(op) && ExprOk(P, h, a) && ExprOk(P, h, b) && TargetOk(t)
    case Logical(op, a, b) => IsLogic(op) && ExprOk(P, h, a) && ExprOk(P, h, b)
    case Not(a, t) => ExprOk(P, h, a) && TargetOk(t)
    case LogicalNot(a) => ExprOk(P, h, a)
    case Store(a, t) => ExprOk(P, h, a) && TargetOk(t)
    case Bump(op, t) => (op == 0x75 || op == 0x76) && TargetOk(t)
    case Call(name, args) =>
      NameOk(name) && ArgsOk(P, h, args)
      && (P.link(h, name) in P.methods ==> P.methods[P.link(h, name)].argc == Length(args))
  }

  predicate ArgsOk(P: Program, h: Handle, args: Args) {
    args.MoreArgs? ==> ExprOk(P, h, args.head) && ArgsOk(P, h, args.rest)
  }

  predicate StmtOk(P: Program, h: Handle, s: Stmt) {
    match s
    case Do(e) => ExprOk(P, h, e)
    case If(k, c, thn) =>
      ExprOk(P, h, c) && BlockOk(P, h, thn) && PkgFits(k, |EncodeExpr(c) + EncodeBlock(thn)|)
    case IfElse(k, c, thn, ek, els) =>
      ExprOk(P, h, c) && BlockOk(P, h, thn) && BlockOk(P, h, els)
      && PkgFits(k, |EncodeExpr(c) + EncodeBlock(thn)|) && PkgFits(ek, |EncodeBlock(els)|)
    case While(k, c, body) =>
      ExprOk(P, h, c) && BlockOk(P, h, body) && PkgFits(k, |EncodeExpr(c) + EncodeBlock(body)|)
    case Break => true
    case Return(e) => ExprOk(P, h, e)
    case Noop => true
  }

  predicate BlockOk(P: Program, h: Handle, b: Block) {
    b.Then? ==> StmtOk(P, h, b.s) && BlockOk(P, h, b.rest)
  }

  predicate ProgramOk(P: Program) {
    forall h :: h in P.methods ==> P.methods[h].argc <= 7 && BlockOk(P, h, P.methods[h].body)
  }

  /** The host holds the encoded methods of P and resolves their names as P links them. */
  ghost predicate Loaded(H: Host, w: World, P: Program) {
    && (forall h :: h in P.methods ==> MethodLoaded(P, h, H.methodInfo(w, h)))
    && (forall h, name ::
          H.resolve(w, h, name) ==
            if P.link(h, name) in P.methods
            then MethodNode(P.link(h, name), P.methods[P.link(h, name)].argc) else Missing)
  }

  predicate MethodLoaded(P: Program, h: Handle, m: MethodInfo)
    requires h in P.methods
  {
    var d := P.methods[h];
    && !m.overridden && m.size == |EncodeBlock(d.body)|
    && EncodeBlock(d.body) <= m.code
  }

  // ---------------------------------------------------------------------------------------
  // Evaluation
  // ---------------------------------------------------------------------------------------

  datatype EResult = Val(v: Value, env: Env) | Abort(why: Why) | Fuel
  datatype AResult = Vals(vs: seq<Value>, env: Env) | AbortArgs(why: Why) | FuelArgs
  datatype SResult =
    | Next(env: Env) | Broke(env: Env) | Returned(v: Value, env: Env) | AbortStmt(why: Why)
    | FuelStmt

  /** Seven arguments and eight locals, none of them a reference. */
  predicate PlainEnv(env: Env) {
    |env.args| == 7 && |env.locals| == 8
    && (forall i :: 0 <= i < 7 ==> !env.args[i].Ref?)
    && (forall i :: 0 <= i < 8 ==> !env.locals[i].Ref?)
  }

  function TargetOperand(t: Target): Operand {
    match t
    case NoTarget => NullName
    case ToLocal(i) => LocalName(i)
    case ToArg(i) => ArgName(i)
  }

  function Assign(c: Computed, t: Target, env: Env): (r: EResult)
    requires PlainEnv(env) && (c.Ok? ==> !c.value.Ref?)
    ensures r.Val? ==> PlainEnv(r.env) && !r.v.Ref?
  {
    match c
    case Bad(why) => Abort(why)
    case Ok(v) => Val(v, WriteVariable(env, TargetOperand(t), v))
  }

  function Operate(op: nat, a: Value, rb: EResult, t: Target): (r: EResult)
    requires IsArith(op) || IsLogic(op)
    requires rb.Val? ==> PlainEnv(rb.env)
    ensures r.Val? ==> PlainEnv(r.env) && !r.v.Ref?
  {
    if !rb.Val? then rb else Assign(Compute(op, a, rb.v), t, rb.env)
  }

  /** Evaluates e in a method of node h.  `clean` says that no operand of an enclosing
      expression is pending: the interpreter refuses an implicit return otherwise.  `want` says
      that the value is used: a bare variable is no statement.  Fuel bounds calls and loop
      iterations. */
  function Eval(P: Program, fuel: nat, h: Handle, clean: bool, want: bool, e: Expr, env: Env)
    : (r: EResult)
    requires ProgramOk(P) && PlainEnv(env) && ExprOk(P, h, e)
    ensures r.Val? ==> PlainEnv(r.env) && !r.v.Ref?
    decreases fuel, e, 0
  {
    match e
    case Const(n, _) => Val(Int(n), env)
    case LocalVar(i) => if want then Val(env.locals[i], env) else Abort(Panic(BadMode))
    case ArgVar(i) => if want then Val(env.args[i], env) else Abort(Panic(BadMode))
    case Binary(op, a, b, t) =>
      var ra := Eval(P, fuel, h, clean, true, a, env);
      if !ra.Val? then ra else
      Operate(op, ra.v, Eval(P, fuel, h, false, true, b, ra.env), t)
    case Logical(op, a, b) =>
      var ra := Eval(P, fuel, h, clean, true, a, env);
      if !ra.Val? then ra else
      Operate(op, ra.v, Eval(P, fuel, h, false, true, b, ra.env), NoTarget)
    case Not(a, t) =>
      var ra := Eval(P, fuel, h, clean, true, a, env);
      if !ra.Val? then ra else Assign(ComputeUnary(0x80, ra.v), t, ra.env)
    case LogicalNot(a) =>
      var ra := Eval(P, fuel, h, clean, true, a, env);
      if !ra.Val? then ra else Assign(ComputeUnary(0x92, ra.v), NoTarget, ra.env)
    case Store(a, t) =>
      var ra := Eval(P, fuel, h, clean, true, a, env);
      if !ra.Val? then ra else Assign(Ok(ra.v), t, ra.env)
    case Bump(op, t) =>
      if t.NoTarget? then Abort(Panic(BadTarget))
      else Assign(ComputeStep(op, ReadVariable(env, TargetOperand(t))), t, env)
    case Call(name, args) =>
      var callee := P.link(h, name);
      if callee !in P.methods then Abort(Failed(UnexpectedResult)) else
      var ra := EvalArgs(P, fuel, h, args, env);
      if ra.AbortArgs? then Abort(ra.why)
      else if ra.FuelArgs? || fuel == 0 then Fuel
      else
        var r := CallMethod(P, fuel - 1, callee, clean, ra.vs);
        if r.Val? then Val(r.v, ra.env) else r
  }

  /** Arguments are evaluated while the method's name is pending. */
  function EvalArgs(P: Program, fuel: nat, h: Handle, args: Args, env: Env): (r: AResult)
    requires ProgramOk(P) && PlainEnv(env) && ArgsOk(P, h, args)
    ensures r.Vals? ==> PlainEnv(r.env) && |r.vs| == Length(args)
                        && forall i :: 0 <= i < |r.vs| ==> !r.vs[i].Ref?
    decreases fuel, args, 0
  {
    if args.NoArgs? then Vals([], env) else
    var ra := Eval(P, fuel, h, false, true, args.head, env);
    if ra.Abort? then AbortArgs(ra.why)
    else if ra.Fuel? then FuelArgs
    else
      var rs := EvalArgs(P, fuel, h, args.rest, ra.env);
      if rs.Vals? then Vals([ra.v] + rs.vs, rs.env) else rs
  }

  function Pad(vs: seq<Value>): (r: seq<Value>)
    ensures |r| == 7
  {
    seq<Value>(7, i requires 0 <= i => if i < |vs| then vs[i] else Uninit)
  }

  /** Value of a method body; falling off its end returns 0. */
  function CallMethod(P: Program, fuel: nat, h: Handle, clean: bool, vs: seq<Value>): (r: EResult)
    requires ProgramOk(P) && h in P.methods && forall i :: 0 <= i < |vs| ==> !vs[i].Ref?
    ensures r.Val? ==> !r.v.Ref? && PlainEnv(r.env)
    decreases fuel, P.methods[h].body, 1
  {
    var d := P.methods[h];
    match ExecBlock(P, fuel, h, clean, d.body, Env(Pad(vs), NO_LOCALS))
    case Next(env) => if clean then Val(Int(0), env) else Abort(Panic(OperandsBeforeReturn))
    case Broke(_) => Abort(Panic(CannotSkip))
    case Returned(v, env) => Val(v, env)
    case AbortStmt(why) => Abort(why)
    case FuelStmt => Fuel
  }

  function ExecStmt(P: Program, fuel: nat, h: Handle, clean: bool, s: Stmt, env: Env)
    : (r: SResult)
    requires ProgramOk(P) && PlainEnv(env) && StmtOk(P, h, s)
    ensures r.Next? || r.Broke? ==> PlainEnv(r.env)
    ensures r.Returned? ==> PlainEnv(r.env) && !r.v.Ref?
    decreases fuel, s, 0
  {
    match s
    case Do(e) =>
      (match Eval(P, fuel, h, clean, false, e, env)
       case Val(_, env') => Next(env')
       case Abort(why) => AbortStmt(why)
       case Fuel => FuelStmt)
    case If(_, c, thn) =>
      (match Decide(Eval(P, fuel, h, clean, true, c, env))
       case Chosen(taken, env') =>
         if taken then ExecBlock(P, fuel, h, clean, thn, env') else Next(env')
       case Undecided(r) => r)
    case IfElse(_, c, thn, _, els) =>
      (match Decide(Eval(P, fuel, h, clean, true, c, env))
       case Chosen(taken, env') =>
         if taken then ExecBlock(P, fuel, h, clean, thn, env')
         else ExecBlock(P, fuel, h, clean, els, env')
       case Undecided(r) => r)
    case While(_, c, body) => ExecWhile(P, fuel, h, clean, c, body, env)
    case Break => Broke(env)
    case Return(e) =>
      (match Eval(P, fuel, h, clean, true, e, env)
       case Val(v, env') => Returned(v, env')
       case Abort(why) => AbortStmt(why)
       case Fuel => FuelStmt)
    case Noop => Next(env)
  }

  datatype Decision = Chosen(taken: bool, env: Env) | Undecided(r: SResult)

  /** The truth of a predicate's value. */
  function Decide(r: EResult): (d: Decision)
    ensures d.Undecided? ==> d.r.AbortStmt? || d.r.FuelStmt?
    ensures d.Chosen? ==> r.Val? && d.env == r.env
  {
    match r
    case Abort(why) => Undecided(AbortStmt(why))
    case Fuel => Undecided(FuelStmt)
    case Val(v, env) =>
      if GetInt(v).Bad? then Undecided(AbortStmt(GetInt(v).why)) else Chosen(v.n != 0, env)
  }

  function ExecWhile(P: Program, fuel: nat, h: Handle, clean: bool, c: Expr, body: Block, env: Env)
    : (r: SResult)
    requires ProgramOk(P) && PlainEnv(env) && ExprOk(P, h, c) && BlockOk(P, h, body)
    ensures r.Next? || r.Broke? ==> PlainEnv(r.env)
    ensures r.Returned? ==> PlainEnv(r.env) && !r.v.Ref?
    decreases fuel, body, 1, c
  {
    if fuel == 0 then FuelStmt else
    match Decide(Eval(P, fuel - 1, h, clean, true, c, env))
    case Undecided(r) => r
    case Chosen(taken, env1) =>
      if !taken then Next(env1) else
      match ExecBlock(P, fuel - 1, h, clean, body, env1)
      case Next(env2) => ExecWhile(P, fuel - 1, h, clean, c, body, env2)
      case Broke(env2) => Next(env2)
      case r => r
  }

  function ExecBlock(P: Program, fuel: nat, h: Handle, clean: bool, b: Block, env: Env)
    : (r: SResult)
    requires ProgramOk(P) && PlainEnv(env) && BlockOk(P, h, b)
    ensures r.Next? || r.Broke? ==> PlainEnv(r.env)
    ensures r.Returned? ==> PlainEnv(r.env) && !r.v.Ref?
    decreases fuel, b, 0
  {
    if b.Done? then Next(env) else
    var r := ExecStmt(P, fuel, h, clean, b.s, env);
    if r.Next? then ExecBlock(P, fuel, h, clean, b.rest, r.env) else r
  }
}
