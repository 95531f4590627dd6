/** The AML interpreter of lai/core/exec.c as a machine over four stacks.

A state holds the context stack (code and locals of each active method), the block stack
(program counter and limit of each open block), the execution stack (what the interpreter is
in the middle of) and the operand stack.  `Process` is one turn of the main loop and `Parse`
decodes one opcode.  Everything that happens to namespace nodes, strings, buffers, packages
and hardware is delegated to a `Host`, a record of arbitrary functions: results proved about
the machine hold for every host.
*/
module AmlMachine {
  import opened Wrappers
  import opened Bits

  type byte = b: int | 0 <= b < 0x100
  type u64 = n: int | 0 <= n < 0x1_0000_0000_0000_0000
  const ONES: u64 := 0xFFFF_FFFF_FFFF_FFFF

  /** Namespace, object heap and hardware. */
  type World(!new, ==)
  type Handle = nat

  datatype Stack<+T> = Empty | Push(top: T, below: Stack<T>)

  // ---------------------------------------------------------------------------------------
  // Data
  // ---------------------------------------------------------------------------------------

  /** A variable: uninitialised, an integer, or any object that lives in the world. */
  datatype Value = Uninit | Int(n: u64) | Ref(id: nat)

  datatype Operand =
    | Obj(value: Value)
    | NullName
    | Unresolved(ctx: Handle, name: seq<byte>)
    | Resolved(handle: Option<Handle>)
    | ArgName(index: nat)
    | LocalName(index: nat)
    | DebugName

  datatype Env = Env(args: seq<Value>, locals: seq<Value>)

  /** A method invocation: its variables and the namespace nodes it has created. */
  datatype Invocation = Invocation(env: Env, nodes: seq<Handle>)

  datatype Ctx = Ctx(code: seq<byte>, handle: Handle, inv: Option<Invocation>)

  datatype Blk = Blk(pc: nat, limit: nat)

  datatype Mode =
    | Data | Object | Exec | Unres | Reference | OptReference
    | ImmByte | ImmWord | ImmDword

  datatype Item =
    | Populate
    | Method(want: bool)
    | Loop(frame: nat, iterating: bool, pred: nat)
    | Cond(frame: nat, branch: bool, hasElse: bool, elsePc: nat, elseLimit: nat)
    | Buffer(frame: nat, want: bool)
    | Package(frame: nat, index: nat, phase: nat, want: bool)
    | Node(frame: nat, opcode: nat, modes: seq<Mode>)
    | Op(frame: nat, opcode: nat, modes: seq<Mode>, want: bool)
    | Invoke(frame: nat, argc: nat, want: bool)
    | Return(frame: nat)
    | BankField(frame: nat)

  datatype State = State(
    ctx: Stack<Ctx>, blk: Stack<Blk>, stk: Stack<Item>, ops: seq<Operand>, w: World)

  // ---------------------------------------------------------------------------------------
  // Outcomes
  // ---------------------------------------------------------------------------------------

  datatype Error = ExecutionFailure | IllegalArguments | UnexpectedResult | OutOfMemory | OtherError

  /** Panics that malformed or unsupported AML, or the host, can provoke. */
  datatype PanicReason =
    | EscapedCode | OperandsBeforeReturn | BadMode | NoInvocation | NotAnInteger | BadTarget
    | UndefinedArithmetic | UnterminatedString | SplitOpcode | ElseWithoutIf | OutsideMethod
    | OutsideLoop | CannotSkip | UnexpectedOpcode | BadName | BufferOverflow | PackageOverflow
    | NoTimer | HostPanic | Unmodelled

  /** Internal assertions of the interpreter: each names a LAI_ENSURE or an array access. */
  datatype CheckId =
    | NoContext | NoBlock | PopEmpty | TooManyOperands | MissingOperand | OperandTag
    | MethodTag | PackageShape | ModeIndex | UnwindKind

  datatype Why = Failed(e: Error) | Panic(p: PanicReason) | Check(c: CheckId)

  datatype Outcome = Go(s: State) | Stop(why: Why)

  // ---------------------------------------------------------------------------------------
  // Host
  // ---------------------------------------------------------------------------------------

  datatype Lookup = Missing | MethodNode(handle: Handle, argc: nat) | ObjectNode(handle: Handle)

  datatype MethodInfo = MethodInfo(code: seq<byte>, size: nat, overridden: bool)

  /** Result of a host operation: a value with the new world and current invocation. */
  datatype Effect<+T> =
    | Did(value: T, w: World, inv: Option<Invocation>)
    | Refused(e: Error)
    | Panicked

  datatype Opened = Opened(handle: Handle, bodyPc: nat, endPc: nat)
  datatype Bank = Bank(region: Handle, bank: Handle, bodyPc: nat, endPc: nat)

  datatype Host = Host(
    resolve: (World, Handle, seq<byte>) -> Lookup,
    access: (World, Handle) -> Effect<Value>,
    methodInfo: (World, Handle) -> MethodInfo,
    osMethod: (World, Handle, seq<Value>) -> Effect<Value>,
    timer: World -> Option<u64>,
    newString: (World, seq<byte>) -> Effect<Value>,
    newBuffer: (World, Value, seq<byte>) -> Effect<Value>,
    newPackage: (World, u64) -> Effect<Value>,
    packageSize: (World, Value) -> nat,
    packageStore: (World, Value, Value, nat) -> World,
    reduceOp: (World, nat, Option<Invocation>, seq<Operand>) -> Effect<Value>,
    reduceNode: (World, nat, Ctx, seq<Operand>) -> Effect<()>,
    declare: (World, nat, Ctx, Blk) -> Effect<nat>,
    openScope: (World, nat, Ctx, Blk) -> Effect<Opened>,
    openBank: (World, Ctx, Blk) -> Effect<Bank>,
    bankFields: (World, Ctx, Handle, Handle, u64, Blk) -> Effect<()>,
    cleanup: (World, seq<Handle>) -> World)

  function Fails<T>(e: Effect<T>): (why: Why)
    requires !e.Did?
  {
    if e.Refused? then Failed(e.e) else Panic(HostPanic)
  }

  // ---------------------------------------------------------------------------------------
  // Byte-level parsing
  // ---------------------------------------------------------------------------------------

  /** Bytes past the end of a table read as zero. */
  function Fetch(code: seq<byte>, pc: nat): byte {
    if pc < |code| then code[pc] else 0
  }

  function Slice(code: seq<byte>, pc: nat, n: nat): (s: seq<byte>)
    ensures |s| == n
  {
    seq<byte>(n, i requires 0 <= i => Fetch(code, pc + i))
  }

  datatype Parsed = NoParse | Parsed(value: nat, pc: nat)

  /** Package length encoding, section 20.2.4 of the ACPI specification. */
  function ParseVarint(code: seq<byte>, pc: nat, limit: nat): Parsed {
    if pc + 1 > limit then NoParse else
    var b := Fetch(code, pc);
    if b / 64 == 0 then Parsed(b % 64, pc + 1)
    else if b / 64 == 1 then
      if pc + 2 > limit then NoParse
      else Parsed(b % 16 + 16 * Fetch(code, pc + 1), pc + 2)
    else if b / 64 == 2 then
      if pc + 3 > limit then NoParse
      else Parsed(b % 16 + 16 * Fetch(code, pc + 1) + 4096 * Fetch(code, pc + 2), pc + 3)
    else
      if pc + 4 > limit then NoParse
      else Parsed(b % 16 + 16 * Fetch(code, pc + 1) + 4096 * Fetch(code, pc + 2)
                  + 1048576 * Fetch(code, pc + 3), pc + 4)
  }

  /** Little-endian value of a byte string. */
  function LittleEndian(s: seq<byte>): nat {
    if s == [] then 0 else s[0] + 256 * LittleEndian(s[1..])
  }

  function ParseInt(code: seq<byte>, pc: nat, limit: nat, n: nat): Parsed {
    if pc + n > limit then NoParse else Parsed(LittleEndian(Slice(code, pc, n)), pc + n)
  }

  predicate IsName(b: byte) {
    '0' as int <= b <= '9' as int || 'A' as int <= b <= 'Z' as int || b == 0x5F || b == 0x5C
    || b == 0x5E || b == 0x2F || b == 0x2E
  }

  /** Number of '^' characters at pc. */
  function Carets(code: seq<byte>, pc: nat): nat
    decreases |code| - pc
  {
    if pc < |code| && code[pc] == 0x5E then 1 + Carets(code, pc + 1) else 0
  }

  /** Encoded length of the name at pc (section 20.2.2 of the ACPI specification), if valid. */
  function NameLength(code: seq<byte>, pc: nat): Option<nat> {
    var prefix := if Fetch(code, pc) == 0x5C then 1 else Carets(code, pc);
    var b := Fetch(code, pc + prefix);
    if b == 0 then Some(prefix + 1)
    else if b == 0x2E then Some(prefix + 9)
    else if b == 0x2F then
      var segs := Fetch(code, pc + prefix + 1);
      if segs > 2 then Some(prefix + 2 + 4 * segs) else None
    else if IsName(b) then Some(prefix + 4)
    else None
  }

  /** Length of the NUL-terminated string at pc, cut off at limit. */
  function StringLength(code: seq<byte>, pc: nat, limit: nat): nat
    decreases limit - pc
  {
    if pc < limit && Fetch(code, pc) != 0 then 1 + StringLength(code, pc + 1, limit) else 0
  }

  // ---------------------------------------------------------------------------------------
  // Opcode tables
  // ---------------------------------------------------------------------------------------

  predicate WantsResult(m: Mode) { m != Exec }

  predicate Resolves(m: Mode) { m.Exec? || m.Object? || m.Reference? || m.OptReference? }

  predicate Invokes(m: Mode) { m.Exec? || m.Object? }

  /** Operand modes of the operators, which become Op items. */
  function OpModes(opcode: nat): Option<seq<Mode>> {
    if opcode in {0x70, 0x9D, 0x80, 0x81, 0x82, 0x96, 0x97, 0x98, 0x99, 0x5B28, 0x5B29} then
      Some([Object, Reference])
    else if opcode in {0x72, 0x73, 0x74, 0x77, 0x79, 0x7A, 0x7B, 0x7C, 0x7D, 0x7E, 0x7F, 0x84,
                       0x85, 0x88, 0x9C} then
      Some([Object, Object, Reference])
    else if opcode == 0x78 then Some([Object, Object, Reference, Reference])
    else if opcode in {0x75, 0x76, 0x8E, 0x71, 0x5B27, 0x5B24, 0x5B26} then Some([Reference])
    else if opcode in {0x92, 0x83, 0x87, 0x5B21, 0x5B22} then Some([Object])
    else if opcode in {0x90, 0x91, 0x93, 0x94, 0x95} then Some([Object, Object])
    else if opcode == 0x89 then Some([Object, ImmByte, Object, ImmByte, Object, Object])
    else if opcode in {0x86, 0x5B25} then Some([Reference, Object])
    else if opcode == 0x5B12 then Some([OptReference, Reference])
    else if opcode == 0x5B23 then Some([Reference, ImmWord])
    else if opcode == 0x5B32 then Some([ImmByte, ImmDword, Object])
    else if opcode == 0x9E then Some([Object, Object, Object, Reference])
    else None
  }

  /** Operand modes of the declarations that evaluate operands, which become Node items. */
  function NodeModes(opcode: nat): Option<seq<Mode>> {
    if opcode == 0x08 then Some([Unres, Object])
    else if opcode in {0x8A, 0x8B, 0x8C, 0x8D, 0x8F} then Some([Reference, Object, Unres])
    else if opcode == 0x5B13 then Some([Reference, Object, Object, Unres])
    else if opcode == 0x5B80 then Some([Unres, ImmByte, Object, Object])
    else None
  }

  /** Declarations parsed in one go: External, Alias, Method, Mutex, Event, Field, IndexField. */
  predicate IsDeclaration(opcode: nat) {
    opcode in {0x14, 0x15, 0x06, 0x5B01, 0x5B02, 0x5B81, 0x5B86}
  }

  /** Scope, Device, Processor, PowerResource, ThermalZone. */
  predicate IsScope(opcode: nat) { opcode in {0x10, 0x5B82, 0x5B83, 0x5B84, 0x5B85} }

  /** Width in bytes of the constant that follows a prefix. */
  function ConstWidth(opcode: nat): Option<nat> {
    if opcode == 0x0A then Some(1) else if opcode == 0x0B then Some(2)
    else if opcode == 0x0C then Some(4) else if opcode == 0x0E then Some(8) else None
  }

  /** Constants, strings, Locals, Args and Debug. */
  predicate IsData(opcode: nat) {
    opcode in {0x00, 0x01, 0xFF, 0x5B30, 0x5B33, 0x0D, 0x5B31} || ConstWidth(opcode).Some?
    || 0x60 <= opcode <= 0x6E
  }

  // ---------------------------------------------------------------------------------------
  // Integer semantics
  // ---------------------------------------------------------------------------------------

  datatype Computed = Ok(value: Value) | Bad(why: Why)

  function GetInt(v: Value): Computed {
    match v
    case Uninit => Bad(Failed(ExecutionFailure))
    case Int(_) => Ok(v)
    case Ref(_) => Bad(Panic(NotAnInteger))
  }

  function Truth(b: bool): u64 { if b then ONES else 0 }

  predicate IsArith(opcode: nat) {
    opcode in {0x72, 0x74, 0x77, 0x79, 0x7A, 0x7B, 0x7C, 0x7D, 0x7E, 0x7F, 0x85}
  }

  predicate IsLogic(opcode: nat) { opcode in {0x90, 0x91, 0x93, 0x94, 0x95} }

  function Wrap(n: int): u64 { n % 0x1_0000_0000_0000_0000 }

  function OrWord(a: u64, b: u64): u64 {
    Pow2Word();
    OrBound(a, b, 64);
    Or(a, b)
  }

  /** 64-bit arithmetic; C leaves a zero divisor and an oversized shift undefined. */
  function Arith(opcode: nat, a: u64, b: u64): Option<u64>
    requires IsArith(opcode)
  {
    if opcode == 0x72 then Some(Wrap(a + b))
    else if opcode == 0x74 then Some(Wrap(a - b))
    else if opcode == 0x77 then Some(Wrap(a * b))
    else if opcode == 0x79 then if b < 64 then Some(Wrap(a * Pow2(b))) else None
    else if opcode == 0x7A then if b < 64 then Some(Shr(a, b)) else None
    else if opcode == 0x7B then Some(And(a, b))
    else if opcode == 0x7C then Some(ONES - And(a, b))
    else if opcode == 0x7D then Some(OrWord(a, b))
    else if opcode == 0x7E then Some(ONES - OrWord(a, b))
    else if opcode == 0x7F then Some(OrWord(a, b) - And(a, b))
    else if b != 0 then Some(Wrap(a % b)) else None
  }

  /** And and Or yield 0 or 1; comparisons yield 0 or Ones. */
  function Logic(opcode: nat, a: u64, b: u64): u64
    requires IsLogic(opcode)
  {
    if opcode == 0x90 then if a != 0 && b != 0 then 1 else 0
    else if opcode == 0x91 then if a != 0 || b != 0 then 1 else 0
    else if opcode == 0x93 then Truth(a == b)
    else if opcode == 0x94 then Truth(a > b)
    else Truth(a < b)
  }

  /** Value of an operator of the integer fragment applied to plain values. */
  function Compute(opcode: nat, a: Value, b: Value): (c: Computed)
    requires IsArith(opcode) || IsLogic(opcode)
    ensures c.Ok? ==> c.value.Int?
  {
    if opcode in {0x93, 0x94, 0x95} then
      if a.Int? && b.Int? then Ok(Int(Logic(opcode, a.n, b.n)))
      else Bad(Failed(IllegalArguments))
    else if GetInt(a).Bad? then GetInt(a)
    else if GetInt(b).Bad? then GetInt(b)
    else if IsLogic(opcode) then Ok(Int(Logic(opcode, a.n, b.n)))
    else
      match Arith(opcode, a.n, b.n)
      case Some(n) => Ok(Int(n))
      case None => Bad(Panic(UndefinedArithmetic))
  }

  /** Not and LNot. */
  function ComputeUnary(opcode: nat, a: Value): (c: Computed)
    ensures c.Ok? ==> c.value.Int?
  {
    if GetInt(a).Bad? then GetInt(a)
    else if opcode == 0x80 then Ok(Int(ONES - a.n))
    else Ok(Int(if a.n == 0 then 1 else 0))
  }

  /** Increment and Decrement assert an integer instead of failing. */
  function ComputeStep(opcode: nat, a: Value): (c: Computed)
    ensures c.Ok? ==> c.value.Int?
  {
    if !a.Int? then Bad(Panic(NotAnInteger))
    else if opcode == 0x75 then Ok(Int((a.n + 1) % 0x1_0000_0000_0000_0000))
    else Ok(Int((a.n - 1) % 0x1_0000_0000_0000_0000))
  }

  // ---------------------------------------------------------------------------------------
  // Operand loads and stores
  // ---------------------------------------------------------------------------------------

  function Nth(vs: seq<Value>, i: nat): Value { if i < |vs| then vs[i] else Uninit }

  function SetNth(vs: seq<Value>, i: nat, v: Value): (r: seq<Value>) {
    if i < |vs| then vs[i := v] else vs
  }

  predicate IsVariable(o: Operand) { o.NullName? || o.ArgName? || o.LocalName? }

  function ReadVariable(env: Env, o: Operand): Value
    requires IsVariable(o)
  {
    match o
    case ArgName(i) => Nth(env.args, i)
    case LocalName(i) => Nth(env.locals, i)
    case _ => Uninit
  }

  function WriteVariable(env: Env, o: Operand, v: Value): Env
    requires IsVariable(o)
  {
    match o
    case ArgName(i) => env.(args := SetNth(env.args, i, v))
    case LocalName(i) => env.(locals := SetNth(env.locals, i, v))
    case _ => env
  }

  /** A store the integer fragment performs itself; an Arg holding an object may be a reference. */
  predicate PlainStore(inv: Option<Invocation>, o: Operand) {
    IsVariable(o)
    && (o.ArgName? && inv.Some? ==> !Nth(inv.value.env.args, o.index).Ref?)
  }

  function StoreResult(w: World, inv: Option<Invocation>, o: Operand, c: Computed): Reduced
    requires PlainStore(inv, o)
  {
    if c.Bad? then Halted(c.why)
    else if o.NullName? then Reduced(c.value, w, inv)
    else if inv.None? then Halted(Panic(NoInvocation))
    else Reduced(c.value, w, Some(inv.value.(env := WriteVariable(inv.value.env, o, c.value))))
  }

  datatype Reduced = Reduced(value: Value, w: World, inv: Option<Invocation>) | Halted(why: Why)

  function FromHost(e: Effect<Value>): Reduced {
    if e.Did? then Reduced(e.value, e.w, e.inv) else Halted(Fails(e))
  }

  predicate AllObj(ops: seq<Operand>, n: nat) {
    n <= |ops| && forall i :: 0 <= i < n ==> ops[i].Obj?
  }

  /** lai_exec_reduce_op: integer operators on plain targets here, all others by the host. */
  function ReduceOp(H: Host, opcode: nat, w: World, inv: Option<Invocation>, ops: seq<Operand>)
    : Reduced
  {
    if IsArith(opcode) && |ops| == 3 && PlainStore(inv, ops[2]) then
      if !AllObj(ops, 2) then Halted(Check(OperandTag))
      else StoreResult(w, inv, ops[2], Compute(opcode, ops[0].value, ops[1].value))
    else if IsLogic(opcode) && |ops| == 2
            && (AllObj(ops, 2) ==> !ops[0].value.Ref? && !ops[1].value.Ref?) then
      if !AllObj(ops, 2) then Halted(Check(OperandTag))
      else StoreResult(w, inv, NullName, Compute(opcode, ops[0].value, ops[1].value))
    else if opcode == 0x92 && |ops| == 1 then
      if !AllObj(ops, 1) then Halted(Check(OperandTag))
      else StoreResult(w, inv, NullName, ComputeUnary(opcode, ops[0].value))
    else if opcode == 0x80 && |ops| == 2 && PlainStore(inv, ops[1]) then
      if !AllObj(ops, 1) then Halted(Check(OperandTag))
      else StoreResult(w, inv, ops[1], ComputeUnary(opcode, ops[0].value))
    else if opcode == 0x70 && |ops| == 2 && PlainStore(inv, ops[1])
            && (ops[0].Obj? ==> !ops[0].value.Ref?) then
      if !AllObj(ops, 1) then Halted(Check(OperandTag))
      else StoreResult(w, inv, ops[1], Ok(ops[0].value))
    else if opcode in {0x75, 0x76} && |ops| == 1 && PlainStore(inv, ops[0]) then
      if ops[0].NullName? then Halted(Panic(BadTarget))
      else if inv.None? then Halted(Panic(NoInvocation))
      else StoreResult(w, inv, ops[0], ComputeStep(opcode, ReadVariable(inv.value.env, ops[0])))
    else FromHost(H.reduceOp(w, opcode, inv, ops))
  }

  // ---------------------------------------------------------------------------------------
  // Stack helpers
  // ---------------------------------------------------------------------------------------

  function SetPc(s: State, pc: nat): State
    requires s.blk.Push?
  {
    s.(blk := s.blk.(top := s.blk.top.(pc := pc)))
  }

  function SetInv(s: State, inv: Option<Invocation>): State
    requires s.ctx.Push?
  {
    s.(ctx := s.ctx.(top := s.ctx.top.(inv := inv)))
  }

  function PushOp(s: State, o: Operand): State { s.(ops := s.ops + [o]) }

  function PushItem(s: State, it: Item): State { s.(stk := Push(it, s.stk)) }

  function PushBlk(s: State, pc: nat, limit: nat): State { s.(blk := Push(Blk(pc, limit), s.blk)) }

  /** The operand an expression of the given mode leaves, if the mode keeps results. */
  function Deliver(s: State, want: bool, v: Value): State {
    if want then PushOp(s, Obj(v)) else s
  }

  // ---------------------------------------------------------------------------------------
  // Parsing
  // ---------------------------------------------------------------------------------------

  /** Pushes a constant in the modes that evaluate data and discards it in Exec mode. */
  function Constant(mode: Mode, s: State, v: Value): Outcome {
    if mode.Data? || mode.Object? then Go(PushOp(s, Obj(v)))
    else if mode.Exec? then Go(s)
    else Stop(Panic(BadMode))
  }

  function ParseImmediate(s: State, n: nat): Outcome
    requires s.ctx.Push? && s.blk.Push? && n <= 8
  {
    var b := s.blk.top;
    match ParseInt(s.ctx.top.code, b.pc, b.limit, n)
    case NoParse => Stop(Failed(ExecutionFailure))
    case Parsed(v, pc) =>
      BoundedLittleEndian(Slice(s.ctx.top.code, b.pc, n));
      Go(PushOp(SetPc(s, pc), Obj(Int(v))))
  }

  lemma BoundedLittleEndian(s: seq<byte>)
    ensures LittleEndian(s) < if |s| <= 1 then 0x100 else if |s| <= 2 then 0x1_0000
                              else if |s| <= 3 then 0x100_0000 else if |s| <= 4 then 0x1_0000_0000
                              else if |s| <= 5 then 0x100_0000_0000
                              else if |s| <= 6 then 0x1_0000_0000_0000
                              else if |s| <= 7 then 0x100_0000_0000_0000
                              else if |s| <= 8 then 0x1_0000_0000_0000_0000
                              else LittleEndian(s) + 1
  {
    if s != [] { BoundedLittleEndian(s[1..]); }
  }

  function ParseName(H: Host, mode: Mode, s: State): Outcome
    requires s.ctx.Push? && s.blk.Push?
  {
    var c, pc := s.ctx.top, s.blk.top.pc;
    match NameLength(c.code, pc)
    case None => Stop(Panic(BadName))
    case Some(n) =>
      var name := Slice(c.code, pc, n);
      var s1 := SetPc(s, pc + n);
      if mode.Data? then
        // A lazy handle: an object that remembers the unresolved name.
        EffectValue(s1, true, H.newString(s1.w, name))
      else if !Resolves(mode) then Go(PushOp(s1, Unresolved(c.handle, name)))
      else ParseResolved(H, mode, s1, H.resolve(s.w, c.handle, name))
  }

  /** What a mode that resolves names makes of the node it found. */
  function ParseResolved(H: Host, mode: Mode, s: State, found: Lookup): Outcome {
    match found
    case Missing =>
      if mode.OptReference? then Go(PushOp(s, Resolved(None)))
      else Stop(Failed(UnexpectedResult))
    case MethodNode(h, argc) =>
      if Invokes(mode) then
        Go(PushOp(PushItem(s, Invoke(|s.ops|, argc % 8, WantsResult(mode))), Resolved(Some(h))))
      else Go(PushOp(s, Resolved(Some(h))))
    case ObjectNode(h) =>
      if Invokes(mode) then EffectValue(s, WantsResult(mode), H.access(s.w, h))
      else Go(PushOp(s, Resolved(Some(h))))
  }

  /** Continues with the world of a host operation, delivering its value. */
  function EffectValue(s: State, want: bool, e: Effect<Value>): Outcome {
    if e.Did? then Go(Deliver(s.(w := e.w), want, e.value)) else Stop(Fails(e))
  }

  function ParseIf(s: State, opPc: nat, pc: nat): Outcome
    requires s.ctx.Push? && s.blk.Push?
  {
    var code, limit := s.ctx.top.code, s.blk.top.limit;
    match ParseVarint(code, pc, limit)
    case NoParse => Stop(Failed(ExecutionFailure))
    case Parsed(size, bodyPc) =>
      var end := opPc + 1 + size;
      if end < limit && Fetch(code, end) == 0xA1 then
        match ParseVarint(code, end + 1, limit)
        case NoParse => Stop(Failed(ExecutionFailure))
        case Parsed(elseSize, elsePc) =>
          var elseEnd := end + 1 + elseSize;
          Go(PushItem(PushBlk(SetPc(s, elseEnd), bodyPc, end),
                      Cond(|s.ops|, false, true, elsePc, elseEnd)))
      else
        Go(PushItem(PushBlk(SetPc(s, end), bodyPc, end), Cond(|s.ops|, false, false, 0, end + 1)))
  }

  function ParseWhile(s: State, opPc: nat, pc: nat): Outcome
    requires s.ctx.Push? && s.blk.Push?
  {
    match ParseVarint(s.ctx.top.code, pc, s.blk.top.limit)
    case NoParse => Stop(Failed(ExecutionFailure))
    case Parsed(size, bodyPc) =>
      var end := opPc + 1 + size;
      Go(PushItem(PushBlk(SetPc(s, end), bodyPc, end), Loop(|s.ops|, false, bodyPc)))
  }

  /** Buffer and Package open a block; a package also reserves the operand it will fill. */
  function ParseAggregate(mode: Mode, s: State, opPc: nat, pc: nat, package: bool): Outcome
    requires s.ctx.Push? && s.blk.Push?
  {
    match ParseVarint(s.ctx.top.code, pc, s.blk.top.limit)
    case NoParse => Stop(Failed(ExecutionFailure))
    case Parsed(size, bodyPc) =>
      var end := opPc + 1 + size;
      var s1 := PushBlk(SetPc(s, end), bodyPc, end);
      if package then
        Go(PushOp(PushItem(s1, Package(|s.ops|, 0, 0, WantsResult(mode))), Obj(Uninit)))
      else Go(PushItem(s1, Buffer(|s.ops|, WantsResult(mode))))
  }

  // Looking for the enclosing loop or method.

  datatype Search = Found(depth: nat, want: bool) | Nowhere | Blocked

  function FindLoop(stk: Stack<Item>): Search {
    if stk.Empty? then Nowhere
    else if stk.top.Loop? then Found(0, false)
    else if stk.top.Cond? then Deeper(FindLoop(stk.below))
    else Blocked
  }

  function FindMethod(stk: Stack<Item>): Search {
    if stk.Empty? then Nowhere
    else if stk.top.Method? then Found(0, stk.top.want)
    else if stk.top.Cond? || stk.top.Loop? then Deeper(FindMethod(stk.below))
    else Blocked
  }

  function Deeper(r: Search): Search {
    if r.Found? then r.(depth := r.depth + 1) else r
  }

  datatype Unwound = Unwound(stk: Stack<Item>, blk: Stack<Blk>) | Broken(c: CheckId)

  /** Pops n conditions and loops together with their blocks. */
  function PopNested(n: nat, stk: Stack<Item>, blk: Stack<Blk>): Unwound {
    if n == 0 then Unwound(stk, blk)
    else if stk.Empty? || !(stk.top.Cond? || stk.top.Loop?) then Broken(UnwindKind)
    else if blk.Empty? then Broken(PopEmpty)
    else PopNested(n - 1, stk.below, blk.below)
  }

  /** Continue pops to the loop but never commits the predicate's pc. */
  function ParseContinue(s: State): Outcome {
    match FindLoop(s.stk)
    case Nowhere => Stop(Panic(OutsideLoop))
    case Blocked => Stop(Panic(CannotSkip))
    case Found(m, _) =>
      match PopNested(m, s.stk, s.blk)
      case Broken(c) => Stop(Check(c))
      case Unwound(stk, blk) => Go(s.(stk := stk, blk := blk))
  }

  function ParseBreak(s: State): Outcome {
    match FindLoop(s.stk)
    case Nowhere => Stop(Panic(OutsideLoop))
    case Blocked => Stop(Panic(CannotSkip))
    case Found(m, _) =>
      match PopNested(m + 1, s.stk, s.blk)
      case Broken(c) => Stop(Check(c))
      case Unwound(stk, blk) => Go(s.(stk := stk, blk := blk))
  }

  function ParseVariable(mode: Mode, s: State, o: Operand): Outcome
    requires s.ctx.Push? && IsVariable(o)
  {
    if mode.Reference? || mode.OptReference? then Go(PushOp(s, o))
    else if !mode.Object? then Stop(Panic(BadMode))
    else if s.ctx.top.inv.None? then Stop(Panic(NoInvocation))
    else Go(PushOp(s, Obj(ReadVariable(s.ctx.top.inv.value.env, o))))
  }

  function ParseScope(H: Host, s: State, opcode: nat): Outcome
    requires s.ctx.Push? && s.blk.Push?
  {
    var c := s.ctx.top;
    var e := H.openScope(s.w, opcode, c, s.blk.top);
    if !e.Did? then Stop(Fails(e)) else
    var s1 := PushBlk(SetInv(SetPc(s, e.value.endPc), e.inv), e.value.bodyPc, e.value.endPc);
    Go(PushItem(s1.(ctx := Push(Ctx(c.code, e.value.handle, None), s1.ctx), w := e.w), Populate))
  }

  function ParseBank(H: Host, s: State): Outcome
    requires s.ctx.Push? && s.blk.Push?
  {
    var e := H.openBank(s.w, s.ctx.top, s.blk.top);
    if !e.Did? then Stop(Fails(e)) else
    var s1 := PushBlk(SetPc(s, e.value.endPc), e.value.bodyPc, e.value.endPc).(w := e.w);
    var s2 := PushItem(s1, BankField(|s.ops|));
    Go(PushOp(PushOp(s2, Resolved(Some(e.value.region))), Resolved(Some(e.value.bank))))
  }

  function ParseString(H: Host, mode: Mode, s: State, pc: nat): Outcome
    requires s.ctx.Push? && s.blk.Push?
  {
    var code, limit := s.ctx.top.code, s.blk.top.limit;
    var n := StringLength(code, pc, limit);
    if pc + n >= limit then Stop(Panic(UnterminatedString)) else
    var s1 := SetPc(s, pc + n + 1);
    if mode.Data? || mode.Object? then EffectValue(s1, true, H.newString(s.w, Slice(code, pc, n)))
    else Constant(mode, s1, Uninit)
  }

  /** The opcode switch of lai_exec_parse; pc is the address just after the opcode. */
  function ParseOpcode(H: Host, mode: Mode, s: State, opcode: nat, pc: nat): Outcome
    requires s.ctx.Push? && s.blk.Push?
  {
    var opPc, limit, code := s.blk.top.pc, s.blk.top.limit, s.ctx.top.code;
    var s1 := SetPc(s, pc);
    if opcode == 0xA3 || opcode == 0xCC then Go(s1)
    else if opcode == 0x00 then
      if mode.Reference? || mode.OptReference? then Go(PushOp(s1, NullName))
      else Constant(mode, s1, Int(0))
    else if opcode == 0x01 then Constant(mode, s1, Int(1))
    else if opcode == 0xFF then Constant(mode, s1, Int(ONES))
    else if opcode == 0x5B30 then Constant(mode, s1, Int(0x2020_0712))
    else if opcode == 0x5B33 then
      if (mode.Data? || mode.Object?) && H.timer(s.w).None? then Stop(Panic(NoTimer))
      else Constant(mode, s1, if H.timer(s.w).Some? then Int(H.timer(s.w).value) else Uninit)
    else if ConstWidth(opcode).Some? then
      match ParseInt(code, pc, limit, ConstWidth(opcode).value)
      case NoParse => Stop(Failed(ExecutionFailure))
      case Parsed(v, pc') =>
        BoundedLittleEndian(Slice(code, pc, ConstWidth(opcode).value));
        Constant(mode, SetPc(s, pc'), Int(v))
    else if opcode == 0x0D then ParseString(H, mode, s, pc)
    else if opcode == 0x11 then ParseAggregate(mode, s, opPc, pc, false)
    else if opcode == 0x12 then ParseAggregate(mode, s, opPc, pc, true)
    else if opcode == 0x13 then Stop(Panic(Unmodelled))
    else if opcode == 0xA4 then Go(PushItem(s1, Return(|s.ops|)))
    else if opcode == 0xA2 then ParseWhile(s, opPc, pc)
    else if opcode == 0x9F then ParseContinue(s)
    else if opcode == 0xA5 then ParseBreak(s)
    else if opcode == 0xA0 then ParseIf(s, opPc, pc)
    else if opcode == 0xA1 then Stop(Panic(ElseWithoutIf))
    else if IsScope(opcode) then ParseScope(H, s, opcode)
    else if IsDeclaration(opcode) then
      var e := H.declare(s.w, opcode, s.ctx.top, s.blk.top);
      if e.Did? then Go(SetInv(SetPc(s, e.value), e.inv).(w := e.w)) else Stop(Fails(e))
    else if opcode == 0x5B87 then ParseBank(H, s)
    else if 0x60 <= opcode <= 0x67 then ParseVariable(mode, s1, LocalName(opcode - 0x60))
    else if 0x68 <= opcode <= 0x6E then ParseVariable(mode, s1, ArgName(opcode - 0x68))
    else if opcode == 0x5B31 then
      if mode.Reference? || mode.OptReference? then Go(PushOp(s1, DebugName))
      else Stop(Panic(BadMode))
    else if OpModes(opcode).Some? then
      Go(PushItem(s1, Op(|s.ops|, opcode, OpModes(opcode).value, WantsResult(mode))))
    else if NodeModes(opcode).Some? then
      Go(PushItem(s1, Node(|s.ops|, opcode, NodeModes(opcode).value)))
    else Stop(Panic(UnexpectedOpcode))
  }

  function Parse(H: Host, mode: Mode, s: State): Outcome
    requires s.ctx.Push? && s.blk.Push?
  {
    var pc, limit, code := s.blk.top.pc, s.blk.top.limit, s.ctx.top.code;
    if pc >= limit then Stop(Panic(EscapedCode))
    else if mode.ImmByte? then ParseImmediate(s, 1)
    else if mode.ImmWord? then ParseImmediate(s, 2)
    else if mode.ImmDword? then ParseImmediate(s, 4)
    else if IsName(Fetch(code, pc)) then ParseName(H, mode, s)
    else if Fetch(code, pc) == 0x5B then
      if pc + 1 == limit then Stop(Panic(SplitOpcode))
      else ParseOpcode(H, mode, s, 0x5B00 + Fetch(code, pc + 1), pc + 2)
    else ParseOpcode(H, mode, s, Fetch(code, pc), pc + 1)
  }

  // ---------------------------------------------------------------------------------------
  // Processing the topmost item
  // ---------------------------------------------------------------------------------------

  function PopItem(s: State): State
    requires s.stk.Push?
  {
    s.(stk := s.stk.below)
  }

  function PopBlkItem(s: State): State
    requires s.stk.Push? && s.blk.Push?
  {
    s.(stk := s.stk.below, blk := s.blk.below)
  }

  function Cleanup(H: Host, w: World, inv: Option<Invocation>): World {
    if inv.None? || inv.value.nodes == [] then w else H.cleanup(w, inv.value.nodes)
  }

  function ProcessPopulate(H: Host, s: State): Outcome
    requires s.stk.Push? && s.ctx.Push? && s.blk.Push?
  {
    if s.blk.top.pc == s.blk.top.limit then Go(PopBlkItem(s).(ctx := s.ctx.below))
    else Parse(H, Exec, s)
  }

  function ProcessMethod(H: Host, s: State): Outcome
    requires s.stk.Push? && s.stk.top.Method? && s.ctx.Push? && s.blk.Push?
  {
    if s.blk.top.pc != s.blk.top.limit then Parse(H, Exec, s)
    else if s.ops != [] then Stop(Panic(OperandsBeforeReturn))
    else
      var s1 := PopBlkItem(s).(ctx := s.ctx.below, w := Cleanup(H, s.w, s.ctx.top.inv));
      Go(Deliver(s1, s.stk.top.want, Int(0)))
  }

  /** The operand at the given index of the operand stack must exist and be an object. */
  function ObjAt(ops: seq<Operand>, i: nat): Result {
    if i >= |ops| then Missed(MissingOperand)
    else if !ops[i].Obj? then Missed(OperandTag)
    else Got(ops[i].value)
  }

  datatype Result = Got(value: Value) | Missed(c: CheckId)

  function ProcessBuffer(H: Host, s: State): Outcome
    requires s.stk.Push? && s.stk.top.Buffer? && s.ctx.Push? && s.blk.Push?
    requires s.blk.top.pc <= s.blk.top.limit
  {
    var it, b := s.stk.top, s.blk.top;
    if |s.ops| > it.frame + 1 then Stop(Check(TooManyOperands))
    else if |s.ops| != it.frame + 1 then Parse(H, Object, s)
    else
      match ObjAt(s.ops, it.frame)
      case Missed(c) => Stop(Check(c))
      case Got(size) =>
        var e := H.newBuffer(s.w, size, Slice(s.ctx.top.code, b.pc, b.limit - b.pc));
        EffectValue(PopBlkItem(s).(ops := s.ops[..it.frame]), it.want, e)
  }

  function ProcessPackage(H: Host, s: State): Outcome
    requires s.stk.Push? && s.stk.top.Package? && s.ctx.Push? && s.blk.Push?
  {
    var it := s.stk.top;
    if it.frame >= |s.ops| then Stop(Check(MissingOperand))
    else if it.phase == 0 then
      var r := Parse(H, ImmByte, s);
      if r.Go? && r.s.stk == s.stk then Go(r.s.(stk := s.stk.(top := it.(phase := 1)))) else r
    else if it.phase == 1 then
      match ObjAt(s.ops, it.frame + 1)
      case Missed(c) => Stop(Check(c))
      case Got(size) =>
        if GetInt(size).Bad? then Stop(GetInt(size).why) else
        var e := H.newPackage(s.w, size.n);
        if !e.Did? then Stop(Fails(e)) else
        var ops := s.ops[..|s.ops| - 1];
        if it.frame >= |ops| then Stop(Check(MissingOperand)) else
        Go(s.(stk := s.stk.(top := it.(phase := 2)), ops := ops[it.frame := Obj(e.value)], w := e.w))
    else if |s.ops| == it.frame + 2 then
      match (ObjAt(s.ops, it.frame), ObjAt(s.ops, it.frame + 1))
      case (Got(pkg), Got(init)) =>
        if it.index >= H.packageSize(s.w, pkg) then Stop(Panic(PackageOverflow))
        else
          var s1 := s.(stk := s.stk.(top := it.(index := it.index + 1)),
                       ops := s.ops[..|s.ops| - 1],
                       w := H.packageStore(s.w, init, pkg, it.index));
          FinishPackage(H, s1)
      case _ => Stop(Check(OperandTag))
    else FinishPackage(H, s)
  }

  function FinishPackage(H: Host, s: State): Outcome
    requires s.stk.Push? && s.stk.top.Package? && s.ctx.Push? && s.blk.Push?
  {
    var it := s.stk.top;
    if |s.ops| != it.frame + 1 then Stop(Check(PackageShape))
    else if s.blk.top.pc != s.blk.top.limit then Parse(H, Data, s)
    else Go(PopBlkItem(s).(ops := if it.want then s.ops else s.ops[..it.frame]))
  }

  function ProcessNode(H: Host, s: State): Outcome
    requires s.stk.Push? && s.stk.top.Node? && s.ctx.Push? && s.blk.Push?
  {
    var it := s.stk.top;
    var k := |s.ops| - it.frame;
    if !(0 <= k <= |it.modes|) then Stop(Check(ModeIndex))
    else if k < |it.modes| then Parse(H, it.modes[k], s)
    else
      var e := H.reduceNode(s.w, it.opcode, s.ctx.top, s.ops[it.frame..]);
      // The error code of lai_exec_reduce_node is ignored; only a panic stops the run.
      if e.Panicked? then Stop(Panic(HostPanic))
      else
        var s1 := PopItem(s).(ops := s.ops[..it.frame]);
        if e.Did? then Go(SetInv(s1, e.inv).(w := e.w)) else Go(s1)
  }

  function ProcessOp(H: Host, s: State): Outcome
    requires s.stk.Push? && s.stk.top.Op? && s.ctx.Push? && s.blk.Push?
  {
    var it := s.stk.top;
    var k := |s.ops| - it.frame;
    if !(0 <= k <= |it.modes|) then Stop(Check(ModeIndex))
    else if k < |it.modes| then Parse(H, it.modes[k], s)
    else
      match ReduceOp(H, it.opcode, s.w, s.ctx.top.inv, s.ops[it.frame..])
      case Halted(why) => Stop(why)
      case Reduced(v, w, inv) =>
        var s1 := PopItem(SetInv(s, inv)).(ops := s.ops[..it.frame], w := w);
        Go(Deliver(s1, it.want, v))
  }

  /** Arguments of a call: the operands above the method's name, padded to seven. */
  function Arguments(ops: seq<Operand>): (r: seq<Value>)
    ensures |r| == 7
  {
    seq<Value>(7, i requires 0 <= i => if i < |ops| && ops[i].Obj? then ops[i].value else Uninit)
  }

  const NO_LOCALS: seq<Value> :=
    [Uninit, Uninit, Uninit, Uninit, Uninit, Uninit, Uninit, Uninit]

  function Enter(s: State, m: MethodInfo, h: Handle, args: seq<Value>, want: bool): State {
    var inv := Invocation(Env(args, NO_LOCALS), []);
    State(Push(Ctx(m.code, h, Some(inv)), s.ctx), Push(Blk(0, m.size), s.blk),
          Push(Method(want), s.stk), s.ops, s.w)
  }

  function ProcessInvoke(H: Host, s: State): Outcome
    requires s.stk.Push? && s.stk.top.Invoke? && s.ctx.Push? && s.blk.Push?
  {
    var it := s.stk.top;
    var k := |s.ops| - it.frame;
    if k > it.argc + 1 then Stop(Check(TooManyOperands))
    else if k != it.argc + 1 then Parse(H, Object, s)
    else
      var call := s.ops[it.frame];
      var args := s.ops[it.frame + 1..];
      if !(call.Resolved? && call.handle.Some?) then Stop(Check(MethodTag))
      else if !AllObj(args, |args|) then Stop(Check(OperandTag))
      else
        var m := H.methodInfo(s.w, call.handle.value);
        var s1 := PopItem(s).(ops := s.ops[..it.frame]);
        if m.overridden then
          EffectValue(s1, it.want, H.osMethod(s.w, call.handle.value, Arguments(args)))
        else Go(Enter(s1, m, call.handle.value, Arguments(args), it.want))
  }

  /** Return: unwinds conditions and loops up to the method, cleans up and delivers the value. */
  function LeaveMethod(H: Host, s: State, v: Value): Outcome
    requires s.ctx.Push?
  {
    match FindMethod(s.stk)
    case Nowhere => Stop(Panic(OutsideMethod))
    case Blocked => Stop(Panic(CannotSkip))
    case Found(m, want) =>
      match PopNested(m, s.stk, s.blk)
      case Broken(c) => Stop(Check(c))
      case Unwound(stk, blk) =>
        if stk.Empty? || blk.Empty? then Stop(Check(PopEmpty))
        else
          var s1 := State(s.ctx.below, blk.below, stk.below, s.ops,
                          Cleanup(H, s.w, s.ctx.top.inv));
          Go(Deliver(s1, want, v))
  }

  function ProcessReturn(H: Host, s: State): Outcome
    requires s.stk.Push? && s.stk.top.Return? && s.ctx.Push? && s.blk.Push?
  {
    var it := s.stk.top;
    if |s.ops| > it.frame + 1 then Stop(Check(TooManyOperands))
    else if |s.ops| != it.frame + 1 then Parse(H, Object, s)
    else
      match ObjAt(s.ops, it.frame)
      case Missed(c) => Stop(Check(c))
      case Got(v) =>
        LeaveMethod(H, PopItem(s).(ops := s.ops[..it.frame]), v)
  }

  function ProcessLoop(H: Host, s: State): Outcome
    requires s.stk.Push? && s.stk.top.Loop? && s.ctx.Push? && s.blk.Push?
  {
    var it := s.stk.top;
    if it.iterating then
      if s.blk.top.pc != s.blk.top.limit then Parse(H, Exec, s)
      else Go(SetPc(s, it.pred).(stk := s.stk.(top := it.(iterating := false))))
    else if |s.ops| > it.frame + 1 then Stop(Check(TooManyOperands))
    else if |s.ops| != it.frame + 1 then Parse(H, Object, s)
    else
      match ObjAt(s.ops, it.frame)
      case Missed(c) => Stop(Check(c))
      case Got(v) =>
        var s1 := s.(ops := s.ops[..it.frame]);
        if GetInt(v).Bad? then Stop(GetInt(v).why)
        else if v.n != 0 then Go(s1.(stk := s.stk.(top := it.(iterating := true))))
        else Go(PopBlkItem(s1))
  }

  function ProcessCond(H: Host, s: State): Outcome
    requires s.stk.Push? && s.stk.top.Cond? && s.ctx.Push? && s.blk.Push?
  {
    var it := s.stk.top;
    if it.branch then
      if s.blk.top.pc != s.blk.top.limit then Parse(H, Exec, s) else Go(PopBlkItem(s))
    else if |s.ops| > it.frame + 1 then Stop(Check(TooManyOperands))
    else if |s.ops| != it.frame + 1 then Parse(H, Object, s)
    else
      match ObjAt(s.ops, it.frame)
      case Missed(c) => Stop(Check(c))
      case Got(v) =>
        var s1 := s.(ops := s.ops[..it.frame]);
        if GetInt(v).Bad? then Stop(GetInt(v).why)
        else if v.n != 0 then Go(s1.(stk := s.stk.(top := it.(branch := true))))
        else if it.hasElse then
          Go(s1.(stk := s.stk.(top := it.(branch := true)),
                 blk := s.blk.(top := Blk(it.elsePc, it.elseLimit))))
        else Go(PopBlkItem(s1))
  }

  function ProcessBank(H: Host, s: State): Outcome
    requires s.stk.Push? && s.stk.top.BankField? && s.ctx.Push? && s.blk.Push?
  {
    var it := s.stk.top;
    if |s.ops| > it.frame + 3 then Stop(Check(TooManyOperands))
    else if |s.ops| != it.frame + 3 then Parse(H, Object, s)
    else
      var r, b := s.ops[it.frame], s.ops[it.frame + 1];
      if !(r.Resolved? && r.handle.Some? && b.Resolved? && b.handle.Some?) then
        Stop(Check(MethodTag))
      else
        match ObjAt(s.ops, it.frame + 2)
        case Missed(c) => Stop(Check(c))
        case Got(v) =>
          if GetInt(v).Bad? then Stop(GetInt(v).why) else
          var e := H.bankFields(s.w, s.ctx.top, r.handle.value, b.handle.value, v.n, s.blk.top);
          if !e.Did? then Stop(Fails(e))
          else Go(SetInv(PopBlkItem(s), e.inv).(ops := s.ops[..it.frame], w := e.w))
  }

  /** One turn of lai_exec_run on a non-empty execution stack. */
  function Process(H: Host, s: State): Outcome
    requires s.stk.Push?
  {
    if s.ctx.Empty? then Stop(Check(NoContext))
    else if s.blk.Empty? then Stop(Check(NoBlock))
    else if s.blk.top.pc > s.blk.top.limit then Stop(Panic(EscapedCode))
    else
      match s.stk.top
      case Populate => ProcessPopulate(H, s)
      case Method(_) => ProcessMethod(H, s)
      case Buffer(_, _) => ProcessBuffer(H, s)
      case Package(_, _, _, _) => ProcessPackage(H, s)
      case Node(_, _, _) => ProcessNode(H, s)
      case Op(_, _, _, _) => ProcessOp(H, s)
      case Invoke(_, _, _) => ProcessInvoke(H, s)
      case Return(_) => ProcessReturn(H, s)
      case Loop(_, _, _) => ProcessLoop(H, s)
      case Cond(_, _, _, _, _) => ProcessCond(H, s)
      case BankField(_) => ProcessBank(H, s)
  }

  /** At most n turns of lai_exec_run; the loop ends when the execution stack is empty. */
  function Run(step: State -> Outcome, n: nat, s: State): Outcome {
    if n == 0 || s.stk.Empty? then Go(s)
    else
      match step(s)
      case Stop(why) => Stop(why)
      case Go(s') => Run(step, n - 1, s')
  }

  /** `step` is one turn of the loop.  Naming a state in `Turn` unfolds the turn at that state. */
  ghost predicate IsStep(step: State -> Outcome, H: Host) {
    forall s: State {:trigger Turn(s)} :: Turn(s) ==> TurnOf(step, H, s)
  }

  predicate Turn(s: State) { true }

  predicate TurnOf(step: State -> Outcome, H: Host, s: State) {
    s.stk.Push? ==> step(s) == Process(H, s)
  }

  predicate Running(o: Outcome) { o.Go? && o.s.stk.Push? }

  lemma {:induction false} RunCompose(step: State -> Outcome, n: nat, m: nat, s: State)
    ensures Run(step, n, s).Go? ==> Run(step, n + m, s) == Run(step, m, Run(step, n, s).s)
    ensures Run(step, n, s).Stop? ==> Run(step, n + m, s) == Run(step, n, s)
  {
    if n == 0 || s.stk.Empty? {
    } else {
      match step(s)
      case Stop(_) =>
      case Go(s') => RunCompose(step, n - 1, m, s');
    }
  }
}
