/** The interpreter over a host that keeps the ACPI namespace (lai/core/exec.c, lai/core/ns.c): when
a method returns, the child tables are again what they were when it was entered.

A host serves a view of its worlds as namespaces if what it declares is installed as in
`MethodNodes`, and recorded in the list of the current invocation if there is one, and if its
cleanup is the loop of `MethodNodes`.
*/
module AmlNamespace {
  import opened Wrappers
  import opened AmlMachine
  import opened AmlAlignment
  import C = AmlCapacity
  import M = MethodNodes
  import N = Namespace

  type View = World -> N.Space

  type Tables = map<(nat, N.Segment), nat>

  // ---------------------------------------------------------------------------------------
  // What the host does to the namespace
  // ---------------------------------------------------------------------------------------

  /** Installs some nodes one after the other, none of which is refused. */
  function InstallAll(s: N.Space, xs: seq<N.Node>): Option<N.Space>
    decreases |xs|
  {
    if xs == [] then Some(s)
    else if !M.Installable(s, xs[0]) then None
    else
      match M.Install(s, xs[0])
      case None => None
      case Some(t) => InstallAll(t, xs[1..])
  }

  /** The k nodes that come after the first n. */
  function Fresh(n: nat, k: nat): (r: seq<nat>)
    ensures |r| == k && forall i :: 0 <= i < k ==> r[i] == n + i
  {
    seq<nat>(k, i requires 0 <= i => n + i)
  }

  function Nodes(inv: Option<Invocation>): seq<Handle> {
    if inv.Some? then inv.value.nodes else []
  }

  /** The new nodes are recorded if there is an invocation. */
  predicate Records(inv: Option<Invocation>, inv1: Option<Invocation>, n: nat, k: nat) {
    inv1.Some? == inv.Some? && (inv.Some? ==> Nodes(inv1) == Nodes(inv) + Fresh(n, k))
  }

  predicate CreatesThese(s: N.Space, inv: Option<Invocation>, t: N.Space, inv1: Option<Invocation>,
                         xs: seq<N.Node>)
  {
    InstallAll(s, xs) == Some(t) && Records(inv, inv1, |s.nodes|, |xs|)
  }

  /** From namespace s to t by declaring nodes in an invocation. */
  ghost predicate Creates(s: N.Space, inv: Option<Invocation>, t: N.Space, inv1: Option<Invocation>)
  {
    exists xs :: CreatesThese(s, inv, t, inv1, xs)
  }

  ghost predicate Same<T>(view: View, w: World, e: Effect<T>) { e.Did? ==> view(e.w) == view(w) }

  ghost predicate AccessOk(H: Host, view: View, w: World, h: Handle) {
    Same(view, w, H.access(w, h))
  }

  ghost predicate OsMethodOk(H: Host, view: View, w: World, h: Handle, args: seq<Value>) {
    Same(view, w, H.osMethod(w, h, args))
  }

  ghost predicate StringOk(H: Host, view: View, w: World, bs: seq<byte>) {
    Same(view, w, H.newString(w, bs))
  }

  ghost predicate BufferOk(H: Host, view: View, w: World, v: Value, bs: seq<byte>) {
    Same(view, w, H.newBuffer(w, v, bs))
  }

  ghost predicate PackageOk(H: Host, view: View, w: World, n: u64) {
    Same(view, w, H.newPackage(w, n))
  }

  ghost predicate StoreOk(H: Host, view: View, w: World, v: Value, p: Value, i: nat) {
    view(H.packageStore(w, v, p, i)) == view(w)
  }

  ghost predicate ReduceOk(H: Host, view: View, w: World, opcode: nat, inv: Option<Invocation>,
                           ops: seq<Operand>)
  {
    var e := H.reduceOp(w, opcode, inv, ops);
    Same(view, w, e) && (e.Did? ==> Records(inv, e.inv, 0, 0))
  }

  ghost predicate NodeOk(H: Host, view: View, w: World, opcode: nat, c: Ctx, ops: seq<Operand>) {
    var e := H.reduceNode(w, opcode, c, ops);
    e.Did? ==> Creates(view(w), c.inv, view(e.w), e.inv)
  }

  ghost predicate DeclareOk(H: Host, view: View, w: World, opcode: nat, c: Ctx, b: Blk) {
    var e := H.declare(w, opcode, c, b);
    e.Did? ==> Creates(view(w), c.inv, view(e.w), e.inv)
  }

  ghost predicate ScopeOk(H: Host, view: View, w: World, opcode: nat, c: Ctx, b: Blk) {
    var e := H.openScope(w, opcode, c, b);
    e.Did? ==> Creates(view(w), c.inv, view(e.w), e.inv)
  }

  ghost predicate OpenBankOk(H: Host, view: View, w: World, c: Ctx, b: Blk) {
    Same(view, w, H.openBank(w, c, b))
  }

  ghost predicate BankOk(H: Host, view: View, w: World, c: Ctx, r: Handle, b: Handle, v: u64,
                         blk: Blk)
  {
    var e := H.bankFields(w, c, r, b, v, blk);
    e.Did? ==> Creates(view(w), c.inv, view(e.w), e.inv)
  }

  /** The cleanup loop of MethodNodes, where it does not panic. */
  ghost predicate CleanupOk(H: Host, view: View, w: World, nodes: seq<Handle>) {
    M.Listed(view(w), nodes) && M.Cleanup(view(w), nodes).Some?
    ==> view(H.cleanup(w, nodes)) == M.Cleanup(view(w), nodes).value
  }

  ghost predicate Hosts(H: Host, view: View) {
    && (forall w, h :: AccessOk(H, view, w, h))
    && (forall w, h, args :: OsMethodOk(H, view, w, h, args))
    && (forall w, bs :: StringOk(H, view, w, bs))
    && (forall w, v, bs :: BufferOk(H, view, w, v, bs))
    && (forall w, n :: PackageOk(H, view, w, n))
    && (forall w, v, p, i :: StoreOk(H, view, w, v, p, i))
    && (forall w, opcode, inv, ops :: ReduceOk(H, view, w, opcode, inv, ops))
    && (forall w, opcode, c, ops :: NodeOk(H, view, w, opcode, c, ops))
    && (forall w, opcode, c, b :: DeclareOk(H, view, w, opcode, c, b))
    && (forall w, opcode, c, b :: ScopeOk(H, view, w, opcode, c, b))
    && (forall w, c, b :: OpenBankOk(H, view, w, c, b))
    && (forall w, c, r, b, v, blk :: BankOk(H, view, w, c, r, b, v, blk))
    && (forall w, nodes :: CleanupOk(H, view, w, nodes))
  }

  // ---------------------------------------------------------------------------------------
  // What a turn does to contexts and namespace
  // ---------------------------------------------------------------------------------------

  /** The items that own a context, innermost first: whether each is a method. */
  function Owners(stk: Stack<Item>): seq<bool> {
    if stk.Empty? then []
    else if OwnsContext(stk.top) then [stk.top.Method?] + Owners(stk.below)
    else Owners(stk.below)
  }

  /** Whether each context has an invocation. */
  function Invoked(ctx: Stack<Ctx>): seq<bool> {
    if ctx.Empty? then [] else [ctx.top.inv.Some?] + Invoked(ctx.below)
  }

  /** Methods own the contexts with an invocation. */
  predicate Paired(s: State) { Owners(s.stk) == Invoked(s.ctx) }

  ghost predicate Stays(view: View, s: State, t: State) {
    && Owners(t.stk) == Owners(s.stk)
    && s.ctx.Push? && t.ctx.Push? && t.ctx.below == s.ctx.below
    && Creates(view(s.w), s.ctx.top.inv, view(t.w), t.ctx.top.inv)
  }

  /** Scope and Device open a context without an invocation. */
  ghost predicate Opens(view: View, s: State, t: State) {
    && Owners(t.stk) == [false] + Owners(s.stk)
    && s.ctx.Push? && t.ctx.Push? && t.ctx.top.inv.None?
    && t.ctx.below.Push? && t.ctx.below.below == s.ctx.below
    && Creates(view(s.w), s.ctx.top.inv, view(t.w), t.ctx.below.top.inv)
  }

  predicate Enters(s: State, t: State) {
    && Owners(t.stk) == [true] + Owners(s.stk)
    && t.ctx.Push? && t.ctx.below == s.ctx
    && t.ctx.top.inv.Some? && Nodes(t.ctx.top.inv) == [] && t.w == s.w
  }

  predicate Closes(s: State, t: State) {
    Owners(s.stk) == [false] + Owners(t.stk) && s.ctx.Push? && t.ctx == s.ctx.below && t.w == s.w
  }

  predicate Leaves(H: Host, s: State, t: State) {
    && Owners(s.stk) == [true] + Owners(t.stk)
    && s.ctx.Push? && t.ctx == s.ctx.below && t.w == Cleanup(H, s.w, s.ctx.top.inv)
  }

  /** What parsing does. */
  ghost predicate Declares(view: View, s: State, r: Outcome) {
    r.Go? ==> Stays(view, s, r.s) || Opens(view, s, r.s)
  }

  /** What a turn does. */
  ghost predicate Changes(H: Host, view: View, s: State, r: Outcome) {
    Declares(view, s, r) || (r.Go? && (Enters(s, r.s) || Closes(s, r.s) || Leaves(H, s, r.s)))
  }

  /** A turn that declares nothing. */
  predicate Quiet(view: View, s: State, t: State) {
    && Owners(t.stk) == Owners(s.stk)
    && s.ctx.Push? && t.ctx.Push? && t.ctx.below == s.ctx.below
    && view(t.w) == view(s.w) && Records(s.ctx.top.inv, t.ctx.top.inv, 0, 0)
  }

  lemma QuietStays(view: View, s: State, r: Outcome)
    requires r.Go? ==> Quiet(view, s, r.s)
    ensures r.Go? ==> Stays(view, s, r.s)
  {
    if r.Go? {
      assert CreatesThese(view(s.w), s.ctx.top.inv, view(r.s.w), r.s.ctx.top.inv, []);
    }
  }

  // ---------------------------------------------------------------------------------------
  // Parsing
  // ---------------------------------------------------------------------------------------

  lemma ResolvedQuiet(H: Host, view: View, mode: Mode, s: State, found: Lookup)
    requires Hosts(H, view) && s.ctx.Push?
    ensures var r := ParseResolved(H, mode, s, found); r.Go? ==> Quiet(view, s, r.s)
  {
    if found.ObjectNode? { assert AccessOk(H, view, s.w, found.handle); }
  }

  lemma NameQuiet(H: Host, view: View, mode: Mode, s: State)
    requires Hosts(H, view) && s.ctx.Push? && s.blk.Push?
    ensures var r := ParseName(H, mode, s); r.Go? ==> Quiet(view, s, r.s)
  {
    var c, pc := s.ctx.top, s.blk.top.pc;
    var n := NameLength(c.code, pc);
    if n.Some? {
      var name, s1 := Slice(c.code, pc, n.value), SetPc(s, pc + n.value);
      assert StringOk(H, view, s.w, name);
      ResolvedQuiet(H, view, mode, s1, H.resolve(s.w, c.handle, name));
    }
  }

  lemma {:induction false} PopOwners(n: nat, stk: Stack<Item>, blk: Stack<Blk>)
    requires PopNested(n, stk, blk).Unwound?
    ensures Owners(PopNested(n, stk, blk).stk) == Owners(stk)
  {
    if n > 0 { PopOwners(n - 1, stk.below, blk.below); }
  }

  lemma {:induction false} PopLoop(stk: Stack<Item>, blk: Stack<Blk>)
    requires FindLoop(stk).Found?
    ensures var m := FindLoop(stk).depth;
      && (PopNested(m, stk, blk).Unwound? ==> Owners(PopNested(m, stk, blk).stk) == Owners(stk))
      && (PopNested(m + 1, stk, blk).Unwound? ==>
            Owners(PopNested(m + 1, stk, blk).stk) == Owners(stk))
  {
    var m := FindLoop(stk).depth;
    if PopNested(m, stk, blk).Unwound? { PopOwners(m, stk, blk); }
    if PopNested(m + 1, stk, blk).Unwound? { PopOwners(m + 1, stk, blk); }
  }

  lemma SkipQuiet(view: View, s: State)
    requires s.ctx.Push?
    ensures ParseBreak(s).Go? ==> Quiet(view, s, ParseBreak(s).s)
    ensures ParseContinue(s).Go? ==> Quiet(view, s, ParseContinue(s).s)
  {
    if FindLoop(s.stk).Found? { PopLoop(s.stk, s.blk); }
  }

  lemma BlockQuiet(view: View, mode: Mode, s: State, opPc: nat, pc: nat, package: bool)
    requires s.ctx.Push? && s.blk.Push?
    ensures ParseIf(s, opPc, pc).Go? ==> Quiet(view, s, ParseIf(s, opPc, pc).s)
    ensures ParseWhile(s, opPc, pc).Go? ==> Quiet(view, s, ParseWhile(s, opPc, pc).s)
    ensures var r := ParseAggregate(mode, s, opPc, pc, package); r.Go? ==> Quiet(view, s, r.s)
  {
  }

  lemma DataQuiet(H: Host, view: View, mode: Mode, s: State, opcode: nat, pc: nat)
    requires Hosts(H, view) && s.ctx.Push? && s.blk.Push? && IsData(opcode)
    ensures var r := ParseOpcode(H, mode, s, opcode, pc); r.Go? ==> Quiet(view, s, r.s)
  {
    if opcode == 0x0D {
      var code, limit := s.ctx.top.code, s.blk.top.limit;
      assert StringOk(H, view, s.w, Slice(code, pc, StringLength(code, pc, limit)));
    }
  }

  predicate IsFlow(opcode: nat) {
    opcode in {0xA3, 0xCC, 0x9F, 0xA5, 0xA4} || C.OpensBlock(opcode)
  }

  lemma FlowQuiet(H: Host, view: View, mode: Mode, s: State, opcode: nat, pc: nat)
    requires s.ctx.Push? && s.blk.Push? && IsFlow(opcode)
    ensures var r := ParseOpcode(H, mode, s, opcode, pc); r.Go? ==> Quiet(view, s, r.s)
  {
    if C.OpensBlock(opcode) {
      C.BlockOpcode(H, mode, s, opcode, pc);
      BlockQuiet(view, mode, s, s.blk.top.pc, pc, opcode == 0x12);
    } else {
      SkipQuiet(view, s);
    }
  }

  lemma BankQuiet(H: Host, view: View, s: State)
    requires Hosts(H, view) && s.ctx.Push? && s.blk.Push?
    ensures ParseBank(H, s).Go? ==> Quiet(view, s, ParseBank(H, s).s)
  {
    assert OpenBankOk(H, view, s.w, s.ctx.top, s.blk.top);
  }

  lemma ScopeOpens(H: Host, view: View, s: State, opcode: nat)
    requires Hosts(H, view) && s.ctx.Push? && s.blk.Push?
    ensures ParseScope(H, s, opcode).Go? ==> Opens(view, s, ParseScope(H, s, opcode).s)
  {
    assert ScopeOk(H, view, s.w, opcode, s.ctx.top, s.blk.top);
  }

  lemma DeclarationStays(H: Host, view: View, s: State, opcode: nat)
    requires Hosts(H, view) && s.ctx.Push? && s.blk.Push?
    ensures var e := H.declare(s.w, opcode, s.ctx.top, s.blk.top);
      e.Did? ==> Stays(view, s, SetInv(SetPc(s, e.value), e.inv).(w := e.w))
  {
    assert DeclareOk(H, view, s.w, opcode, s.ctx.top, s.blk.top);
  }

  lemma DeclareOpcode(H: Host, mode: Mode, s: State, opcode: nat, pc: nat)
    requires s.ctx.Push? && s.blk.Push? && IsDeclaration(opcode)
    ensures var e := H.declare(s.w, opcode, s.ctx.top, s.blk.top);
      ParseOpcode(H, mode, s, opcode, pc)
      == if e.Did? then Go(SetInv(SetPc(s, e.value), e.inv).(w := e.w)) else Stop(Fails(e))
  {
  }

  /** The opcodes that open a context or declare nodes. */
  lemma NodesDeclare(H: Host, view: View, mode: Mode, s: State, opcode: nat, pc: nat)
    requires Hosts(H, view) && s.ctx.Push? && s.blk.Push?
    requires IsScope(opcode) || IsDeclaration(opcode)
    ensures Declares(view, s, ParseOpcode(H, mode, s, opcode, pc))
  {
    if IsScope(opcode) {
      C.ScopeOpcode(H, mode, s, opcode, pc);
      ScopeOpens(H, view, s, opcode);
    } else {
      DeclareOpcode(H, mode, s, opcode, pc);
      DeclarationStays(H, view, s, opcode);
    }
  }

  lemma ItemQuiet(H: Host, view: View, mode: Mode, s: State, opcode: nat, pc: nat)
    requires Hosts(H, view) && s.ctx.Push? && s.blk.Push? && !IsData(opcode) && !IsFlow(opcode)
    requires !IsScope(opcode) && !IsDeclaration(opcode)
    ensures var r := ParseOpcode(H, mode, s, opcode, pc); r.Go? ==> Quiet(view, s, r.s)
  {
    if opcode == 0x5B87 { BankQuiet(H, view, s); }
  }

  lemma OpcodeDeclares(H: Host, view: View, mode: Mode, s: State, opcode: nat, pc: nat)
    requires Hosts(H, view) && s.ctx.Push? && s.blk.Push?
    ensures Declares(view, s, ParseOpcode(H, mode, s, opcode, pc))
  {
    if IsScope(opcode) || IsDeclaration(opcode) {
      NodesDeclare(H, view, mode, s, opcode, pc);
    } else {
      if IsData(opcode) { DataQuiet(H, view, mode, s, opcode, pc); }
      else if IsFlow(opcode) { FlowQuiet(H, view, mode, s, opcode, pc); }
      else { ItemQuiet(H, view, mode, s, opcode, pc); }
      QuietStays(view, s, ParseOpcode(H, mode, s, opcode, pc));
    }
  }

  lemma ImmediateQuiet(H: Host, view: View, mode: Mode, s: State)
    requires s.ctx.Push? && s.blk.Push? && IsImmediate(mode)
    ensures var r := Parse(H, mode, s); r.Go? ==> Quiet(view, s, r.s)
  {
  }

  lemma ParseIsOpcode(H: Host, mode: Mode, s: State)
    requires s.ctx.Push? && s.blk.Push? && !IsImmediate(mode)
    requires !IsName(Fetch(s.ctx.top.code, s.blk.top.pc))
    ensures var opcode, pc := C.OpcodeAt(s), s.blk.top.pc;
      Parse(H, mode, s).Stop?
      || Parse(H, mode, s) == ParseOpcode(H, mode, s, opcode, if opcode >= 0x5B00 then pc + 2
                                                              else pc + 1)
  {
  }

  lemma ParseDeclares(H: Host, view: View, mode: Mode, s: State)
    requires Hosts(H, view) && s.ctx.Push? && s.blk.Push?
    ensures Declares(view, s, Parse(H, mode, s))
  {
    var pc, code := s.blk.top.pc, s.ctx.top.code;
    if IsImmediate(mode) {
      ImmediateQuiet(H, view, mode, s);
      QuietStays(view, s, Parse(H, mode, s));
    } else if IsName(Fetch(code, pc)) {
      NameQuiet(H, view, mode, s);
      QuietStays(view, s, ParseName(H, mode, s));
    } else {
      ParseIsOpcode(H, mode, s);
      var opcode := C.OpcodeAt(s);
      OpcodeDeclares(H, view, mode, s, opcode, if opcode >= 0x5B00 then pc + 2 else pc + 1);
    }
  }

  // ---------------------------------------------------------------------------------------
  // Turns
  // ---------------------------------------------------------------------------------------

  /** The turn starts on the three stacks that it needs. */
  predicate Ready(s: State) { s.stk.Push? && s.ctx.Push? && s.blk.Push? }

  lemma StatementsChange(H: Host, view: View, s: State)
    requires Hosts(H, view) && Ready(s) && (s.stk.top.Populate? || s.stk.top.Method?)
    ensures Changes(H, view, s, if s.stk.top.Populate? then ProcessPopulate(H, s)
                                else ProcessMethod(H, s))
  {
    ParseDeclares(H, view, Exec, s);
  }

  lemma BranchDeclares(H: Host, view: View, s: State)
    requires Hosts(H, view) && Ready(s) && (s.stk.top.Loop? || s.stk.top.Cond?)
    ensures Declares(view, s, if s.stk.top.Loop? then ProcessLoop(H, s) else ProcessCond(H, s))
  {
    var r := if s.stk.top.Loop? then ProcessLoop(H, s) else ProcessCond(H, s);
    if r == Parse(H, Exec, s) {
      ParseDeclares(H, view, Exec, s);
    } else if r == Parse(H, Object, s) {
      ParseDeclares(H, view, Object, s);
    } else {
      QuietStays(view, s, r);
    }
  }

  lemma BufferDeclares(H: Host, view: View, s: State)
    requires Hosts(H, view) && Ready(s) && s.stk.top.Buffer? && s.blk.top.pc <= s.blk.top.limit
    ensures Declares(view, s, ProcessBuffer(H, s))
  {
    var it, b := s.stk.top, s.blk.top;
    if |s.ops| != it.frame + 1 {
      ParseDeclares(H, view, Object, s);
    } else {
      var size := ObjAt(s.ops, it.frame);
      if size.Got? {
        assert BufferOk(H, view, s.w, size.value, Slice(s.ctx.top.code, b.pc, b.limit - b.pc));
      }
      QuietStays(view, s, ProcessBuffer(H, s));
    }
  }

  lemma FinishDeclares(H: Host, view: View, s: State)
    requires Hosts(H, view) && Ready(s) && s.stk.top.Package?
    ensures Declares(view, s, FinishPackage(H, s))
  {
    if s.blk.top.pc != s.blk.top.limit {
      ParseDeclares(H, view, Data, s);
    } else {
      QuietStays(view, s, FinishPackage(H, s));
    }
  }

  lemma SizeDeclares(H: Host, view: View, s: State)
    requires Hosts(H, view) && Ready(s) && s.stk.top.Package? && s.stk.top.phase < 2
    ensures Declares(view, s, ProcessPackage(H, s))
  {
    if s.stk.top.phase == 0 {
      ImmediateQuiet(H, view, ImmByte, s);
    } else {
      var size := ObjAt(s.ops, s.stk.top.frame + 1);
      if size.Got? && size.value.Int? { assert PackageOk(H, view, s.w, size.value.n); }
    }
    QuietStays(view, s, ProcessPackage(H, s));
  }

  lemma ElementDeclares(H: Host, view: View, s: State)
    requires Hosts(H, view) && Ready(s) && s.stk.top.Package? && s.stk.top.phase >= 2
    requires |s.ops| == s.stk.top.frame + 2
    ensures Declares(view, s, ProcessPackage(H, s))
  {
    var it := s.stk.top;
    var pkg, init := ObjAt(s.ops, it.frame), ObjAt(s.ops, it.frame + 1);
    if pkg.Got? && init.Got? {
      var s1 := s.(stk := s.stk.(top := it.(index := it.index + 1)), ops := s.ops[..|s.ops| - 1],
                   w := H.packageStore(s.w, init.value, pkg.value, it.index));
      C.ElementTurn(H, s, s1, pkg.value, init.value);
      StoredDeclares(H, view, s, s1, init.value, pkg.value);
    }
  }

  /** Storing an element first changes nothing here. */
  lemma StoredDeclares(H: Host, view: View, s: State, s1: State, init: Value, pkg: Value)
    requires Hosts(H, view) && Ready(s1) && s1.stk.top.Package?
    requires Owners(s1.stk) == Owners(s.stk) && s1.ctx == s.ctx
    requires exists i: nat :: s1.w == H.packageStore(s.w, init, pkg, i)
    ensures Declares(view, s, FinishPackage(H, s1))
  {
    var i: nat :| s1.w == H.packageStore(s.w, init, pkg, i);
    assert StoreOk(H, view, s.w, init, pkg, i);
    FinishDeclares(H, view, s1);
    AlsoDeclares(view, s, s1, FinishPackage(H, s1));
  }

  lemma PackageDeclares(H: Host, view: View, s: State)
    requires Hosts(H, view) && Ready(s) && s.stk.top.Package?
    ensures Declares(view, s, ProcessPackage(H, s))
  {
    if s.stk.top.phase < 2 {
      SizeDeclares(H, view, s);
    } else if |s.ops| == s.stk.top.frame + 2 {
      ElementDeclares(H, view, s);
    } else {
      FinishDeclares(H, view, s);
    }
  }

  /** From a state that agrees on contexts and namespace the same change. */
  lemma AlsoDeclares(view: View, s: State, s1: State, r: Outcome)
    requires Owners(s1.stk) == Owners(s.stk) && s1.ctx == s.ctx && view(s1.w) == view(s.w)
    requires Declares(view, s1, r)
    ensures Declares(view, s, r)
  {
  }

  lemma OperatorDeclares(H: Host, view: View, s: State)
    requires Hosts(H, view) && Ready(s) && s.stk.top.Op?
    ensures Declares(view, s, ProcessOp(H, s))
  {
    var it := s.stk.top;
    var k := |s.ops| - it.frame;
    if 0 <= k < |it.modes| {
      ParseDeclares(H, view, it.modes[k], s);
    } else if k == |it.modes| {
      ReduceQuiet(H, view, it.opcode, s.w, s.ctx.top.inv, s.ops[it.frame..]);
      QuietStays(view, s, ProcessOp(H, s));
    }
  }

  lemma ReduceQuiet(H: Host, view: View, opcode: nat, w: World, inv: Option<Invocation>,
                    ops: seq<Operand>)
    requires Hosts(H, view)
    ensures var r := ReduceOp(H, opcode, w, inv, ops);
      r.Reduced? ==> view(r.w) == view(w) && Records(inv, r.inv, 0, 0)
  {
    assert ReduceOk(H, view, w, opcode, inv, ops);
  }

  lemma NodeDeclares(H: Host, view: View, s: State)
    requires Hosts(H, view) && Ready(s) && s.stk.top.Node?
    ensures Declares(view, s, ProcessNode(H, s))
  {
    var it := s.stk.top;
    var k := |s.ops| - it.frame;
    if 0 <= k < |it.modes| {
      ParseDeclares(H, view, it.modes[k], s);
    } else if k == |it.modes| {
      var c, ops := s.ctx.top, s.ops[it.frame..];
      assert NodeOk(H, view, s.w, it.opcode, c, ops);
      if !H.reduceNode(s.w, it.opcode, c, ops).Did? { QuietStays(view, s, ProcessNode(H, s)); }
    }
  }

  lemma InvokeChanges(H: Host, view: View, s: State)
    requires Hosts(H, view) && Ready(s) && s.stk.top.Invoke?
    ensures Changes(H, view, s, ProcessInvoke(H, s))
  {
    var it := s.stk.top;
    if |s.ops| - it.frame != it.argc + 1 {
      ParseDeclares(H, view, Object, s);
    } else {
      var call, args := s.ops[it.frame], s.ops[it.frame + 1..];
      if call.Resolved? && call.handle.Some? && H.methodInfo(s.w, call.handle.value).overridden {
        assert OsMethodOk(H, view, s.w, call.handle.value, Arguments(args));
        QuietStays(view, s, ProcessInvoke(H, s));
      }
    }
  }

  lemma {:induction false} MethodFound(stk: Stack<Item>, blk: Stack<Blk>)
    requires FindMethod(stk).Found? && PopNested(FindMethod(stk).depth, stk, blk).Unwound?
    ensures var u := PopNested(FindMethod(stk).depth, stk, blk).stk;
      u.Push? && u.top.Method? && Owners(stk) == [true] + Owners(u.below)
  {
    if !stk.top.Method? { MethodFound(stk.below, blk.below); }
  }

  lemma ReturnChanges(H: Host, view: View, s: State)
    requires Hosts(H, view) && Ready(s) && s.stk.top.Return?
    ensures Changes(H, view, s, ProcessReturn(H, s))
  {
    if |s.ops| != s.stk.top.frame + 1 {
      ParseDeclares(H, view, Object, s);
    } else {
      var m := FindMethod(s.stk.below);
      if m.Found? && PopNested(m.depth, s.stk.below, s.blk).Unwound? {
        MethodFound(s.stk.below, s.blk);
      }
    }
  }

  lemma BankDeclares(H: Host, view: View, s: State)
    requires Hosts(H, view) && Ready(s) && s.stk.top.BankField?
    ensures Declares(view, s, ProcessBank(H, s))
  {
    var it := s.stk.top;
    if |s.ops| != it.frame + 3 {
      ParseDeclares(H, view, Object, s);
    } else {
      var r, b, v := s.ops[it.frame], s.ops[it.frame + 1], ObjAt(s.ops, it.frame + 2);
      if r.Resolved? && r.handle.Some? && b.Resolved? && b.handle.Some? && v.Got? && v.value.Int? {
        assert BankOk(H, view, s.w, s.ctx.top, r.handle.value, b.handle.value, v.value.n,
                      s.blk.top);
      }
    }
  }

  /** One turn declares nodes, opens a scope, enters or leaves a method, or closes a scope. */
  lemma TurnChanges(H: Host, view: View, s: State)
    requires Hosts(H, view) && s.stk.Push?
    ensures Changes(H, view, s, Process(H, s))
  {
    if s.ctx.Push? && s.blk.Push? && s.blk.top.pc <= s.blk.top.limit {
      match s.stk.top
      case Populate => StatementsChange(H, view, s);
      case Method(_) => StatementsChange(H, view, s);
      case Buffer(_, _) => BufferDeclares(H, view, s);
      case Package(_, _, _, _) => PackageDeclares(H, view, s);
      case Node(_, _, _) => NodeDeclares(H, view, s);
      case Op(_, _, _, _) => OperatorDeclares(H, view, s);
      case Invoke(_, _, _) => InvokeChanges(H, view, s);
      case Return(_) => ReturnChanges(H, view, s);
      case Loop(_, _, _) => BranchDeclares(H, view, s);
      case Cond(_, _, _, _, _) => BranchDeclares(H, view, s);
      case BankField(_) => BankDeclares(H, view, s);
    }
  }

  // ---------------------------------------------------------------------------------------
  // What the invocations owe
  // ---------------------------------------------------------------------------------------

  /** The nodes that the contexts above the first d have recorded. */
  function Above(ctx: Stack<Ctx>, d: nat): seq<Handle> {
    if Depth(ctx) <= d then [] else Above(ctx.below, d) + Nodes(ctx.top.inv)
  }

  function Numbers(n: nat, m: nat): (r: set<nat>)
    ensures forall k :: k in r <==> n <= k < m
    decreases m - n
  {
    if n >= m then {} else {n} + Numbers(n + 1, m)
  }

  /** The nodes of t that s does not have. */
  function Between(s: N.Space, t: N.Space): set<nat> { Numbers(|s.nodes|, |t.nodes|) }

  /** The nodes that a turn creates without an invocation to record them. */
  function Unlisted(inv: Option<Invocation>, s: N.Space, t: N.Space): set<nat> {
    if inv.Some? then {} else Between(s, t)
  }

  lemma {:induction false} InstallsGrow(s: N.Space, xs: seq<N.Node>)
    requires InstallAll(s, xs).Some?
    ensures |InstallAll(s, xs).value.nodes| == |s.nodes| + |xs|
    decreases |xs|
  {
    if xs != [] { InstallsGrow(M.Install(s, xs[0]).value, xs[1..]); }
  }

  lemma OwesMore(base: Tables, s: N.Space, list: seq<nat>, kept: set<nat>, more: set<nat>)
    requires M.Owes(base, s, list, kept)
    ensures M.Owes(base, s, list, kept + more)
  {
  }

  /** Nodes installed and recorded. */
  lemma {:induction false} ListedOwe(base: Tables, s: N.Space, list: seq<nat>, kept: set<nat>,
                                     xs: seq<N.Node>)
    requires M.Owes(base, s, list, kept) && InstallAll(s, xs).Some?
    ensures M.Owes(base, InstallAll(s, xs).value, list + Fresh(|s.nodes|, |xs|), kept)
    decreases |xs|
  {
    var n := |s.nodes|;
    if xs == [] {
      assert list + Fresh(n, 0) == list;
    } else {
      M.OwesListed(base, s, list, kept, xs[0]);
      var t := M.Install(s, xs[0]).value;
      ListedOwe(base, t, list + [n], kept, xs[1..]);
      assert list + [n] + Fresh(n + 1, |xs| - 1) == list + Fresh(n, |xs|);
    }
  }

  /** Nodes installed and not recorded. */
  lemma {:induction false} UnlistedOwe(base: Tables, s: N.Space, list: seq<nat>, kept: set<nat>,
                                       xs: seq<N.Node>)
    requires M.Owes(base, s, list, kept) && InstallAll(s, xs).Some?
    ensures M.Owes(base, InstallAll(s, xs).value, list,
                   kept + Between(s, InstallAll(s, xs).value))
    decreases |xs|
  {
    var u := InstallAll(s, xs).value;
    if xs == [] {
      OwesMore(base, s, list, kept, Between(s, u));
    } else {
      M.OwesKept(base, s, list, kept, xs[0]);
      var t := M.Install(s, xs[0]).value;
      UnlistedOwe(base, t, list, kept + {|s.nodes|}, xs[1..]);
      InstallsGrow(t, xs[1..]);
      assert kept + {|s.nodes|} + Between(t, u) == kept + Between(s, u);
    }
  }

  /** Declaring nodes in the topmost context. */
  lemma CreatesOwe(base: Tables, s: N.Space, inv: Option<Invocation>, t: N.Space,
                   inv1: Option<Invocation>, others: seq<nat>, kept: set<nat>)
    requires Creates(s, inv, t, inv1) && M.Owes(base, s, others + Nodes(inv), kept)
    ensures M.Owes(base, t, others + Nodes(inv1), kept + Unlisted(inv, s, t))
    ensures inv1.Some? == inv.Some?
  {
    var xs :| CreatesThese(s, inv, t, inv1, xs);
    var list := others + Nodes(inv);
    if inv.Some? {
      ListedOwe(base, s, list, kept, xs);
      assert list + Fresh(|s.nodes|, |xs|) == others + Nodes(inv1);
      assert kept + Unlisted(inv, s, t) == kept;
    } else {
      UnlistedOwe(base, s, list, kept, xs);
    }
  }

  /** Above the first d contexts the invocations owe exactly what the child tables have more than
      `base`, apart from kept nodes. */
  ghost predicate Owing(view: View, s: State, d: nat, base: Tables, kept: set<nat>) {
    Paired(s) && Depth(s.ctx) >= d && M.Owes(base, view(s.w), Above(s.ctx, d), kept)
  }

  lemma StaysOwes(view: View, s: State, t: State, d: nat, base: Tables, kept: set<nat>)
    requires Owing(view, s, d, base, kept) && Depth(s.ctx) > d && Stays(view, s, t)
    ensures Owing(view, t, d, base, kept + Unlisted(s.ctx.top.inv, view(s.w), view(t.w)))
  {
    CreatesOwe(base, view(s.w), s.ctx.top.inv, view(t.w), t.ctx.top.inv, Above(s.ctx.below, d),
               kept);
  }

  lemma OpensOwes(view: View, s: State, t: State, d: nat, base: Tables, kept: set<nat>)
    requires Owing(view, s, d, base, kept) && Depth(s.ctx) > d && Opens(view, s, t)
    ensures Owing(view, t, d, base, kept + Unlisted(s.ctx.top.inv, view(s.w), view(t.w)))
  {
    var c := t.ctx.below;
    CreatesOwe(base, view(s.w), s.ctx.top.inv, view(t.w), c.top.inv, Above(s.ctx.below, d), kept);
    assert Invoked(c) == Invoked(s.ctx);
    assert Above(t.ctx, d) == Above(c, d) by { assert Above(c, d) + [] == Above(c, d); }
  }

  lemma EntersOwes(view: View, s: State, t: State, d: nat, base: Tables, kept: set<nat>)
    requires Owing(view, s, d, base, kept) && Depth(s.ctx) > d && Enters(s, t)
    ensures Owing(view, t, d, base, kept)
  {
    assert Above(t.ctx, d) == Above(s.ctx, d) + [];
  }

  lemma ClosesOwes(view: View, s: State, t: State, d: nat, base: Tables, kept: set<nat>)
    requires Owing(view, s, d, base, kept) && Depth(s.ctx) > d && Closes(s, t)
    ensures Owing(view, t, d, base, kept)
  {
    assert Owners(s.stk)[0] == false && Owners(s.stk)[1..] == Owners(t.stk);
    assert Invoked(s.ctx)[0] == s.ctx.top.inv.Some? && Invoked(s.ctx)[1..] == Invoked(t.ctx);
    assert Above(s.ctx, d) == Above(t.ctx, d) by { assert Above(t.ctx, d) + [] == Above(t.ctx, d); }
  }

  /** The cleanup of a method that returns. */
  lemma LeavesOwes(H: Host, view: View, s: State, t: State, d: nat, base: Tables, kept: set<nat>)
    requires Hosts(H, view)
    requires Owing(view, s, d, base, kept) && Depth(s.ctx) > d && Leaves(H, s, t)
    ensures Owing(view, t, d, base, kept)
  {
    var nodes := Nodes(s.ctx.top.inv);
    assert Owners(s.stk)[0] == true && Owners(s.stk)[1..] == Owners(t.stk);
    assert Invoked(s.ctx)[0] == s.ctx.top.inv.Some? && Invoked(s.ctx)[1..] == Invoked(t.ctx);
    M.CleanupWorks(base, view(s.w), Above(t.ctx, d), nodes, kept);
    assert CleanupOk(H, view, s.w, nodes);
  }

  /** Every turn above the first d contexts keeps the account. */
  lemma TurnOwes(H: Host, view: View, s: State, d: nat, base: Tables, kept: set<nat>)
    requires Hosts(H, view) && s.stk.Push? && Owing(view, s, d, base, kept) && Depth(s.ctx) > d
    ensures var r := Process(H, s);
      r.Go? ==>
        Owing(view, r.s, d, base, kept + Unlisted(s.ctx.top.inv, view(s.w), view(r.s.w)))
  {
    TurnChanges(H, view, s);
    var r := Process(H, s);
    if r.Go? {
      var t := r.s;
      if Stays(view, s, t) {
        StaysOwes(view, s, t, d, base, kept);
      } else if Opens(view, s, t) {
        OpensOwes(view, s, t, d, base, kept);
      } else {
        if Enters(s, t) { EntersOwes(view, s, t, d, base, kept); }
        else if Closes(s, t) { ClosesOwes(view, s, t, d, base, kept); }
        else { LeavesOwes(H, view, s, t, d, base, kept); }
        OwesMore(base, view(t.w), Above(t.ctx, d), kept,
                 Unlisted(s.ctx.top.inv, view(s.w), view(t.w)));
      }
    }
  }

  // ---------------------------------------------------------------------------------------
  // Runs
  // ---------------------------------------------------------------------------------------

  /** At most n turns, as long as there are more than d contexts. */
  function Within(step: State -> Outcome, n: nat, s: State, d: nat): Outcome {
    if n == 0 || s.stk.Empty? || Depth(s.ctx) <= d then Go(s)
    else
      match step(s)
      case Stop(why) => Stop(why)
      case Go(t) => Within(step, n - 1, t, d)
  }

  /** The nodes created in these turns while no invocation was current: those declared in the body
      of a Device or Scope. */
  ghost function Unrecorded(view: View, step: State -> Outcome, n: nat, s: State, d: nat): set<nat> {
    if n == 0 || s.stk.Empty? || Depth(s.ctx) <= d then {}
    else
      match step(s)
      case Stop(why) => {}
      case Go(t) =>
        Unlisted(s.ctx.top.inv, view(s.w), view(t.w)) + Unrecorded(view, step, n - 1, t, d)
  }

  lemma StepOwes(H: Host, view: View, step: State -> Outcome, s: State, d: nat, base: Tables,
                 kept: set<nat>)
    requires Hosts(H, view) && IsStep(step, H) && Owing(view, s, d, base, kept)
    requires s.stk.Push? && Depth(s.ctx) > d
    ensures step(s).Go? ==> Owing(view, step(s).s, d, base, kept
                                  + Unlisted(s.ctx.top.inv, view(s.w), view(step(s).s.w)))
  {
    assert Turn(s);
    TurnOwes(H, view, s, d, base, kept);
  }

  lemma {:induction false} WithinOwes(H: Host, view: View, step: State -> Outcome, n: nat, s: State,
                                      d: nat, base: Tables, kept: set<nat>)
    requires Hosts(H, view) && IsStep(step, H) && Owing(view, s, d, base, kept)
    ensures var r := Within(step, n, s, d);
      r.Go? ==> Owing(view, r.s, d, base, kept + Unrecorded(view, step, n, s, d))
  {
    if n == 0 || s.stk.Empty? || Depth(s.ctx) <= d {
      assert kept + {} == kept;
    } else if step(s).Go? {
      var t := step(s).s;
      var more, rest := Unlisted(s.ctx.top.inv, view(s.w), view(t.w)),
                        Unrecorded(view, step, n - 1, t, d);
      StepOwes(H, view, step, s, d, base, kept);
      WithinOwes(H, view, step, n - 1, t, d, base, kept + more);
      assert kept + more + rest == kept + (more + rest);
      assert Unrecorded(view, step, n, s, d) == more + rest;
    }
  }

  /** A method has just been entered. */
  predicate Entered(s: State) {
    && s.stk.Push? && s.stk.top.Method? && s.ctx.Push?
    && s.ctx.top.inv.Some? && Nodes(s.ctx.top.inv) == []
  }

  /** The child tables have all entries that they had, and no others but for the nodes in `kept`. */
  ghost predicate Restored(was: Tables, now: Tables, kept: set<nat>) {
    && (forall k :: k in was ==> k in now && now[k] == was[k])
    && (forall k :: k in now && k !in was ==> now[k] in kept)
    && (kept == {} ==> now == was)
  }

  lemma NothingOwed(base: Tables, s: N.Space, kept: set<nat>)
    requires M.Owes(base, s, [], kept)
    ensures Restored(base, s.children, kept)
  {
    assert kept == {} ==> forall k :: k in s.children ==> k in base;
  }

  /** However a method ends and whatever it declares and calls: as soon as its context is gone, every
      child table is again what it was when the method was entered, but for nodes declared in the
      body of a Device or Scope. */
  lemma MethodRestoresTables(H: Host, view: View, step: State -> Outcome, n: nat, s: State)
    requires Hosts(H, view) && IsStep(step, H) && Paired(s) && Entered(s)
    ensures var d := Depth(s.ctx) - 1;
      var r := Within(step, n, s, d);
      r.Go? && Depth(r.s.ctx) <= d ==>
        Restored(view(s.w).children, view(r.s.w).children, Unrecorded(view, step, n, s, d))
  {
    var d := Depth(s.ctx) - 1;
    var base := view(s.w).children;
    assert Above(s.ctx, d) == [];
    WithinOwes(H, view, step, n, s, d, base, {});
    var r := Within(step, n, s, d);
    if r.Go? && Depth(r.s.ctx) <= d {
      var kept := Unrecorded(view, step, n, s, d);
      assert {} + kept == kept;
      NothingOwed(base, view(r.s.w), kept);
    }
  }

  /** At no time in between would the cleanup of the current invocation meet a missing child. */
  lemma CleanupNeverPanics(H: Host, view: View, step: State -> Outcome, n: nat, s: State)
    requires Hosts(H, view) && IsStep(step, H) && Paired(s) && Entered(s)
    ensures var r := Within(step, n, s, Depth(s.ctx) - 1);
      r.Go? && Depth(r.s.ctx) >= Depth(s.ctx) ==>
        M.Listed(view(r.s.w), Nodes(r.s.ctx.top.inv))
        && M.Cleanup(view(r.s.w), Nodes(r.s.ctx.top.inv)).Some?
  {
    var d := Depth(s.ctx) - 1;
    var base := view(s.w).children;
    assert Above(s.ctx, d) == [];
    WithinOwes(H, view, step, n, s, d, base, {});
    var r := Within(step, n, s, d);
    if r.Go? && Depth(r.s.ctx) > d {
      M.CleanupWorks(base, view(r.s.w), Above(r.s.ctx.below, d), Nodes(r.s.ctx.top.inv),
                     {} + Unrecorded(view, step, n, s, d));
    }
  }

  // ---------------------------------------------------------------------------------------
  // Evaluations
  // ---------------------------------------------------------------------------------------

  /** An aligned run ends as soon as no context is left. */
  lemma {:induction false} WithinIsRun(root: bool, H: Host, step: State -> Outcome, n: nat, s: State)
    requires IsStep(step, H) && Aligned(root, s)
    ensures Within(step, n, s, 0) == Run(step, n, s)
  {
    if n > 0 && s.stk.Push? {
      assert Depth(s.ctx) > 0;
      assert Turn(s);
      TurnKeepsAlignment(root, H, s);
      if step(s).Go? { WithinIsRun(root, H, step, n - 1, step(s).s); }
    }
  }

  /** lai_eval: when the evaluation of a method ends, every child table is what it was before, but
      for nodes declared in the body of a Device or Scope. */
  lemma EvalRestoresTables(H: Host, view: View, step: State -> Outcome, n: nat, m: MethodInfo,
                           h: Handle, args: seq<Value>, w: World)
    requires Hosts(H, view) && IsStep(step, H)
    ensures var s := EvalStart(m, h, args, w);
      var r := Run(step, n, s);
      r.Go? && r.s.stk.Empty? ==>
        Restored(view(w).children, view(r.s.w).children, Unrecorded(view, step, n, s, 0))
  {
    var s := EvalStart(m, h, args, w);
    StartsAligned([], h, s, w);
    EvalPaired(m, h, args, w);
    RunKeepsAlignment(true, H, step, n, s);
    WithinIsRun(true, H, step, n, s);
    MethodRestoresTables(H, view, step, n, s);
  }

  lemma EvalPaired(m: MethodInfo, h: Handle, args: seq<Value>, w: World)
    ensures var s := EvalStart(m, h, args, w); Paired(s) && Entered(s) && Depth(s.ctx) == 1
  {
    var s := EvalStart(m, h, args, w);
    assert Owners(s.stk) == [true] + Owners(s.stk.below);
    assert Invoked(s.ctx) == [true] + Invoked(s.ctx.below);
  }

  lemma TurnPaired(H: Host, view: View, s: State)
    requires Hosts(H, view) && s.stk.Push? && Paired(s)
    ensures var r := Process(H, s); r.Go? ==> Paired(r.s)
  {
    TurnChanges(H, view, s);
    var r := Process(H, s);
    if r.Go? { ChangePaired(H, view, s, r.s); }
  }

  lemma ChangePaired(H: Host, view: View, s: State, t: State)
    requires Paired(s)
    requires Stays(view, s, t) || Opens(view, s, t) || Enters(s, t) || Closes(s, t)
             || Leaves(H, s, t)
    ensures Paired(t)
  {
    if Stays(view, s, t) || Opens(view, s, t) {
      var c := if Stays(view, s, t) then t.ctx else t.ctx.below;
      assert Invoked(c) == Invoked(s.ctx);
    } else if !Enters(s, t) {
      assert Owners(s.stk)[1..] == Owners(t.stk) && Invoked(s.ctx)[1..] == Invoked(t.ctx);
    }
  }

  lemma {:induction false} RunPaired(H: Host, view: View, step: State -> Outcome, n: nat, s: State)
    requires Hosts(H, view) && IsStep(step, H) && Paired(s)
    ensures var r := Run(step, n, s); r.Go? ==> Paired(r.s)
  {
    if n > 0 && s.stk.Push? {
      assert Turn(s);
      TurnPaired(H, view, s);
      if step(s).Go? { RunPaired(H, view, step, n - 1, step(s).s); }
    }
  }

  /** The start of lai_populate on a table, or of lai_eval on a method. */
  ghost predicate IsStart(s: State) {
    || (exists code, h :: s == PopulateStart(code, h, s.w))
    || (exists m, h, args :: s == EvalStart(m, h, args, s.w))
  }

  lemma StartsPaired(s: State)
    requires IsStart(s)
    ensures Paired(s)
  {
    if m, h, args :| s == EvalStart(m, h, args, s.w) {
      EvalPaired(m, h, args, s.w);
    } else {
      assert Owners(s.stk) == [false] + Owners(s.stk.below);
      assert Invoked(s.ctx) == [false] + Invoked(s.ctx.below);
    }
  }

  /** The same for every method that is entered at any time, m turns after the start of lai_populate
      or of lai_eval. */
  lemma EveryCallRestores(H: Host, view: View, step: State -> Outcome, start: State, m: nat, n: nat)
    requires Hosts(H, view) && IsStep(step, H) && IsStart(start)
    requires Run(step, m, start).Go? && Entered(Run(step, m, start).s)
    ensures var s := Run(step, m, start).s;
      var d := Depth(s.ctx) - 1;
      var r := Within(step, n, s, d);
      r.Go? && Depth(r.s.ctx) <= d ==>
        Restored(view(s.w).children, view(r.s.w).children, Unrecorded(view, step, n, s, d))
  {
    StartsPaired(start);
    RunPaired(H, view, step, m, start);
    MethodRestoresTables(H, view, step, n, Run(step, m, start).s);
  }
}
