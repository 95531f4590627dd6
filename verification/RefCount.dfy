/** Reference-counted AML objects (lai/core/variable.c, lai/core/object.c). */
module RefCount {
  import opened Wrappers

  /** A variable: a number, or a pointer to an object, possibly to one index of it. */
  datatype Var = Scalar(n: nat) | Ref(addr: nat, index: Option<nat>)

  const ZERO := Scalar(0)

  datatype Obj = Freed | Text(s: string) | Bytes(b: seq<nat>) | Pack(elems: seq<Var>)

  // ---------------------------------------------------------------------------------------
  // References
  // ---------------------------------------------------------------------------------------

  function RefOf(v: Var): multiset<nat> { if v.Ref? then multiset{v.addr} else multiset{} }

  function RefsIn(vs: seq<Var>): multiset<nat> {
    if vs == [] then multiset{} else RefsIn(vs[..|vs| - 1]) + RefOf(vs[|vs| - 1])
  }

  function Slots(o: Obj): seq<Var> { if o.Pack? then o.elems else [] }

  /** The references in the slots of all packages. */
  function RefsOf(cells: seq<Obj>): multiset<nat> {
    if cells == [] then multiset{}
    else RefsOf(cells[..|cells| - 1]) + RefsIn(Slots(cells[|cells| - 1]))
  }

  lemma {:induction false} RefsUpdate(vs: seq<Var>, i: nat, v: Var)
    requires i < |vs|
    ensures RefsIn(vs[i := v]) + RefOf(vs[i]) == RefsIn(vs) + RefOf(v)
  {
    var n, ws := |vs| - 1, vs[i := v];
    RefsLast(vs);
    RefsLast(ws);
    if i == n {
      assert ws[..n] == vs[..n];
      Exchange(RefsIn(vs[..n]), RefOf(v), RefOf(vs[i]));
    } else {
      assert ws[..n] == vs[..n][i := v];
      RefsUpdate(vs[..n], i, v);
      var a, b := RefsIn(ws[..n]), RefsIn(vs[..n]);
      assert RefsIn(ws) == a + RefOf(vs[n]) && RefsIn(vs) == b + RefOf(vs[n]);
      Regroup(a, b, RefOf(vs[i]), RefOf(v), RefOf(vs[n]));
    }
  }

  lemma RefsLast(vs: seq<Var>)
    requires vs != []
    ensures RefsIn(vs) == RefsIn(vs[..|vs| - 1]) + RefOf(vs[|vs| - 1])
  {
  }

  lemma Exchange(a: multiset<nat>, b: multiset<nat>, c: multiset<nat>)
    ensures a + b + c == a + c + b
  {
  }

  lemma Regroup(a: multiset<nat>, b: multiset<nat>, c: multiset<nat>, d: multiset<nat>,
                e: multiset<nat>)
    requires a + c == b + d
    ensures a + e + c == b + e + d
  {
    Exchange(a, e, c);
    Exchange(b, e, d);
  }

  lemma {:induction false} CellsUpdate(cells: seq<Obj>, a: nat, o: Obj)
    requires a < |cells|
    ensures RefsOf(cells[a := o]) + RefsIn(Slots(cells[a])) == RefsOf(cells) + RefsIn(Slots(o))
  {
    var n, cells1 := |cells| - 1, cells[a := o];
    var was, now, last := RefsIn(Slots(cells[a])), RefsIn(Slots(o)), RefsIn(Slots(cells[n]));
    CellsLast(cells, n, RefsOf(cells[..n]), last);
    CellsLast(cells1, n, RefsOf(cells1[..n]), RefsIn(Slots(cells1[n])));
    if a == n {
      assert cells1[..n] == cells[..n] && cells1[n] == o;
      var x := RefsOf(cells[..n]);
      assert RefsOf(cells1) == x + now && RefsOf(cells) == x + was;
      Exchange(x, now, was);
    } else {
      assert cells1[..n] == cells[..n][a := o] && cells1[n] == cells[n] && cells[..n][a] == cells[a];
      CellsUpdate(cells[..n], a, o);
      var x, y := RefsOf(cells1[..n]), RefsOf(cells[..n]);
      assert RefsOf(cells1) == x + last && RefsOf(cells) == y + last;
      Regroup(x, y, was, now, last);
    }
  }

  lemma CellsLast(cells: seq<Obj>, n: nat, others: multiset<nat>, last: multiset<nat>)
    requires |cells| == n + 1 && others == RefsOf(cells[..n]) && last == RefsIn(Slots(cells[n]))
    ensures RefsOf(cells) == others + last
  {
  }

  lemma ElemUpdate(cells: seq<Obj>, a: nat, i: nat, v: Var)
    requires a < |cells| && cells[a].Pack? && i < |cells[a].elems|
    ensures RefsOf(cells[a := Pack(cells[a].elems[i := v])]) + RefOf(cells[a].elems[i])
            == RefsOf(cells) + RefOf(v)
  {
    var e := cells[a].elems;
    RefsUpdate(e, i, v);
    CellsUpdate(cells, a, Pack(e[i := v]));
    Cancel(RefsOf(cells[a := Pack(e[i := v])]), RefsIn(e), RefsOf(cells), RefsIn(e[i := v]),
           RefOf(e[i]), RefOf(v));
  }

  lemma Cancel(x: multiset<nat>, e: multiset<nat>, y: multiset<nat>, f: multiset<nat>,
               c: multiset<nat>, d: multiset<nat>)
    requires x + e == y + f && f + c == e + d
    ensures x + c == y + d
  {
    forall k: nat ensures (x + c)[k] == (y + d)[k] {
      assert (x + e)[k] == (y + f)[k] && (f + c)[k] == (e + d)[k];
    }
  }

  lemma CellsAppend(cells: seq<Obj>, o: Obj)
    ensures RefsOf(cells + [o]) == RefsOf(cells) + RefsIn(Slots(o))
  {
    assert (cells + [o])[..|cells|] == cells;
  }

  lemma {:induction false} NoRefs(vs: seq<Var>)
    requires forall i :: 0 <= i < |vs| ==> vs[i].Scalar?
    ensures RefsIn(vs) == multiset{}
  {
    if vs != [] { NoRefs(vs[..|vs| - 1]); }
  }

  /** A variable, or element i of the package at addr. */
  datatype Slot = Root(i: nat) | Elem(addr: nat, i: nat)

  // ---------------------------------------------------------------------------------------
  // The invariant
  // ---------------------------------------------------------------------------------------

  /** The count of a is the number of references to a in slots and of those in the hands of the
      running function; what has no references is freed, or about to be. */
  ghost predicate AddrOk(roots: seq<Var>, cells: seq<Obj>, counts: multiset<nat>,
                         held: multiset<nat>, dying: set<nat>, a: nat)
  {
    && counts[a] == RefsIn(roots)[a] + RefsOf(cells)[a] + held[a]
    && (a in counts ==> a < |cells| && !cells[a].Freed? && a !in dying)
    && (a < |cells| && a !in counts && a !in dying ==> cells[a].Freed?)
  }

  ghost predicate InvOf(roots: seq<Var>, cells: seq<Obj>, counts: multiset<nat>,
                        held: multiset<nat>, dying: set<nat>)
  {
    forall a: nat :: AddrOk(roots, cells, counts, held, dying, a)
  }

  /** Moving a reference from an element into the running function's hands. */
  lemma TakeElem(roots: seq<Var>, cells: seq<Obj>, counts: multiset<nat>, held: multiset<nat>,
                 dying: set<nat>, p: nat, i: nat)
    requires InvOf(roots, cells, counts, held, dying)
    requires p < |cells| && cells[p].Pack? && i < |cells[p].elems|
    ensures InvOf(roots, cells[p := Pack(cells[p].elems[i := ZERO])], counts,
                  held + RefOf(cells[p].elems[i]), dying)
  {
    var cells1, held1 := cells[p := Pack(cells[p].elems[i := ZERO])], held + RefOf(cells[p].elems[i]);
    ElemUpdate(cells, p, i, ZERO);
    forall a: nat ensures AddrOk(roots, cells1, counts, held1, dying, a) {
      assert AddrOk(roots, cells, counts, held, dying, a);
      assert (RefsOf(cells1) + RefOf(cells[p].elems[i]))[a] == (RefsOf(cells) + RefOf(ZERO))[a];
    }
  }

  lemma TakeRoot(roots: seq<Var>, cells: seq<Obj>, counts: multiset<nat>, held: multiset<nat>,
                 dying: set<nat>, i: nat)
    requires InvOf(roots, cells, counts, held, dying) && i < |roots|
    ensures InvOf(roots[i := ZERO], cells, counts, held + RefOf(roots[i]), dying)
  {
    RefsUpdate(roots, i, ZERO);
    var roots1, held1 := roots[i := ZERO], held + RefOf(roots[i]);
    forall a: nat ensures AddrOk(roots1, cells, counts, held1, dying, a) {
      assert AddrOk(roots, cells, counts, held, dying, a);
      assert (RefsIn(roots1) + RefOf(roots[i]))[a] == (RefsIn(roots) + RefOf(ZERO))[a];
    }
  }

  /** Putting a held reference into an empty slot. */
  lemma PutElem(roots: seq<Var>, cells: seq<Obj>, counts: multiset<nat>, held: multiset<nat>,
                dying: set<nat>, p: nat, i: nat, v: Var)
    requires InvOf(roots, cells, counts, held + RefOf(v), dying)
    requires p < |cells| && cells[p].Pack? && i < |cells[p].elems| && cells[p].elems[i] == ZERO
    ensures InvOf(roots, cells[p := Pack(cells[p].elems[i := v])], counts, held, dying)
  {
    var cells1 := cells[p := Pack(cells[p].elems[i := v])];
    ElemUpdate(cells, p, i, v);
    forall a: nat ensures AddrOk(roots, cells1, counts, held, dying, a) {
      assert AddrOk(roots, cells, counts, held + RefOf(v), dying, a);
      assert (RefsOf(cells1) + RefOf(ZERO))[a] == (RefsOf(cells) + RefOf(v))[a];
    }
  }

  lemma PutRoot(roots: seq<Var>, cells: seq<Obj>, counts: multiset<nat>, held: multiset<nat>,
                dying: set<nat>, i: nat, v: Var)
    requires InvOf(roots, cells, counts, held + RefOf(v), dying)
    requires i < |roots| && roots[i] == ZERO
    ensures InvOf(roots[i := v], cells, counts, held, dying)
  {
    RefsUpdate(roots, i, v);
    var roots1 := roots[i := v];
    forall a: nat ensures AddrOk(roots1, cells, counts, held, dying, a) {
      assert AddrOk(roots, cells, counts, held + RefOf(v), dying, a);
      assert (RefsIn(roots1) + RefOf(ZERO))[a] == (RefsIn(roots) + RefOf(v))[a];
    }
  }

  /** Dropping a held reference. */
  lemma Drop(roots: seq<Var>, cells: seq<Obj>, counts: multiset<nat>, held: multiset<nat>,
             dying: set<nat>, x: nat)
    requires InvOf(roots, cells, counts, held + multiset{x}, dying)
    ensures x in counts && x < |cells| && !cells[x].Freed? && x !in dying
    ensures var counts1 := counts - multiset{x};
      |counts1| == |counts| - 1 && counts1 <= counts
      && InvOf(roots, cells, counts1, held, if x in counts1 then dying else dying + {x})
  {
    assert AddrOk(roots, cells, counts, held + multiset{x}, dying, x);
    var counts1 := counts - multiset{x};
    var dying1 := if x in counts1 then dying else dying + {x};
    forall a: nat ensures AddrOk(roots, cells, counts1, held, dying1, a) {
      assert AddrOk(roots, cells, counts, held + multiset{x}, dying, a);
    }
  }

  /** Taking a new reference to something that is referenced. */
  lemma Share(roots: seq<Var>, cells: seq<Obj>, counts: multiset<nat>, held: multiset<nat>,
              dying: set<nat>, x: nat)
    requires InvOf(roots, cells, counts, held, dying) && x in counts
    ensures InvOf(roots, cells, counts + multiset{x}, held + multiset{x}, dying)
  {
    forall a: nat
      ensures AddrOk(roots, cells, counts + multiset{x}, held + multiset{x}, dying, a)
    {
      assert AddrOk(roots, cells, counts, held, dying, a);
    }
  }

  /** Freeing an object without references in it. */
  lemma Free(roots: seq<Var>, cells: seq<Obj>, counts: multiset<nat>, held: multiset<nat>,
             dying: set<nat>, x: nat)
    requires InvOf(roots, cells, counts, held, dying + {x}) && x < |cells| && x !in counts
    requires RefsIn(Slots(cells[x])) == multiset{}
    ensures InvOf(roots, cells[x := Freed], counts, held, dying - {x})
  {
    CellsUpdate(cells, x, Freed);
    var cells1 := cells[x := Freed];
    forall a: nat ensures AddrOk(roots, cells1, counts, held, dying - {x}, a) {
      assert AddrOk(roots, cells, counts, held, dying + {x}, a);
      assert (RefsOf(cells1) + RefsIn(Slots(cells[x])))[a]
             == (RefsOf(cells) + RefsIn(Slots(Freed)))[a];
    }
  }

  // ---------------------------------------------------------------------------------------
  // The heap
  // ---------------------------------------------------------------------------------------

  /** `now` is `was` with some objects outside `fixed` freed. */
  predicate Released(was: seq<Obj>, now: seq<Obj>, fixed: set<nat>) {
    && |now| == |was|
    && forall a: nat | a < |now| :: now[a] == was[a] || (now[a].Freed? && a !in fixed)
  }

  class Heap {
    var roots: seq<Var>
    var cells: seq<Obj>
    /** The reference count of the object at a is the multiplicity of a. */
    var counts: multiset<nat>

    constructor (n: nat)
      ensures Valid() && roots == seq(n, _ => ZERO) && cells == []
    {
      roots, cells, counts := seq(n, _ => ZERO), [], multiset{};
      NoRefs(seq(n, _ => ZERO));
    }

    predicate IsSlot(x: Slot)
      reads this
    {
      match x
      case Root(i) => i < |roots|
      case Elem(a, i) => a < |cells| && cells[a].Pack? && i < |cells[a].elems|
    }

    function Read(x: Slot): Var
      requires IsSlot(x)
      reads this
    {
      match x
      case Root(i) => roots[i]
      case Elem(a, i) => cells[a].elems[i]
    }

    ghost predicate Inv(held: multiset<nat>, dying: set<nat>)
      reads this
    {
      InvOf(roots, cells, counts, held, dying)
    }

    /** Between calls nothing is held and nothing is dying. */
    ghost predicate Valid()
      reads this
    {
      Inv(multiset{}, {})
    }

    method Write(x: Slot, v: Var)
      requires IsSlot(x)
      modifies this`roots, this`cells
      ensures roots == if x.Root? then old(roots)[x.i := v] else old(roots)
      ensures cells == if x.Root? then old(cells)
                       else old(cells)[x.addr := Pack(old(cells)[x.addr].elems[x.i := v])]
    {
      match x
      case Root(i) => roots := roots[i := v];
      case Elem(a, i) => cells := cells[a := Pack(cells[a].elems[i := v])];
    }

    /** Empties a slot into the running function's hands. */
    method Take(x: Slot, ghost held: multiset<nat>, ghost dying: set<nat>) returns (v: Var)
      requires IsSlot(x) && Inv(held, dying)
      modifies this`roots, this`cells
      ensures v == old(Read(x)) && Inv(held + RefOf(v), dying)
      ensures roots == if x.Root? then old(roots)[x.i := ZERO] else old(roots)
      ensures cells == if x.Root? then old(cells)
                       else old(cells)[x.addr := Pack(old(cells)[x.addr].elems[x.i := ZERO])]
    {
      if x.Root? {
        TakeRoot(roots, cells, counts, held, dying, x.i);
      } else {
        TakeElem(roots, cells, counts, held, dying, x.addr, x.i);
      }
      v := Read(x);
      Write(x, ZERO);
    }

    /** lai_var_finalize: drops one reference and frees what has no more. */
    method Finalize(v: Var, ghost held: multiset<nat>, ghost dying: set<nat>)
      requires Inv(held + RefOf(v), dying)
      modifies this`cells, this`counts
      ensures Inv(held, dying) && Released(old(cells), cells, dying)
      ensures |counts| <= old(|counts|) && counts <= old(counts)
      ensures v.Scalar? ==> cells == old(cells) && counts == old(counts)
      ensures v.Ref? && old(counts)[v.addr] > 1 ==>
                cells == old(cells) && counts == old(counts) - multiset{v.addr}
      decreases |counts|, 0
    {
      if v.Scalar? {
        assert held + RefOf(v) == held;
        return;
      }
      var a := v.addr;
      Drop(roots, cells, counts, held, dying, a);
      counts := counts - multiset{a};
      if a !in counts {
        FreeObject(a, held, dying);
      }
    }

    /** Frees an object; laihost_free_package if it is a package. */
    method FreeObject(a: nat, ghost held: multiset<nat>, ghost dying: set<nat>)
      requires a < |cells| && a !in counts && a !in dying && Inv(held, dying + {a})
      modifies this`cells, this`counts
      ensures Inv(held, dying) && Released(old(cells), cells, dying) && cells[a] == Freed
      ensures |counts| <= old(|counts|) && counts <= old(counts)
      decreases |counts|, 1
    {
      if cells[a].Pack? {
        var n := |cells[a].elems|;
        for i := 0 to n
          invariant Inv(held, dying + {a}) && roots == old(roots)
          invariant |counts| <= old(|counts|) && counts <= old(counts)
          invariant |cells| == |old(cells)| && cells[a].Pack? && |cells[a].elems| == n
          invariant Released(old(cells), cells[a := old(cells)[a]], dying + {a})
          invariant forall j :: 0 <= j < i ==> cells[a].elems[j] == ZERO
        {
          FreeElement(a, i, held, dying);
        }
        NoRefs(cells[a].elems);
      }
      Free(roots, cells, counts, held, dying, a);
      assert dying - {a} == dying;
      cells := cells[a := Freed];
    }

    /** One turn of the loop of laihost_free_package. */
    method FreeElement(a: nat, i: nat, ghost held: multiset<nat>, ghost dying: set<nat>)
      requires a < |cells| && cells[a].Pack? && i < |cells[a].elems| && Inv(held, dying + {a})
      modifies this`cells, this`counts
      ensures Inv(held, dying + {a}) && |counts| <= old(|counts|) && counts <= old(counts)
      ensures Released(old(cells)[a := Pack(old(cells)[a].elems[i := ZERO])], cells, dying + {a})
      decreases |counts|, 1, 0
    {
      var v := cells[a].elems[i];
      TakeElem(roots, cells, counts, held, dying + {a}, a, i);
      cells := cells[a := Pack(cells[a].elems[i := ZERO])];
      Finalize(v, held, dying + {a});
    }

    /** Puts a held reference into an empty slot. */
    method Put(x: Slot, v: Var, ghost held: multiset<nat>, ghost dying: set<nat>)
      requires IsSlot(x) && Read(x) == ZERO && Inv(held + RefOf(v), dying)
      modifies this`roots, this`cells
      ensures Inv(held, dying)
      ensures roots == WriteRoots(old(roots), x, v) && cells == WriteCells(old(cells), x, v)
    {
      if x.Root? {
        PutRoot(roots, cells, counts, held, dying, x.i, v);
      } else {
        PutElem(roots, cells, counts, held, dying, x.addr, x.i, v);
      }
      Write(x, v);
    }

    /** Replaces what a slot holds by v and drops the old reference. */
    method Replace(x: Slot, v: Var)
      requires IsSlot(x) && Inv(RefOf(v), {})
      modifies this
      ensures Valid()
      ensures roots == WriteRoots(old(roots), x, v)
      ensures Released(WriteCells(old(cells), x, v), cells, {})
      ensures old(Read(x)).Scalar? ==> cells == WriteCells(old(cells), x, v) && counts == old(counts)
      ensures old(Read(x)).Ref? && old(counts)[old(Read(x)).addr] > 1 ==>
                cells == WriteCells(old(cells), x, v)
                && counts == old(counts) - multiset{old(Read(x)).addr}
    {
      var u := Take(x, RefOf(v), {});
      assert RefOf(v) + RefOf(u) == RefOf(u) + RefOf(v);
      Put(x, v, RefOf(u), {});
      WriteTwice(old(roots), old(cells), x, ZERO, v);
      assert multiset{} + RefOf(u) == RefOf(u);
      Finalize(u, multiset{}, {});
    }

    /** lai_var_move: also right when both slots are the same, or when the source is inside a
        package that only the destination keeps alive. */
    method Move(dst: Slot, src: Slot)
      requires Valid() && IsSlot(dst) && IsSlot(src)
      modifies this
      ensures Valid()
      ensures var t := old(Read(src));
        && roots == WriteRoots(WriteRoots(old(roots), src, ZERO), dst, t)
        && Released(WriteCells(WriteCells(old(cells), src, ZERO), dst, t), cells, {})
      ensures dst == src ==> roots == old(roots) && cells == old(cells) && counts == old(counts)
    {
      WriteTwice(roots, cells, src, ZERO, Read(src));
      WriteSame(roots, cells, src, Read(src));
      var t := Take(src, multiset{}, {});
      assert multiset{} + RefOf(t) == RefOf(t);
      Replace(dst, t);
    }

    /** lai_var_assign: also right when both slots are the same, or when the source is inside a
        package that only the destination keeps alive. */
    method Assign(dst: Slot, src: Slot)
      requires Valid() && IsSlot(dst) && IsSlot(src)
      modifies this
      ensures Valid()
      ensures roots == WriteRoots(old(roots), dst, old(Read(src)))
      ensures Released(WriteCells(old(cells), dst, old(Read(src))), cells, {})
      ensures dst == src ==> roots == old(roots) && cells == old(cells) && counts == old(counts)
    {
      var t := Read(src);
      WriteSame(roots, cells, src, t);
      if t.Ref? {
        SlotCounted(src, multiset{}, {});
        Share(roots, cells, counts, multiset{}, {}, t.addr);
        counts := counts + multiset{t.addr};
      }
      assert multiset{} + RefOf(t) == RefOf(t) && (t.Scalar? ==> RefOf(t) == multiset{});
      Replace(dst, t);
    }

    /** What a slot refers to is counted, so it is not freed. */
    lemma SlotCounted(x: Slot, held: multiset<nat>, dying: set<nat>)
      requires IsSlot(x) && Inv(held, dying) && Read(x).Ref?
      ensures Read(x).addr in counts && Read(x).addr < |cells| && !cells[Read(x).addr].Freed?
    {
      var a := Read(x).addr;
      assert AddrOk(roots, cells, counts, held, dying, a);
      match x
      case Root(i) =>
        RefsUpdate(roots, i, ZERO);
        assert (RefsIn(roots[i := ZERO]) + RefOf(roots[i]))[a] == (RefsIn(roots) + RefOf(ZERO))[a];
      case Elem(p, i) =>
        var cells1 := cells[p := Pack(cells[p].elems[i := ZERO])];
        ElemUpdate(cells, p, i, ZERO);
        assert (RefsOf(cells1) + RefOf(Read(x)))[a] == (RefsOf(cells) + RefOf(ZERO))[a];
    }
  }

  function WriteRoots(roots: seq<Var>, x: Slot, v: Var): seq<Var> {
    if x.Root? && x.i < |roots| then roots[x.i := v] else roots
  }

  function WriteCells(cells: seq<Obj>, x: Slot, v: Var): seq<Obj> {
    if x.Elem? && x.addr < |cells| && cells[x.addr].Pack? && x.i < |cells[x.addr].elems| then
      cells[x.addr := Pack(cells[x.addr].elems[x.i := v])]
    else cells
  }

  lemma WriteTwice(roots: seq<Var>, cells: seq<Obj>, x: Slot, u: Var, v: Var)
    ensures WriteRoots(WriteRoots(roots, x, u), x, v) == WriteRoots(roots, x, v)
    ensures WriteCells(WriteCells(cells, x, u), x, v) == WriteCells(cells, x, v)
  {
    if x.Elem? && x.addr < |cells| && cells[x.addr].Pack? && x.i < |cells[x.addr].elems| {
      var e := cells[x.addr].elems;
      assert e[x.i := u][x.i := v] == e[x.i := v];
    }
  }

  lemma WriteSame(roots: seq<Var>, cells: seq<Obj>, x: Slot, v: Var)
    requires x.Root? ==> x.i < |roots| && roots[x.i] == v
    requires x.Elem? ==> x.addr < |cells| && cells[x.addr].Pack? && x.i < |cells[x.addr].elems|
                         && cells[x.addr].elems[x.i] == v
    ensures WriteRoots(roots, x, v) == roots && WriteCells(cells, x, v) == cells
  {
    if x.Elem? {
      var e := cells[x.addr].elems;
      assert e[x.i := v] == e;
    }
  }
}
