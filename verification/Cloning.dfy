/** Deep clones of AML objects (lai_obj_clone and its helpers in lai/core/object.c). */
module Cloning {
  import opened Wrappers
  import opened RefCount
  import opened Objects

  /** What a variable stands for when only packages, strings and buffers are followed. */
  datatype Tree = Num(n: nat) | Str(s: string) | Buf(b: seq<nat>) | Pkg(elems: seq<Tree>)
                | Pointer(addr: nat, index: nat) | Nothing

  /** The object a variable owns, as opposed to an index into one. */
  predicate Owns(v: Var) { v.Ref? && v.index.None? }

  /** Packages own only objects of lower rank. */
  ghost predicate TreeOk(cells: seq<Obj>, rank: Rank, a: nat) {
    a < |cells| ==> forall i :: 0 <= i < |Slots(cells[a])| && Owns(Slots(cells[a])[i]) ==>
      Slots(cells[a])[i].addr < |cells| && rank(Slots(cells[a])[i].addr) < rank(a)
  }

  ghost predicate Trees(cells: seq<Obj>, rank: Rank) { forall a: nat :: TreeOk(cells, rank, a) }

  ghost function Value(cells: seq<Obj>, rank: Rank, v: Var): Tree
    requires Trees(cells, rank) && (Owns(v) ==> v.addr < |cells|)
    decreases if Owns(v) then rank(v.addr) + 1 else 0
  {
    match v
    case Scalar(n) => Num(n)
    case Ref(a, Some(k)) => Pointer(a, k)
    case Ref(a, None) =>
      match cells[a]
      case Freed => Nothing
      case Text(s) => Str(s)
      case Bytes(b) => Buf(b)
      case Pack(e) =>
        assert TreeOk(cells, rank, a) && Slots(cells[a]) == e;
        Pkg(seq(|e|, i requires 0 <= i < |e| => Value(cells, rank, e[i])))
  }

  /** No package but x itself owns x. */
  ghost predicate Unowned(cells: seq<Obj>, x: nat, a: nat) {
    a < |cells| && a != x ==> forall i :: 0 <= i < |Slots(cells[a])| && Owns(Slots(cells[a])[i]) ==>
      Slots(cells[a])[i].addr != x
  }

  ghost predicate SameAt(cells: seq<Obj>, rank: Rank, cells1: seq<Obj>, rank1: Rank, x: nat,
                         a: nat)
  {
    a < |cells| && a != x ==> a < |cells1| && cells1[a] == cells[a] && rank1(a) == rank(a)
  }

  /** Values do not depend on an object that they do not contain. */
  lemma {:induction false} ValueFrame(cells: seq<Obj>, rank: Rank, cells1: seq<Obj>, rank1: Rank,
                                      x: nat, v: Var)
    requires Trees(cells, rank) && Trees(cells1, rank1)
    requires forall a: nat :: Unowned(cells, x, a)
    requires forall a: nat :: SameAt(cells, rank, cells1, rank1, x, a)
    requires Owns(v) ==> v.addr < |cells| && v.addr < |cells1| && v.addr != x
    ensures Value(cells1, rank1, v) == Value(cells, rank, v)
    decreases if Owns(v) then rank(v.addr) + 1 else 0
  {
    if Owns(v) {
      var a := v.addr;
      assert TreeOk(cells, rank, a) && TreeOk(cells1, rank1, a);
      assert SameAt(cells, rank, cells1, rank1, x, a) && Unowned(cells, x, a);
      if cells[a].Pack? {
        var e := Slots(cells[a]);
        forall i | 0 <= i < |e|
          ensures Value(cells1, rank1, e[i]) == Value(cells, rank, e[i])
        {
          ValueFrame(cells, rank, cells1, rank1, x, e[i]);
        }
        assert Value(cells1, rank1, v).elems == Value(cells, rank, v).elems;
      }
    }
  }

  /** The cells from base on own nothing below base: they share no storage with the others. */
  ghost predicate ApartAt(cells: seq<Obj>, base: nat, a: nat) {
    base <= a < |cells| ==>
      forall i :: 0 <= i < |Slots(cells[a])| && Owns(Slots(cells[a])[i]) ==>
        Slots(cells[a])[i].addr >= base
  }

  ghost predicate Apart(cells: seq<Obj>, base: nat, v: Var) {
    (Owns(v) ==> v.addr >= base) && forall a: nat :: ApartAt(cells, base, a)
  }

  lemma {:induction false} SlotInRefs(vs: seq<Var>, i: nat)
    requires i < |vs| && vs[i].Ref?
    ensures vs[i].addr in RefsIn(vs)
  {
    if i < |vs| - 1 { SlotInRefs(vs[..|vs| - 1], i); }
  }

  lemma {:induction false} CellInRefs(cells: seq<Obj>, a: nat, x: nat)
    requires a < |cells| && x in RefsIn(Slots(cells[a]))
    ensures x in RefsOf(cells)
  {
    if a < |cells| - 1 { CellInRefs(cells[..|cells| - 1], a, x); }
  }

  /** What is not allocated yet is not referenced. */
  lemma NewUnowned(roots: seq<Var>, cells: seq<Obj>, counts: multiset<nat>, held: multiset<nat>,
                   o: Obj, a: nat)
    requires InvOf(roots, cells, counts, held, {})
    ensures Unowned(cells + [o], |cells|, a)
  {
    var x := |cells|;
    assert AddrOk(roots, cells, counts, held, {}, x);
    if a < x {
      forall i | 0 <= i < |Slots(cells[a])| && Owns(Slots(cells[a])[i])
        ensures Slots(cells[a])[i].addr != x
      {
        SlotInRefs(Slots(cells[a]), i);
        CellInRefs(cells, a, Slots(cells[a])[i].addr);
      }
    }
  }

  /** What a clone leaves of the heap: the old objects, and new ones that are apart. */
  ghost predicate Grown(was: seq<Obj>, rank: Rank, now: seq<Obj>, rank1: Rank, w: Var) {
    && was <= now && Trees(now, rank1) && Apart(now, |was|, w)
    && (forall a: nat :: SameAt(was, rank, now, rank1, |was|, a))
    && (Owns(w) ==> w.addr < |now|)
  }

  /** Whatever nobody owned is still not owned. */
  ghost predicate StillUnowned(was: seq<Obj>, now: seq<Obj>, x: nat) {
    x < |was| && (forall a: nat :: Unowned(was, x, a)) ==> forall a: nat :: Unowned(now, x, a)
  }

  lemma GrownUnowned(was: seq<Obj>, rank: Rank, now: seq<Obj>, rank1: Rank, w: Var, x: nat)
    requires Grown(was, rank, now, rank1, w)
    ensures StillUnowned(was, now, x)
  {
    if x < |was| && forall a: nat :: Unowned(was, x, a) {
      forall a: nat ensures Unowned(now, x, a) {
        assert Unowned(was, x, a) && ApartAt(now, |was|, a);
      }
    }
  }

  // ---------------------------------------------------------------------------------------
  // Cloning a package, element by element
  // ---------------------------------------------------------------------------------------

  /** Element j of the copy: a copy of the source's element if it is among the first i. */
  ghost predicate BuiltAt(was: seq<Obj>, rank: Rank, src: seq<Var>, now: seq<Obj>, rank1: Rank,
                          base: nat, i: nat, j: nat)
    requires Trees(was, rank) && Trees(now, rank1) && base < |now| && now[base].Pack?
    requires j < |src| == |now[base].elems| && (Owns(src[j]) ==> src[j].addr < |was|)
  {
    var e := now[base].elems[j];
    if j < i then
      (Owns(e) ==> base < e.addr < |now|) && Value(now, rank1, e) == Value(was, rank, src[j])
    else e == ZERO
  }

  /** The package at base is a copy of the one at a up to element i. */
  ghost predicate Building(was: seq<Obj>, rank: Rank, a: nat, now: seq<Obj>, rank1: Rank,
                           base: nat, i: nat)
  {
    && base == |was| < |now| && was <= now && now[base].Pack?
    && a < |was| && was[a].Pack? && |now[base].elems| == |was[a].elems|
    && Trees(was, rank) && Trees(now, rank1) && rank1(base) == rank(a)
    && OwnsIn(was, was[a].elems)
    && (forall x: nat :: SameAt(was, rank, now, rank1, base, x))
    && (forall x: nat :: Unowned(now, base, x))
    && (forall x: nat :: ApartAt(now, base, x))
    && (forall j: nat | j < |was[a].elems| ::
          BuiltAt(was, rank, was[a].elems, now, rank1, base, i, j))
  }

  predicate OwnsIn(cells: seq<Obj>, vs: seq<Var>) {
    forall j :: 0 <= j < |vs| && Owns(vs[j]) ==> vs[j].addr < |cells|
  }

  lemma BuildStart(roots: seq<Var>, was: seq<Obj>, counts: multiset<nat>, held: multiset<nat>,
                   rank: Rank, a: nat, o: Obj, rank1: Rank)
    requires InvOf(roots, was, counts, held, {}) && Trees(was, rank)
    requires a < |was| && was[a].Pack? && o == Pack(Zeros(|was[a].elems|))
    requires forall x: nat :: rank1(x) == if x == |was| then rank(a) else rank(x)
    ensures Building(was, rank, a, was + [o], rank1, |was|, 0)
  {
    var now := was + [o];
    assert TreeOk(was, rank, a) && Slots(was[a]) == was[a].elems;
    forall x: nat
      ensures TreeOk(now, rank1, x) && Unowned(now, |was|, x) && ApartAt(now, |was|, x)
      ensures SameAt(was, rank, now, rank1, |was|, x)
    {
      assert TreeOk(was, rank, x);
      NewUnowned(roots, was, counts, held, o, x);
    }
  }

  /** The copied elements keep their values when one more is cloned and stored. */
  lemma BuildKeeps(was: seq<Obj>, rank: Rank, a: nat, now: seq<Obj>, rank1: Rank, base: nat,
                   i: nat, now1: seq<Obj>, rank2: Rank, e: Var, now2: seq<Obj>, v: Var)
    requires Building(was, rank, a, now, rank1, base, i) && i < |was[a].elems|
    requires Grown(now, rank1, now1, rank2, e) && Trees(now2, rank2) && now1[base].Pack?
    requires i < |now1[base].elems| && now2 == now1[base := Pack(now1[base].elems[i := e])]
    requires Owns(v) ==> base < v.addr < |now1|
    ensures Value(now2, rank2, v) == Value(now1, rank2, v)
    ensures (Owns(v) ==> v.addr < |now|) ==> Value(now1, rank2, v) == Value(now, rank1, v)
  {
    GrownUnowned(now, rank1, now1, rank2, e, base);
    forall x: nat ensures SameAt(now1, rank2, now2, rank2, base, x) { }
    ValueFrame(now1, rank2, now2, rank2, base, v);
    if Owns(v) ==> v.addr < |now| {
      forall x: nat ensures Unowned(now, |now|, x) { assert TreeOk(now, rank1, x); }
      ValueFrame(now, rank1, now1, rank2, |now|, v);
    }
  }

  /** Storing the clone of the next element. */
  lemma BuildStep(was: seq<Obj>, rank: Rank, a: nat, now: seq<Obj>, rank1: Rank, base: nat,
                  i: nat, now1: seq<Obj>, rank2: Rank, e: Var)
    requires Building(was, rank, a, now, rank1, base, i) && i < |was[a].elems|
    requires Grown(now, rank1, now1, rank2, e)
    requires var v := was[a].elems[i];
      && (Owns(v) ==> v.addr < |now|) && Value(now1, rank2, e) == Value(now, rank1, v)
      && (Owns(e) ==> Owns(v) && rank2(e.addr) == rank1(v.addr))
    ensures base < |now1| && now1[base] == now[base]
    ensures Building(was, rank, a, now1[base := Pack(now[base].elems[i := e])], rank2, base, i + 1)
  {
    var src, elems := was[a].elems, now[base].elems;
    assert now1[base] == now[base];
    var now2 := now1[base := Pack(elems[i := e])];
    assert TreeOk(was, rank, a) && Slots(was[a]) == src;
    assert SameAt(now, rank1, now1, rank2, |now|, base);
    GrownUnowned(now, rank1, now1, rank2, e, base);
    StepShape(was, rank, a, now, rank1, base, i, now1, rank2, e);
    ValueFrame(was, rank, now, rank1, base, src[i]) by {
      forall x: nat ensures Unowned(was, base, x) { assert TreeOk(was, rank, x); }
    }
    var k := i + 1;
    forall j: nat | j < |src| ensures BuiltAt(was, rank, src, now2, rank2, base, k, j) {
      assert BuiltAt(was, rank, src, now, rank1, base, i, j);
      if j <= i {
        BuildKeeps(was, rank, a, now, rank1, base, i, now1, rank2, e, now2,
                   now2[base].elems[j]);
      }
    }
  }

  lemma StepShape(was: seq<Obj>, rank: Rank, a: nat, now: seq<Obj>, rank1: Rank, base: nat,
                  i: nat, now1: seq<Obj>, rank2: Rank, e: Var)
    requires Building(was, rank, a, now, rank1, base, i) && i < |was[a].elems|
    requires Grown(now, rank1, now1, rank2, e) && now1[base] == now[base]
    requires Owns(e) ==> Owns(was[a].elems[i])
                         && rank2(e.addr) == rank1(was[a].elems[i].addr)
    ensures var now2 := now1[base := Pack(now[base].elems[i := e])];
      && was <= now2 && Trees(now2, rank2) && rank2(base) == rank(a)
      && (forall x: nat :: SameAt(was, rank, now2, rank2, base, x))
      && (forall x: nat :: Unowned(now2, base, x)) && (forall x: nat :: ApartAt(now2, base, x))
  {
    var src, elems := was[a].elems, now[base].elems;
    var now2 := now1[base := Pack(elems[i := e])];
    assert TreeOk(was, rank, a) && Slots(was[a]) == src;
    assert SameAt(now, rank1, now1, rank2, |now|, base);
    GrownUnowned(now, rank1, now1, rank2, e, base);
    if Owns(e) { assert SameAt(was, rank, now, rank1, base, src[i].addr); }
    assert Owns(e) ==> rank2(e.addr) < rank2(base);
    forall x: nat
      ensures SameAt(was, rank, now2, rank2, base, x) && TreeOk(now2, rank2, x)
      ensures Unowned(now2, base, x) && ApartAt(now2, base, x)
    {
      assert SameAt(was, rank, now, rank1, base, x) && SameAt(now, rank1, now1, rank2, |now|, x);
      assert TreeOk(now1, rank2, x) && Unowned(now1, base, x);
      StepTree(now1, rank2, base, i, e, x);
      StepApart(now, now1, base, i, e, x);
    }
  }

  lemma StepTree(now1: seq<Obj>, rank2: Rank, base: nat, i: nat, e: Var, x: nat)
    requires base < |now1| && now1[base].Pack? && i < |now1[base].elems|
    requires TreeOk(now1, rank2, x) && (Owns(e) ==> e.addr < |now1| && rank2(e.addr) < rank2(base))
    ensures TreeOk(now1[base := Pack(now1[base].elems[i := e])], rank2, x)
  {
    var now2 := now1[base := Pack(now1[base].elems[i := e])];
    if x == base { assert Slots(now2[x]) == Slots(now1[x])[i := e]; }
  }

  /** The cell at x, after a clone that is apart has been stored in the package at base. */
  lemma StepApart(now: seq<Obj>, now1: seq<Obj>, base: nat, i: nat, e: Var, x: nat)
    requires now <= now1 && base < |now| && now[base].Pack? && i < |now[base].elems|
    requires ApartAt(now, base, x) && ApartAt(now1, |now|, x) && Unowned(now1, base, x)
    requires Owns(e) ==> e.addr >= |now|
    ensures var now2 := now1[base := Pack(now[base].elems[i := e])];
      Unowned(now2, base, x) && ApartAt(now2, base, x)
  {
    var now2 := now1[base := Pack(now[base].elems[i := e])];
    if x == base {
      assert Slots(now2[x]) == Slots(now[x])[i := e];
    } else if x < |now| {
      assert now2[x] == now[x];
    } else if x < |now1| {
      assert now2[x] == now1[x];
    }
  }

  /** The finished copy has the value of the source. */
  lemma BuildEnd(was: seq<Obj>, rank: Rank, a: nat, now: seq<Obj>, rank1: Rank, base: nat)
    requires a < |was| && was[a].Pack?
    requires Building(was, rank, a, now, rank1, base, |was[a].elems|)
    ensures Value(now, rank1, Ref(base, None)) == Value(was, rank, Ref(a, None))
    ensures Grown(was, rank, now, rank1, Ref(base, None))
  {
    var src := was[a].elems;
    var x, y := Value(now, rank1, Ref(base, None)), Value(was, rank, Ref(a, None));
    assert x.elems == y.elems by {
      forall j: nat | j < |src| ensures x.elems[j] == y.elems[j] {
        assert BuiltAt(was, rank, src, now, rank1, base, |src|, j);
      }
    }
  }

  // ---------------------------------------------------------------------------------------
  // The clone
  // ---------------------------------------------------------------------------------------

  /** Clones what a variable owns; other variables are copied as they are. */
  method CloneVar(h: Heap, v: Var, ghost held: multiset<nat>, ghost rank: Rank)
    returns (w: Var, ghost rank1: Rank)
    requires h.Inv(held, {}) && Trees(h.cells, rank) && (v.Ref? ==> v.addr in h.counts)
    modifies h
    ensures h.roots == old(h.roots) && h.Inv(held + RefOf(w), {})
    ensures Grown(old(h.cells), rank, h.cells, rank1, w)
    ensures (Owns(v) ==> v.addr < |old(h.cells)|)
            && Value(h.cells, rank1, w) == Value(old(h.cells), rank, v)
    ensures Owns(w) ==> Owns(v) && rank1(w.addr) == rank(v.addr)
    decreases if Owns(v) then rank(v.addr) + 1 else 0, 1
  {
    rank1 := rank;
    w := v;
    if v.Scalar? {
      assert held + RefOf(w) == held;
      return;
    }
    assert AddrOk(h.roots, h.cells, h.counts, held, {}, v.addr);
    if v.index.Some? {
      Share(h.roots, h.cells, h.counts, held, {}, v.addr);
      h.counts := h.counts + multiset{v.addr};
      return;
    }
    if h.cells[v.addr].Pack? {
      w, rank1 := ClonePackage(h, v.addr, held, rank);
    } else {
      w, rank1 := CloneLeaf(h, v.addr, held, rank);
    }
  }

  /** lai_clone_string and lai_clone_buffer. */
  method CloneLeaf(h: Heap, a: nat, ghost held: multiset<nat>, ghost rank: Rank)
    returns (w: Var, ghost rank1: Rank)
    requires h.Inv(held, {}) && Trees(h.cells, rank)
    requires a < |h.cells| && !h.cells[a].Pack? && !h.cells[a].Freed?
    modifies h`cells, h`counts
    ensures h.Inv(held + RefOf(w), {}) && Owns(w) && rank1(w.addr) == rank(a)
    ensures Grown(old(h.cells), rank, h.cells, rank1, w)
    ensures Value(h.cells, rank1, w) == Value(old(h.cells), rank, Ref(a, None))
  {
    ghost var base, was := |h.cells|, h.cells;
    w := Create(h, h.cells[a], held);
    rank1 := (x: nat) => if x == base then rank(a) else rank(x);
    forall x: nat ensures TreeOk(h.cells, rank1, x) && SameAt(was, rank, h.cells, rank1, base, x) {
      assert TreeOk(was, rank, x);
    }
  }

  /** lai_clone_package. */
  method ClonePackage(h: Heap, a: nat, ghost held: multiset<nat>, ghost rank: Rank)
    returns (w: Var, ghost rank1: Rank)
    requires h.Inv(held, {}) && Trees(h.cells, rank) && a < |h.cells| && h.cells[a].Pack?
    modifies h
    ensures h.roots == old(h.roots) && h.Inv(held + RefOf(w), {})
    ensures Grown(old(h.cells), rank, h.cells, rank1, w) && Owns(w) && rank1(w.addr) == rank(a)
    ensures Value(h.cells, rank1, w) == Value(old(h.cells), rank, Ref(a, None))
    decreases rank(a) + 1, 0
  {
    ghost var was, base := h.cells, |h.cells|;
    var n := |h.cells[a].elems|;
    rank1 := (x: nat) => if x == base then rank(a) else rank(x);
    BuildStart(h.roots, was, h.counts, held, rank, a, Pack(Zeros(n)), rank1);
    w := Create(h, Pack(Zeros(n)), held);
    for i := 0 to n
      invariant h.roots == old(h.roots) && h.Inv(held + RefOf(w), {})
      invariant Building(was, rank, a, h.cells, rank1, base, i)
    {
      rank1 := CloneElement(h, was, a, w.addr, i, held, rank, rank1);
    }
    BuildEnd(was, rank, a, h.cells, rank1, base);
  }

  /** One turn of the loop of lai_clone_package. */
  method CloneElement(h: Heap, ghost was: seq<Obj>, a: nat, base: nat, i: nat,
                      ghost held: multiset<nat>, ghost rank: Rank, ghost rank1: Rank)
    returns (ghost rank2: Rank)
    requires h.Inv(held + multiset{base}, {})
    requires Building(was, rank, a, h.cells, rank1, base, i) && i < |was[a].elems|
    modifies h
    ensures h.roots == old(h.roots) && h.Inv(held + multiset{base}, {})
    ensures Building(was, rank, a, h.cells, rank2, base, i + 1)
    decreases rank(a), 2
  {
    ghost var now, held1 := h.cells, held + multiset{base};
    var v := h.cells[a].elems[i];
    assert TreeOk(was, rank, a) && Slots(was[a]) == was[a].elems;
    if Owns(v) { assert SameAt(was, rank, now, rank1, base, v.addr); }
    if v.Ref? { h.SlotCounted(Elem(a, i), held1, {}); }
    var e;
    e, rank2 := CloneVar(h, v, held1, rank1);
    BuildStep(was, rank, a, now, rank1, base, i, h.cells, rank2, e);
    assert BuiltAt(was, rank, was[a].elems, now, rank1, base, i, i);
    h.Put(Elem(base, i), e, held1, {});
  }

  /** Freeing unreferenced objects does not change the value of anything still referenced. */
  lemma {:induction false} ValueSurvives(roots: seq<Var>, was: seq<Obj>, now: seq<Obj>,
                                         counts: multiset<nat>, rank: Rank, v: Var)
    requires Trees(was, rank) && Trees(now, rank) && Released(was, now, {})
    requires InvOf(roots, now, counts, multiset{}, {})
    requires Owns(v) ==> v.addr in counts && v.addr < |now|
    ensures Value(now, rank, v) == Value(was, rank, v)
    decreases if Owns(v) then rank(v.addr) + 1 else 0
  {
    if Owns(v) {
      var a := v.addr;
      assert AddrOk(roots, now, counts, multiset{}, {}, a);
      assert now[a] == was[a] && TreeOk(now, rank, a);
      if now[a].Pack? {
        var e := Slots(now[a]);
        forall i | 0 <= i < |e|
          ensures (Owns(e[i]) ==> e[i].addr < |now|) && Value(now, rank, e[i]) == Value(was, rank, e[i])
        {
          if Owns(e[i]) {
            SlotInRefs(e, i);
            CellInRefs(now, a, e[i].addr);
            assert AddrOk(roots, now, counts, multiset{}, {}, e[i].addr);
          }
          ValueSurvives(roots, was, now, counts, rank, e[i]);
        }
        assert Value(now, rank, v).elems == Value(was, rank, v).elems;
      }
    }
  }

  lemma TreesReleased(was: seq<Obj>, now: seq<Obj>, rank: Rank)
    requires Trees(was, rank) && Released(was, now, {})
    ensures Trees(now, rank)
  {
    forall a: nat ensures TreeOk(now, rank, a) { assert TreeOk(was, rank, a); }
  }

  /** A clone after the old value of its destination has been released. */
  lemma CloneSettles(roots: seq<Var>, was: seq<Obj>, now: seq<Obj>, counts: multiset<nat>,
                     rank: Rank, base: nat, w: Var)
    requires Trees(was, rank) && Released(was, now, {}) && Apart(was, base, w)
    requires InvOf(roots, now, counts, multiset{}, {})
    requires Owns(w) ==> w.addr in counts && w.addr < |now|
    ensures Trees(now, rank) && Apart(now, base, w)
    ensures Value(now, rank, w) == Value(was, rank, w)
  {
    TreesReleased(was, now, rank);
    ValueSurvives(roots, was, now, counts, rank, w);
    forall a: nat ensures ApartAt(now, base, a) { assert ApartAt(was, base, a); }
  }

  /** lai_obj_clone into a variable: the variable gets the value of the source in storage that
      shares nothing with what was there before, also when the source is the variable itself or
      inside what the variable alone keeps alive. */
  method Clone(h: Heap, dst: nat, src: Slot, ghost rank: Rank) returns (ghost rank1: Rank)
    requires h.Valid() && dst < |h.roots| && h.IsSlot(src) && Trees(h.cells, rank)
    modifies h
    ensures h.Valid() && Trees(h.cells, rank1)
    ensures |h.roots| == |old(h.roots)| && h.roots == old(h.roots)[dst := h.roots[dst]]
    ensures Apart(h.cells, |old(h.cells)|, h.roots[dst])
    ensures (Owns(old(h.Read(src))) ==> old(h.Read(src)).addr < |old(h.cells)|)
            && (Owns(h.roots[dst]) ==> h.roots[dst].addr < |h.cells|)
            && Value(h.cells, rank1, h.roots[dst])
               == Value(old(h.cells), rank, old(h.Read(src)))
  {
    var v := h.Read(src);
    if v.Ref? { h.SlotCounted(src, multiset{}, {}); }
    var w;
    w, rank1 := CloneVar(h, v, multiset{}, rank);
    ghost var cells := h.cells;
    assert multiset{} + RefOf(w) == RefOf(w);
    h.Replace(Root(dst), w);
    if Owns(w) { h.SlotCounted(Root(dst), multiset{}, {}); }
    CloneSettles(h.roots, cells, h.cells, h.counts, rank1, |old(h.cells)|, w);
  }

  // ---------------------------------------------------------------------------------------
  // Into an element of a package
  // ---------------------------------------------------------------------------------------

  /** Values of what is apart depend on nothing below base. */
  lemma {:induction false} ApartValue(cells: seq<Obj>, rank: Rank, cells1: seq<Obj>, rank1: Rank,
                                      base: nat, v: Var)
    requires Trees(cells, rank) && Trees(cells1, rank1) && Apart(cells, base, v)
    requires |cells1| == |cells| && forall a :: base <= a < |cells| ==> cells1[a] == cells[a]
    requires Owns(v) ==> v.addr < |cells|
    ensures Value(cells1, rank1, v) == Value(cells, rank, v)
    decreases if Owns(v) then rank(v.addr) + 1 else 0
  {
    if Owns(v) {
      var a := v.addr;
      assert TreeOk(cells, rank, a) && TreeOk(cells1, rank1, a) && ApartAt(cells, base, a);
      if cells[a].Pack? {
        var e := Slots(cells[a]);
        forall i | 0 <= i < |e| ensures Value(cells1, rank1, e[i]) == Value(cells, rank, e[i]) {
          ApartValue(cells, rank, cells1, rank1, base, e[i]);
        }
        assert Value(cells1, rank1, v).elems == Value(cells, rank, v).elems;
      }
    }
  }

  lemma {:induction false} RankBound(rank: Rank, lo: nat, hi: nat) returns (m: nat)
    ensures forall x: nat | lo <= x < hi :: rank(x) < m
    decreases hi - lo
  {
    if lo >= hi {
      m := 0;
    } else {
      m := RankBound(rank, lo + 1, hi);
      if m <= rank(lo) { m := rank(lo) + 1; }
    }
  }

  /** Rank x is moved by m if it is below base. */
  predicate LiftedAt(rank1: Rank, rank2: Rank, base: nat, m: nat, x: nat) {
    rank2(x) == if x < base then rank1(x) + m else rank1(x)
  }

  /** rank1 with everything below base moved above everything else. */
  ghost predicate Lifts(rank1: Rank, rank2: Rank, base: nat, size: nat, m: nat) {
    && (forall x: nat | base <= x < size :: rank1(x) < m)
    && forall x: nat :: LiftedAt(rank1, rank2, base, m, x)
  }

  lemma Lift(rank1: Rank, base: nat, size: nat) returns (rank2: Rank, m: nat)
    ensures Lifts(rank1, rank2, base, size, m)
  {
    var k := RankBound(rank1, base, size);
    m := k;
    rank2 := (x: nat) => if x < base then rank1(x) + k else rank1(x);
  }

  lemma LiftedTree(was: seq<Obj>, rank: Rank, cells: seq<Obj>, rank1: Rank, w: Var, rank2: Rank,
                   m: nat, p: nat, i: nat, a: nat)
    requires Trees(was, rank) && Grown(was, rank, cells, rank1, w)
    requires Lifts(rank1, rank2, |was|, |cells|, m)
    requires p < |was| && was[p].Pack? && i < |was[p].elems|
    ensures TreeOk(cells[p := Pack(was[p].elems[i := w])], rank2, a)
  {
    var base, mid := |was|, cells[p := Pack(was[p].elems[i := w])];
    assert TreeOk(was, rank, a) && TreeOk(cells, rank1, a) && ApartAt(cells, base, a);
    assert LiftedAt(rank1, rank2, base, m, a);
    if a < base { assert cells[a] == was[a]; }
    if a == p { assert Slots(was[p]) == was[p].elems && Slots(mid[p]) == mid[p].elems; }
    if a < |cells| {
      var e := Slots(mid[a]);
      forall j | 0 <= j < |e| && Owns(e[j])
        ensures e[j].addr < |mid| && rank2(e[j].addr) < rank2(a)
      {
        assert LiftedAt(rank1, rank2, base, m, e[j].addr);
        if a == p && j == i { assert rank1(w.addr) < m; }
      }
    }
  }

  /** A clone stored in an old package is no cycle, whatever that package is, and has the value of
      the clone. */
  lemma StoredValue(was: seq<Obj>, rank: Rank, cells: seq<Obj>, rank1: Rank, w: Var, p: nat, i: nat)
    returns (rank2: Rank)
    requires Trees(was, rank) && Grown(was, rank, cells, rank1, w)
    requires p < |was| && was[p].Pack? && i < |was[p].elems|
    ensures var mid := cells[p := Pack(was[p].elems[i := w])];
      Trees(mid, rank2) && Value(mid, rank2, w) == Value(cells, rank1, w)
  {
    var m;
    rank2, m := Lift(rank1, |was|, |cells|);
    var mid := cells[p := Pack(was[p].elems[i := w])];
    forall a: nat ensures TreeOk(mid, rank2, a) {
      LiftedTree(was, rank, cells, rank1, w, rank2, m, p, i, a);
    }
    ApartValue(cells, rank1, mid, rank2, |was|, w);
  }

  /** The element, if its package outlives the release of its old content, has the value of the
      source. */
  lemma ElementSettles(roots: seq<Var>, mid: seq<Obj>, now: seq<Obj>, counts: multiset<nat>,
                       rank: Rank, p: nat, i: nat, w: Var)
    requires Trees(mid, rank) && Released(mid, now, {}) && InvOf(roots, now, counts, multiset{}, {})
    requires p < |mid| && mid[p].Pack? && i < |mid[p].elems| && mid[p].elems[i] == w
    ensures Trees(now, rank)
    ensures !now[p].Freed? ==>
      now[p] == mid[p] && (Owns(w) ==> w.addr < |now|) && Value(now, rank, w) == Value(mid, rank, w)
  {
    TreesReleased(mid, now, rank);
    assert TreeOk(mid, rank, p);
    if !now[p].Freed? {
      if Owns(w) {
        SlotInRefs(now[p].elems, i);
        CellInRefs(now, p, w.addr);
        assert AddrOk(roots, now, counts, multiset{}, {}, w.addr);
      }
      ValueSurvives(roots, mid, now, counts, rank, w);
    }
  }

  lemma StillApart(cells: seq<Obj>, mid: seq<Obj>, now: seq<Obj>, base: nat, p: nat, w: Var)
    requires Apart(cells, base, w) && p < base <= |cells| && Released(mid, now, {})
    requires |mid| == |cells| && forall a :: 0 <= a < |cells| && a != p ==> mid[a] == cells[a]
    ensures Apart(now, base, w)
  {
    forall a: nat ensures ApartAt(now, base, a) { assert ApartAt(cells, base, a); }
  }

  /** lai_obj_clone into an element of a package: unless the package itself goes with the old content
      of the element, the element gets the value of the source in storage that shares nothing with
      what was there before, also when it then contains a copy of its own package. */
  method CloneInto(h: Heap, p: nat, i: nat, src: Slot, ghost rank: Rank)
    returns (ghost rank2: Rank)
    requires h.Valid() && h.IsSlot(Elem(p, i)) && h.IsSlot(src) && Trees(h.cells, rank)
    modifies h
    ensures h.Valid() && Trees(h.cells, rank2) && h.roots == old(h.roots)
    ensures |old(h.cells)| <= |h.cells|
    ensures Owns(old(h.Read(src))) ==> old(h.Read(src)).addr < |old(h.cells)|
    ensures forall a: nat | a < |old(h.cells)| && a != p ::
      h.cells[a] == old(h.cells)[a] || h.cells[a].Freed?
    ensures !h.cells[p].Freed? ==>
      && h.IsSlot(Elem(p, i))
      && var w := h.cells[p].elems[i];
      && h.cells[p] == Pack(old(h.cells)[p].elems[i := w])
      && Apart(h.cells, |old(h.cells)|, w) && (Owns(w) ==> w.addr < |h.cells|)
      && Value(h.cells, rank2, w) == Value(old(h.cells), rank, old(h.Read(src)))
  {
    ghost var was := h.cells;
    var v := h.Read(src);
    if v.Ref? { h.SlotCounted(src, multiset{}, {}); }
    var w;
    ghost var rank1;
    w, rank1 := CloneVar(h, v, multiset{}, rank);
    ghost var cells := h.cells;
    assert multiset{} + RefOf(w) == RefOf(w);
    ghost var mid := cells[p := Pack(was[p].elems[i := w])];
    rank2 := StoredValue(was, rank, cells, rank1, w, p, i);
    h.Replace(Elem(p, i), w);
    ElementSettles(h.roots, mid, h.cells, h.counts, rank2, p, i, w);
    StillApart(cells, mid, h.cells, |was|, p, w);
  }
}
