/** Creating, resizing and cloning AML objects (lai/core/object.c). */
module Objects {
  import opened Wrappers
  import opened RefCount

  // ---------------------------------------------------------------------------------------
  // Creation
  // ---------------------------------------------------------------------------------------

  lemma CreateOk(roots: seq<Var>, cells: seq<Obj>, counts: multiset<nat>, held: multiset<nat>,
                 o: Obj)
    requires InvOf(roots, cells, counts, held, {}) && !o.Freed? && RefsIn(Slots(o)) == multiset{}
    ensures InvOf(roots, cells + [o], counts + multiset{|cells|}, held + multiset{|cells|}, {})
  {
    var x := |cells|;
    CellsAppend(cells, o);
    assert AddrOk(roots, cells, counts, held, {}, x);
    forall a: nat
      ensures AddrOk(roots, cells + [o], counts + multiset{x}, held + multiset{x}, {}, a)
    {
      assert AddrOk(roots, cells, counts, held, {}, a);
    }
  }

  /** lai_create_string, lai_create_buffer and lai_create_pkg: a new object with one reference. */
  method Create(h: Heap, o: Obj, ghost held: multiset<nat>) returns (v: Var)
    requires h.Inv(held, {}) && !o.Freed?
    requires forall i :: 0 <= i < |Slots(o)| ==> Slots(o)[i].Scalar?
    modifies h`cells, h`counts
    ensures v == Ref(|old(h.cells)|, None) && h.cells == old(h.cells) + [o]
    ensures h.Inv(held + RefOf(v), {})
  {
    NoRefs(Slots(o));
    CreateOk(h.roots, h.cells, h.counts, held, o);
    v := Ref(|h.cells|, None);
    h.counts := h.counts + multiset{|h.cells|};
    h.cells := h.cells + [o];
  }

  function Zeros(n: nat): (z: seq<Var>)
    ensures |z| == n && forall i :: 0 <= i < n ==> z[i] == ZERO
  {
    seq<Var>(n, _ => ZERO)
  }

  // ---------------------------------------------------------------------------------------
  // Resizing
  // ---------------------------------------------------------------------------------------

  lemma {:induction false} RefsTake(vs: seq<Var>, n: nat)
    requires n <= |vs| && forall i :: n <= i < |vs| ==> vs[i].Scalar?
    ensures RefsIn(vs[..n]) == RefsIn(vs)
  {
    if n < |vs| {
      RefsTake(vs[..|vs| - 1], n);
      assert vs[..|vs| - 1][..n] == vs[..n];
    } else {
      assert vs[..n] == vs;
    }
  }

  /** Exchanging the slots of a package for slots with the same references. */
  lemma SameRefs(roots: seq<Var>, cells: seq<Obj>, counts: multiset<nat>, held: multiset<nat>,
                 held1: multiset<nat>, a: nat, vs: seq<Var>)
    requires InvOf(roots, cells, counts, held, {}) && a < |cells| && cells[a].Pack?
    requires RefsIn(cells[a].elems) + held == RefsIn(vs) + held1
    ensures InvOf(roots, cells[a := Pack(vs)], counts, held1, {})
  {
    var cells1 := cells[a := Pack(vs)];
    CellsUpdate(cells, a, Pack(vs));
    forall b: nat ensures AddrOk(roots, cells1, counts, held1, {}, b) {
      assert AddrOk(roots, cells, counts, held, {}, b);
      assert (RefsOf(cells1) + RefsIn(Slots(cells[a])))[b]
             == (RefsOf(cells) + RefsIn(Slots(Pack(vs))))[b];
      assert (RefsIn(cells[a].elems) + held)[b] == (RefsIn(vs) + held1)[b];
    }
  }

  function Resized(vs: seq<Var>, n: nat): (r: seq<Var>)
    ensures |r| == n && forall i :: 0 <= i < n ==> r[i] == if i < |vs| then vs[i] else ZERO
  {
    if n <= |vs| then vs[..n] else vs + Zeros(n - |vs|)
  }

  /** lai_obj_resize_pkg on the package in variable r: drops the elements past n, or moves all
      elements to a longer array. */
  method ResizePackage(h: Heap, r: nat, n: nat)
    requires h.Valid() && r < |h.roots| && h.roots[r].Ref?
    requires h.roots[r].addr < |h.cells| && h.cells[h.roots[r].addr].Pack?
    modifies h
    ensures h.Valid() && h.roots == old(h.roots)
    ensures var a := h.roots[r].addr;
      var vs := Resized(old(h.cells)[a].elems, n);
      |h.cells| == |old(h.cells)| && h.cells[a] == Pack(vs)
      && Released(old(h.cells)[a := Pack(vs)], h.cells, {a})
  {
    var a := h.roots[r].addr;
    if n <= |h.cells[a].elems| {
      Shrink(h, r, a, n);
    } else {
      GrowPackage(h, a, n);
    }
  }

  method Shrink(h: Heap, ghost r: nat, a: nat, n: nat)
    requires h.Valid() && r < |h.roots| && h.roots[r].Ref? && h.roots[r].addr == a
    requires a < |h.cells| && h.cells[a].Pack? && n <= |h.cells[a].elems|
    modifies h
    ensures h.Valid() && h.roots == old(h.roots)
    ensures var vs := old(h.cells)[a].elems[..n];
      |h.cells| == |old(h.cells)| && h.cells[a] == Pack(vs)
      && Released(old(h.cells)[a := Pack(vs)], h.cells, {a})
  {
    ghost var vs := h.cells[a].elems;
    for i := n to |h.cells[a].elems|
      invariant h.Valid() && h.roots == old(h.roots) && |h.cells| == |old(h.cells)|
      invariant h.cells[a].Pack? && |h.cells[a].elems| == |vs|
      invariant forall j :: 0 <= j < |vs| ==>
                  h.cells[a].elems[j] == if n <= j < i then ZERO else vs[j]
      invariant Released(old(h.cells), h.cells[a := old(h.cells)[a]], {a})
    {
      DropElement(h, r, a, i);
    }
    RefsTake(h.cells[a].elems, n);
    SameRefs(h.roots, h.cells, h.counts, multiset{}, multiset{}, a, h.cells[a].elems[..n]);
    h.cells := h.cells[a := Pack(h.cells[a].elems[..n])];
    assert h.cells[a].elems == vs[..n];
  }

  /** Finalizes one element of a package that variable r keeps alive. */
  method DropElement(h: Heap, ghost r: nat, a: nat, i: nat)
    requires h.Valid() && r < |h.roots| && h.roots[r].Ref? && h.roots[r].addr == a
    requires a < |h.cells| && h.cells[a].Pack? && i < |h.cells[a].elems|
    modifies h
    ensures h.Valid() && h.roots == old(h.roots) && |h.cells| == |old(h.cells)|
    ensures h.cells[a] == Pack(old(h.cells)[a].elems[i := ZERO])
    ensures Released(old(h.cells), h.cells[a := old(h.cells)[a]], {a})
  {
    var v := h.Take(Elem(a, i), multiset{}, {});
    h.Finalize(v, multiset{}, {});
    h.SlotCounted(Root(r), multiset{}, {});
  }

  method GrowPackage(h: Heap, a: nat, n: nat)
    requires h.Valid() && a < |h.cells| && h.cells[a].Pack? && n >= |h.cells[a].elems|
    modifies h`roots, h`cells
    ensures h.Valid() && h.roots == old(h.roots)
    ensures h.cells == old(h.cells)[a := Pack(Resized(old(h.cells)[a].elems, n))]
  {
    ghost var vs, cells := h.cells[a].elems, h.cells;
    var newElems := Zeros(n);
    NoRefs(newElems);
    for i := 0 to |h.cells[a].elems|
      invariant h.Inv(RefsIn(newElems), {}) && h.roots == old(h.roots)
      invariant a < |h.cells| && h.cells[a].Pack? && |h.cells[a].elems| == |vs|
      invariant h.cells == cells[a := h.cells[a]] && |newElems| == n
      invariant Moved(vs, i, h.cells[a].elems, newElems)
    {
      newElems := MoveElement(h, a, i, newElems);
    }
    NoRefs(h.cells[a].elems);
    SameRefs(h.roots, h.cells, h.counts, RefsIn(newElems), multiset{}, a, newElems);
    AllMoved(vs, h.cells[a].elems, newElems);
    h.cells := h.cells[a := Pack(newElems)];
  }

  lemma AllMoved(vs: seq<Var>, e: seq<Var>, f: seq<Var>)
    requires Moved(vs, |vs|, e, f)
    ensures f == Resized(vs, |f|)
  {
  }

  /** The first i elements of vs have moved from e to f. */
  predicate Moved(vs: seq<Var>, i: nat, e: seq<Var>, f: seq<Var>) {
    && i <= |vs| == |e| <= |f|
    && (forall j :: 0 <= j < |e| ==> e[j] == if j < i then ZERO else vs[j])
    && (forall j :: 0 <= j < |f| ==> f[j] == if j < i then vs[j] else ZERO)
  }

  /** One turn of the loop that moves the elements to a longer array. */
  method MoveElement(h: Heap, a: nat, i: nat, f: seq<Var>) returns (g: seq<Var>)
    requires h.Inv(RefsIn(f), {}) && a < |h.cells| && h.cells[a].Pack?
    requires i < |h.cells[a].elems| && i < |f| && f[i] == ZERO
    modifies h`roots, h`cells
    ensures g == f[i := old(h.cells)[a].elems[i]] && h.Inv(RefsIn(g), {})
    ensures h.roots == old(h.roots)
    ensures h.cells == old(h.cells)[a := Pack(old(h.cells)[a].elems[i := ZERO])]
  {
    var v := h.Take(Elem(a, i), RefsIn(f), {});
    g := f[i := v];
    RefsUpdate(f, i, v);
    assert RefsIn(g) + RefOf(ZERO) == RefsIn(g);
  }

  // ---------------------------------------------------------------------------------------
  // Nothing leaks
  // ---------------------------------------------------------------------------------------

  type Rank = nat -> nat

  /** Packages refer only to objects of lower rank. */
  ghost predicate RankOk(cells: seq<Obj>, rank: Rank, a: nat) {
    a < |cells| ==> forall i :: 0 <= i < |Slots(cells[a])| && Slots(cells[a])[i].Ref? ==>
      Slots(cells[a])[i].addr < |cells| && rank(Slots(cells[a])[i].addr) < rank(a)
  }

  ghost predicate Ranked(cells: seq<Obj>, rank: Rank) { forall a: nat :: RankOk(cells, rank, a) }

  /** A chain of references from a variable to an object. */
  ghost predicate Reachable(roots: seq<Var>, cells: seq<Obj>, path: seq<nat>) {
    && path != [] && (exists i :: 0 <= i < |roots| && roots[i].Ref? && roots[i].addr == path[0])
    && forall k :: 0 <= k < |path| - 1 ==>
         path[k] < |cells| && Refers(Slots(cells[path[k]]), path[k + 1])
  }

  predicate Refers(vs: seq<Var>, a: nat) {
    exists i :: 0 <= i < |vs| && vs[i].Ref? && vs[i].addr == a
  }

  lemma {:induction false} RefsWitness(vs: seq<Var>, a: nat)
    requires a in RefsIn(vs)
    ensures Refers(vs, a)
  {
    var n := |vs| - 1;
    if a in RefOf(vs[n]) {
      assert vs[n].Ref? && vs[n].addr == a;
    } else {
      RefsWitness(vs[..n], a);
      var i :| 0 <= i < n && vs[..n][i].Ref? && vs[..n][i].addr == a;
      assert vs[i].Ref? && vs[i].addr == a;
    }
  }

  lemma {:induction false} CellWitness(cells: seq<Obj>, a: nat) returns (p: nat)
    requires a in RefsOf(cells)
    ensures p < |cells| && Refers(Slots(cells[p]), a)
  {
    var n := |cells| - 1;
    if a in RefsIn(Slots(cells[n])) {
      p := n;
      RefsWitness(Slots(cells[n]), a);
    } else {
      p := CellWitness(cells[..n], a);
    }
  }

  /** Without cycles, every object that is not freed can be reached from a variable. */
  lemma {:induction false} NothingLeaks(roots: seq<Var>, cells: seq<Obj>, counts: multiset<nat>,
                                        rank: Rank, bound: nat, a: nat) returns (path: seq<nat>)
    requires InvOf(roots, cells, counts, multiset{}, {}) && Ranked(cells, rank)
    requires a < |cells| && !cells[a].Freed?
    requires forall b :: 0 <= b < |cells| ==> rank(b) <= bound
    ensures Reachable(roots, cells, path) && path[|path| - 1] == a
    decreases bound - rank(a)
  {
    assert AddrOk(roots, cells, counts, multiset{}, {}, a);
    if a in RefsIn(roots) {
      RefsWitness(roots, a);
      path := [a];
    } else {
      var p := CellWitness(cells, a);
      assert RankOk(cells, rank, p);
      var before := NothingLeaks(roots, cells, counts, rank, bound, p);
      path := before + [a];
    }
  }
}
