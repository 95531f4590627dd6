/** The children hash table of lai/core/util-hash.h: elements in slots, and an open-addressed table
of buckets that point to slots.  Removal leaves no tombstone; a lookup walks the whole table.
*/
module HashTable {
  import opened Wrappers
  import opened Bits

  // ---------------------------------------------------------------------------------------
  // Probing
  // ---------------------------------------------------------------------------------------

  /** x & (m - 1) in two's complement. */
  function Mask(x: int, m: nat): int
    requires m > 0
  {
    if x >= 0 then And(x, m - 1) else m - 1 - And(-x - 1, m - 1)
  }

  ghost predicate IsPower(m: nat) { exists k: nat :: m == Pow2(k) }

  /** Masking reduces modulo a power of two. */
  lemma MaskMod(x: int, m: nat)
    requires IsPower(m)
    ensures Mask(x, m) == x % m
  {
    var k: nat :| m == Pow2(k);
    if x >= 0 {
      AndMask(x, k);
      Divides(x, k);
    } else {
      var y := -x - 1;
      AndMask(y, k);
      Divides(y, k);
      DivMod(y, m);
      assert (-(y / m) - 1) * m == -(y / m * m) - m;
      DivUnique(x, m, -(y / m) - 1, m - 1 - y % m);
    }
  }

  /** Every bucket is probed. */
  lemma ProbeOnto(h: int, m: nat, b: nat) returns (i: nat)
    requires b < m
    ensures i < m && (h + i) % m == b
  {
    i := (b - h) % m;
    var q := (b - h) / m;
    assert b - h == q * m + i;
    assert (-q) * m == -(q * m);
    DivUnique(h + i, m, -q, b);
  }

  /** No bucket is probed twice. */
  lemma ProbeOnce(h: int, m: nat, i: nat, j: nat)
    requires i < m && j < m && (h + i) % m == (h + j) % m
    ensures i == j
  {
    var p, q := (h + i) / m, (h + j) / m;
    assert h + i == p * m + (h + i) % m && h + j == q * m + (h + j) % m;
    assert (p - q) * m == p * m - q * m;
    SmallMultiple(p - q, m);
  }

  // ---------------------------------------------------------------------------------------
  // Counting
  // ---------------------------------------------------------------------------------------

  /** Number of entries of s other than e. */
  ghost function Count<A>(s: seq<A>, e: A): (n: nat)
    ensures n <= |s|
  {
    if s == [] then 0
    else Count(s[..|s| - 1], e) + (if s[|s| - 1] == e then 0 else 1)
  }

  lemma {:induction false} CountUpdate<A>(s: seq<A>, e: A, i: nat, v: A)
    requires i < |s|
    ensures Count(s[i := v], e)
            == Count(s, e) - (if s[i] == e then 0 else 1) + (if v == e then 0 else 1)
  {
    var n := |s| - 1;
    if i == n {
      assert s[i := v][..n] == s[..n];
    } else {
      assert s[i := v][..n] == s[..n][i := v];
      CountUpdate(s[..n], e, i, v);
    }
  }

  /** If some entry is free, one can be found. */
  lemma {:induction false} FindFree<A>(s: seq<A>, e: A) returns (i: nat)
    requires Count(s, e) < |s|
    ensures i < |s| && s[i] == e
  {
    if s[|s| - 1] == e {
      i := |s| - 1;
    } else {
      i := FindFree(s[..|s| - 1], e);
    }
  }

  lemma {:induction false} CountEmpty<A>(s: seq<A>, e: A)
    requires forall i :: 0 <= i < |s| ==> s[i] == e
    ensures Count(s, e) == 0
  {
    if s != [] { CountEmpty(s[..|s| - 1], e); }
  }

  lemma {:induction false} CountMonotone<A>(s: seq<A>, e: A, n: nat)
    requires n <= |s|
    ensures Count(s[..n], e) <= Count(s, e)
  {
    if n < |s| {
      CountMonotone(s[..|s| - 1], e, n);
      assert s[..|s| - 1][..n] == s[..n];
    } else {
      assert s[..n] == s;
    }
  }

  // ---------------------------------------------------------------------------------------
  // Contents
  // ---------------------------------------------------------------------------------------

  /** What one slot holds. */
  ghost function Slot<T>(e: Option<T>, h: int): multiset<(int, T)> {
    if e.None? then multiset{} else multiset{(h, e.value)}
  }

  /** The elements in the first n slots with their hashes. */
  ghost function BagTo<T>(elems: seq<Option<T>>, hashes: seq<int>, n: nat): multiset<(int, T)>
    requires n <= |elems| == |hashes|
  {
    if n == 0 then multiset{} else BagTo(elems, hashes, n - 1) + Slot(elems[n - 1], hashes[n - 1])
  }

  ghost function Bag<T>(elems: seq<Option<T>>, hashes: seq<int>): multiset<(int, T)>
    requires |hashes| == |elems|
  {
    BagTo(elems, hashes, |elems|)
  }

  /** Slots that agree up to n hold the same elements up to n. */
  lemma {:induction false} BagAgree<T>(e: seq<Option<T>>, h: seq<int>, f: seq<Option<T>>,
                                       g: seq<int>, n: nat)
    requires n <= |e| == |h| && n <= |f| == |g|
    requires forall i :: 0 <= i < n ==> f[i] == e[i] && (e[i].Some? ==> g[i] == h[i])
    ensures BagTo(f, g, n) == BagTo(e, h, n)
  {
    if n > 0 { BagAgree(e, h, f, g, n - 1); }
  }

  lemma SwapLast<A>(a: multiset<A>, b: multiset<A>, c: multiset<A>)
    ensures a + b + c == a + c + b
  {
  }

  lemma {:induction false} BagFill<T>(e: seq<Option<T>>, h: seq<int>, f: seq<Option<T>>,
                                      g: seq<int>, k: nat, n: nat)
    requires |h| == |e| == |f| == |g| && k < n <= |e| && e[k].None?
    requires forall i :: 0 <= i < |e| && i != k ==> f[i] == e[i] && g[i] == h[i]
    ensures BagTo(f, g, n) == BagTo(e, h, n) + Slot(f[k], g[k])
  {
    if k == n - 1 {
      BagAgree(e, h, f, g, k);
    } else {
      BagFill(e, h, f, g, k, n - 1);
      SwapLast(BagTo(e, h, n - 1), Slot(f[k], g[k]), Slot(e[n - 1], h[n - 1]));
    }
  }

  lemma BagUpdate<T>(elems: seq<Option<T>>, hashes: seq<int>, k: nat, v: Option<T>, h: int)
    requires |hashes| == |elems| && k < |elems| && v.Some?
    ensures elems[k].None? ==>
      Bag(elems[k := v], hashes[k := h]) == Bag(elems, hashes) + multiset{(h, v.value)}
  {
    if elems[k].None? { BagFill(elems, hashes, elems[k := v], hashes[k := h], k, |elems|); }
  }

  /** Every non-empty bucket points to its own live slot, and every live slot has a bucket. */
  predicate Linked<T>(elems: seq<Option<T>>, buckets: seq<int>) {
    && (forall b :: 0 <= b < |buckets| ==>
          buckets[b] == -1 || (0 <= buckets[b] < |elems| && elems[buckets[b]].Some?))
    && (forall a, b :: 0 <= a < |buckets| && 0 <= b < |buckets| && buckets[a] == buckets[b] >= 0
          ==> a == b)
    && (forall k :: 0 <= k < |elems| && elems[k].Some? ==> k in buckets)
  }

  // ---------------------------------------------------------------------------------------
  // Walking a chain
  // ---------------------------------------------------------------------------------------

  /** Probe i of hash h finds an element stored with h. */
  predicate Hit(hashes: seq<int>, buckets: seq<int>, h: int, i: nat)
    requires i < |buckets| && forall b :: 0 <= b < |buckets| ==> buckets[b] < |hashes|
  {
    var k := buckets[(h + i) % |buckets|];
    k >= 0 && hashes[k] == h
  }

  /** The probes of hash h from n to k find nothing. */
  predicate Misses(hashes: seq<int>, buckets: seq<int>, h: int, n: nat, k: nat)
    requires k <= |buckets| && forall b :: 0 <= b < |buckets| ==> buckets[b] < |hashes|
  {
    forall a :: n <= a < k ==> !Hit(hashes, buckets, h, a)
  }

  predicate Table<T>(elems: seq<Option<T>>, hashes: seq<int>, buckets: seq<int>) {
    |hashes| == |elems| && Linked(elems, buckets)
  }

  /** What bucket b holds for hash h. */
  ghost function Held<T>(elems: seq<Option<T>>, hashes: seq<int>, buckets: seq<int>, h: int,
                         b: nat): multiset<T>
  {
    if b >= |buckets| then multiset{}
    else
      var k := buckets[b];
      if 0 <= k < |elems| && k < |hashes| && elems[k].Some? && hashes[k] == h then
        multiset{elems[k].value}
      else multiset{}
  }

  ghost function Holder<T>(elems: seq<Option<T>>, hashes: seq<int>, buckets: seq<int>, h: int)
    : nat -> multiset<T>
  {
    (b: nat) => Held(elems, hashes, buckets, h, b)
  }

  /** What the first n probes of hash h among m buckets find. */
  ghost function Found<T>(held: nat -> multiset<T>, h: int, m: nat, n: nat): multiset<T>
    requires n <= m
  {
    if n == 0 then multiset{} else Found(held, h, m, n - 1) + held((h + n - 1) % m)
  }

  /** What bucket b holds is found by exactly one probe, j. */
  lemma {:induction false} FoundOnce<T>(held: nat -> multiset<T>, held1: nat -> multiset<T>,
                                        h: int, m: nat, n: nat, b: nat, j: nat)
    requires n <= m && b < m && j < m && (h + j) % m == b
    requires held1(b) == multiset{} && forall a: nat | a < m && a != b :: held1(a) == held(a)
    ensures Found(held, h, m, n) ==
            Found(held1, h, m, n) + (if j < n then held(b) else multiset{})
  {
    if n > 0 {
      FoundOnce(held, held1, h, m, n - 1, b, j);
      if (h + n - 1) % m == b { ProbeOnce(h, m, n - 1, j); }
    }
  }

  lemma {:induction false} FoundSame<T>(held: nat -> multiset<T>, held1: nat -> multiset<T>,
                                        h: int, m: nat, n: nat)
    requires n <= m && forall a: nat | a < m :: held1(a) == held(a)
    ensures Found(held, h, m, n) == Found(held1, h, m, n)
  {
    if n > 0 { FoundSame(held, held1, h, m, n - 1); }
  }

  lemma {:induction false} FoundNone<T>(held: nat -> multiset<T>, h: int, m: nat, n: nat)
    requires n <= m && forall a: nat | a < m :: held(a) == multiset{}
    ensures Found(held, h, m, n) == multiset{}
  {
    if n > 0 { FoundNone(held, h, m, n - 1); }
  }

  lemma LinkedDrop<T>(elems: seq<Option<T>>, buckets: seq<int>, b: nat)
    requires Linked(elems, buckets) && b < |buckets|
    requires elems != [] && buckets[b] == |elems| - 1
    ensures Linked(elems[..|elems| - 1], buckets[b := -1])
  {
    var k := |elems| - 1;
    var buckets1 := buckets[b := -1];
    forall i | 0 <= i < k && elems[..k][i].Some? ensures i in buckets1 {
      var a :| 0 <= a < |buckets| && buckets[a] == i;
      assert buckets1[a] == i;
    }
  }

  lemma LinkedEmpty<T>(elems: seq<Option<T>>, buckets: seq<int>)
    requires Linked(elems, buckets) && elems != [] && elems[|elems| - 1].None?
    ensures Linked(elems[..|elems| - 1], buckets)
  {
    var k := |elems| - 1;
    forall i | 0 <= i < k && elems[..k][i].Some? ensures i in buckets { }
  }

  /** Without the last slot and the bucket b that points to it. */
  lemma HeldDrop<T>(elems: seq<Option<T>>, hashes: seq<int>, buckets: seq<int>, h: int, a: nat,
                    b: nat)
    requires Table(elems, hashes, buckets) && a < |buckets| && b < |buckets|
    requires elems != [] && buckets[b] == |elems| - 1
    ensures Held(elems[..|elems| - 1], hashes[..|elems| - 1], buckets[b := -1], h, a)
            == if a == b then multiset{} else Held(elems, hashes, buckets, h, a)
  {
  }

  ghost function Walk<T>(elems: seq<Option<T>>, hashes: seq<int>, buckets: seq<int>, h: int)
    : multiset<T>
  {
    Found(Holder(elems, hashes, buckets, h), h, |buckets|, |buckets|)
  }

  lemma WalkLive<T>(elems: seq<Option<T>>, hashes: seq<int>, buckets: seq<int>, h: int, b: nat)
    requires Table(elems, hashes, buckets) && b < |buckets|
    requires elems != [] && buckets[b] == |elems| - 1
    ensures var k := |elems| - 1;
      Walk(elems, hashes, buckets, h)
      == Walk(elems[..k], hashes[..k], buckets[b := -1], h) + Held(elems, hashes, buckets, h, b)
  {
    var k, m := |elems| - 1, |buckets|;
    var held := Holder(elems, hashes, buckets, h);
    var held1 := Holder(elems[..k], hashes[..k], buckets[b := -1], h);
    var j := ProbeOnto(h, m, b);
    forall a: nat | a < m ensures held1(a) == if a == b then multiset{} else held(a) {
      HeldDrop(elems, hashes, buckets, h, a, b);
    }
    FoundOnce(held, held1, h, m, m, b, j);
  }

  lemma WalkEmpty<T>(elems: seq<Option<T>>, hashes: seq<int>, buckets: seq<int>, h: int)
    requires Table(elems, hashes, buckets) && elems != [] && elems[|elems| - 1].None?
    ensures Walk(elems, hashes, buckets, h)
            == Walk(elems[..|elems| - 1], hashes[..|elems| - 1], buckets, h)
  {
    var k, m := |elems| - 1, |buckets|;
    var held := Holder(elems, hashes, buckets, h);
    var held1 := Holder(elems[..k], hashes[..k], buckets, h);
    forall a: nat | a < m ensures held1(a) == held(a) { }
    FoundSame(held, held1, h, m, m);
  }

  /** Walking the whole chain of h finds exactly the live elements stored with h, each as often
      as it is stored. */
  lemma {:induction false} WalkFindsAll<T>(elems: seq<Option<T>>, hashes: seq<int>,
                                           buckets: seq<int>, h: int, x: T)
    requires Table(elems, hashes, buckets)
    ensures Walk(elems, hashes, buckets, h)[x] == Bag(elems, hashes)[(h, x)]
    decreases elems
  {
    if elems == [] {
      FoundNone(Holder(elems, hashes, buckets, h), h, |buckets|, |buckets|);
    } else {
      var k := |elems| - 1;
      BagAgree(elems, hashes, elems[..k], hashes[..k], k);
      if elems[k].None? {
        LinkedEmpty(elems, buckets);
        WalkEmpty(elems, hashes, buckets, h);
        WalkFindsAll(elems[..k], hashes[..k], buckets, h, x);
      } else {
        var b :| 0 <= b < |buckets| && buckets[b] == k;
        LinkedDrop(elems, buckets, b);
        WalkLive(elems, hashes, buckets, h, b);
        WalkFindsAll(elems[..k], hashes[..k], buckets[b := -1], h, x);
      }
    }
  }

  // ---------------------------------------------------------------------------------------
  // The table
  // ---------------------------------------------------------------------------------------

  class Children<T> {
    var elems: array<Option<T>>
    var hashes: array<int>
    var buckets: array<int>
    var numElems: nat

    constructor ()
      ensures Valid() && Contents() == multiset{} && fresh(elems) && fresh(hashes) && fresh(buckets)
    {
      elems := new Option<T>[0];
      hashes, buckets := new int[0], new int[0];
      numElems := 0;
    }

    /** Slots and buckets are linked and counted, and both have room. */
    ghost predicate Valid()
      reads this, elems, hashes, buckets
    {
      && Table(elems[..], hashes[..], buckets[..]) && hashes != buckets
      && numElems == Count(elems[..], None) == Count(buckets[..], -1)
      && elems.Length <= buckets.Length
      && (elems.Length == 0 ==> buckets.Length == 0)
      && (elems.Length > 0 ==> numElems < elems.Length && IsPower(buckets.Length))
    }

    ghost function Contents(): multiset<(int, T)>
      requires Valid()
      reads this, elems, hashes, buckets
    {
      Bag(elems[..], hashes[..])
    }

    /** lai_hashtable_grow: same slots in larger tables, buckets filled anew. */
    method Grow(n: nat, m: nat)
      requires Valid() && elems.Length <= n <= m && buckets.Length <= m
      requires numElems < n && IsPower(m)
      modifies this
      ensures Valid() && Contents() == old(Contents()) && numElems == old(numElems)
      ensures elems.Length == n && buckets.Length == m
      ensures fresh(elems) && fresh(hashes) && fresh(buckets)
    {
      var newElems, newHashes, newBuckets := Enlarge(n, m);
      elems, hashes, buckets := newElems, newHashes, newBuckets;
    }

    /** The larger tables. */
    method Enlarge(n: nat, m: nat)
      returns (e: array<Option<T>>, h: array<int>, b: array<int>)
      requires Valid() && elems.Length <= n <= m && buckets.Length <= m
      requires numElems < n && IsPower(m)
      ensures fresh(e) && fresh(h) && fresh(b) && h != b
      ensures e.Length == h.Length == n && b.Length == m
      ensures Linked(e[..], b[..]) && Bag(e[..], h[..]) == Bag(elems[..], hashes[..])
      ensures Count(e[..], None) == Count(b[..], -1) == numElems
    {
      e, h, b := new Option<T>[n](_ => None), new int[n], new int[m](_ => -1);
      CountEmpty(e[..], None);
      CountEmpty(b[..], -1);
      Rehash(elems, hashes, e, h, b);
      CopiedAll(elems[..], hashes[..], e[..], h[..]);
    }

    /** lai_hashtable_insert: a free slot and a free bucket always exist. */
    method Insert(h: int, elem: T)
      requires Valid()
      modifies this, elems, hashes, buckets
      ensures Valid() && Contents() == old(Contents()) + multiset{(h, elem)}
      ensures (elems == old(elems) && hashes == old(hashes) && buckets == old(buckets))
              || (fresh(elems) && fresh(hashes) && fresh(buckets))
    {
      if elems.Length == 0 {
        assert Pow2(2) == 4;
        Grow(2, 4);
      } else if numElems + 1 >= elems.Length {
        ghost var k: nat :| buckets.Length == Pow2(k);
        assert 2 * buckets.Length == Pow2(k + 1);
        Grow(2 * elems.Length, 2 * buckets.Length);
      }
      Store(h, elem);
    }

    method Store(h: int, elem: T)
      requires Valid() && numElems + 1 < elems.Length
      modifies this`numElems, elems, hashes, buckets
      ensures Valid() && Contents() == old(Contents()) + multiset{(h, elem)}
    {
      ghost var slots, keys := elems[..], hashes[..];
      ghost var free := FindFree(slots, None);
      var k := 0;
      while elems[k].Some?
        invariant k <= free
        decreases free - k
      {
        k := k + 1;
      }
      CountUpdate(slots, None, k, Some(elem));
      BagUpdate(slots, keys, k, Some(elem), h);
      elems[k] := Some(elem);
      hashes[k] := h;
      numElems := numElems + 1;
      Place(buckets, h, k, slots, elem);
      assert elems[..] == slots[k := Some(elem)] && hashes[..] == keys[k := h];
    }

    /** lai_hashtable_chain_advance: the next probe after i that finds an element stored with h. */
    method Advance(h: int, i: int) returns (done: bool, j: int)
      requires Valid() && -1 <= i < buckets.Length
      ensures i < j <= buckets.Length && Misses(hashes[..], buckets[..], h, i + 1, j)
      ensures if done then j == buckets.Length
              else j < buckets.Length && Hit(hashes[..], buckets[..], h, j)
    {
      j := i;
      while true
        invariant i <= j < buckets.Length
        invariant Misses(hashes[..], buckets[..], h, i + 1, j + 1)
        decreases buckets.Length - j
      {
        j := j + 1;
        if j == buckets.Length { return true, j; }
        var b := Probe(h, j, buckets.Length);
        var k := buckets[b];
        if k >= 0 && hashes[k] == h { return false, j; }
      }
    }

    /** lai_hashtable_chain_get. */
    method Get(h: int, i: nat) returns (elem: T)
      requires Valid() && i < buckets.Length && Hit(hashes[..], buckets[..], h, i)
      ensures Some(elem) == elems[buckets[(h + i) % buckets.Length]]
    {
      var b := Probe(h, i, buckets.Length);
      elem := elems[buckets[b]].value;
    }

    /** lai_hashtable_chain_remove: empties one slot and its bucket and touches nothing else. */
    method Remove(h: int, i: nat)
      requires Valid() && i < buckets.Length && Hit(hashes[..], buckets[..], h, i)
      modifies this`numElems, elems, buckets
      ensures Valid()
      ensures var b := (h + i) % buckets.Length;
              var k := old(buckets[b]);
              && Contents() == old(Contents()) - multiset{(h, old(elems[k].value))}
              && buckets[..] == old(buckets[..])[b := -1]
              && elems[..] == old(elems[..])[k := None]
    {
      var b := Probe(h, i, buckets.Length);
      var k := buckets[b];
      ghost var slots, tab, keys := elems[..], buckets[..], hashes[..];
      Emptied(slots, keys, tab, b);
      elems[k] := None;
      buckets[b] := -1;
      numElems := numElems - 1;
      assert elems[..] == slots[k := None] && buckets[..] == tab[b := -1];
    }
  }

  /** Emptying a bucket and its slot. */
  lemma Emptied<T>(elems: seq<Option<T>>, hashes: seq<int>, buckets: seq<int>, b: nat)
    requires Table(elems, hashes, buckets) && b < |buckets| && buckets[b] >= 0
    ensures var k := buckets[b];
            var elems1, buckets1 := elems[k := None], buckets[b := -1];
            && Table(elems1, hashes, buckets1)
            && Count(elems1, None) == Count(elems, None) - 1
            && Count(buckets1, -1) == Count(buckets, -1) - 1
            && Bag(elems1, hashes) == Bag(elems, hashes) - multiset{(hashes[k], elems[k].value)}
  {
    var k := buckets[b];
    CountUpdate(elems, None, k, None);
    CountUpdate(buckets, -1, b, -1);
    LinkedRemove(elems, buckets, b);
    BagUpdate(elems[k := None], hashes, k, elems[k], hashes[k]);
    assert elems[k := None][k := elems[k]] == elems && hashes[k := hashes[k]] == hashes;
  }

  lemma LinkedRemove<T>(elems: seq<Option<T>>, buckets: seq<int>, b: nat)
    requires Linked(elems, buckets) && b < |buckets| && buckets[b] >= 0
    ensures Linked(elems[buckets[b] := None], buckets[b := -1])
  {
    var buckets1 := buckets[b := -1];
    forall i | 0 <= i < |elems| && elems[buckets[b] := None][i].Some? ensures i in buckets1 {
      var a :| 0 <= a < |buckets| && buckets[a] == i;
      assert buckets1[a] == i;
    }
  }

  /** Empty slots at the end do not count. */
  lemma {:induction false} CountSame<A>(s: seq<A>, t: seq<A>, e: A)
    requires |s| <= |t| && forall i :: 0 <= i < |t| ==> t[i] == if i < |s| then s[i] else e
    ensures Count(t, e) == Count(s, e)
  {
    if |t| > |s| {
      CountSame(s, t[..|t| - 1], e);
    } else {
      assert s == t;
    }
  }

  lemma {:induction false} BagSame<T>(e: seq<Option<T>>, h: seq<int>, f: seq<Option<T>>,
                                      g: seq<int>, n: nat)
    requires |h| == |e| <= n <= |f| == |g|
    requires forall i :: 0 <= i < |f| ==> f[i] == if i < |e| then e[i] else None
    requires forall i :: 0 <= i < |e| && e[i].Some? ==> g[i] == h[i]
    ensures BagTo(f, g, n) == Bag(e, h)
  {
    if n > |e| {
      BagSame(e, h, f, g, n - 1);
    } else {
      BagAgree(e, h, f, g, n);
    }
  }

  /** The first k slots have been copied. */
  ghost predicate Copied<T>(elems: seq<Option<T>>, hashes: seq<int>, k: nat, e: seq<Option<T>>,
                      h: seq<int>)
  {
    && |hashes| == |elems| && k <= |elems| <= |e| == |h|
    && (forall i :: 0 <= i < k ==> e[i] == elems[i] && (e[i].Some? ==> h[i] == hashes[i]))
    && (forall i :: k <= i < |e| ==> e[i].None?)
  }

  lemma CopiedCount<T>(elems: seq<Option<T>>, hashes: seq<int>, k: nat, e: seq<Option<T>>,
                       h: seq<int>)
    requires Copied(elems, hashes, k, e, h)
    ensures Count(e, None) <= Count(elems, None)
  {
    CountSame(elems[..k], e, None);
    CountMonotone(elems, None, k);
  }

  lemma CopiedAll<T>(elems: seq<Option<T>>, hashes: seq<int>, e: seq<Option<T>>, h: seq<int>)
    requires Copied(elems, hashes, |elems|, e, h)
    ensures Count(e, None) == Count(elems, None) && Bag(e, h) == Bag(elems, hashes)
  {
    CountSame(elems, e, None);
    BagSame(elems, hashes, e, h, |e|);
  }

  lemma CopiedStep<T>(elems: seq<Option<T>>, hashes: seq<int>, k: nat, e: seq<Option<T>>,
                      h: seq<int>)
    requires Copied(elems, hashes, k, e, h) && k < |elems|
    ensures elems[k].Some? ==> Copied(elems, hashes, k + 1, e[k := elems[k]], h[k := hashes[k]])
    ensures elems[k].None? ==> Copied(elems, hashes, k + 1, e, h)
  {
  }

  /** The loop of lai_hashtable_grow over the old slots. */
  method Rehash<T>(elems: array<Option<T>>, hashes: array<int>, newElems: array<Option<T>>,
                   newHashes: array<int>, newBuckets: array<int>)
    requires elems != newElems && newHashes !in [hashes, newBuckets] && hashes != newBuckets
    requires Copied(elems[..], hashes[..], 0, newElems[..], newHashes[..])
    requires Linked(newElems[..], newBuckets[..]) && IsPower(newBuckets.Length)
    requires Count(newElems[..], None) == Count(newBuckets[..], -1)
    requires Count(elems[..], None) < newBuckets.Length
    modifies newElems, newHashes, newBuckets
    ensures Copied(elems[..], hashes[..], elems.Length, newElems[..], newHashes[..])
    ensures Linked(newElems[..], newBuckets[..])
    ensures Count(newElems[..], None) == Count(newBuckets[..], -1)
  {
    ghost var slots, keys := elems[..], hashes[..];
    for k := 0 to elems.Length
      invariant elems[..] == slots && hashes[..] == keys
      invariant Copied(slots, keys, k, newElems[..], newHashes[..])
      invariant Linked(newElems[..], newBuckets[..])
      invariant Count(newElems[..], None) == Count(newBuckets[..], -1)
    {
      CopiedStep(slots, keys, k, newElems[..], newHashes[..]);
      assert elems[k] == slots[k] && hashes[k] == keys[k];
      if elems[k].Some? {
        CopiedCount(slots, keys, k, newElems[..], newHashes[..]);
        CopySlot(newElems, newHashes, newBuckets, k, hashes[k], elems[k].value);
      }
    }
  }

  /** Copies one live slot and gives it a new bucket. */
  method CopySlot<T>(newElems: array<Option<T>>, newHashes: array<int>, newBuckets: array<int>,
                     k: nat, h: int, v: T)
    requires k < newElems.Length == newHashes.Length && newHashes != newBuckets
    requires IsPower(newBuckets.Length) && Count(newBuckets[..], -1) < newBuckets.Length
    requires Linked(newElems[..], newBuckets[..]) && newElems[k].None?
    modifies newElems, newHashes, newBuckets
    ensures newElems[..] == old(newElems[..])[k := Some(v)]
    ensures newHashes[..] == old(newHashes[..])[k := h]
    ensures Linked(newElems[..], newBuckets[..])
    ensures Count(newElems[..], None) == Count(old(newElems[..]), None) + 1
    ensures Count(newBuckets[..], -1) == Count(old(newBuckets[..]), -1) + 1
  {
    ghost var was, keys := newElems[..], newHashes[..];
    CountUpdate(was, None, k, Some(v));
    newElems[k] := Some(v);
    newHashes[k] := h;
    Place(newBuckets, h, k, was, v);
    assert newElems[..] == was[k := Some(v)] && newHashes[..] == keys[k := h];
  }

  method Probe(h: int, i: nat, m: nat) returns (b: nat)
    requires IsPower(m)
    ensures b == (h + i) % m < m
  {
    MaskMod(h + i, m);
    b := Mask(h + i, m);
  }

  /** The loop that looks for a free bucket; it finds one before it has probed all. */
  method FindBucket(tab: array<int>, h: int) returns (b: nat)
    requires IsPower(tab.Length) && Count(tab[..], -1) < tab.Length
    requires forall i :: 0 <= i < tab.Length ==> tab[i] >= -1
    ensures b < tab.Length && tab[b] == -1
  {
    ghost var free := FindFree(tab[..], -1);
    ghost var last := ProbeOnto(h, tab.Length, free);
    var i := 0;
    b := Probe(h, i, tab.Length);
    while tab[b] >= 0
      invariant i <= last && b == (h + i) % tab.Length
      decreases last - i
    {
      i := i + 1;
      b := Probe(h, i, tab.Length);
    }
  }

  /** Gives slot k, about to hold v, a bucket. */
  method Place<T>(tab: array<int>, h: int, k: nat, ghost slots: seq<Option<T>>, ghost v: T)
    requires IsPower(tab.Length) && Count(tab[..], -1) < tab.Length && k < |slots|
    requires Linked(slots, tab[..]) && slots[k].None?
    modifies tab
    ensures Linked(slots[k := Some(v)], tab[..])
    ensures Count(tab[..], -1) == Count(old(tab[..]), -1) + 1
  {
    var b := FindBucket(tab, h);
    ghost var was := tab[..];
    CountUpdate(was, -1, b, k);
    LinkedAdd(slots, was, b, k, v);
    tab[b] := k;
    assert tab[..] == was[b := k];
  }

  /** An empty bucket takes a slot that becomes live. */
  lemma LinkedAdd<T>(elems: seq<Option<T>>, buckets: seq<int>, b: nat, k: nat, v: T)
    requires Linked(elems, buckets) && b < |buckets| && buckets[b] == -1
    requires k < |elems| && elems[k].None?
    ensures Linked(elems[k := Some(v)], buckets[b := k])
  {
    var buckets1 := buckets[b := k];
    forall i | 0 <= i < |elems| && elems[k := Some(v)][i].Some? ensures i in buckets1 {
      if i == k {
        assert buckets1[b] == k;
      } else {
        var a :| 0 <= a < |buckets| && buckets[a] == i;
        assert buckets1[a] == i;
      }
    }
  }
}
