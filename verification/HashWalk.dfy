/** Walks along the chains of the hash table, as every caller of lai/core/util-hash.h makes them. */
module HashWalk {
  import opened Wrappers
  import opened HashTable

  /** What the probes of hash h from n on find. */
  ghost function After<T>(held: nat -> multiset<T>, h: int, m: nat, n: nat): multiset<T>
    requires n <= m
    decreases m - n
  {
    if n == m then multiset{} else held((h + n) % m) + After(held, h, m, n + 1)
  }

  lemma {:induction false} FoundAfter<T>(held: nat -> multiset<T>, h: int, m: nat, n: nat)
    requires n <= m
    ensures Found(held, h, m, m) == Found(held, h, m, n) + After(held, h, m, n)
    decreases m - n
  {
    if n < m {
      FoundAfter(held, h, m, n + 1);
      assert h + (n + 1) - 1 == h + n;
    }
  }

  ghost predicate Silent<T>(held: nat -> multiset<T>, h: int, m: nat, a: nat)
    requires a < m
  {
    held((h + a) % m) == multiset{}
  }

  lemma {:induction false} SkipSilent<T>(held: nat -> multiset<T>, h: int, m: nat, n: nat, k: nat)
    requires n <= k <= m && forall a: nat | n <= a < k :: Silent(held, h, m, a)
    ensures After(held, h, m, n) == After(held, h, m, k)
    decreases k - n
  {
    if n < k {
      assert Silent(held, h, m, n);
      SkipSilent(held, h, m, n + 1, k);
    }
  }

  /** Probes that find nothing can be skipped. */
  lemma Skips<T>(elems: seq<Option<T>>, hashes: seq<int>, buckets: seq<int>, h: int, n: nat,
                 k: nat)
    requires Table(elems, hashes, buckets) && n <= k <= |buckets|
    requires Misses(hashes, buckets, h, n, k)
    ensures var held := Holder(elems, hashes, buckets, h);
            After(held, h, |buckets|, n) == After(held, h, |buckets|, k)
  {
    var held := Holder(elems, hashes, buckets, h);
    forall a: nat | n <= a < k ensures Silent(held, h, |buckets|, a) {
      assert !Hit(hashes, buckets, h, a);
    }
    SkipSilent(held, h, |buckets|, n, k);
  }

  lemma Visits<T>(elems: seq<Option<T>>, hashes: seq<int>, buckets: seq<int>, h: int, k: nat)
    requires Table(elems, hashes, buckets) && k < |buckets| && Hit(hashes, buckets, h, k)
    ensures var held := Holder(elems, hashes, buckets, h);
            After(held, h, |buckets|, k)
            == multiset{elems[buckets[(h + k) % |buckets|]].value}
               + After(held, h, |buckets|, k + 1)
  {
  }

  /** The elements stored with h that a walk has still to visit after probe i. */
  ghost function Rest<T>(t: Children<T>, h: int, i: int): multiset<T>
    requires t.Valid() && -1 <= i <= t.buckets.Length
    reads t, t.elems, t.hashes, t.buckets
  {
    if i == t.buckets.Length then multiset{}
    else After(Holder(t.elems[..], t.hashes[..], t.buckets[..], h), h, t.buckets.Length, i + 1)
  }

  /** A walk that begins visits exactly the elements stored with h. */
  lemma RestAll<T>(t: Children<T>, h: int, x: T)
    requires t.Valid()
    ensures Rest(t, h, -1)[x] == t.Contents()[(h, x)]
  {
    var held := Holder(t.elems[..], t.hashes[..], t.buckets[..], h);
    WalkFindsAll(t.elems[..], t.hashes[..], t.buckets[..], h, x);
    FoundAfter(held, h, t.buckets.Length, 0);
  }

  ghost predicate LeftOf<T>(t: Children<T>, h: int, i: int, rest: multiset<T>, x: T)
    requires t.Valid() && -1 <= i <= t.buckets.Length
    reads t, t.elems, t.hashes, t.buckets
  {
    rest[x] == Rest(t, h, i)[x]
  }

  /** A walk that is at probe i has still to visit the elements in rest. */
  ghost predicate Left<T(!new)>(t: Children<T>, h: int, i: int, rest: multiset<T>)
    reads t, t.elems, t.hashes, t.buckets
  {
    t.Valid() && -1 <= i <= t.buckets.Length && forall x :: LeftOf(t, h, i, rest, x)
  }

  /** A walk that begins visits exactly the elements stored with h, each as often as stored. */
  lemma Begin<T(!new)>(t: Children<T>, h: int) returns (rest: multiset<T>)
    requires t.Valid()
    ensures Left(t, h, -1, rest)
    ensures forall x :: rest[x] == t.Contents()[(h, x)]
  {
    rest := Rest(t, h, -1);
    forall x ensures rest[x] == t.Contents()[(h, x)] { RestAll(t, h, x); }
  }

  /** Probe j of the walk finds x. */
  ghost predicate Finds<T>(t: Children<T>, h: int, j: int, x: T)
    reads t, t.elems, t.hashes, t.buckets
  {
    && t.Valid() && 0 <= j < t.buckets.Length && Hit(t.hashes[..], t.buckets[..], h, j)
    && t.elems[t.buckets[(h + j) % t.buckets.Length]] == Some(x)
  }

  lemma NextLeft<T(!new)>(t: Children<T>, h: int, i: int, j: int, x: T, rest: multiset<T>)
    returns (rest1: multiset<T>)
    requires -1 <= i < j && Finds(t, h, j, x) && Left(t, h, i, rest)
    requires Misses(t.hashes[..], t.buckets[..], h, i + 1, j)
    ensures Left(t, h, j, rest1) && rest == multiset{x} + rest1
  {
    Skips(t.elems[..], t.hashes[..], t.buckets[..], h, i + 1, j);
    Visits(t.elems[..], t.hashes[..], t.buckets[..], h, j);
    LeftIs(t, h, i, rest);
    rest1 := Rest(t, h, j);
  }

  lemma LeftIs<T(!new)>(t: Children<T>, h: int, i: int, rest: multiset<T>)
    requires Left(t, h, i, rest)
    ensures rest == Rest(t, h, i)
  {
    forall y ensures rest[y] == Rest(t, h, i)[y] { assert LeftOf(t, h, i, rest, y); }
  }

  lemma NothingLeft<T(!new)>(t: Children<T>, h: int, i: int, rest: multiset<T>)
    requires i < t.buckets.Length && Left(t, h, i, rest)
    requires Misses(t.hashes[..], t.buckets[..], h, i + 1, t.buckets.Length)
    ensures rest == multiset{}
  {
    Skips(t.elems[..], t.hashes[..], t.buckets[..], h, i + 1, t.buckets.Length);
    forall y ensures rest[y] == 0 {
      assert LeftOf(t, h, i, rest, y);
    }
  }

  /** lai_hashtable_chain_advance and lai_hashtable_chain_get: one element of the rest. */
  method Next<T(!new)>(t: Children<T>, h: int, i: int, ghost rest: multiset<T>)
    returns (elem: Option<T>, j: int, ghost rest1: multiset<T>)
    requires i < t.buckets.Length && Left(t, h, i, rest)
    ensures elem.None? ==> rest == multiset{}
    ensures elem.Some? ==> i < j && Finds(t, h, j, elem.value) && Left(t, h, j, rest1)
                           && rest == multiset{elem.value} + rest1
  {
    var done;
    done, j := t.Advance(h, i);
    if done {
      NothingLeft(t, h, i, rest);
      return None, j, rest;
    }
    var x := t.Get(h, j);
    elem := Some(x);
    rest1 := NextLeft(t, h, i, j, x, rest);
  }

  lemma {:induction false} AfterSame<T>(held: nat -> multiset<T>, held1: nat -> multiset<T>,
                                        h: int, m: nat, n: nat, j: nat)
    requires j < n <= m
    requires forall a: nat | a < m && a != (h + j) % m :: held1(a) == held(a)
    ensures After(held1, h, m, n) == After(held, h, m, n)
    decreases m - n
  {
    if n < m {
      AfterSame(held, held1, h, m, n + 1, j);
      if (h + n) % m == (h + j) % m { ProbeOnce(h, m, n, j); }
    }
  }

  /** Removing the element just visited leaves the rest of the walk as it was. */
  lemma RemoveLeaves<T>(elems: seq<Option<T>>, hashes: seq<int>, buckets: seq<int>, h: int,
                        j: nat)
    requires Table(elems, hashes, buckets) && j < |buckets| && Hit(hashes, buckets, h, j)
    ensures var b, m := (h + j) % |buckets|, |buckets|;
      After(Holder(elems[buckets[b] := None], hashes, buckets[b := -1], h), h, m, j + 1)
      == After(Holder(elems, hashes, buckets, h), h, m, j + 1)
  {
    var m, b := |buckets|, (h + j) % |buckets|;
    var held := Holder(elems, hashes, buckets, h);
    var held1 := Holder(elems[buckets[b] := None], hashes, buckets[b := -1], h);
    forall a: nat | a < m && a != b ensures held1(a) == held(a) {
      HeldRemove(elems, hashes, buckets, h, a, b);
    }
    AfterSame(held, held1, h, m, j + 1, j);
  }

  method RemoveVisited<T(!new)>(t: Children<T>, h: int, j: nat, ghost x: T,
                                ghost rest: multiset<T>)
    requires Finds(t, h, j, x) && Left(t, h, j, rest)
    modifies t`numElems, t.elems, t.buckets
    ensures j < t.buckets.Length && Left(t, h, j, rest)
    ensures t.Contents() == old(t.Contents()) - multiset{(h, x)}
  {
    RemoveLeaves(t.elems[..], t.hashes[..], t.buckets[..], h, j);
    t.Remove(h, j);
    forall y ensures LeftOf(t, h, j, rest, y) {
      assert old(LeftOf(t, h, j, rest, y));
    }
  }

  /** What a walk finds is stored. */
  lemma FindsStored<T>(t: Children<T>, h: int, j: int, x: T)
    requires Finds(t, h, j, x)
    ensures (h, x) in t.Contents()
  {
    BagHas(t.elems[..], t.hashes[..], t.buckets[(h + j) % t.buckets.Length],
           t.elems.Length);
  }

  lemma HeldRemove<T>(elems: seq<Option<T>>, hashes: seq<int>, buckets: seq<int>, h: int, a: nat,
                      b: nat)
    requires Table(elems, hashes, buckets) && a < |buckets| && b < |buckets| && a != b
    requires buckets[b] >= 0
    ensures Held(elems[buckets[b] := None], hashes, buckets[b := -1], h, a)
            == Held(elems, hashes, buckets, h, a)
  {
  }

  lemma {:induction false} BagHas<T>(elems: seq<Option<T>>, hashes: seq<int>, k: nat, n: nat)
    requires |hashes| == |elems| && k < n <= |elems| && elems[k].Some?
    ensures (hashes[k], elems[k].value) in BagTo(elems, hashes, n)
  {
    if k < n - 1 { BagHas(elems, hashes, k, n - 1); }
  }
}
