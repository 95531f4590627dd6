/** The child table of one namespace node (lai/core/ns.c): on top of the hash table it behaves as a
plain map from names to nodes, whatever the hash function does.
*/
module NameTable {
  import opened Wrappers
  import opened HashTable
  import opened HashWalk

  type Name = s: string | |s| == 4 witness "____"

  /** How lai_uninstall_nsnode ends: normally or in one of its two panics. */
  datatype Uninstalled = Gone | NotThere | Twice

  type Names = nat -> Name
  type Hash = Name -> int

  /** p is stored once, with the hash of its name, and is the only one of that name. */
  ghost predicate Only(c: multiset<(int, nat)>, nameOf: Names, hash: Hash, p: (int, nat)) {
    p in c ==>
      && p.0 == hash(nameOf(p.1)) && c[p] == 1
      && forall q :: q in c && nameOf(q.1) == nameOf(p.1) ==> q == p
  }

  ghost predicate Named(c: multiset<(int, nat)>, nameOf: Names, hash: Hash) {
    forall p :: Only(c, nameOf, hash, p)
  }

  lemma NamesDiffer(c: multiset<(int, nat)>, nameOf: Names, hash: Hash)
    requires Named(c, nameOf, hash)
    ensures forall p, q | p in c && q in c && nameOf(p.1) == nameOf(q.1) :: p == q
  {
    forall p, q | p in c && q in c && nameOf(p.1) == nameOf(q.1) ensures p == q {
      assert Only(c, nameOf, hash, p);
    }
  }

  ghost function View(c: multiset<(int, nat)>, nameOf: Names, hash: Hash): map<Name, nat>
    requires Named(c, nameOf, hash)
  {
    NamesDiffer(c, nameOf, hash);
    map p | p in c :: nameOf(p.1) := p.1
  }

  /** The view maps a name to a node iff the node has that name and is stored. */
  lemma ViewIs(c: multiset<(int, nat)>, nameOf: Names, hash: Hash, n: Name, x: nat)
    requires Named(c, nameOf, hash) && nameOf(x) == n
    ensures n in View(c, nameOf, hash) && View(c, nameOf, hash)[n] == x <==> (hash(n), x) in c
  {
    var v := View(c, nameOf, hash);
    if n in v && v[n] == x {
      var p :| p in c && nameOf(p.1) == n && v[n] == p.1;
      assert Only(c, nameOf, hash, p);
    }
    if (hash(n), x) in c {
      assert Only(c, nameOf, hash, (hash(n), x));
    }
  }

  lemma ViewName(c: multiset<(int, nat)>, nameOf: Names, hash: Hash, n: Name)
    requires Named(c, nameOf, hash) && n in View(c, nameOf, hash)
    ensures nameOf(View(c, nameOf, hash)[n]) == n
  {
    var p :| p in c && nameOf(p.1) == n && View(c, nameOf, hash)[n] == p.1;
  }

  lemma NotInView(c: multiset<(int, nat)>, nameOf: Names, hash: Hash, n: Name)
    requires Named(c, nameOf, hash) && forall x: nat | nameOf(x) == n :: (hash(n), x) !in c
    ensures n !in View(c, nameOf, hash)
  {
    if n in View(c, nameOf, hash) {
      ViewName(c, nameOf, hash, n);
      ViewIs(c, nameOf, hash, n, View(c, nameOf, hash)[n]);
    }
  }

  lemma NamedAdd(c: multiset<(int, nat)>, nameOf: Names, hash: Hash, x: nat)
    requires Named(c, nameOf, hash) && nameOf(x) !in View(c, nameOf, hash)
    ensures var d := c + multiset{(hash(nameOf(x)), x)};
      Named(d, nameOf, hash)
      && View(d, nameOf, hash) == View(c, nameOf, hash)[nameOf(x) := x]
  {
    var e := (hash(nameOf(x)), x);
    var d := c + multiset{e};
    assert forall q :: q in c ==> nameOf(q.1) in View(c, nameOf, hash);
    forall p ensures Only(d, nameOf, hash, p) {
      assert Only(c, nameOf, hash, p);
    }
    ViewsAgree(c, d, nameOf, hash, e);
  }

  /** Views of multisets that differ in one element. */
  lemma ViewsAgree(c: multiset<(int, nat)>, d: multiset<(int, nat)>, nameOf: Names, hash: Hash,
                   e: (int, nat))
    requires Named(c, nameOf, hash) && Named(d, nameOf, hash)
    requires e !in c && d == c + multiset{e}
    ensures View(d, nameOf, hash) == View(c, nameOf, hash)[nameOf(e.1) := e.1]
    ensures View(c, nameOf, hash) == View(d, nameOf, hash) - {nameOf(e.1)}
  {
    assert Only(d, nameOf, hash, e);
    assert forall p | p in c :: p in d && nameOf(p.1) != nameOf(e.1);
  }

  lemma NamedRemove(c: multiset<(int, nat)>, nameOf: Names, hash: Hash, x: nat)
    requires Named(c, nameOf, hash) && (hash(nameOf(x)), x) in c
    ensures var d := c - multiset{(hash(nameOf(x)), x)};
      Named(d, nameOf, hash) && (hash(nameOf(x)), x) !in d
      && View(d, nameOf, hash) == View(c, nameOf, hash) - {nameOf(x)}
  {
    var e := (hash(nameOf(x)), x);
    var d := c - multiset{e};
    assert Only(c, nameOf, hash, e);
    forall p ensures Only(d, nameOf, hash, p) {
      assert Only(c, nameOf, hash, p);
    }
    assert c == d + multiset{e};
    ViewsAgree(d, c, nameOf, hash, e);
  }

  class ChildTable {
    const nameOf: Names
    const hash: Hash
    const table: Children<nat>

    constructor (nameOf: Names, hash: Hash)
      ensures Valid() && Map() == map[] && fresh(table)
      ensures fresh(table.elems) && fresh(table.hashes) && fresh(table.buckets)
      ensures this.nameOf == nameOf && this.hash == hash
    {
      this.nameOf, this.hash := nameOf, hash;
      table := new Children<nat>();
    }

    ghost predicate Valid()
      reads table, table.elems, table.hashes, table.buckets
    {
      table.Valid() && Named(table.Contents(), nameOf, hash)
    }

    /** The children by name. */
    ghost function Map(): map<Name, nat>
      requires Valid()
      reads table, table.elems, table.hashes, table.buckets
    {
      View(table.Contents(), nameOf, hash)
    }

    /** lai_ns_get_child. */
    method GetChild(name: Name) returns (r: Option<nat>)
      requires Valid()
      ensures r == if name in Map() then Some(Map()[name]) else None
    {
      ghost var all := Begin(table, hash(name));
      r := Search(name, all);
      if r.Some? {
        ViewIs(table.Contents(), nameOf, hash, name, r.value);
      } else {
        NotInView(table.Contents(), nameOf, hash, name);
      }
    }

    /** The loop of lai_ns_get_child. */
    method Search(name: Name, ghost all: multiset<nat>) returns (r: Option<nat>)
      requires Left(table, hash(name), -1, all)
      ensures r.Some? ==> nameOf(r.value) == name && (hash(name), r.value) in table.Contents()
      ensures r.None? ==> forall x: nat | nameOf(x) == name :: all[x] == 0
    {
      var h := hash(name);
      var child: Option<nat>, i;
      ghost var rest;
      child, i, rest := Next(table, h, -1, all);
      while child.Some?
        invariant child.Some? ==>
                    0 <= i && Finds(table, h, i, child.value) && Left(table, h, i, rest)
        invariant Unseen(all, if child.Some? then multiset{child.value} + rest else multiset{}, name)
        decreases if child.Some? then table.buckets.Length - i else 0
      {
        if nameOf(child.value) == name {
          FindsStored(table, h, i, child.value);
          return Some(child.value);
        }
        child, i, rest := Next(table, h, i, rest);
      }
      return None;
    }

    /** All nodes of that name are still to come. */
    ghost predicate Unseen(all: multiset<nat>, rest: multiset<nat>, name: Name) {
      forall x: nat | nameOf(x) == name :: all[x] == rest[x]
    }

    /** lai_install_nsnode on the table of the node's parent: refused iff the name is taken. */
    method Install(node: nat) returns (ok: bool)
      requires Valid()
      modifies table, table.elems, table.hashes, table.buckets
      ensures Valid()
      ensures ok <==> nameOf(node) !in old(Map())
      ensures Map() == if ok then old(Map())[nameOf(node) := node] else old(Map())
      ensures (unchanged(table`elems) && unchanged(table`hashes) && unchanged(table`buckets))
              || (fresh(table.elems) && fresh(table.hashes) && fresh(table.buckets))
    {
      var r := GetChild(nameOf(node));
      if r.Some? { return false; }
      NamedAdd(table.Contents(), nameOf, hash, node);
      table.Insert(hash(nameOf(node)), node);
      return true;
    }

    /** lai_uninstall_nsnode on the table of the node's parent: panics iff the node is not there,
        and never because it is there twice. */
    method Uninstall(node: nat) returns (r: Uninstalled)
      requires Valid()
      modifies table, table.elems, table.hashes, table.buckets
      ensures Valid()
      ensures r == if nameOf(node) in old(Map()) && old(Map())[nameOf(node)] == node then Gone
                   else NotThere
      ensures Map() == if r == Gone then old(Map()) - {nameOf(node)} else old(Map())
      ensures unchanged(table`elems) && unchanged(table`hashes) && unchanged(table`buckets)
    {
      var h := hash(nameOf(node));
      ViewIs(table.Contents(), nameOf, hash, nameOf(node), node);
      ghost var all := Begin(table, h);
      var i;
      ghost var rest;
      i, rest := Find(h, node, all);
      if i < 0 { return NotThere; }
      assert rest[node] == 0 by { assert Only(table.Contents(), nameOf, hash, (h, node)); }
      Drop(h, i, node, rest);
      var again := Sweep(h, i, node, rest);
      return if again then Twice else Gone;
    }

    /** Removes the node that has been found; it is not among the rest. */
    method Drop(h: int, i: nat, node: nat, ghost rest: multiset<nat>)
      requires Valid() && h == hash(nameOf(node)) && Finds(table, h, i, node)
      requires Left(table, h, i, rest)
      modifies table, table.elems, table.buckets
      ensures Valid() && Map() == old(Map()) - {nameOf(node)}
      ensures old(nameOf(node) in Map() && Map()[nameOf(node)] == node)
      ensures i < table.buckets.Length && Left(table, h, i, rest)
      ensures unchanged(table`elems) && unchanged(table`hashes) && unchanged(table`buckets)
    {
      FindsStored(table, h, i, node);
      ViewIs(table.Contents(), nameOf, hash, nameOf(node), node);
      NamedRemove(table.Contents(), nameOf, hash, node);
      RemoveVisited(table, h, i, node, rest);
    }

    /** The first loop of lai_uninstall_nsnode. */
    method Find(h: int, node: nat, ghost all: multiset<nat>)
      returns (i: int, ghost rest: multiset<nat>)
      requires Left(table, h, -1, all)
      ensures i < 0 ==> node !in all
      ensures i >= 0 ==> Finds(table, h, i, node) && Left(table, h, i, rest)
                         && all[node] == 1 + rest[node]
    {
      var child: Option<nat>;
      child, i, rest := Next(table, h, -1, all);
      while child.Some? && child.value != node
        invariant child.Some? ==>
                    0 <= i && Finds(table, h, i, child.value) && Left(table, h, i, rest)
        invariant all[node] == if child.Some? then (multiset{child.value} + rest)[node] else 0
        decreases if child.Some? then table.buckets.Length - i else 0
      {
        child, i, rest := Next(table, h, i, rest);
      }
      if child.None? { i := -1; }
    }

    /** The second loop: is the node met again? */
    method Sweep(h: int, j: nat, node: nat, ghost all: multiset<nat>) returns (again: bool)
      requires j < table.buckets.Length && Left(table, h, j, all)
      ensures again <==> node in all
    {
      var child: Option<nat>, i;
      ghost var rest;
      child, i, rest := Next(table, h, j, all);
      while child.Some?
        invariant child.Some? ==>
                    0 <= i && Finds(table, h, i, child.value) && Left(table, h, i, rest)
        invariant all[node] == if child.Some? then (multiset{child.value} + rest)[node] else 0
        decreases if child.Some? then table.buckets.Length - i else 0
      {
        if child.value == node { return true; }
        child, i, rest := Next(table, h, i, rest);
      }
      return false;
    }
  }
}
