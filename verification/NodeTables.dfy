/** The namespace as the code keeps it (lai/core/ns.c): a child table for every node, and the flat
array of all nodes.  Together the tables are the `children` of a `Space`; installing or uninstalling
a node changes only the table of its parent, and so does to the space what `MethodNodes` says.
*/
module NodeTables {
  import opened Namespace
  import M = MethodNodes
  import T = NameTable

  /** An entry of ns_array: a node whose name was taken stays there although no table has it. */
  datatype Entry = Cleared | Stored(n: nat) | Refused(x: Node)

  function Clear(e: Entry, n: nat): Entry { if e == Stored(n) then Cleared else e }

  function ClearAll(es: seq<Entry>, n: nat): (r: seq<Entry>)
    ensures |r| == |es| && forall i :: 0 <= i < |es| ==> r[i] == Clear(es[i], n)
  {
    seq<Entry>(|es|, i requires 0 <= i < |es| => Clear(es[i], n))
  }

  type Maps = seq<map<T.Name, nat>>

  type Tables = map<(nat, Segment), nat>

  /** The maps with one entry more in map p. */
  function With(maps: Maps, p: nat, name: T.Name, n: nat): (r: Maps)
    requires p < |maps|
    ensures |r| == |maps|
  {
    var m: map<T.Name, nat> := maps[p][name := n];
    maps[p := m]
  }

  function Without(maps: Maps, p: nat, name: T.Name): (r: Maps)
    requires p < |maps|
    ensures |r| == |maps|
  {
    var m: map<T.Name, nat> := maps[p] - {name};
    maps[p := m]
  }

  /** Map k.0 has the entry k of `children`, or neither has it. */
  predicate Entry1(children: Tables, maps: Maps, k: (nat, Segment)) {
    && (k in children <==> k.0 < |maps| && k.1 in maps[k.0])
    && (k in children ==> children[k] == maps[k.0][k.1])
  }

  /** The maps are the children of each node. */
  ghost predicate Represent(children: Tables, maps: Maps) {
    forall k :: Entry1(children, maps, k)
  }

  lemma RepresentAdd(children: Tables, maps: Maps, p: nat, name: Segment, n: nat)
    requires Represent(children, maps) && p < |maps|
    ensures Represent(children[(p, name) := n], With(maps, p, name, n))
  {
    var children1, maps1 := children[(p, name) := n], With(maps, p, name, n);
    forall k ensures Entry1(children1, maps1, k) { assert Entry1(children, maps, k); }
  }

  lemma RepresentRemove(children: Tables, maps: Maps, p: nat, name: Segment)
    requires Represent(children, maps) && p < |maps|
    ensures Represent(children - {(p, name)}, Without(maps, p, name))
  {
    var children1, maps1 := children - {(p, name)}, Without(maps, p, name);
    forall k ensures Entry1(children1, maps1, k) { assert Entry1(children, maps, k); }
  }

  lemma RepresentMore(children: Tables, maps: Maps)
    requires Represent(children, maps)
    ensures Represent(children, maps + [map[]])
  {
    forall k ensures Entry1(children, maps + [map[]], k) { assert Entry1(children, maps, k); }
  }

  /** The array holds exactly the root and the nodes that are in the table of their parent. */
  ghost predicate Lists(s: Space, entries: seq<Entry>) {
    forall n: nat :: ListedIff(s, entries, n)
  }

  predicate Registered(s: Space, n: nat) {
    n == 0
    || (n < |s.nodes| && s.nodes[n].parent.Some? && M.Key(s, n) in s.children
        && s.children[M.Key(s, n)] == n)
  }

  predicate ListedIff(s: Space, entries: seq<Entry>, n: nat) {
    Stored(n) in entries <==> Registered(s, n)
  }

  lemma ListsInstall(s: Space, entries: seq<Entry>, x: Node)
    requires Lists(s, entries) && |s.nodes| > 0 && M.Installable(s, x) && M.Install(s, x).Some?
    ensures Lists(M.Install(s, x).value, entries + [Stored(|s.nodes|)])
  {
    forall n: nat ensures ListedIff(M.Install(s, x).value, entries + [Stored(|s.nodes|)], n) {
      assert ListedIff(s, entries, n);
    }
  }

  lemma ListsRefused(s: Space, entries: seq<Entry>, x: Node)
    requires Lists(s, entries)
    ensures Lists(s, entries + [Refused(x)])
  {
    forall n: nat ensures ListedIff(s, entries + [Refused(x)], n) {
      assert ListedIff(s, entries, n);
    }
  }

  lemma ListsUninstall(s: Space, entries: seq<Entry>, n: nat)
    requires Lists(s, entries) && 0 < n < |s.nodes| && s.nodes[n].parent.Some?
    ensures var u := M.Uninstall(s, n);
      Lists(if u.Some? then u.value else s, ClearAll(entries, n))
  {
    var u, cleared := M.Uninstall(s, n), ClearAll(entries, n);
    var t := if u.Some? then u.value else s;
    forall m: nat ensures ListedIff(t, cleared, m) {
      assert ListedIff(s, entries, m) && ListedIff(s, entries, n);
      if Stored(m) in entries && m != n {
        var i :| 0 <= i < |entries| && entries[i] == Stored(m);
        assert cleared[i] == Stored(m);
      }
    }
  }

  /** The space after an install that is granted or refused. */
  function Grown(s: Space, x: Node): Space
    requires M.Installable(s, x)
  {
    if M.Install(s, x).Some? then M.Install(s, x).value else s
  }

  /** The tables then; that of an installed node itself is empty. */
  function GrownMaps(maps: Maps, x: Node, ok: bool): Maps
    requires x.parent.Some? && x.parent.value < |maps|
  {
    if ok then With(maps, x.parent.value, x.name, |maps|) + [map[]] else maps
  }

  /** struct lai_instance, with the contents of all child tables. */
  class Instance {
    /** The name of each node, which is set when it is created and never changed. */
    const nameOf: T.Names
    const hash: T.Hash
    var nodes: seq<Node>
    var entries: seq<Entry>
    ghost var maps: Maps
    ghost var children: Tables

    /** The root alone. */
    constructor (nameOf: T.Names, hash: T.Hash, root: Node)
      requires root.parent.None? && root.name == nameOf(0)
      ensures Valid() && Contents() == Space([root], map[]) && entries == [Stored(0)]
      ensures maps == [map[]]
    {
      this.nameOf, this.hash := nameOf, hash;
      nodes, entries, maps, children := [root], [Stored(0)], [map[]], map[];
      new;
      forall k ensures Entry1(children, maps, k) { }
      forall n: nat ensures ListedIff(Contents(), entries, n) { }
    }

    /** The namespace that the tables make up. */
    ghost function Contents(): Space
      reads this
    {
      Space(nodes, children)
    }

    ghost predicate Valid()
      reads this
    {
      && |maps| == |nodes| > 0 && Represent(children, maps) && Lists(Contents(), entries)
      && forall i: nat | i < |nodes| :: nodes[i].name == nameOf(i)
    }

    /** t is the child table of node p, where the tables have the contents m. */
    ghost predicate IsTable(t: T.ChildTable, m: Maps, p: nat)
      reads t.table, t.table.elems, t.table.hashes, t.table.buckets
    {
      p < |m| && t.Valid() && t.nameOf == nameOf && t.hash == hash && t.Map() == m[p]
    }

    /** lai_install_nsnode of a new node, on the table of its parent; a refused node stays in the
        array. */
    method Install(x: Node, t: T.ChildTable) returns (ok: bool)
      requires Valid() && M.Installable(Contents(), x) && IsTable(t, maps, x.parent.value)
      requires nameOf(|nodes|) == x.name
      modifies this, t.table, t.table.elems, t.table.hashes, t.table.buckets
      ensures Valid() && IsTable(t, maps, x.parent.value)
      ensures ok <==> M.Install(old(Contents()), x).Some?
      ensures Contents() == Grown(old(Contents()), x)
      ensures entries == old(entries) + [if ok then Stored(|old(nodes)|) else Refused(x)]
      ensures maps == GrownMaps(old(maps), x, ok)
    {
      ghost var p := x.parent.value;
      ok := Enter(x, t);
      ghost var after := GrownMaps(maps, x, ok);
      Record(x, ok);
      assert IsTable(t, after, p);
    }

    /** The new node in the table of its parent. */
    method Enter(x: Node, t: T.ChildTable) returns (ok: bool)
      requires x.parent.Some? && IsTable(t, maps, x.parent.value) && |maps| == |nodes|
      requires nameOf(|nodes|) == x.name
      modifies t.table, t.table.elems, t.table.hashes, t.table.buckets
      ensures ok <==> x.name !in maps[x.parent.value]
      ensures IsTable(t, GrownMaps(maps, x, ok), x.parent.value)
    {
      ok := t.Install(|nodes|);
    }

    /** The array and the node after an install that was granted or refused. */
    method Record(x: Node, ok: bool)
      requires Valid() && M.Installable(Contents(), x) && nameOf(|nodes|) == x.name
      requires ok <==> x.name !in maps[x.parent.value]
      modifies this
      ensures Valid() && (ok <==> M.Install(old(Contents()), x).Some?)
      ensures Contents() == Grown(old(Contents()), x)
      ensures entries == old(entries) + [if ok then Stored(|old(nodes)|) else Refused(x)]
      ensures maps == GrownMaps(old(maps), x, ok)
    {
      var p, n := x.parent.value, |nodes|;
      assert Entry1(children, maps, (p, x.name));
      if ok {
        ListsInstall(Contents(), entries, x);
        RepresentAdd(children, maps, p, x.name, n);
        maps, children := With(maps, p, x.name, n), children[(p, x.name) := n];
        RepresentMore(children, maps);
        nodes, maps, entries := nodes + [x], maps + [map[]], entries + [Stored(n)];
      } else {
        ListsRefused(Contents(), entries, x);
        entries := entries + [Refused(x)];
      }
    }

    /** lai_uninstall_nsnode, on the table of the node's parent: the panic for a missing child comes
        exactly if the node is not in the table, and the array is cleared in any case. */
    method Uninstall(n: nat, t: T.ChildTable) returns (r: T.Uninstalled)
      requires Valid() && 0 < n < |nodes| && nodes[n].parent.Some?
      requires IsTable(t, maps, nodes[n].parent.value)
      modifies this, t.table, t.table.elems, t.table.hashes, t.table.buckets
      ensures Valid() && IsTable(t, maps, old(nodes[n].parent.value))
      ensures r == if M.Uninstall(old(Contents()), n).Some? then T.Gone else T.NotThere
      ensures Contents() == if r == T.Gone then M.Uninstall(old(Contents()), n).value
                            else old(Contents())
      ensures entries == ClearAll(old(entries), n)
      ensures var x := old(nodes[n]);
        maps == if r == T.Gone then Without(old(maps), x.parent.value, x.name) else old(maps)
    {
      r := t.Uninstall(n);
      Forget(n, r == T.Gone);
    }

    /** The array and the tables after an uninstall. */
    method Forget(n: nat, gone: bool)
      requires Valid() && 0 < n < |nodes| && nodes[n].parent.Some?
      requires nodes[n].parent.value < |nodes|
      requires var m, name := maps[nodes[n].parent.value], nodes[n].name;
        gone <==> name in m && m[name] == n
      modifies this`entries, this`maps, this`children
      ensures Valid() && (gone <==> M.Uninstall(old(Contents()), n).Some?)
      ensures Contents() == if gone then M.Uninstall(old(Contents()), n).value else old(Contents())
      ensures entries == ClearAll(old(entries), n)
      ensures var x := nodes[n];
        maps == if gone then Without(old(maps), x.parent.value, x.name) else old(maps)
    {
      var p, name := nodes[n].parent.value, nodes[n].name;
      assert Entry1(children, maps, (p, name));
      ListsUninstall(Contents(), entries, n);
      ClearEntries(n);
      if gone {
        RepresentRemove(children, maps, p, name);
        maps, children := Without(maps, p, name), children - {(p, name)};
      }
    }

    /** The loop over ns_array. */
    method ClearEntries(n: nat)
      modifies this`entries
      ensures entries == ClearAll(old(entries), n)
    {
      var i := 0;
      while i < |entries|
        invariant i <= |entries| == |old(entries)|
        invariant forall j :: 0 <= j < |entries| ==>
          entries[j] == if j < i then Clear(old(entries)[j], n) else old(entries)[j]
      {
        if entries[i] == Stored(n) { entries := entries[i := Cleared]; }
        i := i + 1;
      }
    }
  }
}
