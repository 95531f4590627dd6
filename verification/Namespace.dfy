/** The ACPI namespace of lai/core/ns.c: nodes, their paths, and resolution of names. */
module Namespace {
  import opened Wrappers

  type Segment = s: string | |s| == 4 witness "____"

  // Characters of name segments (section 20.2.2 of the ACPI specification), and the wider set
  // that lai_is_name lets through.

  predicate NameChar(c: char) { '0' <= c <= '9' || 'A' <= c <= 'Z' || c == '_' }

  predicate IsName(c: char) { NameChar(c) || c == '\\' || c == '^' || c == '/' || c == '.' }

  predicate NameOk(s: Segment) { forall i :: 0 <= i < 4 ==> NameChar(s[i]) }

  datatype Kind = Root | Alias(target: nat) | Plain

  datatype Node = Node(name: Segment, parent: Option<nat>, kind: Kind)

  /** Nodes in order of creation, the root first, and the child tables of all of them. */
  datatype Space = Space(nodes: seq<Node>, children: map<(nat, Segment), nat>)

  predicate NodeOk(s: Space, n: nat)
    requires n < |s.nodes|
  {
    var x := s.nodes[n];
    && (x.parent.None? <==> n == 0) && (x.kind.Root? <==> n == 0)
    && (x.parent.Some? ==> x.parent.value < n && !s.nodes[x.parent.value].kind.Alias?
                           && NameOk(x.name))
    && (x.kind.Alias? ==> x.kind.target < |s.nodes| && !s.nodes[x.kind.target].kind.Alias?)
  }

  ghost predicate ChildOk(s: Space, k: (nat, Segment)) {
    k in s.children ==>
      && s.children[k] < |s.nodes| && s.nodes[s.children[k]].parent == Some(k.0)
      && s.nodes[s.children[k]].name == k.1
  }

  ghost predicate Wf(s: Space) {
    && |s.nodes| > 0
    && (forall n: nat | n < |s.nodes| :: NodeOk(s, n))
    && (forall k :: ChildOk(s, k))
  }

  /** A node whose whole chain of parents is in the child tables. */
  predicate Installed(s: Space, n: nat)
    requires n < |s.nodes| && forall m: nat | m < |s.nodes| :: NodeOk(s, m)
  {
    assert NodeOk(s, n);
    n == 0
    || (var p := s.nodes[n].parent.value;
        var k := (p, s.nodes[n].name);
        k in s.children && s.children[k] == n && Installed(s, p))
  }

  // ---------------------------------------------------------------------------------------
  // Moving around
  // ---------------------------------------------------------------------------------------

  function Child(s: Space, n: nat, name: Segment): Option<nat> {
    if (n, name) in s.children then Some(s.children[(n, name)]) else None
  }

  /** The target of an alias, otherwise the node. */
  function Hop(s: Space, n: nat): nat {
    if n < |s.nodes| && s.nodes[n].kind.Alias? then s.nodes[n].kind.target else n
  }

  /** How a resolution ends; the code panics where one of its checks fails. */
  datatype Result = Found(node: nat) | Missing | Panic

  function Climb(s: Space, n: nat, height: nat): nat
    requires n < |s.nodes|
    decreases height
  {
    if height == 0 || s.nodes[n].parent.None? || s.nodes[n].parent.value >= |s.nodes| then n
    else Climb(s, s.nodes[n].parent.value, height - 1)
  }

  /** Where a name starts: at the root, or some levels up, never above the root. */
  function Start(s: Space, ctx: nat, absolute: bool, height: nat): nat
    requires ctx < |s.nodes|
  {
    if absolute then 0 else Climb(s, ctx, height)
  }

  lemma ChildBound(s: Space, n: nat, name: Segment)
    requires Wf(s) && Child(s, n, name).Some?
    ensures var c := Child(s, n, name).value;
      c < |s.nodes| && n < c && s.nodes[c].parent == Some(n) && s.nodes[c].name == name
  {
    assert ChildOk(s, (n, name));
    assert NodeOk(s, s.children[(n, name)]);
  }

  // ---------------------------------------------------------------------------------------
  // Searching the enclosing scopes
  // ---------------------------------------------------------------------------------------

  /** A node and its ancestors, innermost first. */
  function Scopes(s: Space, n: nat): (r: seq<nat>)
    requires n < |s.nodes| && forall m: nat | m < |s.nodes| :: NodeOk(s, m)
    ensures |r| > 0 && forall i :: 0 <= i < |r| ==> r[i] <= n < |s.nodes|
  {
    assert NodeOk(s, n);
    if n == 0 then [n] else [n] + Scopes(s, s.nodes[n].parent.value)
  }

  /** The child of the nearest enclosing scope that has one of that name, behind one alias. */
  function Search(s: Space, n: nat, name: Segment): Result
    requires n < |s.nodes| && forall m: nat | m < |s.nodes| :: NodeOk(s, m)
  {
    assert NodeOk(s, n);
    if Child(s, n, name).Some? then Found(Hop(s, Child(s, n, name).value))
    else if n == 0 then Missing
    else Search(s, s.nodes[n].parent.value, name)
  }

  /** The search finds nothing iff no scope has the name, and otherwise what the first has. */
  lemma {:induction false} SearchNearest(s: Space, n: nat, name: Segment) returns (i: nat)
    requires Wf(s) && n < |s.nodes|
    ensures var scopes := Scopes(s, n);
      && i <= |scopes| && (forall j :: 0 <= j < i ==> Child(s, scopes[j], name).None?)
      && (Search(s, n, name) == Missing <==> i == |scopes|)
      && (i < |scopes| ==> Child(s, scopes[i], name).Some?
                           && Search(s, n, name) == Found(Hop(s, Child(s, scopes[i], name).value)))
  {
    assert NodeOk(s, n);
    if Child(s, n, name).Some? {
      i := 0;
    } else if n == 0 {
      i := 1;
    } else {
      var p := s.nodes[n].parent.value;
      i := SearchNearest(s, p, name);
      assert Scopes(s, n) == [n] + Scopes(s, p);
      i := i + 1;
    }
  }

  /** lai_resolve_search; its checks on alias targets never fail. */
  method ResolveSearch(s: Space, ctx: nat, name: Segment) returns (r: Result)
    requires Wf(s) && ctx < |s.nodes| && !s.nodes[ctx].kind.Alias?
    ensures r == Search(s, ctx, name) && r != Panic
  {
    var current: Option<nat> := Some(ctx);
    while current.Some?
      invariant current.Some? ==> current.value < |s.nodes|
      invariant Search(s, ctx, name)
                == if current.Some? then Search(s, current.value, name) else Missing
      decreases if current.Some? then current.value + 1 else 0
    {
      var n := current.value;
      assert NodeOk(s, n);
      var child := Child(s, n, name);
      if child.Some? {
        ChildBound(s, n, name);
        assert NodeOk(s, child.value);
        if s.nodes[child.value].kind.Alias? {
          var target := s.nodes[child.value].kind.target;
          if s.nodes[target].kind.Alias? { return Panic; }
          return Found(target);
        }
        return Found(child.value);
      }
      current := s.nodes[n].parent;
    }
    return Missing;
  }

  // ---------------------------------------------------------------------------------------
  // Paths
  // ---------------------------------------------------------------------------------------

  /** The segments of a node below the root. */
  function Names(s: Space, n: nat): (r: seq<Segment>)
    requires n < |s.nodes| && forall m: nat | m < |s.nodes| :: NodeOk(s, m)
  {
    assert NodeOk(s, n);
    if n == 0 then [] else Names(s, s.nodes[n].parent.value) + [s.nodes[n].name]
  }

  /** Segments, each after a dot. */
  function Dotted(names: seq<Segment>): (r: string)
    ensures |r| == 5 * |names|
    ensures names != [] ==> r[0] == '.'
  {
    if names == [] then "" else Dotted(names[..|names| - 1]) + "." + names[|names| - 1]
  }

  /** The path of a node: a backslash, then its segments separated by dots. */
  function Path(s: Space, n: nat): string
    requires n < |s.nodes| && forall m: nat | m < |s.nodes| :: NodeOk(s, m)
  {
    var names := Names(s, n);
    if names == [] then "\\" else "\\" + Dotted(names)[1..]
  }

  lemma DottedSnoc(names: seq<Segment>, name: Segment)
    ensures Dotted(names + [name]) == Dotted(names) + "." + name
  {
    assert (names + [name])[..|names|] == names;
  }

  /** The segments of a node, the last one apart. */
  lemma NamesStep(s: Space, n: nat)
    requires Wf(s) && 0 < n < |s.nodes|
    ensures NodeOk(s, n) && s.nodes[n].parent.Some?
    ensures var p := s.nodes[n].parent.value;
      p < n && |Names(s, n)| == |Names(s, p)| + 1
      && Dotted(Names(s, n)) == Dotted(Names(s, p)) + "." + s.nodes[n].name
  {
    assert NodeOk(s, n);
    DottedSnoc(Names(s, s.nodes[n].parent.value), s.nodes[n].name);
  }

  /** The first loop of lai_stringify_node_path. */
  method CountSegments(s: Space, node: nat) returns (segs: nat)
    requires Wf(s) && node < |s.nodes|
    ensures segs == |Names(s, node)|
  {
    var current: nat := node;
    segs := 0;
    assert NodeOk(s, current);
    while s.nodes[current].parent.Some?
      invariant current < |s.nodes| && NodeOk(s, current)
      invariant segs + |Names(s, current)| == |Names(s, node)|
      decreases current
    {
      NamesStep(s, current);
      current := s.nodes[current].parent.value;
      segs := segs + 1;
      assert NodeOk(s, current);
    }
  }

  /** lai_namecpy. */
  method CopyName(str: array<char>, n: nat, name: Segment)
    requires n + 4 <= str.Length
    modifies str
    ensures str[n..] == name + old(str[n + 4..])
  {
    ghost var tail := str[n + 4..];
    str[n] := name[0];
    str[n + 1] := name[1];
    str[n + 2] := name[2];
    str[n + 3] := name[3];
    assert str[n + 4..] == tail && str[n..n + 4] == name;
    assert str[n..] == str[n..n + 4] + str[n + 4..];
  }

  /** The second loop: fills the buffer from right to left. */
  method FillPath(s: Space, node: nat, str: array<char>)
    requires Wf(s) && node < |s.nodes| && str.Length == 5 * |Names(s, node)|
    modifies str
    ensures str[..] == Dotted(Names(s, node))
  {
    var current: nat, n := node, str.Length;
    ghost var text := Dotted(Names(s, node));
    assert NodeOk(s, current) && text + str[n..] == text;
    while s.nodes[current].parent.Some?
      invariant current < |s.nodes| && NodeOk(s, current)
      invariant n == 5 * |Names(s, current)| <= str.Length
      invariant Dotted(Names(s, current)) + str[n..] == text
      decreases current
    {
      NamesStep(s, current);
      ghost var tail := str[n..];
      var p := s.nodes[current].parent.value;
      n := n - 4;
      CopyName(str, n, s.nodes[current].name);
      n := n - 1;
      ghost var seg := str[n + 1..];
      str[n] := '.';
      assert str[n + 1..] == seg && str[n..] == "." + str[n + 1..];
      Regroup(Dotted(Names(s, p)), s.nodes[current].name, tail);
      current := p;
      assert NodeOk(s, current);
    }
    assert Dotted(Names(s, current)) == "" && n == 0 && str[0..] == str[..];
  }

  lemma Regroup(a: string, name: string, tail: string)
    ensures (a + "." + name) + tail == a + ("." + (name + tail))
  {
  }

  /** lai_stringify_node_path. */
  method StringifyPath(s: Space, node: nat) returns (path: string)
    requires Wf(s) && node < |s.nodes|
    ensures path == Path(s, node)
  {
    assert NodeOk(s, node);
    if s.nodes[node].parent.None? { return "\\"; }
    NamesStep(s, node);
    var segs := CountSegments(s, node);
    var str := new char[5 * segs](_ => '.');
    FillPath(s, node, str);
    ghost var text := str[..];
    str[0] := '\\';
    path := str[..];
    assert path[1..] == text[1..] && path == "\\" + path[1..];
  }
}
