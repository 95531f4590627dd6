/** Namespace nodes created by a method invocation, and their removal when it returns
(lai/core/exec.c, lai/core/ns.c, lai/core/util-list.h).
*/
module MethodNodes {
  import opened Wrappers
  import opened Namespace
  import opened IntrusiveList

  // ---------------------------------------------------------------------------------------
  // Installing and uninstalling
  // ---------------------------------------------------------------------------------------

  function Key(s: Space, n: nat): (nat, Segment)
    requires n < |s.nodes| && s.nodes[n].parent.Some?
  {
    (s.nodes[n].parent.value, s.nodes[n].name)
  }

  /** What the interpreter establishes before it installs a node. */
  predicate Installable(s: Space, x: Node) {
    && x.parent.Some? && x.parent.value < |s.nodes| && !s.nodes[x.parent.value].kind.Alias?
    && NameOk(x.name) && !x.kind.Root?
    && (x.kind.Alias? ==> x.kind.target < |s.nodes| && !s.nodes[x.kind.target].kind.Alias?)
  }

  /** lai_install_nsnode of a new node; refused iff a sibling has its name. */
  function Install(s: Space, x: Node): Option<Space>
    requires Installable(s, x)
  {
    var k := (x.parent.value, x.name);
    if k in s.children then None
    else Some(Space(s.nodes + [x], s.children[k := |s.nodes|]))
  }

  /** lai_uninstall_nsnode: panics iff the node is not in its parent's table. */
  function Uninstall(s: Space, n: nat): Option<Space>
    requires n < |s.nodes| && s.nodes[n].parent.Some?
  {
    var k := Key(s, n);
    if k in s.children && s.children[k] == n then Some(Space(s.nodes, s.children - {k})) else None
  }

  lemma InstallKeeps(s: Space, x: Node)
    requires Wf(s) && Installable(s, x) && Install(s, x).Some?
    ensures Wf(Install(s, x).value)
    ensures Installed(s, x.parent.value) ==> Installed(Install(s, x).value, |s.nodes|)
  {
    var t := Install(s, x).value;
    forall n: nat | n < |t.nodes| ensures NodeOk(t, n) {
      if n < |s.nodes| { assert NodeOk(s, n); }
    }
    forall k ensures ChildOk(t, k) { assert ChildOk(s, k); }
    if Installed(s, x.parent.value) { InstalledStays(s, t, x.parent.value); }
  }

  lemma {:induction false} InstalledStays(s: Space, t: Space, n: nat)
    requires Wf(s) && Wf(t) && n < |s.nodes| && Installed(s, n)
    requires |s.nodes| <= |t.nodes| && forall m :: 0 <= m < |s.nodes| ==> t.nodes[m] == s.nodes[m]
    requires forall k | k in s.children :: k in t.children && t.children[k] == s.children[k]
    ensures Installed(t, n)
  {
    assert NodeOk(s, n) && NodeOk(t, n);
    if n > 0 { InstalledStays(s, t, s.nodes[n].parent.value); }
  }

  lemma UninstallKeeps(s: Space, n: nat)
    requires Wf(s) && n < |s.nodes| && s.nodes[n].parent.Some? && Uninstall(s, n).Some?
    ensures Wf(Uninstall(s, n).value)
  {
    var t := Uninstall(s, n).value;
    forall m: nat | m < |t.nodes| ensures NodeOk(t, m) { assert NodeOk(s, m); }
    forall k ensures ChildOk(t, k) { assert ChildOk(s, k); }
  }

  // ---------------------------------------------------------------------------------------
  // A method invocation
  // ---------------------------------------------------------------------------------------

  /** What an invocation does to the namespace: it creates nodes, which it records in its list,
      either where they are declared or where the operands of a declaration have been evaluated;
      it runs the body of a Device or Scope, whose nodes no list records; and it calls methods. */
  datatype Event = Create(x: Node) | Reduce(x: Node) | Populate(x: Node) | Call(body: seq<Event>)

  /** The space after some events, the invocation's list, and the nodes no list records. */
  datatype Run = Aborted | Panicked | Run(s: Space, list: seq<nat>, kept: set<nat>)

  /** The cleanup loop: uninstalls the listed nodes from the first on. */
  function Cleanup(s: Space, list: seq<nat>): (r: Option<Space>)
    requires Listed(s, list)
    ensures r.Some? ==> r.value.nodes == s.nodes
    decreases list
  {
    if list == [] then Some(s)
    else
      match Uninstall(s, list[0])
      case None => None
      case Some(t) => Cleanup(t, list[1..])
  }

  predicate Listed(s: Space, list: seq<nat>) {
    forall i :: 0 <= i < |list| ==> list[i] < |s.nodes| && s.nodes[list[i]].parent.Some?
  }

  /** Runs events; an install that is refused aborts the evaluation, except behind evaluated
      operands, where the error is ignored and the evaluation goes on. */
  function RunEvents(s: Space, events: seq<Event>, list: seq<nat>, kept: set<nat>): (r: Run)
    requires Listed(s, list)
    ensures r.Run? ==> Listed(r.s, r.list) && s.nodes <= r.s.nodes
    decreases events, 0
  {
    if events == [] then Run(s, list, kept)
    else
      match events[0]
      case Create(x) =>
        if !Installable(s, x) || Install(s, x).None? then Aborted
        else RunEvents(Install(s, x).value, events[1..], list + [|s.nodes|], kept)
      case Reduce(x) =>
        if !Installable(s, x) then Aborted
        else if Install(s, x).None? then RunEvents(s, events[1..], list, kept)
        else RunEvents(Install(s, x).value, events[1..], list + [|s.nodes|], kept)
      case Populate(x) =>
        if !Installable(s, x) || Install(s, x).None? then Aborted
        else RunEvents(Install(s, x).value, events[1..], list, kept + {|s.nodes|})
      case Call(body) =>
        match RunMethod(s, body, kept)
        case Aborted => Aborted
        case Panicked => Panicked
        case Run(t, _, kept1) => RunEvents(t, events[1..], list, kept1)
  }

  /** A whole invocation with its own list, and the cleanup when it returns. */
  function RunMethod(s: Space, body: seq<Event>, kept: set<nat>): (r: Run)
    ensures r.Run? ==> s.nodes <= r.s.nodes
    decreases body, 1
  {
    match RunEvents(s, body, [], kept)
    case Aborted => Aborted
    case Panicked => Panicked
    case Run(t, list, kept1) =>
      match Cleanup(t, list)
      case None => Panicked
      case Some(u) => Run(u, [], kept1)
  }

  /** The child tables are those in base and the listed nodes, apart from kept ones. */
  ghost predicate Owes(base: map<(nat, Segment), nat>, s: Space, list: seq<nat>, kept: set<nat>) {
    && Listed(s, list)
    && (forall i, j :: 0 <= i < j < |list| ==> list[i] != list[j])
    && (forall k :: k in base ==> k in s.children && s.children[k] == base[k])
    && (forall i :: 0 <= i < |list| ==>
          var k := Key(s, list[i]);
          k !in base && k in s.children && s.children[k] == list[i])
    && (forall k :: k in s.children && k !in base ==>
          s.children[k] in kept || ListedAs(s, list, k, s.children[k]))
  }

  predicate ListedAs(s: Space, list: seq<nat>, k: (nat, Segment), n: nat) {
    n in list && n < |s.nodes| && s.nodes[n].parent.Some? && Key(s, n) == k
  }

  /** The cleanup loop never panics and leaves nothing of its list; what other lists record stays. */
  lemma {:induction false} CleanupWorks(base: map<(nat, Segment), nat>, s: Space, others: seq<nat>,
                                        list: seq<nat>, kept: set<nat>)
    requires Owes(base, s, others + list, kept)
    ensures Listed(s, list) && Cleanup(s, list).Some?
    ensures Owes(base, Cleanup(s, list).value, others, kept)
    decreases list
  {
    assert forall i :: 0 <= i < |list| ==> (others + list)[|others| + i] == list[i];
    if list == [] {
      assert others + list == others;
    } else {
      UninstallOwes(base, s, others, list, kept);
      CleanupWorks(base, Uninstall(s, list[0]).value, others, list[1..], kept);
    }
  }

  lemma UninstallOwes(base: map<(nat, Segment), nat>, s: Space, others: seq<nat>, list: seq<nat>,
                      kept: set<nat>)
    requires list != [] && Owes(base, s, others + list, kept)
    ensures list[0] < |s.nodes| && s.nodes[list[0]].parent.Some? && Uninstall(s, list[0]).Some?
    ensures Owes(base, Uninstall(s, list[0]).value, others + list[1..], kept)
  {
    var all, rest := others + list, others + list[1..];
    var m := |others|;
    assert all[m] == list[0];
    assert forall i :: 0 <= i < |rest| ==> rest[i] == all[if i < m then i else i + 1];
    var t := Uninstall(s, list[0]).value;
    assert forall n :: n in all && n != list[0] ==> n in rest;
    assert forall i :: 0 <= i < |rest| ==> Key(t, rest[i]) == Key(s, rest[i]);
  }

  /** A new node that is recorded. */
  lemma OwesListed(base: map<(nat, Segment), nat>, s: Space, list: seq<nat>, kept: set<nat>,
                   x: Node)
    requires Owes(base, s, list, kept) && Installable(s, x) && Install(s, x).Some?
    ensures Owes(base, Install(s, x).value, list + [|s.nodes|], kept)
  {
    var t, all := Install(s, x).value, list + [|s.nodes|];
    assert forall i :: 0 <= i < |list| ==> all[i] == list[i] && Key(t, list[i]) == Key(s, list[i]);
  }

  /** A new node that is not. */
  lemma OwesKept(base: map<(nat, Segment), nat>, s: Space, list: seq<nat>, kept: set<nat>, x: Node)
    requires Owes(base, s, list, kept) && Installable(s, x) && Install(s, x).Some?
    ensures Owes(base, Install(s, x).value, list, kept + {|s.nodes|})
  {
    var t := Install(s, x).value;
    assert forall i :: 0 <= i < |list| ==> Key(t, list[i]) == Key(s, list[i]);
  }

  lemma OwesCall(base: map<(nat, Segment), nat>, s: Space, list: seq<nat>, kept: set<nat>,
                 t: Space, kept1: set<nat>)
    requires Owes(base, s, list, kept) && Owes(s.children, t, [], kept1)
    requires kept <= kept1 && s.nodes <= t.nodes
    ensures Owes(base, t, list, kept1)
  {
    assert forall i :: 0 <= i < |list| ==> Key(t, list[i]) == Key(s, list[i]);
  }

  lemma {:induction false} EventsOwe(base: map<(nat, Segment), nat>, s: Space,
                                     events: seq<Event>, list: seq<nat>, kept: set<nat>)
    requires Owes(base, s, list, kept)
    ensures var r := RunEvents(s, events, list, kept);
      r != Panicked && (r.Run? ==> Owes(base, r.s, r.list, r.kept) && kept <= r.kept)
    decreases events, 0
  {
    if events != [] {
      match events[0]
      case Create(x) =>
        if Installable(s, x) && Install(s, x).Some? {
          OwesListed(base, s, list, kept, x);
          EventsOwe(base, Install(s, x).value, events[1..], list + [|s.nodes|], kept);
        }
      case Reduce(x) =>
        if Installable(s, x) {
          if Install(s, x).None? {
            EventsOwe(base, s, events[1..], list, kept);
          } else {
            OwesListed(base, s, list, kept, x);
            EventsOwe(base, Install(s, x).value, events[1..], list + [|s.nodes|], kept);
          }
        }
      case Populate(x) =>
        if Installable(s, x) && Install(s, x).Some? {
          OwesKept(base, s, list, kept, x);
          EventsOwe(base, Install(s, x).value, events[1..], list, kept + {|s.nodes|});
        }
      case Call(body) =>
        MethodOwes(s, body, kept);
        var r := RunMethod(s, body, kept);
        if r.Run? {
          OwesCall(base, s, list, kept, r.s, r.kept);
          EventsOwe(base, r.s, events[1..], list, r.kept);
        }
    }
  }

  lemma AllCleaned(base: map<(nat, Segment), nat>, s: Space, list: seq<nat>, kept: set<nat>)
    requires Owes(base, s, list, kept)
    ensures Cleanup(s, list).Some? && Owes(base, Cleanup(s, list).value, [], kept)
  {
    assert [] + list == list;
    CleanupWorks(base, s, [], list, kept);
  }

  lemma {:induction false} MethodOwes(s: Space, body: seq<Event>, kept: set<nat>)
    ensures var r := RunMethod(s, body, kept);
      r != Panicked && (r.Run? ==> Owes(s.children, r.s, [], r.kept) && kept <= r.kept)
    decreases body, 1
  {
    EventsOwe(s.children, s, body, [], kept);
    var r := RunEvents(s, body, [], kept);
    if r.Run? { AllCleaned(s.children, r.s, r.list, r.kept); }
  }

  /** When an invocation returns, its cleanup does not panic, every child table has all the entries
      it had, and what else there is belongs to nodes that no invocation recorded; without such
      nodes, every child table is again what it was. */
  lemma MethodRestores(s: Space, body: seq<Event>)
    ensures var r := RunMethod(s, body, {});
      && r != Panicked
      && (r.Run? ==>
            && (forall k :: k in s.children ==> k in r.s.children && r.s.children[k] == s.children[k])
            && (forall k :: k in r.s.children && k !in s.children ==> r.s.children[k] in r.kept)
            && (r.kept == {} ==> r.s.children == s.children))
  {
    MethodOwes(s, body, {});
  }

  /** The cleanup loop of lai_exec_process over the invocation's intrusive list. */
  method CleanUp(s: Space, list: List) returns (r: Option<Space>)
    requires list.Valid() && Listed(s, Nodes(list.items))
    modifies list, list.hook, list.items
    ensures r == Cleanup(s, old(Nodes(list.items)))
    ensures list.Valid() && (r.Some? ==> list.items == [])
  {
    var t := s;
    ghost var items, nodes, n: nat := list.items, Nodes(list.items), 0;
    var item := list.First();
    while item != null
      invariant list.Valid() && t.nodes == s.nodes && n <= |items| && list.items == items[n..]
      invariant item == if n == |items| then null else items[n]
      invariant Cleanup(t, nodes[n..]) == Cleanup(s, nodes)
      decreases |items| - n
    {
      var next := Uninstall(t, item.node);
      assert nodes[n..][0] == item.node && nodes[n..][1..] == nodes[n + 1..];
      if next.None? { return None; }
      list.Unlink(item, 0);
      t := next.value;
      n := n + 1;
      item := list.First();
    }
    return Some(t);
  }

  ghost function Nodes(items: seq<Item>): (r: seq<nat>)
    ensures |r| == |items| && forall i :: 0 <= i < |r| ==> r[i] == items[i].node
  {
    seq(|items|, i requires 0 <= i < |items| => items[i].node)
  }
}
