/** Resolution of textual paths and of AML names (lai/core/ns.c), and the round trips through the
printed path and through the AML encoding of a node's name.
*/
module NameResolution {
  import opened Wrappers
  import opened Namespace

  // ---------------------------------------------------------------------------------------
  // Textual paths
  // ---------------------------------------------------------------------------------------

  /** How many of the first n characters lai_is_name accepts before the first it does not. */
  function Lead(p: string, n: nat): (k: nat)
    ensures k <= n && k <= |p|
  {
    if n == 0 || p == "" || !IsName(p[0]) then 0 else 1 + Lead(p[1..], n - 1)
  }

  function Pad(s: string): Segment
    requires |s| <= 4
  {
    s + "____"[|s|..]
  }

  /** The loop of lai_resolve_path over the segments. */
  function FollowPath(s: Space, n: nat, p: string): Result
    decreases |p|
  {
    var k := Lead(p, 4);
    match Child(s, n, Pad(p[..k]))
    case None => Missing
    case Some(c) =>
      if k == |p| then Found(Hop(s, c))
      else if p[k] != '.' then Panic
      else FollowPath(s, Hop(s, c), p[k + 1..])
  }

  function Carets(p: string): (k: nat)
    ensures k <= |p|
  {
    if p != "" && p[0] == '^' then 1 + Carets(p[1..]) else 0
  }

  function FollowRest(s: Space, n: nat, p: string): Result {
    if p == "" then Found(n) else FollowPath(s, n, p)
  }

  /** lai_resolve_path. */
  function ResolvedPath(s: Space, ctx: nat, p: string): Result
    requires ctx < |s.nodes|
  {
    if p != "" && p[0] == '\\' then FollowRest(s, Start(s, ctx, true, 0), p[1..])
    else FollowRest(s, Start(s, ctx, false, Carets(p)), p[Carets(p)..])
  }

  /** A whole segment is read as itself. */
  lemma LeadName(name: Segment, rest: string)
    requires NameOk(name)
    ensures Lead(name + rest, 4) == 4 && Pad((name + rest)[..4]) == name
  {
    var p := name + rest;
    assert p[0] == name[0] && p[1] == name[1] && p[2] == name[2] && p[3] == name[3];
    assert Lead(p[4..], 0) == 0;
    assert p[3..][1..] == p[4..] && p[2..][1..] == p[3..] && p[1..][1..] == p[2..];
    assert Lead(p[3..], 1) == 1;
    assert Lead(p[2..], 2) == 2;
    assert Lead(p[1..], 3) == 3;
    assert p[..4] == name;
  }

  /** Following a child by its name. */
  lemma FollowChild(s: Space, p: nat, n: nat, rest: string)
    requires Wf(s) && 0 < n < |s.nodes| && s.nodes[n].parent == Some(p) && Installed(s, n)
    requires rest == "" || rest[0] == '.'
    ensures FollowPath(s, p, s.nodes[n].name + rest)
            == if rest == "" then Found(Hop(s, n)) else FollowPath(s, Hop(s, n), rest[1..])
  {
    assert NodeOk(s, n);
    var name := s.nodes[n].name;
    LeadName(name, rest);
    assert (name + rest)[4..] == rest;
    if rest != "" {
      assert (name + rest)[5..] == rest[1..];
    }
  }

  lemma {:induction false} FollowNames(s: Space, n: nat, rest: string)
    requires Wf(s) && 0 < n < |s.nodes| && Installed(s, n) && (rest == "" || rest[0] == '.')
    ensures FollowPath(s, 0, Dotted(Names(s, n))[1..] + rest)
            == if rest == "" then Found(Hop(s, n)) else FollowPath(s, Hop(s, n), rest[1..])
  {
    NamesStep(s, n);
    var p, name := s.nodes[n].parent.value, s.nodes[n].name;
    var d := Dotted(Names(s, p));
    if p == 0 {
      assert Dotted(Names(s, n))[1..] + rest == name + rest;
      FollowChild(s, p, n, rest);
    } else {
      NamesStep(s, p);
      assert d[0] == '.' && (d + "." + name)[1..] + rest == d[1..] + ("." + name + rest);
      FollowNames(s, p, "." + name + rest);
      assert ("." + name + rest)[1..] == name + rest;
      FollowChild(s, p, n, rest);
    }
  }

  /** Resolving the printed path of an installed node, from anywhere, gives the node; for an alias
      it gives the target. */
  lemma PathResolves(s: Space, ctx: nat, n: nat)
    requires Wf(s) && ctx < |s.nodes| && n < |s.nodes| && Installed(s, n)
    ensures ResolvedPath(s, ctx, Path(s, n)) == Found(Hop(s, n))
    ensures ResolvedPath(s, ctx, Path(s, n)) == Found(n) <==> !s.nodes[n].kind.Alias?
  {
    assert NodeOk(s, n);
    if n > 0 {
      NamesStep(s, n);
      var d := Dotted(Names(s, n));
      assert Path(s, n)[1..] == d[1..] && d[1..] + "" == d[1..];
      FollowNames(s, n, "");
    }
  }

  /** A segment of fewer than four characters in the middle of a path is never found: the dot after
      it passes lai_is_name and is read as part of the segment. */
  lemma ShortSegmentFails(s: Space, n: nat, t: string, rest: string)
    requires Wf(s) && |t| < 4 && forall i :: 0 <= i < |t| ==> NameChar(t[i])
    ensures FollowPath(s, n, t + "." + rest) == Missing
  {
    var p := t + "." + rest;
    LeadBeyond(p, 4, |t| + 1);
    var name := Pad(p[..Lead(p, 4)]);
    assert name[|t|] == '.';
    ChildNamed(s, (n, name));
    assert !NameOk(name);
  }

  lemma ChildNamed(s: Space, k: (nat, Segment))
    requires Wf(s)
    ensures k in s.children ==> NameOk(k.1)
  {
    assert ChildOk(s, k);
    if k in s.children { assert NodeOk(s, s.children[k]); }
  }

  lemma {:induction false} LeadBeyond(p: string, n: nat, k: nat)
    requires k <= n && k <= |p| && forall i :: 0 <= i < k ==> IsName(p[i])
    ensures Lead(p, n) >= k
  {
    if k > 0 { LeadBeyond(p[1..], n - 1, k - 1); }
  }

  /** At the end of a path a short segment is padded with underscores. */
  lemma LastSegmentPadded(s: Space, n: nat, t: string)
    requires 0 < |t| <= 4 && forall i :: 0 <= i < |t| ==> NameChar(t[i])
    ensures FollowPath(s, n, t)
            == if Child(s, n, Pad(t)).None? then Missing else Found(Hop(s, Child(s, n, Pad(t)).value))
  {
    LeadBeyond(t, 4, |t|);
    assert t[..|t|] == t;
  }

  // ---------------------------------------------------------------------------------------
  // Which dotted paths mean what their padded forms mean
  // ---------------------------------------------------------------------------------------

  /** Segments of one to four name characters. */
  predicate SegmentsOk(ts: seq<string>) {
    ts != [] && forall t :: t in ts ==> 0 < |t| <= 4 && forall i :: 0 <= i < |t| ==> NameChar(t[i])
  }

  function Join(ts: seq<string>): (r: string)
    requires ts != []
  {
    if |ts| == 1 then ts[0] else ts[0] + "." + Join(ts[1..])
  }

  function PadAll(ts: seq<string>): (r: seq<string>)
    requires SegmentsOk(ts)
    ensures |r| == |ts| && forall i :: 0 <= i < |ts| ==> r[i] == Pad(ts[i])
  {
    seq<string>(|ts|, i requires 0 <= i < |ts| => Pad(ts[i]))
  }

  /** Every segment but the last has its four characters. */
  predicate WholeButLast(ts: seq<string>) { forall i :: 0 <= i < |ts| - 1 ==> |ts[i]| == 4 }

  /** A whole segment followed by others. */
  lemma FollowWhole(s: Space, n: nat, name: Segment, rest: string)
    requires NameOk(name)
    ensures FollowPath(s, n, name + "." + rest) ==
      match Child(s, n, name)
      case None => Missing
      case Some(c) => FollowPath(s, Hop(s, c), rest)
  {
    var p := name + "." + rest;
    assert p == name + ("." + rest);
    LeadName(name, "." + rest);
    assert p[5..] == rest;
  }

  lemma JoinTail(ts: seq<string>)
    requires SegmentsOk(ts) && |ts| > 1
    ensures SegmentsOk(ts[1..]) && PadAll(ts)[1..] == PadAll(ts[1..])
  {
  }

  lemma PadWhole(t: string)
    requires |t| == 4
    ensures Pad(t) == t
  {
  }

  lemma PadName(t: string)
    requires 0 < |t| <= 4 && forall i :: 0 <= i < |t| ==> NameChar(t[i])
    ensures NameOk(Pad(t)) && Pad(Pad(t)) == Pad(t)
  {
    PadWhole(Pad(t));
  }

  lemma {:induction false} WholeSame(s: Space, n: nat, ts: seq<string>)
    requires SegmentsOk(ts) && WholeButLast(ts)
    ensures FollowPath(s, n, Join(ts)) == FollowPath(s, n, Join(PadAll(ts)))
    decreases |ts|
  {
    assert ts[0] in ts;
    PadName(ts[0]);
    if |ts| == 1 {
      LastSegmentPadded(s, n, ts[0]);
      LastSegmentPadded(s, n, Pad(ts[0]));
    } else {
      JoinTail(ts);
      PadWhole(ts[0]);
      FollowWhole(s, n, ts[0], Join(ts[1..]));
      FollowWhole(s, n, ts[0], Join(PadAll(ts[1..])));
      if Child(s, n, ts[0]).Some? { WholeSame(s, Hop(s, Child(s, n, ts[0]).value), ts[1..]); }
    }
  }

  /** A well-formed space whose nodes are the padded segments, each a child of the one before. */
  ghost predicate IsChain(s: Space, ts: seq<string>)
    requires SegmentsOk(ts)
  {
    Wf(s) && |s.nodes| == |ts| + 1 && forall i: nat :: LinkAt(s, ts, i)
  }

  ghost predicate LinkAt(s: Space, ts: seq<string>, i: nat)
    requires SegmentsOk(ts)
  {
    i < |ts| ==> Child(s, i, Pad(ts[i])) == Some(i + 1) && Hop(s, i + 1) == i + 1
  }

  function ChainNode(ts: seq<string>, i: nat): Node
    requires SegmentsOk(ts) && i <= |ts|
  {
    if i == 0 then Node("____", None, Root) else Node(Pad(ts[i - 1]), Some(i - 1), Plain)
  }

  function ChainChildren(ts: seq<string>, n: nat): map<(nat, Segment), nat>
    requires SegmentsOk(ts) && n <= |ts|
  {
    if n == 0 then map[] else ChainChildren(ts, n - 1)[(n - 1, Pad(ts[n - 1])) := n]
  }

  lemma {:induction false} ChainKey(ts: seq<string>, n: nat, k: (nat, Segment))
    requires SegmentsOk(ts) && n <= |ts|
    ensures var m := ChainChildren(ts, n);
      && (k in m <==> k.0 < n && k.1 == Pad(ts[k.0])) && (k in m ==> m[k] == k.0 + 1)
  {
    if n > 0 { ChainKey(ts, n - 1, k); }
  }

  lemma ChainNodeOk(s: Space, ts: seq<string>, n: nat)
    requires SegmentsOk(ts) && |s.nodes| == |ts| + 1 && n <= |ts| && s.nodes[n] == ChainNode(ts, n)
    requires n > 0 ==> s.nodes[n - 1] == ChainNode(ts, n - 1)
    ensures NodeOk(s, n)
  {
    if n > 0 {
      assert ts[n - 1] in ts;
      PadName(ts[n - 1]);
    }
  }

  function ChainSpace(ts: seq<string>): (s: Space)
    requires SegmentsOk(ts)
    ensures |s.nodes| == |ts| + 1 && s.children == ChainChildren(ts, |ts|)
    ensures forall i :: 0 <= i <= |ts| ==> s.nodes[i] == ChainNode(ts, i)
  {
    Space(seq<Node>(|ts| + 1, i requires 0 <= i <= |ts| => ChainNode(ts, i)),
          ChainChildren(ts, |ts|))
  }

  lemma ChainSpaceWf(ts: seq<string>)
    requires SegmentsOk(ts)
    ensures Wf(ChainSpace(ts))
  {
    var s := ChainSpace(ts);
    forall n: nat | n < |s.nodes| ensures NodeOk(s, n) { ChainNodeOk(s, ts, n); }
    forall k ensures ChildOk(s, k) { ChainKey(ts, |ts|, k); }
  }

  lemma ChainSpaceIs(ts: seq<string>)
    requires SegmentsOk(ts)
    ensures IsChain(ChainSpace(ts), ts)
  {
    var s := ChainSpace(ts);
    ChainSpaceWf(ts);
    forall i: nat ensures LinkAt(s, ts, i) {
      if i < |ts| { ChainKey(ts, |ts|, (i, Pad(ts[i]))); }
    }
  }

  /** The padded path leads to the last node of the chain. */
  lemma {:induction false} ChainPadded(s: Space, ts: seq<string>, i: nat, rest: seq<string>)
    requires SegmentsOk(ts) && IsChain(s, ts) && i < |ts| && rest == ts[i..] && SegmentsOk(rest)
    ensures FollowPath(s, i, Join(PadAll(rest))) == Found(|ts|)
    decreases |ts| - i
  {
    assert rest[0] in ts && LinkAt(s, ts, i);
    PadName(rest[0]);
    if i + 1 == |ts| {
      LastSegmentPadded(s, i, Pad(rest[0]));
    } else {
      JoinTail(rest);
      FollowWhole(s, i, Pad(rest[0]), Join(PadAll(rest[1..])));
      ChainPadded(s, ts, i + 1, rest[1..]);
    }
  }

  /** The path as it stands leads nowhere if a segment before the last is short. */
  lemma {:induction false} ChainShort(s: Space, ts: seq<string>, i: nat, rest: seq<string>)
    requires SegmentsOk(ts) && IsChain(s, ts) && i < |ts| && rest == ts[i..] && SegmentsOk(rest)
    requires !WholeButLast(rest)
    ensures FollowPath(s, i, Join(rest)) == Missing
    decreases |ts| - i
  {
    assert rest[0] in ts && LinkAt(s, ts, i);
    JoinTail(rest);
    if |rest[0]| < 4 {
      ShortSegmentFails(s, i, rest[0], Join(rest[1..]));
    } else {
      PadWhole(rest[0]);
      FollowWhole(s, i, rest[0], Join(rest[1..]));
      ShortTail(rest);
      ChainShort(s, ts, i + 1, rest[1..]);
    }
  }

  lemma ShortTail(ts: seq<string>)
    requires SegmentsOk(ts) && !WholeButLast(ts) && |ts[0]| == 4
    ensures |ts| > 1 && !WholeButLast(ts[1..])
  {
    var i :| 0 <= i < |ts| - 1 && |ts[i]| != 4;
    assert ts[1..][i - 1] == ts[i];
  }

  /** A path that begins with a name starts at its context. */
  lemma Relative(s: Space, ctx: nat, ts: seq<string>)
    requires SegmentsOk(ts) && ctx < |s.nodes|
    ensures ResolvedPath(s, ctx, Join(ts)) == FollowPath(s, ctx, Join(ts))
  {
    assert ts[0] in ts;
    assert Join(ts)[0] == ts[0][0];
    assert Join(ts)[0..] == Join(ts);
  }

  ghost predicate SameIn(s: Space, ctx: nat, ts: seq<string>)
    requires SegmentsOk(ts)
  {
    Wf(s) && ctx < |s.nodes| ==>
      ResolvedPath(s, ctx, Join(ts)) == ResolvedPath(s, ctx, Join(PadAll(ts)))
  }

  lemma PadAllOk(ts: seq<string>)
    requires SegmentsOk(ts)
    ensures SegmentsOk(PadAll(ts))
  {
    forall t | t in PadAll(ts) ensures 0 < |t| <= 4 && forall i :: 0 <= i < |t| ==> NameChar(t[i]) {
      var i :| 0 <= i < |ts| && PadAll(ts)[i] == t;
      assert ts[i] in ts;
      PadName(ts[i]);
    }
  }

  /** A dotted path resolves like its padded form in every namespace exactly when every segment but
      the last has four characters. */
  lemma PaddedAlikeIff(ts: seq<string>)
    requires SegmentsOk(ts)
    ensures (forall s, ctx: nat :: SameIn(s, ctx, ts)) <==> WholeButLast(ts)
  {
    PadAllOk(ts);
    if WholeButLast(ts) {
      forall s, ctx: nat ensures SameIn(s, ctx, ts) {
        if Wf(s) && ctx < |s.nodes| {
          Relative(s, ctx, ts);
          Relative(s, ctx, PadAll(ts));
          WholeSame(s, ctx, ts);
        }
      }
    } else {
      var s := ChainSpace(ts);
      ChainSpaceIs(ts);
      assert ts[0..] == ts;
      ChainPadded(s, ts, 0, ts);
      ChainShort(s, ts, 0, ts);
      Relative(s, 0, ts);
      Relative(s, 0, PadAll(ts));
      assert !SameIn(s, 0, ts);
    }
  }

  /** The loops that find where a path starts; none of their checks fails. */
  method FindStart(s: Space, ctx: nat, absolute: bool, height: nat) returns (n: nat)
    requires Wf(s) && ctx < |s.nodes|
    ensures n == Start(s, ctx, absolute, height) < |s.nodes|
    ensures absolute ==> s.nodes[n].kind.Root?
  {
    n := ctx;
    assert NodeOk(s, n);
    if absolute {
      while s.nodes[n].parent.Some?
        invariant n < |s.nodes| && NodeOk(s, n)
        decreases n
      {
        n := s.nodes[n].parent.value;
        assert NodeOk(s, n);
      }
    } else {
      var i := 0;
      while i < height && s.nodes[n].parent.Some?
        invariant i <= height && n < |s.nodes| && NodeOk(s, n)
        invariant Climb(s, ctx, height) == Climb(s, n, height - i)
      {
        n := s.nodes[n].parent.value;
        i := i + 1;
        assert NodeOk(s, n);
      }
    }
  }

  /** Reads one segment of a textual path. */
  method ReadSegment(p: string, at: nat) returns (name: Segment, next: nat)
    requires at <= |p|
    ensures next == at + Lead(p[at..], 4) <= |p| && name == Pad(p[at..next])
  {
    var k := 0;
    while k < 4 && at + k < |p| && IsName(p[at + k])
      invariant k <= 4 && at + k <= |p|
      invariant Lead(p[at..], 4) == k + Lead(p[at + k..], 4 - k)
    {
      assert p[at + k..][1..] == p[at + k + 1..];
      k := k + 1;
    }
    next := at + k;
    name := Pad(p[at..next]);
  }

  lemma FollowStep(s: Space, n: nat, p: string, i: nat, next: nat)
    requires i <= next <= |p| && next == i + Lead(p[i..], 4)
    ensures FollowPath(s, n, p[i..]) ==
      match Child(s, n, Pad(p[i..next]))
      case None => Missing
      case Some(c) =>
        if next == |p| then Found(Hop(s, c))
        else if p[next] != '.' then Panic
        else FollowPath(s, Hop(s, c), p[next + 1..])
  {
    assert p[i..][..next - i] == p[i..next];
    if next < |p| { assert p[i..][next - i + 1..] == p[next + 1..]; }
  }

  /** The loop of lai_resolve_path over the segments from position `at`. */
  method Descend(s: Space, start: nat, p: string, at: nat) returns (r: Result)
    requires Wf(s) && start < |s.nodes| && at <= |p|
    ensures r == FollowPath(s, start, p[at..])
  {
    var i, n: nat := at, start;
    while true
      invariant i <= |p| && FollowPath(s, start, p[at..]) == FollowPath(s, n, p[i..])
      decreases |p| - i
    {
      var name, next := ReadSegment(p, i);
      FollowStep(s, n, p, i, next);
      var child := Child(s, n, name);
      if child.None? { return Missing; }
      ChildBound(s, n, name);
      n := child.value;
      assert NodeOk(s, n);
      if s.nodes[n].kind.Alias? { n := s.nodes[n].kind.target; }
      if next == |p| { return Found(n); }
      if p[next] != '.' { return Panic; }
      i := next + 1;
    }
  }

  /** lai_resolve_path; the only check that can fail is the one for a dot between segments. */
  method ResolvePath(s: Space, ctx: nat, p: string) returns (r: Result)
    requires Wf(s) && ctx < |s.nodes|
    ensures r == ResolvedPath(s, ctx, p)
  {
    var i, n := 0, ctx;
    if p != "" && p[0] == '\\' {
      n := FindStart(s, ctx, true, 0);
      i := 1;
    } else {
      while i < |p| && p[i] == '^'
        invariant i <= |p| && Carets(p) == i + Carets(p[i..])
      {
        assert p[i..][1..] == p[i + 1..];
        i := i + 1;
      }
      n := FindStart(s, ctx, false, i);
    }
    if i == |p| { return Found(n); }
    r := Descend(s, n, p, i);
  }

  // ---------------------------------------------------------------------------------------
  // AML names (section 20.2.2 of the ACPI specification)
  // ---------------------------------------------------------------------------------------

  datatype AmlName = AmlName(absolute: bool, height: nat, segs: seq<Segment>)

  function Flat(segs: seq<Segment>): (r: string)
    ensures |r| == 4 * |segs|
  {
    if segs == [] then "" else segs[0] + Flat(segs[1..])
  }

  function Repeat(c: char, n: nat): (r: string)
    ensures |r| == n
  {
    if n == 0 then "" else [c] + Repeat(c, n - 1)
  }

  predicate Encodable(a: AmlName) {
    && (a.absolute ==> a.height == 0) && |a.segs| <= 255
    && forall i :: 0 <= i < |a.segs| ==> NameOk(a.segs[i])
  }

  function EncodePrefix(a: AmlName): string {
    if a.absolute then "\\" else Repeat('^', a.height)
  }

  function EncodeCount(n: nat): string
    requires n <= 255
  {
    if n == 0 then [0 as char] else if n == 1 then ""
    else if n == 2 then [0x2E as char] else [0x2F as char, n as char]
  }

  function EncodeName(a: AmlName): string
    requires Encodable(a)
  {
    EncodePrefix(a) + EncodeCount(|a.segs|) + Flat(a.segs)
  }

  /** A parsed name: its segments are the bytes from `it` to `end`, where the name ends. */
  datatype Parsed = BadName | Parsed(absolute: bool, height: nat, search: bool, it: nat, end: nat)

  /** Bytes past the end read as zero. */
  function At(data: string, i: nat): char { if i < |data| then data[i] else 0 as char }

  /** The part of lai_amlname_parse after the prefix. */
  function ParseCount(data: string, absolute: bool, height: nat, it: nat): Parsed {
    var c := At(data, it);
    if c == 0 as char then Parsed(absolute, height, false, it + 1, it + 1)
    else if c == 0x2E as char then Parsed(absolute, height, false, it + 1, it + 9)
    else if c == 0x2F as char then
      var n := At(data, it + 1) as nat;
      if n <= 2 then BadName else Parsed(absolute, height, false, it + 2, it + 2 + 4 * n)
    else if !IsName(c) then BadName
    else Parsed(absolute, height, !absolute && height == 0, it, it + 4)
  }

  /** lai_amlname_parse. */
  function ParseName(data: string): Parsed {
    if At(data, 0) == '\\' then ParseCount(data, true, 0, 1)
    else ParseCount(data, false, Carets(data), Carets(data))
  }

  /** What lai_amlname_iterate yields between two positions. */
  function SegmentsAt(data: string, it: nat, n: nat): (segs: seq<Segment>)
    ensures |segs| == n
    decreases n
  {
    if n == 0 then [] else [SegmentAt(data, it)] + SegmentsAt(data, it + 4, n - 1)
  }

  function SegmentAt(data: string, it: nat): Segment {
    [At(data, it), At(data, it + 1), At(data, it + 2), At(data, it + 3)]
  }

  lemma {:induction false} CaretsRepeat(n: nat, rest: string)
    requires rest == "" || rest[0] != '^'
    ensures Carets(Repeat('^', n) + rest) == n
  {
    if n == 0 {
      assert Repeat('^', 0) + rest == rest;
    } else {
      assert (Repeat('^', n) + rest)[1..] == Repeat('^', n - 1) + rest;
      CaretsRepeat(n - 1, rest);
    }
  }

  lemma {:induction false} SegmentsFlat(pre: string, segs: seq<Segment>, rest: string)
    ensures SegmentsAt(pre + Flat(segs) + rest, |pre|, |segs|) == segs
    decreases segs
  {
    if segs != [] {
      assert pre + Flat(segs) + rest == (pre + segs[0]) + Flat(segs[1..]) + rest;
      SegmentsFlat(pre + segs[0], segs[1..], rest);
      var data := (pre + segs[0]) + Flat(segs[1..]) + rest;
      assert forall i :: 0 <= i < 4 ==> data[|pre| + i] == segs[0][i];
      assert SegmentAt(data, |pre|) == segs[0];
      assert segs == [segs[0]] + segs[1..];
    }
  }

  /** Parsing the count and first byte of an encoded name. */
  lemma ParseCountEncoded(pre: string, a: AmlName, rest: string)
    requires Encodable(a)
    ensures var data := pre + EncodeCount(|a.segs|) + (Flat(a.segs) + rest);
      ParseCount(data, a.absolute, a.height, |pre|)
      == Parsed(a.absolute, a.height, |a.segs| == 1 && !a.absolute && a.height == 0,
                |pre| + |EncodeCount(|a.segs|)|,
                |pre| + |EncodeCount(|a.segs|)| + 4 * |a.segs|)
  {
    var c := EncodeCount(|a.segs|);
    var data := pre + c + (Flat(a.segs) + rest);
    if |a.segs| == 1 {
      assert data[|pre|] == Flat(a.segs)[0] == a.segs[0][0];
    } else {
      assert data[|pre|] == c[0];
      if |a.segs| > 2 { assert data[|pre| + 1] == c[1]; }
    }
  }

  /** Parsing an encoded name gives it back and consumes exactly its encoding. */
  lemma NameRoundTrip(a: AmlName, rest: string)
    requires Encodable(a)
    ensures var data := EncodeName(a) + rest;
      var p := ParseName(data);
      && p.Parsed? && p.absolute == a.absolute && p.height == a.height
      && p.search == (|a.segs| == 1 && !a.absolute && a.height == 0)
      && p.end == |EncodeName(a)| == p.it + 4 * |a.segs|
      && SegmentsAt(data, p.it, |a.segs|) == a.segs
  {
    var pre, c := EncodePrefix(a), EncodeCount(|a.segs|);
    var data := EncodeName(a) + rest;
    assert data == pre + c + (Flat(a.segs) + rest) == (pre + c) + Flat(a.segs) + rest;
    ParseCountEncoded(pre, a, rest);
    SegmentsFlat(pre + c, a.segs, rest);
    var tail := c + (Flat(a.segs) + rest);
    assert data == pre + tail;
    FirstByte(a, tail, rest);
    if a.absolute {
      assert At(data, 0) == '\\';
    } else {
      CaretsRepeat(a.height, tail);
      assert At(data, 0) == if a.height > 0 then '^' else At(tail, 0);
    }
  }

  /** The byte after the prefix is no prefix byte. */
  lemma FirstByte(a: AmlName, tail: string, rest: string)
    requires Encodable(a) && tail == EncodeCount(|a.segs|) + (Flat(a.segs) + rest)
    ensures tail != "" && tail[0] != '^' && tail[0] != '\\'
  {
    var c := EncodeCount(|a.segs|);
    if |a.segs| == 1 {
      assert tail[0] == Flat(a.segs)[0] == a.segs[0][0];
    } else {
      assert tail[0] == c[0];
    }
  }

  // ---------------------------------------------------------------------------------------
  // Resolving AML names
  // ---------------------------------------------------------------------------------------

  function WalkDown(s: Space, n: nat, segs: seq<Segment>): Option<nat>
    decreases segs
  {
    if segs == [] then Some(n)
    else
      match Child(s, n, segs[0])
      case None => None
      case Some(c) => WalkDown(s, c, segs[1..])
  }

  /** lai_do_resolve. */
  function Resolved(s: Space, ctx: nat, search: bool, a: AmlName): Result
    requires ctx < |s.nodes| && forall m: nat | m < |s.nodes| :: NodeOk(s, m)
    requires search ==> a.segs != []
  {
    if search then Search(s, ctx, a.segs[0])
    else
      var n := Start(s, ctx, a.absolute, a.height);
      match WalkDown(s, n, a.segs)
      case None => Missing
      case Some(m) => if a.segs == [] then Found(n) else Found(Hop(s, m))
  }

  lemma {:induction false} WalkSnoc(s: Space, n: nat, segs: seq<Segment>, name: Segment)
    ensures WalkDown(s, n, segs + [name]) ==
      match WalkDown(s, n, segs)
      case None => None
      case Some(m) => Child(s, m, name)
    decreases segs
  {
    if segs == [] {
      assert ([] + [name])[1..] == [] && ([] + [name])[0] == name;
    } else {
      assert (segs + [name])[1..] == segs[1..] + [name];
      match Child(s, n, segs[0])
      case None =>
      case Some(c) => WalkSnoc(s, c, segs[1..], name);
    }
  }

  lemma {:induction false} WalkNames(s: Space, n: nat)
    requires Wf(s) && n < |s.nodes| && Installed(s, n)
    ensures WalkDown(s, 0, Names(s, n)) == Some(n)
  {
    assert NodeOk(s, n);
    if n > 0 {
      var p := s.nodes[n].parent.value;
      WalkNames(s, p);
      WalkSnoc(s, 0, Names(s, p), s.nodes[n].name);
    }
  }

  /** The absolute AML name of an installed node resolves, from anywhere, to what its printed path
      resolves to: the node, or the target of an alias. */
  lemma AmlNameResolves(s: Space, ctx: nat, n: nat)
    requires Wf(s) && ctx < |s.nodes| && n < |s.nodes| && Installed(s, n)
    ensures Resolved(s, ctx, false, AmlName(true, 0, Names(s, n))) == Found(Hop(s, n))
    ensures Resolved(s, ctx, false, AmlName(true, 0, Names(s, n)))
            == ResolvedPath(s, ctx, Path(s, n))
  {
    WalkNames(s, n);
    PathResolves(s, ctx, n);
    assert NodeOk(s, n);
  }

  /** What the AML name that data begins with resolves to. */
  function ResolvedAml(s: Space, ctx: nat, data: string): Result
    requires ctx < |s.nodes| && forall m: nat | m < |s.nodes| :: NodeOk(s, m)
  {
    var p := ParseName(data);
    if p.BadName? then Panic
    else Resolved(s, ctx, p.search,
                  AmlName(p.absolute, p.height, SegmentsAt(data, p.it, (p.end - p.it) / 4)))
  }

  lemma {:induction false} NamesOk(s: Space, n: nat)
    requires Wf(s) && n < |s.nodes|
    ensures forall i :: 0 <= i < |Names(s, n)| ==> NameOk(Names(s, n)[i])
  {
    assert NodeOk(s, n);
    if n > 0 { NamesOk(s, s.nodes[n].parent.value); }
  }

  /** The encoded absolute name of an installed node, whatever follows it in the table: parsing
      consumes exactly the encoding, and from anywhere it resolves to the node, or to the target of
      an alias. */
  lemma EncodedNameResolves(s: Space, ctx: nat, n: nat, rest: string)
    requires Wf(s) && ctx < |s.nodes| && n < |s.nodes| && Installed(s, n) && |Names(s, n)| <= 255
    ensures Encodable(AmlName(true, 0, Names(s, n)))
    ensures var code := EncodeName(AmlName(true, 0, Names(s, n)));
      && ParseName(code + rest).Parsed? && ParseName(code + rest).end == |code|
      && ResolvedAml(s, ctx, code + rest) == Found(Hop(s, n))
  {
    NamesOk(s, n);
    var a := AmlName(true, 0, Names(s, n));
    NameRoundTrip(a, rest);
    ParsedResolves(s, ctx, EncodeName(a) + rest, a);
    AmlNameResolves(s, ctx, n);
  }

  lemma ParsedResolves(s: Space, ctx: nat, data: string, a: AmlName)
    requires Wf(s) && ctx < |s.nodes| && ParseName(data).Parsed? && !ParseName(data).search
    requires var p := ParseName(data);
      && p.absolute == a.absolute && p.height == a.height && p.end == p.it + 4 * |a.segs|
      && SegmentsAt(data, p.it, |a.segs|) == a.segs
    ensures ResolvedAml(s, ctx, data) == Resolved(s, ctx, false, a)
  {
    var p := ParseName(data);
    assert (p.end - p.it) / 4 == |a.segs|;
    assert AmlName(p.absolute, p.height, a.segs) == a;
  }

  /** The search of lai_do_resolve through the enclosing scopes, a loop of its own. */
  method SearchScopes(s: Space, ctx: nat, name: Segment) returns (r: Result)
    requires Wf(s) && ctx < |s.nodes| && !s.nodes[ctx].kind.Alias?
    ensures r == Search(s, ctx, name) && r != Panic
  {
    var current: nat, more := ctx, true;
    while more
      invariant current < |s.nodes|
      invariant Search(s, ctx, name) == if more then Search(s, current, name) else Missing
      decreases more, current
    {
      assert NodeOk(s, current);
      var node := Child(s, current, name);
      if node.None? {
        more := s.nodes[current].parent.Some?;
        if more { current := s.nodes[current].parent.value; }
      } else {
        ChildBound(s, current, name);
        var found := node.value;
        assert NodeOk(s, found);
        if s.nodes[found].kind.Alias? {
          found := s.nodes[found].kind.target;
          if s.nodes[found].kind.Alias? { return Panic; }
        }
        return Found(found);
      }
    }
    return Missing;
  }

  /** lai_amlname_parse, then lai_do_resolve. */
  method ResolveAml(s: Space, ctx: nat, data: string) returns (r: Result)
    requires Wf(s) && ctx < |s.nodes| && !s.nodes[ctx].kind.Alias?
    ensures r == ResolvedAml(s, ctx, data)
    ensures r == Panic <==> ParseName(data).BadName?
  {
    var p := ParseName(data);
    if p.BadName? { return Panic; }
    ghost var segs := SegmentsAt(data, p.it, (p.end - p.it) / 4);
    var it := p.it;
    if p.search {
      var name := SegmentAt(data, it);
      assert segs[0] == name;
      if it + 4 != p.end { return Panic; }
      r := SearchScopes(s, ctx, name);
      return;
    }
    var start := FindStart(s, ctx, p.absolute, p.height);
    if it == p.end { return Found(start); }
    var n: nat := start;
    while it < p.end
      invariant it <= p.end && (p.end - it) % 4 == 0 && n < |s.nodes|
      invariant WalkDown(s, start, segs) == WalkDown(s, n, SegmentsAt(data, it, (p.end - it) / 4))
    {
      var name := SegmentAt(data, it);
      var rest := SegmentsAt(data, it + 4, (p.end - it) / 4 - 1);
      assert SegmentsAt(data, it, (p.end - it) / 4) == [name] + rest;
      var child := Child(s, n, name);
      if child.None? { return Missing; }
      ChildBound(s, n, name);
      n := child.value;
      it := it + 4;
    }
    assert NodeOk(s, n);
    if s.nodes[n].kind.Alias? {
      if s.nodes[s.nodes[n].kind.target].kind.Alias? { return Panic; }
      return Found(s.nodes[n].kind.target);
    }
    return Found(n);
  }
}
