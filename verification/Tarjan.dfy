/** `sccs` of dev/module-graph.py: Tarjan's strongly connected components.

    The visits keep one invariant: numbers rise along the stack, an entry reaches every later one and
    some open visit at or below it, a visit that has returned has no unvisited successor, and what has
    been emitted are whole components, callees first. The class at the end holds the dicts, the stack,
    the list and the counter of the original; each of its methods is one step of `visit`. */
module Tarjan {
  import opened Names
  import opened Graphs

  /** What the visits share, as a value: visit numbers, the stack, the emitted components. */
  datatype View = View(index: map<string, nat>, stack: seq<string>, out: seq<seq<string>>, counter: nat)

  // ---------- the invariant of the visits ----------

  /** Visit numbers rise along the stack; a visited node is on the stack or emitted, never both. */
  ghost predicate Numbered(g: Graph, s: View) {
    && s.index.Keys <= Nodes(g)
    && (forall v :: Placed(s, v))
    && (forall i, j :: Rises(s, i, j))
  }

  ghost predicate Placed(s: View, v: string) {
    && (v in s.index <==> v in s.stack || v in Done(s.out))
    && (v in s.stack ==> v !in Done(s.out))
    && (v in s.index ==> s.index[v] < s.counter)
  }

  ghost predicate Rises(s: View, i: nat, j: nat) {
    i < j < |s.stack| && s.stack[i] in s.index && s.stack[j] in s.index ==> s.index[s.stack[i]] < s.index[s.stack[j]]
  }

  ghost predicate Emitted(g: Graph, s: View) {
    Components(g, s.out) && ReverseTopological(g, s.out)
  }

  /** A visited node whose visit has returned has no unvisited successor. */
  ghost predicate NoBlackToWhite(g: Graph, s: View, gray: set<string>) {
    forall v :: Blackened(g, s, gray, v)
  }

  ghost predicate Blackened(g: Graph, s: View, gray: set<string>, v: string) {
    v in s.index && v !in gray ==> Succ(g, v) <= s.index.Keys
  }

  /** Each stack entry reaches every later one. */
  ghost predicate Upward(g: Graph, stack: seq<string>) {
    forall i, j :: Up(g, stack, i, j)
  }

  ghost predicate Up(g: Graph, stack: seq<string>, i: nat, j: nat) {
    i <= j < |stack| ==> Reach(g, stack[i], stack[j])
  }

  /** Stack entry i reaches an open visit at or below it. */
  ghost predicate Anchored(g: Graph, stack: seq<string>, gray: set<string>, i: nat) {
    i < |stack| ==> exists k :: 0 <= k <= i && stack[k] in gray && Reach(g, stack[i], stack[k])
  }

  ghost predicate AllAnchored(g: Graph, stack: seq<string>, gray: set<string>) {
    forall i :: Anchored(g, stack, gray, i)
  }

  ghost predicate Opened(stack: seq<string>, gray: set<string>, u: string) {
    u in gray ==> u in stack
  }

  ghost predicate Inv(g: Graph, s: View, gray: set<string>) {
    match s
    case View(_, stack, _, _) =>
      && Numbered(g, s)
      && Emitted(g, s)
      && NoBlackToWhite(g, s, gray)
      && (forall u :: Opened(stack, gray, u))
      && Upward(g, stack)
      && AllAnchored(g, stack, gray)
  }

  /** `t` extends `s`: old visits keep their number, the stack only grew on top, emitted components stay. */
  ghost predicate Extends(s: View, t: View) {
    && (forall v :: KeepsNumber(s, t, v))
    && s.stack <= t.stack
    && s.out <= t.out
    && s.counter <= t.counter
  }

  ghost predicate KeepsNumber(s: View, t: View, v: string) {
    v in s.index ==> v in t.index && t.index[v] == s.index[v]
  }

  /** Stack entry `j` below position `base` is no target, or its number is at least `low`. */
  ghost predicate BoundAt(g: Graph, s: View, base: nat, targets: set<string>, low: nat, j: nat)
    requires Numbered(g, s) && base <= |s.stack|
  {
    j < base && s.stack[j] in targets ==> low <= Number(g, s, j)
  }

  /** No target sits below position `base` with a number under `low`. */
  ghost predicate Bounds(g: Graph, s: View, base: nat, targets: set<string>, low: nat)
    requires Numbered(g, s) && base <= |s.stack|
  {
    forall j :: BoundAt(g, s, base, targets, low, j)
  }

  /** The successors of stack entry `i`, at `from` or above, are bounded. */
  ghost predicate EntryBounded(g: Graph, s: View, base: nat, from: nat, low: nat, i: nat)
    requires Numbered(g, s) && base <= |s.stack|
  {
    from <= i < |s.stack| ==> Bounds(g, s, base, Succ(g, s.stack[i]), low)
  }

  ghost predicate AllBound(g: Graph, s: View, base: nat, from: nat, low: nat)
    requires Numbered(g, s) && base <= |s.stack|
  {
    forall i :: EntryBounded(g, s, base, from, low, i)
  }

  /** The visit number of a stack entry. */
  ghost function Number(g: Graph, s: View, j: nat): nat
    requires Numbered(g, s) && j < |s.stack|
  {
    assert Placed(s, s.stack[j]);
    s.index[s.stack[j]]
  }

  /** Stack entry `at` has number `low`, and `v` reaches it. */
  ghost predicate Witness(g: Graph, s: View, v: string, low: nat, at: nat)
    requires Numbered(g, s) && at < |s.stack|
  {
    Number(g, s, at) == low && Reach(g, v, s.stack[at])
  }

  /** `low` is the number of a stack entry that `v` reaches. */
  ghost predicate Witnessed(g: Graph, s: View, v: string, low: nat)
    requires Numbered(g, s)
  {
    exists at :: 0 <= at < |s.stack| && Witness(g, s, v, low, at)
  }

  /** The visit of `v` sits at position `base`, every other open visit below it. */
  ghost predicate Root(s: View, gray: set<string>, v: string, base: nat) {
    base < |s.stack| && s.stack[base] == v && forall i :: NotOpen(s, gray, base, i)
  }

  ghost predicate NotOpen(s: View, gray: set<string>, base: nat, i: nat) {
    base <= i < |s.stack| ==> s.stack[i] !in gray
  }

  // ---------- steps ----------

  lemma InIndex(g: Graph, s: View, i: nat)
    requires Numbered(g, s) && i < |s.stack|
    ensures s.stack[i] in s.index && s.stack[i] !in Done(s.out)
  {
    assert Placed(s, s.stack[i]);
  }

  /** All open visits reach `v`. */
  ghost predicate OpenReach(g: Graph, gray: set<string>, v: string) {
    forall u :: OpenReaches(g, gray, u, v)
  }

  ghost predicate OpenReaches(g: Graph, gray: set<string>, u: string, v: string) {
    u in gray ==> Reach(g, u, v)
  }

  /** Every stack entry reaches a node that all open visits reach. */
  lemma StackReaches(g: Graph, s: View, gray: set<string>, v: string, i: nat)
    requires Inv(g, s, gray) && i < |s.stack| && OpenReach(g, gray, v)
    ensures Reach(g, s.stack[i], v)
  {
    assert Anchored(g, s.stack, gray, i);
    var k :| 0 <= k <= i && s.stack[k] in gray && Reach(g, s.stack[i], s.stack[k]);
    assert OpenReaches(g, gray, s.stack[k], v);
    ReachTrans(g, s.stack[i], s.stack[k], v);
  }

  ghost function Pushed(s: View, v: string): View {
    View(s.index[v := s.counter], s.stack + [v], s.out, s.counter + 1)
  }

  lemma PushKeeps(g: Graph, s: View, gray: set<string>, v: string)
    requires Inv(g, s, gray) && v in Nodes(g) && v !in s.index
    requires OpenReach(g, gray, v)
    ensures Inv(g, Pushed(s, v), gray + {v}) && Extends(s, Pushed(s, v))
  {
    var t := Pushed(s, v);
    assert Placed(s, v);
    forall u
      ensures Placed(t, u) && Opened(t.stack, gray + {v}, u) && KeepsNumber(s, t, u)
    {
      assert Placed(s, u) && Opened(s.stack, gray, u);
    }
    forall i: nat, j: nat
      ensures Rises(t, i, j)
    {
      assert Rises(s, i, j);
      if i < |s.stack| { InIndex(g, s, i); assert Placed(s, s.stack[i]); }
      if j < |s.stack| { InIndex(g, s, j); }
    }
    forall u
      ensures Blackened(g, t, gray + {v}, u)
    {
      assert Blackened(g, s, gray, u);
    }
    ReachRefl(g, v);
    forall i: nat, j: nat
      ensures Up(g, t.stack, i, j)
    {
      assert Up(g, s.stack, i, j);
      if i < j == |s.stack| { StackReaches(g, s, gray, v, i); }
    }
    forall i: nat
      ensures Anchored(g, t.stack, gray + {v}, i)
    {
      assert Anchored(g, s.stack, gray, i);
      if i < |s.stack| {
        var k :| 0 <= k <= i && s.stack[k] in gray && Reach(g, s.stack[i], s.stack[k]);
        assert t.stack[k] in gray + {v} && Reach(g, t.stack[i], t.stack[k]);
      } else if i == |s.stack| {
        assert t.stack[i] in gray + {v} && Reach(g, t.stack[i], t.stack[i]);
      }
    }
  }

  lemma StackDistinct(g: Graph, s: View, i: nat, j: nat)
    requires Numbered(g, s) && i < |s.stack| && j < |s.stack|
    ensures s.stack[i] == s.stack[j] ==> i == j
    ensures Number(g, s, i) < Number(g, s, j) <==> i < j
  {
    InIndex(g, s, i);
    InIndex(g, s, j);
    assert Rises(s, i, j) && Rises(s, j, i);
  }

  /** A visit that found a lower stack entry ends and leaves its node on the stack. */
  lemma StayKeeps(g: Graph, s: View, gray: set<string>, v: string, base: nat, low: nat)
    requires Inv(g, s, gray + {v}) && Root(s, gray, v, base) && Succ(g, v) <= s.index.Keys
    requires Witnessed(g, s, v, low) && low < Number(g, s, base)
    ensures Inv(g, s, gray)
  {
    forall i: nat | i < |s.stack|
      ensures Anchored(g, s.stack, gray, i)
    {
      StayAnchors(g, s, gray, v, base, low, i);
    }
    forall u
      ensures Blackened(g, s, gray, u) && Opened(s.stack, gray, u)
    {
      assert Blackened(g, s, gray + {v}, u) && Opened(s.stack, gray + {v}, u);
    }
  }

  lemma StayAnchors(g: Graph, s: View, gray: set<string>, v: string, base: nat, low: nat, i: nat)
    requires Numbered(g, s) && Root(s, gray, v, base) && i < |s.stack|
    requires AllAnchored(g, s.stack, gray + {v})
    requires Witnessed(g, s, v, low) && low < Number(g, s, base)
    ensures Anchored(g, s.stack, gray, i)
  {
    assert Anchored(g, s.stack, gray + {v}, i);
    var k :| 0 <= k <= i && s.stack[k] in gray + {v} && Reach(g, s.stack[i], s.stack[k]);
    if s.stack[k] == v {
      var at :| 0 <= at < |s.stack| && Witness(g, s, v, low, at);
      var k' := LowerAnchor(g, s, gray, v, base, low, at);
      StackDistinct(g, s, k, base);
      ReachTrans(g, s.stack[i], v, s.stack[at]);
      ReachTrans(g, s.stack[i], s.stack[at], s.stack[k']);
    }
  }

  lemma LowerAnchor(g: Graph, s: View, gray: set<string>, v: string, base: nat, low: nat, at: nat) returns (k: nat)
    requires Numbered(g, s) && Root(s, gray, v, base) && at < |s.stack|
    requires Anchored(g, s.stack, gray + {v}, at)
    requires Witness(g, s, v, low, at) && low < Number(g, s, base)
    ensures k <= at < base && s.stack[k] in gray && Reach(g, s.stack[at], s.stack[k])
  {
    StackDistinct(g, s, at, base);
    k :| 0 <= k <= at && s.stack[k] in gray + {v} && Reach(g, s.stack[at], s.stack[k]);
    StackDistinct(g, s, k, base);
  }

  ghost function Popped(s: View, base: nat, c: seq<string>): View
    requires base <= |s.stack|
  {
    View(s.index, s.stack[..base], s.out + [c], s.counter)
  }

  lemma DoneGrows(out: seq<seq<string>>, c: seq<string>)
    ensures Done(out + [c]) == Done(out) + Elements(c)
  {
    forall x
      ensures x in Done(out + [c]) <==> x in Done(out) + Elements(c)
    {
      if x in Done(out) {
        var d :| d in out && x in d;
        assert d in out + [c];
      }
      if x in c {
        assert c in out + [c];
      }
    }
  }

  lemma DoneClosed(g: Graph, out: seq<seq<string>>)
    requires ReverseTopological(g, out)
    ensures Closed(g, Done(out))
  {
    forall x, y | x in Done(out) && y in Succ(g, x)
      ensures y in Done(out)
    {
      var c :| c in out && x in c;
      var i :| 0 <= i < |out| && out[i] == c;
      assert EdgesBack(g, out, i);
      assert y in Done(out[..i + 1]);
    }
  }

  /** The entries from the root up are mutually reachable: each reaches an open visit at or below the root. */
  lemma SegmentMutual(g: Graph, s: View, gray: set<string>, v: string, base: nat, i: nat)
    requires Inv(g, s, gray + {v}) && Root(s, gray, v, base) && base <= i < |s.stack|
    ensures Mutual(g, v, s.stack[i])
  {
    assert Anchored(g, s.stack, gray + {v}, i);
    var k :| 0 <= k <= i && s.stack[k] in gray + {v} && Reach(g, s.stack[i], s.stack[k]);
    assert NotOpen(s, gray, base, k);
    if s.stack[k] != v {
      assert Up(g, s.stack, k, base);
      ReachTrans(g, s.stack[i], s.stack[k], v);
    }
    assert Up(g, s.stack, base, i);
  }

  /** The segment a root pops. */
  ghost function Segment(s: View, base: nat): set<string>
    requires base <= |s.stack|
  {
    Elements(s.stack[base..])
  }

  lemma SegmentMember(s: View, base: nat, x: string) returns (i: nat)
    requires base <= |s.stack| && x in Segment(s, base)
    ensures base <= i < |s.stack| && s.stack[i] == x
  {
    var j :| 0 <= j < |s.stack[base..]| && s.stack[base..][j] == x;
    i := base + j;
  }

  /** A root without a lower link: its segment's edges end in the segment or in an emitted component. */
  lemma SegmentEdges(g: Graph, s: View, gray: set<string>, v: string, base: nat, i: nat)
    requires Inv(g, s, gray + {v}) && Root(s, gray, v, base) && Succ(g, v) <= s.index.Keys
    requires AllBound(g, s, base, base, Number(g, s, base)) && base <= i < |s.stack|
    ensures Succ(g, s.stack[i]) <= Done(s.out) + Segment(s, base)
  {
    InIndex(g, s, i);
    assert Blackened(g, s, gray + {v}, s.stack[i]) && NotOpen(s, gray, base, i);
    assert EntryBounded(g, s, base, base, Number(g, s, base), i);
    forall j: nat | j < base
      ensures s.stack[j] !in Succ(g, s.stack[i])
    {
      assert BoundAt(g, s, base, Succ(g, s.stack[i]), Number(g, s, base), j);
      StackDistinct(g, s, j, base);
    }
    forall y | y in Succ(g, s.stack[i])
      ensures y in Done(s.out) + Segment(s, base)
    {
      assert Placed(s, y);
      if y in s.stack {
        var j :| 0 <= j < |s.stack| && s.stack[j] == y;
        assert y == s.stack[base..][j - base];
      }
    }
  }

  lemma SegmentClosed(g: Graph, s: View, gray: set<string>, v: string, base: nat)
    requires Inv(g, s, gray + {v}) && Root(s, gray, v, base) && Succ(g, v) <= s.index.Keys
    requires AllBound(g, s, base, base, Number(g, s, base))
    ensures Closed(g, Done(s.out) + Segment(s, base))
  {
    DoneClosed(g, s.out);
    forall x | x in Segment(s, base)
      ensures Succ(g, x) <= Done(s.out) + Segment(s, base)
    {
      var i := SegmentMember(s, base, x);
      SegmentEdges(g, s, gray, v, base, i);
    }
  }

  /** What is popped with a root is one whole component. */
  lemma SegmentIsComponent(g: Graph, s: View, gray: set<string>, v: string, base: nat, c: seq<string>)
    requires Inv(g, s, gray + {v}) && Root(s, gray, v, base) && Succ(g, v) <= s.index.Keys
    requires AllBound(g, s, base, base, Number(g, s, base))
    requires Ascending(c) && Elements(c) == Segment(s, base)
    ensures IsComponent(g, c)
  {
    assert s.stack[base..][0] == v;
    assert v in Elements(c);
    forall x, y | x in c
      ensures Shares(g, c, x, y)
    {
      assert x in Elements(c);
      var i := SegmentMember(s, base, x);
      SegmentMutual(g, s, gray, v, base, i);
      if y in c {
        assert y in Elements(c);
        var j := SegmentMember(s, base, y);
        SegmentMutual(g, s, gray, v, base, j);
        ReachTrans(g, x, v, y);
        ReachTrans(g, y, v, x);
      }
      if Mutual(g, x, y) {
        InIndex(g, s, i);
        SegmentComplete(g, s, gray, v, base, x, y);
        assert y in Elements(c);
      }
    }
  }

  /** Whatever is mutually reachable with a member of the segment is in it. */
  lemma SegmentComplete(g: Graph, s: View, gray: set<string>, v: string, base: nat, x: string, y: string)
    requires Inv(g, s, gray + {v}) && Root(s, gray, v, base) && Succ(g, v) <= s.index.Keys
    requires AllBound(g, s, base, base, Number(g, s, base))
    requires x in Segment(s, base) && Mutual(g, x, y)
    ensures y in Segment(s, base)
  {
    SegmentClosed(g, s, gray, v, base);
    ReachStays(g, Done(s.out) + Segment(s, base), x, y);
    var i := SegmentMember(s, base, x);
    InIndex(g, s, i);
    DoneClosed(g, s.out);
    if y in Done(s.out) {
      ReachStays(g, Done(s.out), y, x);
    }
  }

  /** A visit that found none pops its node and everything above: one component, emitted. */
  lemma PopKeeps(g: Graph, s: View, gray: set<string>, v: string, base: nat, c: seq<string>)
    requires Inv(g, s, gray + {v}) && Root(s, gray, v, base) && Succ(g, v) <= s.index.Keys
    requires AllBound(g, s, base, base, Number(g, s, base))
    requires Ascending(c) && Elements(c) == Segment(s, base)
    ensures Inv(g, Popped(s, base, c), gray)
  {
    var t := Popped(s, base, c);
    SegmentIsComponent(g, s, gray, v, base, c);
    forall i | base <= i < |s.stack|
      ensures Succ(g, s.stack[i]) <= Done(s.out) + Segment(s, base)
    {
      SegmentEdges(g, s, gray, v, base, i);
    }
    PopNumbered(g, s, base, c);
    PopEmitted(g, s, base, c);
    forall i: nat | i < |t.stack|
      ensures Anchored(g, t.stack, gray, i)
    {
      assert Anchored(g, s.stack, gray + {v}, i);
      var k :| 0 <= k <= i && s.stack[k] in gray + {v} && Reach(g, s.stack[i], s.stack[k]);
      StackDistinct(g, s, k, base);
      assert NotOpen(s, gray, base, k);
      assert t.stack[k] in gray && Reach(g, t.stack[i], t.stack[k]);
    }
    forall u
      ensures Blackened(g, t, gray, u)
    {
      assert Blackened(g, s, gray + {v}, u);
    }
    forall i: nat, j: nat
      ensures Up(g, t.stack, i, j)
    {
      assert Up(g, s.stack, i, j);
    }
    forall u
      ensures Opened(t.stack, gray, u)
    {
      assert Opened(s.stack, gray + {v}, u);
      if u in gray {
        var k :| 0 <= k < |s.stack| && s.stack[k] == u;
        assert NotOpen(s, gray, base, k);
        assert t.stack[k] == u;
      }
    }
  }

  lemma PopNumbered(g: Graph, s: View, base: nat, c: seq<string>)
    requires Numbered(g, s) && base <= |s.stack| && Elements(c) == Segment(s, base)
    ensures Numbered(g, Popped(s, base, c))
  {
    DoneGrows(s.out, c);
    var t := Popped(s, base, c);
    forall x
      ensures Placed(t, x)
    {
      assert Placed(s, x);
      assert s.stack == t.stack + s.stack[base..];
      if x in Segment(s, base) {
        var i := SegmentMember(s, base, x);
        forall j | 0 <= j < base
          ensures t.stack[j] != x
        {
          StackDistinct(g, s, i, j);
        }
      }
    }
    forall i: nat, j: nat
      ensures Rises(t, i, j)
    {
      assert Rises(s, i, j);
    }
  }

  lemma PopEmitted(g: Graph, s: View, base: nat, c: seq<string>)
    requires Numbered(g, s) && Emitted(g, s) && base <= |s.stack|
    requires IsComponent(g, c) && Elements(c) == Segment(s, base)
    requires forall i :: base <= i < |s.stack| ==> Succ(g, s.stack[i]) <= Done(s.out) + Segment(s, base)
    ensures Emitted(g, Popped(s, base, c))
  {
    var out := s.out + [c];
    DoneGrows(s.out, c);
    forall x | x in c
      ensures x !in Done(s.out)
    {
      assert x in Elements(c);
      var i := SegmentMember(s, base, x);
      InIndex(g, s, i);
    }
    forall i: nat
      ensures ComponentAt(g, out, i)
    {
      assert ComponentAt(g, s.out, i);
    }
    forall i: nat, j: nat
      ensures Disjoint(out, i, j)
    {
      assert Disjoint(s.out, i, j);
    }
    forall i: nat
      ensures EdgesBack(g, out, i)
    {
      assert EdgesBack(g, s.out, i);
      if i == |s.out| {
        assert out[..i + 1] == out;
        forall x | x in c
          ensures Succ(g, x) <= Done(out)
        {
          assert x in Elements(c);
          var j := SegmentMember(s, base, x);
        }
      } else if i < |s.out| {
        assert out[..i + 1] == s.out[..i + 1];
      }
    }
  }

  // ---------- the edge loop of one visit ----------

  /** What the loop over the successors of `v` has established; `ws` are the ones still to come. */
  ghost predicate Progress(g: Graph, s: View, base: nat, v: string, ws: set<string>, low: nat)
    requires Numbered(g, s) && base < |s.stack|
  {
    AllBound(g, s, base, base + 1, low) && Bounds(g, s, base, Succ(g, v) - ws, low)
  }

  function Min(a: nat, b: nat): nat {
    if a <= b then a else b
  }

  lemma ExtendsTrans(s: View, t: View, u: View)
    requires Extends(s, t) && Extends(t, u)
    ensures Extends(s, u)
  {
    forall v
      ensures KeepsNumber(s, u, v)
    {
      assert KeepsNumber(s, t, v) && KeepsNumber(t, u, v);
    }
  }

  lemma NumberKept(g: Graph, s: View, t: View, j: nat)
    requires Numbered(g, s) && Numbered(g, t) && Extends(s, t) && j < |s.stack|
    ensures Number(g, t, j) == Number(g, s, j) && t.stack[j] == s.stack[j] && s.stack[j] in s.index
  {
    InIndex(g, s, j);
    assert KeepsNumber(s, t, s.stack[j]);
  }

  lemma BoundsLower(g: Graph, s: View, t: View, base: nat, targets: set<string>, low: nat, low': nat)
    requires Numbered(g, s) && Numbered(g, t) && Extends(s, t) && base <= |s.stack| && low' <= low
    requires Bounds(g, s, base, targets, low)
    ensures Bounds(g, t, base, targets, low')
  {
    forall j: nat
      ensures BoundAt(g, t, base, targets, low', j)
    {
      assert BoundAt(g, s, base, targets, low, j);
      if j < base { NumberKept(g, s, t, j); }
    }
  }

  lemma WitnessCarried(g: Graph, s: View, t: View, v: string, low: nat)
    requires Numbered(g, s) && Numbered(g, t) && Extends(s, t) && Witnessed(g, s, v, low)
    ensures Witnessed(g, t, v, low)
  {
    var at :| 0 <= at < |s.stack| && Witness(g, s, v, low, at);
    NumberKept(g, s, t, at);
    assert Witness(g, t, v, low, at);
  }

  /** After a nested visit of `w`: `low[v] = min(low[v], low[w])`. */
  lemma ProgressVisited(g: Graph, s: View, t: View, base: nat, v: string, ws: set<string>, low: nat, w: string, lowW: nat)
    requires Numbered(g, s) && Numbered(g, t) && Extends(s, t) && base < |s.stack|
    requires w in ws && w !in s.index
    requires Progress(g, s, base, v, ws, low) && AllBound(g, t, |s.stack|, |s.stack|, lowW)
    ensures Progress(g, t, base, v, ws - {w}, Min(low, lowW))
  {
    var m, from := Min(low, lowW), base + 1;
    forall i: nat
      ensures EntryBounded(g, t, base, from, m, i)
    {
      if from <= i < |s.stack| {
        assert EntryBounded(g, s, base, from, low, i);
        BoundsLower(g, s, t, base, Succ(g, s.stack[i]), low, m);
      } else if |s.stack| <= i < |t.stack| {
        assert EntryBounded(g, t, |s.stack|, |s.stack|, lowW, i);
        BoundsNarrow(g, t, |s.stack|, base, Succ(g, t.stack[i]), lowW, m);
      }
    }
    var targets := Succ(g, v) - (ws - {w});
    forall j: nat
      ensures BoundAt(g, t, base, targets, m, j)
    {
      assert BoundAt(g, s, base, Succ(g, v) - ws, low, j);
      if j < base { NumberKept(g, s, t, j); }
    }
  }

  lemma BoundsNarrow(g: Graph, s: View, base: nat, base': nat, targets: set<string>, low: nat, low': nat)
    requires Numbered(g, s) && base' <= base <= |s.stack| && low' <= low
    requires Bounds(g, s, base, targets, low)
    ensures Bounds(g, s, base', targets, low')
  {
    forall j: nat
      ensures BoundAt(g, s, base', targets, low', j)
    {
      assert BoundAt(g, s, base, targets, low, j);
    }
  }

  lemma WitnessVisited(g: Graph, t: View, v: string, w: string, lowW: nat)
    requires Numbered(g, t) && w in Succ(g, v) && Witnessed(g, t, w, lowW)
    ensures Witnessed(g, t, v, lowW)
  {
    var at :| 0 <= at < |t.stack| && Witness(g, t, w, lowW, at);
    ReachEdge(g, v, w);
    ReachTrans(g, v, w, t.stack[at]);
    assert Witness(g, t, v, lowW, at);
  }

  /** After an edge to a visited node: only one still on the stack lowers `low[v]`, to its index. */
  lemma ProgressSeen(g: Graph, s: View, base: nat, v: string, ws: set<string>, low: nat, w: string)
    requires Numbered(g, s) && base < |s.stack| && w in ws && w in Succ(g, v) && w in s.index
    requires Progress(g, s, base, v, ws, low) && Witnessed(g, s, v, low)
    ensures w in Elements(s.stack) ==>
              && Progress(g, s, base, v, ws - {w}, Min(low, s.index[w]))
              && Witnessed(g, s, v, Min(low, s.index[w]))
    ensures w !in Elements(s.stack) ==> Progress(g, s, base, v, ws - {w}, low)
  {
    var m := if w in Elements(s.stack) then Min(low, s.index[w]) else low;
    var from, targets := base + 1, Succ(g, v) - (ws - {w});
    forall i: nat
      ensures EntryBounded(g, s, base, from, m, i)
    {
      assert EntryBounded(g, s, base, from, low, i);
      if base < i < |s.stack| { BoundsNarrow(g, s, base, base, Succ(g, s.stack[i]), low, m); }
    }
    forall j: nat
      ensures BoundAt(g, s, base, targets, m, j)
    {
      assert BoundAt(g, s, base, Succ(g, v) - ws, low, j);
      if j < base { InIndex(g, s, j); }
    }
    if w in Elements(s.stack) {
      var at :| 0 <= at < |s.stack| && s.stack[at] == w;
      ReachEdge(g, v, w);
      assert Witness(g, s, v, s.index[w], at);
    }
  }

  /** Open visits all lie in the part of the stack that was there before the visit. */
  lemma RootHolds(g: Graph, s: View, gray: set<string>, v: string, base: nat)
    requires Numbered(g, s) && base < |s.stack| && s.stack[base] == v
    requires forall u :: Opened(s.stack[..base], gray, u)
    ensures Root(s, gray, v, base)
  {
    forall i: nat
      ensures NotOpen(s, gray, base, i)
    {
      if base <= i < |s.stack| {
        assert Opened(s.stack[..base], gray, s.stack[i]);
        forall j | 0 <= j < base
          ensures s.stack[..base][j] != s.stack[i]
        {
          StackDistinct(g, s, j, i);
        }
      }
    }
  }

  /** What one visit of `v` from `s` leaves behind; `low` for its `low[v]`. */
  ghost predicate Visited(g: Graph, s: View, t: View, gray: set<string>, v: string, low: nat) {
    && Inv(g, t, gray) && Extends(s, t)
    && v in t.index && low <= t.index[v] && s.counter <= t.index[v]
    && AllBound(g, t, |s.stack|, |s.stack|, low)
    && (low < t.index[v] ==> Witnessed(g, t, v, low))
  }

  /** The state of the edge loop of `v`: pushed as `p`, now `s`, `ws` still to follow, `low` for `low[v]`. */
  ghost predicate Looping(g: Graph, p: View, s: View, gray: set<string>, v: string, base: nat, ws: set<string>, low: nat) {
    && Inv(g, s, gray + {v}) && Extends(p, s)
    && base < |s.stack| && s.stack[base] == v && (forall u :: Opened(s.stack[..base], gray, u))
    && low <= Number(g, s, base)
    && ws <= Succ(g, v) && Succ(g, v) - ws <= s.index.Keys
    && Progress(g, s, base, v, ws, low)
    && Witnessed(g, s, v, low)
  }

  lemma LoopStarts(g: Graph, s: View, gray: set<string>, v: string)
    requires Inv(g, s, gray) && v in Nodes(g) && v !in s.index
    requires OpenReach(g, gray, v)
    ensures Looping(g, Pushed(s, v), Pushed(s, v), gray, v, |s.stack|, Succ(g, v), s.counter)
  {
    PushKeeps(g, s, gray, v);
    var p := Pushed(s, v);
    assert p.stack[..|s.stack|] == s.stack;
    ReachRefl(g, v);
    assert Witness(g, p, v, s.counter, |s.stack|);
  }

  /** The nested visit's precondition. */
  lemma AllReach(g: Graph, p: View, s: View, gray: set<string>, v: string, base: nat, ws: set<string>, low: nat, w: string)
    requires Looping(g, p, s, gray, v, base, ws, low) && w in ws
    requires OpenReach(g, gray, v)
    ensures OpenReach(g, gray + {v}, w)
    ensures v in s.index && w in Nodes(g)
  {
    InIndex(g, s, base);
    ReachEdge(g, v, w);
    forall u
      ensures OpenReaches(g, gray + {v}, u, w)
    {
      assert OpenReaches(g, gray, u, v);
      if u in gray { ReachTrans(g, u, v, w); }
    }
  }

  /** `low'` kept every entry of `low`, except perhaps that of `v`. */
  ghost predicate Kept(low: map<string, nat>, low': map<string, nat>, v: string) {
    forall u :: KeptAt(low, low', v, u)
  }

  ghost predicate KeptAt(low: map<string, nat>, low': map<string, nat>, v: string, u: string) {
    u in low && u != v ==> u in low' && low'[u] == low[u]
  }

  lemma Rewritten(low: map<string, nat>, v: string, n: nat)
    ensures Kept(low, low[v := n], v) && Kept(low, low, v)
  {
  }

  lemma KeptTrans(a: map<string, nat>, b: map<string, nat>, c: map<string, nat>, v: string, w: string)
    requires Kept(a, b, v) && Kept(b, c, w) && (w == v || w !in b)
    ensures Kept(a, c, v)
  {
    forall u
      ensures KeptAt(a, c, v, u)
    {
      assert KeptAt(a, b, v, u) && KeptAt(b, c, w, u);
    }
  }

  /** How many nodes the search has still to visit. */
  ghost function Unvisited(g: Graph, s: View): nat {
    |Nodes(g) - s.index.Keys|
  }

  lemma PushShrinks(g: Graph, s: View, v: string)
    requires v in Nodes(g) && v !in s.index
    ensures Unvisited(g, Pushed(s, v)) < Unvisited(g, s)
  {
    var before, after := Nodes(g) - s.index.Keys, Nodes(g) - Pushed(s, v).index.Keys;
    assert v in before && v !in after;
    Smaller(after, before);
  }

  lemma ExtendsShrinks(g: Graph, s: View, t: View)
    requires Extends(s, t)
    ensures Unvisited(g, t) <= Unvisited(g, s)
  {
    var before, after := Nodes(g) - s.index.Keys, Nodes(g) - t.index.Keys;
    forall v | v in after
      ensures v in before
    {
      assert KeepsNumber(s, t, v);
    }
    if after != before { Smaller(after, before); }
  }

  lemma Smaller(a: set<string>, b: set<string>)
    requires a < b
    ensures |a| < |b|
  {
    assert b == a + (b - a);
    assert |b| == |a| + |b - a|;
    assert b - a != {};
  }

  /** One edge to an unvisited node: `visit(w); low[v] = min(low[v], low[w])`. */
  lemma FollowedNew(g: Graph, p: View, s: View, t: View, gray: set<string>, v: string, base: nat, ws: set<string>, low: nat, w: string, lowW: nat)
    requires Looping(g, p, s, gray, v, base, ws, low) && w in ws && w !in s.index
    requires Visited(g, s, t, gray + {v}, w, lowW)
    ensures Looping(g, p, t, gray, v, base, ws - {w}, Min(low, lowW))
  {
    ExtendsTrans(p, s, t);
    NumberKept(g, s, t, base);
    assert Placed(s, v) && Placed(t, w);
    assert t.stack[..base] == s.stack[..base];
    forall u | u in Succ(g, v) - (ws - {w})
      ensures u in t.index
    {
      assert KeepsNumber(s, t, u);
    }
    ProgressVisited(g, s, t, base, v, ws, low, w, lowW);
    if lowW < low { WitnessVisited(g, t, v, w, lowW); } else { WitnessCarried(g, s, t, v, low); }
  }

  /** One edge to a visited node: `elif w in on: low[v] = min(low[v], index[w])`. */
  lemma FollowedSeen(g: Graph, p: View, s: View, gray: set<string>, v: string, base: nat, ws: set<string>, low: nat, w: string)
    requires Looping(g, p, s, gray, v, base, ws, low) && w in ws && w in s.index
    ensures Looping(g, p, s, gray, v, base, ws - {w}, if w in Elements(s.stack) then Min(low, s.index[w]) else low)
  {
    ProgressSeen(g, s, base, v, ws, low, w);
  }

  /** All edges followed: the visit's bounds, and the shape its root needs. */
  lemma LoopEnds(g: Graph, p: View, t: View, gray: set<string>, v: string, base: nat, low: nat)
    requires Looping(g, p, t, gray, v, base, {}, low)
    ensures Root(t, gray, v, base) && Succ(g, v) <= t.index.Keys && AllBound(g, t, base, base, low)
  {
    RootHolds(g, t, gray, v, base);
    assert Succ(g, v) - {} == Succ(g, v);
    forall i: nat
      ensures EntryBounded(g, t, base, base, low, i)
    {
      assert EntryBounded(g, t, base, base + 1, low, i);
    }
  }

  /** `low[v] < index[v]`: the visit ends with `v` on the stack. */
  lemma StayEnds(g: Graph, s: View, t: View, gray: set<string>, v: string, low: nat)
    requires Inv(g, s, gray) && v !in s.index
    requires Looping(g, Pushed(s, v), t, gray, v, |s.stack|, {}, low) && low < Number(g, t, |s.stack|)
    ensures Visited(g, s, t, gray, v, low)
  {
    LoopEnds(g, Pushed(s, v), t, gray, v, |s.stack|, low);
    StayKeeps(g, t, gray, v, |s.stack|, low);
    VisitNumber(g, s, t, v);
  }

  /** The node of a visit keeps the number it was pushed with. */
  lemma VisitNumber(g: Graph, s: View, t: View, v: string)
    requires Numbered(g, s) && v !in s.index && Extends(Pushed(s, v), t)
    ensures v in t.index && t.index[v] == s.counter && Extends(s, t)
  {
    var p := Pushed(s, v);
    assert KeepsNumber(p, t, v);
    forall u
      ensures KeepsNumber(s, p, u)
    {
    }
    ExtendsTrans(s, p, t);
  }

  /** `low[v] == index[v]`: the component was popped. */
  lemma PopVisited(g: Graph, s: View, t: View, r: View, gray: set<string>, v: string, low: nat)
    requires Inv(g, s, gray) && v !in s.index
    requires Looping(g, Pushed(s, v), t, gray, v, |s.stack|, {}, low) && low == Number(g, t, |s.stack|)
    requires Inv(g, r, gray) && r.index == t.index && r.counter == t.counter
    requires r.stack == t.stack[..|s.stack|] && t.out <= r.out
    ensures Visited(g, s, r, gray, v, low)
  {
    var p := Pushed(s, v);
    assert p.stack[..|s.stack|] == s.stack;
    assert t.stack[..|p.stack|] == p.stack;
    VisitNumber(g, s, t, v);
    forall u
      ensures KeepsNumber(s, r, u)
    {
      assert KeepsNumber(s, t, u);
    }
    forall i: nat
      ensures EntryBounded(g, r, |s.stack|, |s.stack|, low, i)
    {
    }
  }

  // ---------- the pop loop ----------

  /** A visit that found no lower link. */
  ghost predicate Poppable(g: Graph, s: View, gray: set<string>, v: string, base: nat) {
    && Inv(g, s, gray + {v}) && Root(s, gray, v, base) && Succ(g, v) <= s.index.Keys
    && AllBound(g, s, base, base, Number(g, s, base))
  }

  /** The pop loop from `s` has brought the stack down to length `n`. */
  ghost predicate Unwound(s: View, n: nat, on: set<string>, comp: seq<string>) {
    && n <= |s.stack| && on == Elements(s.stack[..n]) && |comp| == |s.stack| - n
    && forall i :: 0 <= i < |comp| ==> comp[i] == s.stack[|s.stack| - 1 - i]
  }

  lemma UnwindStep(g: Graph, s: View, v: string, base: nat, n: nat, on: set<string>, comp: seq<string>)
    requires Numbered(g, s) && base <= n < |s.stack| && s.stack[base] == v && Unwound(s, n + 1, on, comp)
    ensures s.stack[..n + 1][..n] == s.stack[..n] && s.stack[..n + 1][n] == s.stack[n]
    ensures Unwound(s, n, on - {s.stack[n]}, comp + [s.stack[n]])
    ensures s.stack[n] == v <==> n == base
  {
    StackDistinct(g, s, n, base);
    assert s.stack[..n + 1] == s.stack[..n] + [s.stack[n]];
    forall i | 0 <= i < n
      ensures s.stack[..n][i] != s.stack[n]
    {
      StackDistinct(g, s, i, n);
    }
  }

  lemma PoppedList(g: Graph, s: View, base: nat, on: set<string>, comp: seq<string>)
    requires Numbered(g, s) && Unwound(s, base, on, comp)
    ensures forall i, j :: 0 <= i < j < |comp| ==> comp[i] != comp[j]
    ensures Elements(comp) == Segment(s, base)
  {
    forall i, j | 0 <= i < j < |comp|
      ensures comp[i] != comp[j]
    {
      StackDistinct(g, s, |s.stack| - 1 - i, |s.stack| - 1 - j);
    }
    forall x | x in Segment(s, base)
      ensures x in Elements(comp)
    {
      var i := SegmentMember(s, base, x);
      assert comp[|s.stack| - 1 - i] == x;
    }
    forall x | x in Elements(comp)
      ensures x in Segment(s, base)
    {
      var i :| 0 <= i < |comp| && comp[i] == x;
      assert s.stack[base..][|s.stack| - 1 - i - base] == x;
    }
  }

  lemma {:induction false} PopEnds(g: Graph, s: View, gray: set<string>, v: string, base: nat, comp: seq<string>)
    requires Poppable(g, s, gray, v, base) && Unwound(s, base, Elements(s.stack[..base]), comp)
    ensures forall i, j :: 0 <= i < j < |comp| ==> comp[i] != comp[j]
    ensures Inv(g, Popped(s, base, Sort(comp)), gray)
  {
    PoppedList(g, s, base, Elements(s.stack[..base]), comp);
    PopKeeps(g, s, gray, v, base, Sort(comp));
  }

  // ---------- the algorithm ----------

  class Search {
    var index: map<string, nat>
    var low: map<string, nat>
    var stack: seq<string>
    var on: set<string>
    var out: seq<seq<string>>
    var counter: nat

    constructor ()
      ensures Now() == View(map[], [], [], 0) && Mirrors()
    {
      index, low, stack, on, out, counter := map[], map[], [], {}, [], 0;
    }

    ghost function Now(): View
      reads this
    {
      View(index, stack, out, counter)
    }

    /** `on` mirrors the stack, `low` and `index` name the same nodes. */
    ghost predicate Mirrors()
      reads this
    {
      on == Elements(stack) && low.Keys == index.Keys
    }

    /** The first two lines of `visit(v)`. */
    method Push(v: string)
      requires Mirrors()
      modifies this
      ensures Mirrors() && Now() == old(Pushed(Now(), v)) && low == old(low[v := counter])
    {
      index, low := index[v := counter], low[v := counter];
      counter := counter + 1;
      stack, on := stack + [v], on + {v};
      assert Elements(stack) == old(Elements(stack)) + {v};
    }

    /** `visit(v)` */
    method Visit(g: Graph, v: string, ghost gray: set<string>)
      requires Mirrors() && Inv(g, Now(), gray) && v in Nodes(g) && v !in index
      requires OpenReach(g, gray, v)
      modifies this
      ensures Mirrors() && v in low && Visited(g, old(Now()), Now(), gray, v, low[v])
      ensures Kept(old(low), low, v)
      decreases Unvisited(g, Now()), 1
    {
      ghost var s, p, lows := Now(), Pushed(Now(), v), low;
      LoopStarts(g, s, gray, v);
      PushShrinks(g, s, v);
      Push(v);
      ghost var pushedLow := low;
      Rewritten(lows, v, s.counter);
      Scan(g, v, gray, p, |s.stack|);
      KeptTrans(lows, pushedLow, low, v, v);
      Leave(g, v, gray, s);
    }

    /** The last lines of `visit(v)`: pop the component of a root. */
    method Leave(g: Graph, v: string, ghost gray: set<string>, ghost s: View)
      requires Mirrors() && v in low && Inv(g, s, gray) && v !in s.index
      requires Looping(g, Pushed(s, v), Now(), gray, v, |s.stack|, {}, low[v])
      modifies this`stack, this`on, this`out
      ensures Mirrors() && Visited(g, s, Now(), gray, v, low[v])
    {
      ghost var t := Now();
      LoopEnds(g, Pushed(s, v), t, gray, v, |s.stack|, low[v]);
      if low[v] == index[v] {
        Pop(g, v, gray, |s.stack|);
        PopVisited(g, s, t, Now(), gray, v, low[v]);
      } else {
        StayEnds(g, s, t, gray, v, low[v]);
      }
    }

    /** The edge loop of `visit(v)`, over a set in whatever order it is iterated. */
    method Scan(g: Graph, v: string, ghost gray: set<string>, ghost p: View, ghost base: nat)
      requires Mirrors() && Now() == p && v in index
      requires Looping(g, p, p, gray, v, base, Succ(g, v), low[v]) && OpenReach(g, gray, v)
      modifies this
      ensures Mirrors() && v in low && Looping(g, p, Now(), gray, v, base, {}, low[v])
      ensures Kept(old(low), low, v)
      decreases Unvisited(g, Now()), 3
    {
      var ws := Succ(g, v);
      Rewritten(low, v, low[v]);
      while ws != {}
        invariant Mirrors() && v in low && Looping(g, p, Now(), gray, v, base, ws, low[v])
        invariant Kept(old(low), low, v)
        decreases ws
      {
        var w :| w in ws;
        ExtendsShrinks(g, p, Now());
        ghost var lows := low;
        Follow(g, v, w, gray, p, base, ws);
        KeptTrans(old(low), lows, low, v, v);
        ws := ws - {w};
      }
    }

    /** One edge of `visit(v)`. */
    method Follow(g: Graph, v: string, w: string, ghost gray: set<string>, ghost p: View, ghost base: nat, ghost ws: set<string>)
      requires Mirrors() && v in low && w in ws && Looping(g, p, Now(), gray, v, base, ws, low[v])
      requires OpenReach(g, gray, v)
      modifies this
      ensures Mirrors() && v in low && Looping(g, p, Now(), gray, v, base, ws - {w}, low[v])
      ensures Kept(old(low), low, v)
      decreases Unvisited(g, Now()), 2
    {
      ghost var s, lows := Now(), low;
      if w !in index {
        AllReach(g, p, s, gray, v, base, ws, lows[v], w);
        Visit(g, w, gray + {v});
        ghost var t := Now();
        assert KeptAt(lows, low, w, v);
        FollowedNew(g, p, s, t, gray, v, base, ws, lows[v], w, low[w]);
        Rewritten(lows, v, lows[v]);
        KeptTrans(lows, lows, low, v, w);
        KeptTrans(lows, low, low[v := Min(low[v], low[w])], v, v) by { Rewritten(low, v, Min(low[v], low[w])); }
        low := low[v := Min(low[v], low[w])];
        assert Now() == t;
      } else {
        FollowedSeen(g, p, s, gray, v, base, ws, lows[v], w);
        Rewritten(lows, v, lows[v]);
        if w in on {
          Rewritten(lows, v, Min(low[v], index[w]));
          low := low[v := Min(low[v], index[w])];
        }
        assert Now() == s;
      }
    }

    /** `w = stack.pop(); on.discard(w)` */
    method PopTop() returns (w: string)
      requires stack != []
      modifies this`stack, this`on
      ensures w == old(stack)[|old(stack)| - 1] && stack == old(stack)[..|old(stack)| - 1] && on == old(on) - {w}
    {
      w := stack[|stack| - 1];
      stack, on := stack[..|stack| - 1], on - {w};
    }

    /** The pop loop: everything down to `v` leaves the stack as one sorted component. */
    method Pop(g: Graph, v: string, ghost gray: set<string>, ghost base: nat)
      requires Mirrors() && Poppable(g, Now(), gray, v, base)
      modifies this`stack, this`on, this`out
      ensures Mirrors() && Inv(g, Now(), gray)
      ensures stack == old(stack)[..base] && old(out) <= out
    {
      ghost var s := Now();
      var comp := [];
      while true
        invariant base < |stack| <= |s.stack| && stack == s.stack[..|stack|] && out == s.out
        invariant Unwound(s, |stack|, on, comp)
        decreases |stack|
      {
        ghost var n := |stack| - 1;
        UnwindStep(g, s, v, base, n, on, comp);
        var w := PopTop();
        comp := comp + [w];
        if w == v { break; }
      }
      PopEnds(g, s, gray, v, base, comp);
      out := out + [Sort(comp)];
      assert Now() == Popped(s, base, Sort(comp));
    }
  }

  /** The outer loop has passed the first `k` keys. */
  ghost predicate Passed(order: seq<string>, s: View, k: nat) {
    forall i :: PassedAt(order, s, k, i)
  }

  ghost predicate PassedAt(order: seq<string>, s: View, k: nat, i: nat) {
    i < k && i < |order| ==> order[i] in s.index
  }

  lemma PassedNext(order: seq<string>, s: View, t: View, k: nat)
    requires Passed(order, s, k) && k < |order|
    requires order[k] in t.index && (Extends(s, t) || s == t)
    ensures Passed(order, t, k + 1)
  {
    var k' := k + 1;
    forall i: nat
      ensures PassedAt(order, t, k', i)
    {
      assert PassedAt(order, s, k, i);
      if i < k { assert KeepsNumber(s, t, order[i]); }
    }
  }

  /** `sccs(edges)`: the components partition the nodes and come out callees first. */
  method Sccs(g: Graph) returns (out: seq<seq<string>>)
    ensures Components(g, out) && Done(out) == Nodes(g)
    ensures ReverseTopological(g, out)
  {
    var search := new Search();
    var order := SortKeys(g.Keys);
    for k := 0 to |order|
      invariant search.Mirrors() && Inv(g, search.Now(), {})
      invariant Passed(order, search.Now(), k)
    {
      assert order[k] in Elements(order);
      ghost var s := search.Now();
      if order[k] !in search.index {
        search.Visit(g, order[k], {});
      }
      PassedNext(order, s, search.Now(), k);
    }
    out := search.out;
    AllEmitted(g, search.Now(), order);
  }

  lemma AllEmitted(g: Graph, s: View, order: seq<string>)
    requires Inv(g, s, {}) && Elements(order) == g.Keys && Passed(order, s, |order|)
    ensures Done(s.out) == Nodes(g)
  {
    assert Anchored(g, s.stack, {}, 0);
    DoneClosed(g, s.out);
    forall v | v in g
      ensures v in Done(s.out)
    {
      assert v in Elements(order);
      var i :| 0 <= i < |order| && order[i] == v;
      assert PassedAt(order, s, |order|, i) && Placed(s, v);
    }
    forall v, w | v in g && w in g[v]
      ensures w in Done(s.out)
    {
      assert w in Succ(g, v);
    }
    forall v | v in Done(s.out)
      ensures v in Nodes(g)
    {
      assert Placed(s, v);
    }
  }
}
