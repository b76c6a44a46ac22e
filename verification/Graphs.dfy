/** Finite directed graphs as the module gate reads them: a map from a module to the
    set of modules it references. A referenced module need not be a key. */
module Graphs {
  import opened Names

  type Graph = map<string, set<string>>

  /** `edges.get(v, ())` */
  function Succ(g: Graph, v: string): set<string> {
    if v in g then g[v] else {}
  }

  function Nodes(g: Graph): set<string> {
    g.Keys + set v, w | v in g && w in g[v] :: w
  }

  ghost predicate Walk(g: Graph, p: seq<string>) {
    |p| > 0 && forall i :: 0 <= i < |p| - 1 ==> p[i + 1] in Succ(g, p[i])
  }

  ghost predicate Joins(g: Graph, p: seq<string>, x: string, y: string) {
    Walk(g, p) && p[0] == x && p[|p| - 1] == y
  }

  ghost predicate Reach(g: Graph, x: string, y: string) {
    exists p :: Joins(g, p, x, y)
  }

  ghost predicate Mutual(g: Graph, x: string, y: string) {
    Reach(g, x, y) && Reach(g, y, x)
  }

  ghost predicate Closed(g: Graph, s: set<string>) {
    forall v :: v in s ==> Succ(g, v) <= s
  }

  lemma ReachRefl(g: Graph, x: string)
    ensures Reach(g, x, x)
  {
    assert Joins(g, [x], x, x);
  }

  lemma ReachEdge(g: Graph, x: string, y: string)
    requires y in Succ(g, x)
    ensures Reach(g, x, y)
  {
    assert Joins(g, [x, y], x, y);
  }

  lemma ReachTrans(g: Graph, x: string, y: string, z: string)
    requires Reach(g, x, y) && Reach(g, y, z)
    ensures Reach(g, x, z)
  {
    var p :| Joins(g, p, x, y);
    var q :| Joins(g, q, y, z);
    var r := p + q[1..];
    forall i | 0 <= i < |r| - 1
      ensures r[i + 1] in Succ(g, r[i])
    {
      if i >= |p| - 1 {
        assert r[i] == q[i - |p| + 1] && r[i + 1] == q[i - |p| + 2];
      }
    }
    assert Joins(g, r, x, z);
  }

  lemma {:induction false} WalkStays(g: Graph, s: set<string>, p: seq<string>)
    requires Closed(g, s) && Walk(g, p) && p[0] in s
    ensures p[|p| - 1] in s
  {
    if |p| > 1 {
      assert p[1] in Succ(g, p[0]);
      assert Walk(g, p[1..]) by {
        forall i | 0 <= i < |p[1..]| - 1
          ensures p[1..][i + 1] in Succ(g, p[1..][i])
        {
          assert p[i + 2] in Succ(g, p[i + 1]);
        }
      }
      WalkStays(g, s, p[1..]);
    }
  }

  /** Nothing leaves a closed set. */
  lemma ReachStays(g: Graph, s: set<string>, x: string, y: string)
    requires Closed(g, s) && x in s && Reach(g, x, y)
    ensures y in s
  {
    var p :| Joins(g, p, x, y);
    WalkStays(g, s, p);
  }

  // ---------- lists of components ----------

  ghost function Done(out: seq<seq<string>>): set<string> {
    set c, x | c in out && x in c :: x
  }

  /** One emitted component: a sorted list holding exactly the nodes mutually reachable with each member. */
  ghost predicate IsComponent(g: Graph, c: seq<string>) {
    c != [] && Ascending(c) && forall x, y :: Shares(g, c, x, y)
  }

  ghost predicate Shares(g: Graph, c: seq<string>, x: string, y: string) {
    x in c ==> (Mutual(g, x, y) <==> y in c)
  }

  ghost predicate ComponentAt(g: Graph, out: seq<seq<string>>, i: nat) {
    i < |out| ==> IsComponent(g, out[i])
  }

  ghost predicate Disjoint(out: seq<seq<string>>, i: nat, j: nat) {
    i < j < |out| ==> forall x :: x in out[i] ==> x !in out[j]
  }

  ghost predicate Components(g: Graph, out: seq<seq<string>>) {
    && (forall i :: ComponentAt(g, out, i))
    && (forall i, j :: Disjoint(out, i, j))
  }

  /** The edges out of component i end in it or in one emitted before it. */
  ghost predicate EdgesBack(g: Graph, out: seq<seq<string>>, i: nat) {
    i < |out| ==> forall x :: x in out[i] ==> Succ(g, x) <= Done(out[..i + 1])
  }

  ghost predicate ReverseTopological(g: Graph, out: seq<seq<string>>) {
    forall i :: EdgesBack(g, out, i)
  }

  /** Two nodes share a component exactly when each reaches the other. */
  lemma SharedComponent(g: Graph, out: seq<seq<string>>, x: string, y: string)
    requires Components(g, out) && Done(out) == Nodes(g)
    requires x in Nodes(g)
    ensures Mutual(g, x, y) <==> exists c :: c in out && x in c && y in c
  {
    var c :| c in out && x in c;
    var i :| 0 <= i < |out| && out[i] == c;
    assert ComponentAt(g, out, i) && Shares(g, c, x, y);
    forall d | d in out && x in d && y in d
      ensures Mutual(g, x, y)
    {
      var j :| 0 <= j < |out| && out[j] == d;
      assert ComponentAt(g, out, j) && Shares(g, d, x, y);
    }
  }

  /** Whatever order the edge sets are iterated in, the same components come out. */
  lemma SameComponents(g: Graph, a: seq<seq<string>>, b: seq<seq<string>>, c: seq<string>)
    requires Components(g, a) && Done(a) == Nodes(g)
    requires Components(g, b) && Done(b) == Nodes(g)
    requires c in a
    ensures c in b
  {
    var i :| 0 <= i < |a| && a[i] == c;
    assert ComponentAt(g, a, i);
    var x := c[0];
    assert c in a && x in c;
    assert x in Done(a);
    var d :| d in b && x in d;
    var j :| 0 <= j < |b| && b[j] == d;
    assert ComponentAt(g, b, j);
    forall y
      ensures y in Elements(c) <==> y in Elements(d)
    {
      assert Shares(g, c, x, y) && Shares(g, d, x, y);
    }
    AscendingUnique(c, d);
  }
}
