/** The cycle gate of dev/module-graph.py: the verdict `main` takes over the crates' components. */
module Gate {
  import opened Names
  import opened Graphs
  import opened Tarjan

  /** One crate directory that has a `src/`, with the module graph read from it. */
  datatype Crate = Crate(name: string, edges: Graph)

  /** `Report` is what `main` prints and writes; `max()` of an empty component list raises. */
  datatype Outcome = Report(result: map<string, nat>, red: seq<string>) | NoModules(crate: string)

  /** A cycle in the sense of the gate: modules that all reach each other. */
  ghost predicate Cycle(g: Graph, s: set<string>) {
    s <= Nodes(g) && forall x, y :: x in s && y in s ==> Mutual(g, x, y)
  }

  /** `n` is the size of a largest cycle. */
  ghost predicate Largest(g: Graph, n: nat) {
    && (exists s :: Cycle(g, s) && |s| == n)
    && (forall s :: Cycle(g, s) ==> |s| <= n)
  }

  /** `base.get(crate, 1)` */
  function Cap(base: map<string, int>, name: string): int {
    if name in base then base[name] else 1
  }

  ghost predicate Red(base: map<string, int>, c: Crate) {
    exists s :: Cycle(c.edges, s) && if c.name in base then |s| > base[c.name] else |s| > 1
  }

  /** `max(comps, key=len)`: the first of the longest. */
  method LongestFirst(comps: seq<seq<string>>) returns (at: nat)
    requires comps != []
    ensures at < |comps|
    ensures forall i :: 0 <= i < |comps| ==> |comps[i]| <= |comps[at]|
    ensures forall i :: 0 <= i < at ==> |comps[i]| < |comps[at]|
  {
    at := 0;
    for k := 1 to |comps|
      invariant at < k
      invariant forall i :: 0 <= i < k ==> |comps[i]| <= |comps[at]|
      invariant forall i :: 0 <= i < at ==> |comps[i]| < |comps[at]|
    {
      if |comps[k]| > |comps[at]| { at := k; }
    }
  }

  /** The longest component is a largest cycle. */
  lemma LongestIsLargest(g: Graph, comps: seq<seq<string>>, at: nat)
    requires Components(g, comps) && Done(comps) == Nodes(g) && at < |comps|
    requires forall i :: 0 <= i < |comps| ==> |comps[i]| <= |comps[at]|
    ensures Largest(g, |comps[at]|)
  {
    var big := Elements(comps[at]);
    assert ComponentAt(g, comps, at);
    AscendingSize(comps[at]);
    forall x, y | x in big && y in big
      ensures Mutual(g, x, y)
    {
      assert Shares(g, comps[at], x, y);
    }
    assert big <= Done(comps);
    assert Cycle(g, big);
    forall s | Cycle(g, s)
      ensures |s| <= |comps[at]|
    {
      if s != {} { CycleFits(g, comps, s, at); }
    }
  }

  /** A cycle lies within one component. */
  lemma CycleFits(g: Graph, comps: seq<seq<string>>, s: set<string>, at: nat)
    requires Components(g, comps) && Done(comps) == Nodes(g) && at < |comps|
    requires forall i :: 0 <= i < |comps| ==> |comps[i]| <= |comps[at]|
    requires Cycle(g, s) && s != {}
    ensures |s| <= |comps[at]|
  {
    var x :| x in s;
    assert x in Done(comps);
    var c :| c in comps && x in c;
    var i :| 0 <= i < |comps| && comps[i] == c;
    assert ComponentAt(g, comps, i);
    forall y | y in s
      ensures y in Elements(c)
    {
      assert Shares(g, c, x, y);
    }
    SubsetSize(s, Elements(c));
    AscendingSize(c);
  }

  /** Crate `i` is reported with the size of a largest cycle, and marked red exactly when one exceeds its cap. */
  ghost predicate DecidedAt(crates: seq<Crate>, base: map<string, int>, i: nat, result: map<string, nat>, red: seq<string>)
    requires i < |crates|
  {
    && crates[i].name in result && Largest(crates[i].edges, result[crates[i].name])
    && (crates[i].name in red <==> Red(base, crates[i]))
  }

  function NamesUpTo(crates: seq<Crate>, k: nat): set<string>
    requires k <= |crates|
  {
    set i | 0 <= i < k :: crates[i].name
  }

  /** What the gate's loop has decided about the first `k` crates. */
  ghost predicate Decided(crates: seq<Crate>, base: map<string, int>, k: nat, result: map<string, nat>, red: seq<string>)
    requires k <= |crates|
  {
    && (forall i: nat :: i < k ==> DecidedAt(crates, base, i, result, red))
    && result.Keys == NamesUpTo(crates, k)
    && Elements(red) <= result.Keys
  }

  /** What `main` promises for the crates it listed. */
  ghost predicate Judged(crates: seq<Crate>, base: map<string, int>, o: Outcome) {
    match o
    case Report(result, red) => Decided(crates, base, |crates|, result, red)
    case NoModules(name) => exists i :: 0 <= i < |crates| && crates[i].name == name && crates[i].edges == map[]
  }

  ghost predicate DistinctNames(crates: seq<Crate>) {
    forall i, j :: 0 <= i < j < |crates| ==> crates[i].name != crates[j].name
  }

  lemma NoNodes(g: Graph)
    requires Nodes(g) == {}
    ensures g == map[]
  {
    forall v
      ensures v !in g
    {
      assert v in g ==> v in Nodes(g);
    }
  }

  lemma SomeNodes(g: Graph, comps: seq<seq<string>>)
    requires Components(g, comps) && Done(comps) == Nodes(g)
    ensures comps == [] <==> g == map[]
  {
    if comps == [] { NoNodes(g); }
    if comps != [] {
      assert ComponentAt(g, comps, 0);
      var c := comps[0];
      assert c in comps && c[0] in c;
      assert c[0] in Done(comps);
    }
  }

  /** The crate loop of `main`. */
  method Run(crates: seq<Crate>, base: map<string, int>) returns (o: Outcome)
    requires DistinctNames(crates)
    ensures Judged(crates, base, o)
    ensures o.NoModules? <==> exists i :: 0 <= i < |crates| && crates[i].edges == map[]
  {
    var result: map<string, nat>, red := map[], [];
    for k := 0 to |crates|
      invariant Decided(crates, base, k, result, red)
      invariant forall i :: 0 <= i < k ==> crates[i].edges != map[]
    {
      var crate := crates[k];
      var comps := Sccs(crate.edges);
      SomeNodes(crate.edges, comps);
      if comps == [] {
        return NoModules(crate.name);
      }
      var at := LongestFirst(comps);
      LongestIsLargest(crate.edges, comps, at);
      var n := |comps[at]|;
      var red' := if n > Cap(base, crate.name) then red + [crate.name] else red;
      DecidedNext(crates, base, k, result, red, n, red');
      result, red := result[crate.name := n], red';
    }
    o := Report(result, red);
  }

  lemma DecidedNext(crates: seq<Crate>, base: map<string, int>, k: nat, result: map<string, nat>, red: seq<string>, n: nat, red': seq<string>)
    requires DistinctNames(crates) && k < |crates| && Decided(crates, base, k, result, red)
    requires Largest(crates[k].edges, n)
    requires red' == if n > Cap(base, crates[k].name) then red + [crates[k].name] else red
    ensures Decided(crates, base, k + 1, result[crates[k].name := n], red')
  {
    var c := crates[k];
    assert NamesUpTo(crates, k + 1) == NamesUpTo(crates, k) + {c.name};
    assert c.name !in result.Keys;
    assert c.name !in red by {
      assert c.name in red ==> c.name in Elements(red);
    }
    var result' := result[c.name := n];
    forall i: nat | i < k + 1
      ensures DecidedAt(crates, base, i, result', red')
    {
      if i < k {
        assert DecidedAt(crates, base, i, result, red);
      }
    }
  }

  /** The exit code of `main`: `--update` rewrites the baseline and always passes. */
  function ExitCode(update: bool, o: Outcome): nat
    requires o.Report?
  {
    if update then 0 else if o.red != [] then 1 else 0
  }

  /** The gate fails exactly when some crate holds a cycle larger than its cap. */
  lemma GateFails(crates: seq<Crate>, base: map<string, int>, o: Outcome)
    requires Judged(crates, base, o) && o.Report?
    ensures ExitCode(false, o) == 1 <==> exists i :: 0 <= i < |crates| && Red(base, crates[i])
    ensures ExitCode(false, o) == 0 || ExitCode(false, o) == 1
    ensures ExitCode(true, o) == 0
  {
    forall i: nat | i < |crates|
      ensures Red(base, crates[i]) ==> o.red != []
    {
      assert DecidedAt(crates, base, i, o.result, o.red);
    }
    if o.red != [] {
      assert o.red[0] in Elements(o.red);
      var i :| 0 <= i < |crates| && crates[i].name == o.red[0];
      assert DecidedAt(crates, base, i, o.result, o.red);
    }
  }

  /** A baseline written by `--update` passes on the crates it was written from. */
  lemma UpdateThenPass(crates: seq<Crate>, base: map<string, int>, first: Outcome, second: Outcome)
    requires Judged(crates, base, first) && first.Report?
    requires Judged(crates, map n | n in first.result :: first.result[n], second) && second.Report?
    ensures ExitCode(false, second) == 0 && second.result == first.result
  {
    var written: map<string, int> := map n | n in first.result :: first.result[n];
    forall i | 0 <= i < |crates|
      ensures !Red(written, crates[i])
      ensures second.result[crates[i].name] == first.result[crates[i].name]
    {
      assert DecidedAt(crates, base, i, first.result, first.red);
      assert DecidedAt(crates, written, i, second.result, second.red);
      var n := first.result[crates[i].name];
    }
    GateFails(crates, written, second);
    forall n | n in first.result
      ensures second.result[n] == first.result[n]
    {
      var i :| 0 <= i < |crates| && crates[i].name == n;
    }
  }
}
