/** What a batch array means, and why splitting it into rounds keeps the meaning
    (clause 4.6.6 of ETSI GS CIM 009; crates/antares-api/src/batch.rs). */
module Rounds {
  import opened Json
  import opened Instances
  import E = EntityAttrs

  datatype Mode = Create | Upsert(update: bool) | Update(noOverwrite: bool) | Merge

  /** One prepared entry of the array. */
  datatype Item = Item(id: string, doc: Json)

  /** An entry with the instant it is applied at. */
  datatype Stamped = Stamped(item: Item, ts: string)

  /** The document operations a batch calls: merge patch (5.5.12) and the stamps of a new document (4.8). */
  datatype Env = Env(mergeInto: (Json, Json, string) -> Json, stampNew: (Json, string) -> Json)

  /** How one entry ended. */
  datatype Result = Created | Replaced | Merged | Skipped | Absent | Exists | Rejected

  predicate Succeeded(r: Result) {
    r.Created? || r.Replaced? || r.Merged?
  }

  // ---------- noOverwrite ----------

  /** The batch's own loop: an instance whose dataset is there already is skipped, any other pushed. */
  function AddAbsent(cur: seq<Json>, inc: seq<Json>): seq<Json> {
    if inc == [] then cur
    else
      var u := AddAbsent(cur, inc[..|inc| - 1]);
      var ni := inc[|inc| - 1];
      if Position(u, Dataset(ni)) < |u| then u else u + [ni]
  }

  predicate AnySkipped(cur: seq<Json>, inc: seq<Json>) {
    inc != [] &&
    (AnySkipped(cur, inc[..|inc| - 1])
     || var u := AddAbsent(cur, inc[..|inc| - 1]); Position(u, Dataset(inc[|inc| - 1])) < |u|)
  }

  /** Without nulls it builds the list that `merge_instance_sets` builds with noOverwrite. */
  lemma {:induction false} AddAbsentIsMerge(cur: seq<Json>, inc: seq<Json>)
    requires Unmarked(inc)
    ensures AddAbsent(cur, inc) == MergeAll(cur, inc, true)
  {
    if inc != [] { AddAbsentIsMerge(cur, inc[..|inc| - 1]); }
  }

  function NoOverwriteAttr(cur: Option<Json>, inc: Json): Json {
    var items := if inc.Array? then inc.items else [];
    if cur.Some? && cur.value.Array? then Array(AddAbsent(cur.value.items, items)) else Array(items)
  }

  predicate NoOverwriteSkips(cur: Option<Json>, inc: Json) {
    cur.Some? && cur.value.Array? && inc.Array? && AnySkipped(cur.value.items, inc.items)
  }

  /** The stored document after a batch update with noOverwrite. */
  function NoOverwriteDoc(target: Members, frag: Members, ts: string): Members {
    (map k | k in target.Keys + E.FragAttrs(frag)
       :: if k in E.FragAttrs(frag) then NoOverwriteAttr(At(target, k), frag[k]) else target[k])["modifiedAt" := Text(ts)]
  }

  predicate NoOverwriteSkipped(target: Members, frag: Members) {
    exists k :: k in E.FragAttrs(frag) && NoOverwriteSkips(At(target, k), frag[k])
  }

  // ---------- one entry ----------

  /** The closure of `batch_mutate`: the new document and the outcome. */
  function Edit(env: Env, mode: Mode, doc: Json, frag: Json, ts: string): (Json, Result) {
    if mode.Update? && mode.noOverwrite then
      if !doc.Object? || !frag.Object? then (doc, Rejected)
      else (Object(NoOverwriteDoc(doc.members, frag.members, ts)),
            if NoOverwriteSkipped(doc.members, frag.members) then Skipped else Merged)
    else (env.mergeInto(doc, frag, ts), Merged)
  }

  /** One entry applied on its own, to what the store holds under its id. */
  function Apply(env: Env, mode: Mode, cur: Option<Json>, doc: Json, ts: string): (Option<Json>, Result) {
    match mode
    case Create => if cur.None? then (Some(env.stampNew(doc, ts)), Created) else (cur, Exists)
    case Upsert(update) =>
      if cur.None? then (Some(env.stampNew(doc, ts)), Created)
      else if update then var (d, r) := Edit(env, mode, cur.value, doc, ts); (Some(d), r)
      else (Some(env.stampNew(doc, ts)), Replaced)
    case _ =>
      if cur.None? then (None, Absent)
      else var (d, r) := Edit(env, mode, cur.value, doc, ts); (Some(d), r)
  }

  /** A rule for one entry: what the store holds for its id, the entry's document, the instant. */
  type Rule = (Option<Json>, Json, string) -> (Option<Json>, Result)

  function RuleOf(env: Env, mode: Mode): Rule {
    (cur, doc, ts) => Apply(env, mode, cur, doc, ts)
  }

  function Put(docs: Docs, id: string, d: Option<Json>): Docs {
    match d
    case Some(v) => docs[id := v]
    case None => docs - {id}
  }

  // ---------- the array, one entry after the other ----------

  datatype Entry = Entry(id: string, result: Result)

  /** The store and the log after a left-to-right run. */
  datatype Outcome = Outcome(docs: Docs, log: seq<Entry>)

  function Run(rule: Rule, docs: Docs, entries: seq<Stamped>): Outcome {
    if entries == [] then Outcome(docs, [])
    else Next(rule, Run(rule, docs, entries[..|entries| - 1]), entries[|entries| - 1])
  }

  /** The entries of one id, in order. */
  function Of(entries: seq<Stamped>, id: string): seq<Stamped> {
    if entries == [] then []
    else
      var p := Of(entries[..|entries| - 1], id);
      if entries[|entries| - 1].item.id == id then p + [entries[|entries| - 1]] else p
  }

  /** The results of one id, in order. */
  function ResultsOf(log: seq<Entry>, id: string): seq<Result> {
    if log == [] then []
    else
      var p := ResultsOf(log[..|log| - 1], id);
      if log[|log| - 1].id == id then p + [log[|log| - 1].result] else p
  }

  datatype One = One(doc: Option<Json>, results: seq<Result>)

  /** The run of one id's entries on what the store held for it. */
  function RunOne(rule: Rule, cur: Option<Json>, entries: seq<Stamped>): One {
    if entries == [] then One(cur, [])
    else
      var o := RunOne(rule, cur, entries[..|entries| - 1]);
      var last := entries[|entries| - 1];
      var (d, r) := rule(o.doc, last.item.doc, last.ts);
      One(d, o.results + [r])
  }

  lemma ResultsAppend(log: seq<Entry>, e: Entry, id: string)
    ensures ResultsOf(log + [e], id) == if e.id == id then ResultsOf(log, id) + [e.result] else ResultsOf(log, id)
  {
    assert (log + [e])[..|log|] == log;
  }

  /** A run acts on each id by itself. */
  lemma {:induction false} RunById(rule: Rule, docs: Docs, entries: seq<Stamped>, id: string)
    ensures var o := Run(rule, docs, entries);
            One(At(o.docs, id), ResultsOf(o.log, id)) == RunOne(rule, At(docs, id), Of(entries, id))
  {
    if entries != [] {
      var before, last := entries[..|entries| - 1], entries[|entries| - 1];
      RunById(rule, docs, before, id);
      OutcomeById(rule, Run(rule, docs, before), last, id);
    }
  }

  /** One more entry: the store and the log after it. */
  function Next(rule: Rule, o: Outcome, x: Stamped): Outcome {
    var (d, r) := rule(At(o.docs, x.item.id), x.item.doc, x.ts);
    Outcome(Put(o.docs, x.item.id, d), o.log + [Entry(x.item.id, r)])
  }

  lemma OutcomeById(rule: Rule, o: Outcome, x: Stamped, id: string)
    ensures var o' := Next(rule, o, x);
            One(At(o'.docs, id), ResultsOf(o'.log, id))
            == if x.item.id == id
               then var (d, r) := rule(At(o.docs, id), x.item.doc, x.ts); One(d, ResultsOf(o.log, id) + [r])
               else One(At(o.docs, id), ResultsOf(o.log, id))
  {
    var step := rule(At(o.docs, x.item.id), x.item.doc, x.ts);
    ResultsAppend(o.log, Entry(x.item.id, step.1), id);
  }

  /** Two runs with the same entries for every id leave the same store and the same results for every id. */
  lemma SameById(rule: Rule, docs: Docs, a: seq<Stamped>, b: seq<Stamped>)
    requires forall id :: SameEntries(a, b, id)
    ensures Run(rule, docs, a).docs == Run(rule, docs, b).docs
    ensures forall id :: SameResults(Run(rule, docs, a).log, Run(rule, docs, b).log, id)
  {
    var x, y := Run(rule, docs, a), Run(rule, docs, b);
    forall id
      ensures At(x.docs, id) == At(y.docs, id)
      ensures SameResults(x.log, y.log, id)
    {
      assert SameEntries(a, b, id);
      RunById(rule, docs, a, id);
      RunById(rule, docs, b, id);
    }
    forall id
      ensures id in x.docs <==> id in y.docs
      ensures id in x.docs ==> x.docs[id] == y.docs[id]
    {
      assert At(x.docs, id) == At(y.docs, id);
    }
  }

  ghost predicate SameEntries(a: seq<Stamped>, b: seq<Stamped>, id: string) {
    Of(a, id) == Of(b, id)
  }

  ghost predicate SameResults(a: seq<Entry>, b: seq<Entry>, id: string) {
    ResultsOf(a, id) == ResultsOf(b, id)
  }

  // ---------- the rounds ----------

  function Count(items: seq<Item>, id: string): nat {
    if items == [] then 0
    else Count(items[..|items| - 1], id) + if items[|items| - 1].id == id then 1 else 0
  }

  /** The nth occurrence of an id goes to round n. */
  function Place(rounds: seq<seq<Item>>, x: Item, n: nat): seq<seq<Item>>
    requires n <= |rounds|
  {
    if n == |rounds| then rounds + [[x]] else rounds[n := rounds[n] + [x]]
  }

  function Split(items: seq<Item>): (rounds: seq<seq<Item>>)
    ensures forall id :: Count(items, id) <= |rounds|
  {
    if items == [] then []
    else
      var before := Split(items[..|items| - 1]);
      var x := items[|items| - 1];
      Place(before, x, Count(items[..|items| - 1], x.id))
  }

  /** Each entry with the instant of its own round. */
  function StampByRound(items: seq<Item>, clock: nat -> string): seq<Stamped> {
    if items == [] then []
    else
      var before, x := items[..|items| - 1], items[|items| - 1];
      StampByRound(before, clock) + [Stamped(x, clock(Count(before, x.id)))]
  }

  function StampAll(items: seq<Item>, ts: string): seq<Stamped> {
    seq(|items|, i requires 0 <= i < |items| => Stamped(items[i], ts))
  }

  /** The rounds laid end to end, round n at `clock(n)`. */
  function Flatten(rounds: seq<seq<Item>>, clock: nat -> string): seq<Stamped> {
    if rounds == [] then []
    else Flatten(rounds[..|rounds| - 1], clock) + StampAll(rounds[|rounds| - 1], clock(|rounds| - 1))
  }

  /** Round n holds an id once if it occurs more than n times, and not at all otherwise. */
  lemma {:induction false} RoundHolds(items: seq<Item>, n: nat, id: string)
    requires n < |Split(items)|
    ensures Count(Split(items)[n], id) == if n < Count(items, id) then 1 else 0
  {
    if items != [] {
      var before, x := items[..|items| - 1], items[|items| - 1];
      var at := Count(before, x.id);
      if n < |Split(before)| { RoundHolds(before, n, id); }
      if n == at {
        var r := if n < |Split(before)| then Split(before)[n] else [];
        assert Split(items)[n] == r + [x];
        assert (r + [x])[..|r|] == r;
      }
    }
  }

  lemma {:induction false} OfConcat(a: seq<Stamped>, b: seq<Stamped>, id: string)
    ensures Of(a + b, id) == Of(a, id) + Of(b, id)
  {
    if b == [] {
      assert a + b == a;
    } else {
      assert (a + b)[..|a + b| - 1] == a + b[..|b| - 1];
      OfConcat(a, b[..|b| - 1], id);
    }
  }

  lemma {:induction false} OfNone(items: seq<Item>, ts: string, id: string)
    requires Count(items, id) == 0
    ensures Of(StampAll(items, ts), id) == []
  {
    if items != [] {
      assert StampAll(items, ts)[..|items| - 1] == StampAll(items[..|items| - 1], ts);
      OfNone(items[..|items| - 1], ts, id);
    }
  }

  lemma StampAllAppend(items: seq<Item>, x: Item, ts: string)
    ensures StampAll(items + [x], ts) == StampAll(items, ts) + [Stamped(x, ts)]
  {
  }

  lemma OfSingle(x: Stamped, id: string)
    ensures Of([x], id) == if x.item.id == id then [x] else []
  {
    assert [x][..0] == [];
  }

  lemma FlattenAppend(rounds: seq<seq<Item>>, last: seq<Item>, clock: nat -> string, id: string)
    ensures Of(Flatten(rounds + [last], clock), id) == Of(Flatten(rounds, clock), id) + Of(StampAll(last, clock(|rounds|)), id)
  {
    assert (rounds + [last])[..|rounds|] == rounds;
    OfConcat(Flatten(rounds, clock), StampAll(last, clock(|rounds|)), id);
  }

  lemma StampAllOf(items: seq<Item>, x: Item, ts: string, id: string)
    ensures Of(StampAll(items + [x], ts), id) == Of(StampAll(items, ts), id) + if x.id == id then [Stamped(x, ts)] else []
  {
    StampAllAppend(items, x, ts);
    OfConcat(StampAll(items, ts), [Stamped(x, ts)], id);
    OfSingle(Stamped(x, ts), id);
  }

  /** Placing an entry in round n adds it, at that round's instant, after what its id already has. */
  lemma {:induction false} PlaceOf(rounds: seq<seq<Item>>, x: Item, n: nat, clock: nat -> string, id: string)
    requires n <= |rounds|
    requires forall r :: n <= r < |rounds| ==> Count(rounds[r], x.id) == 0
    ensures Of(Flatten(Place(rounds, x, n), clock), id)
         == Of(Flatten(rounds, clock), id) + (if x.id == id then [Stamped(x, clock(n))] else [])
  {
    if n == |rounds| {
      FlattenAppend(rounds, [x], clock, id);
      StampAllOf([], x, clock(n), id);
      assert [] + [x] == [x];
    } else {
      var m := |rounds| - 1;
      assert rounds == rounds[..m] + [rounds[m]];
      PlaceInside(rounds[..m], rounds[m], x, n, clock, id);
    }
  }

  lemma {:induction false} PlaceInside(front: seq<seq<Item>>, last: seq<Item>, x: Item, n: nat, clock: nat -> string, id: string)
    requires n <= |front| && Count(last, x.id) == 0
    requires forall r :: n <= r < |front| ==> Count(front[r], x.id) == 0
    ensures Of(Flatten(Place(front + [last], x, n), clock), id)
         == Of(Flatten(front + [last], clock), id) + (if x.id == id then [Stamped(x, clock(n))] else [])
    decreases |front|
  {
    PlaceAtEnd(front, last, x, n);
    if n == |front| {
      PlaceLast(front, last, x, clock, id);
    } else {
      var m := |front| - 1;
      assert front == front[..m] + [front[m]];
      PlaceInside(front[..m], front[m], x, n, clock, id);
      PlaceEarlier(front, last, x, n, clock, id);
    }
  }

  lemma PlaceEarlier(front: seq<seq<Item>>, last: seq<Item>, x: Item, n: nat, clock: nat -> string, id: string)
    requires n < |front| && Count(last, x.id) == 0
    requires Of(Flatten(Place(front, x, n), clock), id)
          == Of(Flatten(front, clock), id) + (if x.id == id then [Stamped(x, clock(n))] else [])
    ensures Of(Flatten(Place(front, x, n) + [last], clock), id)
         == Of(Flatten(front + [last], clock), id) + (if x.id == id then [Stamped(x, clock(n))] else [])
  {
    FlattenAppend(front, last, clock, id);
    FlattenAppend(Place(front, x, n), last, clock, id);
    var tail := Of(StampAll(last, clock(|front|)), id);
    if x.id == id { OfNone(last, clock(|front|), id); }
    Swap(Of(Flatten(front, clock), id), if x.id == id then [Stamped(x, clock(n))] else [], tail);
  }

  lemma Swap(a: seq<Stamped>, b: seq<Stamped>, c: seq<Stamped>)
    requires b == [] || c == []
    ensures (a + b) + c == (a + c) + b
  {
  }

  lemma PlaceLast(front: seq<seq<Item>>, last: seq<Item>, x: Item, clock: nat -> string, id: string)
    ensures Of(Flatten(front + [last + [x]], clock), id)
         == Of(Flatten(front + [last], clock), id) + (if x.id == id then [Stamped(x, clock(|front|))] else [])
  {
    FlattenAppend(front, last, clock, id);
    FlattenAppend(front, last + [x], clock, id);
    StampAllOf(last, x, clock(|front|), id);
  }

  lemma PlaceAtEnd(front: seq<seq<Item>>, last: seq<Item>, x: Item, n: nat)
    requires n <= |front|
    ensures Place(front + [last], x, n) == if n == |front| then front + [last + [x]] else Place(front, x, n) + [last]
  {
  }

  /** For every id, the rounds hold its entries in array order, each at its round's instant. */
  lemma {:induction false} SplitOf(items: seq<Item>, clock: nat -> string, id: string)
    ensures Of(Flatten(Split(items), clock), id) == Of(StampByRound(items, clock), id)
  {
    if items != [] {
      var before, x := items[..|items| - 1], items[|items| - 1];
      var n := Count(before, x.id);
      forall r | n <= r < |Split(before)|
        ensures Count(Split(before)[r], x.id) == 0
      {
        RoundHolds(before, r, x.id);
      }
      SplitOf(before, clock, id);
      PlaceOf(Split(before), x, n, clock, id);
      OfConcat(StampByRound(before, clock), [Stamped(x, clock(n))], id);
      OfSingle(Stamped(x, clock(n)), id);
    }
  }

  /** Executing the rounds in order is executing the array one entry after the other. */
  lemma RoundsAreSequential(rule: Rule, docs: Docs, items: seq<Item>, clock: nat -> string)
    ensures var rounds, sequential := Run(rule, docs, Flatten(Split(items), clock)), Run(rule, docs, StampByRound(items, clock));
            rounds.docs == sequential.docs && forall id :: SameResults(rounds.log, sequential.log, id)
  {
    forall id
      ensures SameEntries(Flatten(Split(items), clock), StampByRound(items, clock), id)
    {
      SplitOf(items, clock, id);
    }
    SameById(rule, docs, Flatten(Split(items), clock), StampByRound(items, clock));
  }

  // ---------- the array, entry by entry ----------

  /** The entries before this one with the same id: the round it is in. */
  ghost function Earlier(items: seq<Item>, i: nat): nat
    requires i < |items|
  {
    |set j | 0 <= j < i && items[j].id == items[i].id|
  }

  lemma {:induction false} CountIsEarlier(items: seq<Item>, id: string, n: nat)
    requires n <= |items|
    ensures Count(items[..n], id) == |set j | 0 <= j < n && items[j].id == id|
  {
    if n > 0 {
      CountIsEarlier(items, id, n - 1);
      assert items[..n][..n - 1] == items[..n - 1];
      var a, b := set j | 0 <= j < n - 1 && items[j].id == id, set j | 0 <= j < n && items[j].id == id;
      assert b == if items[n - 1].id == id then a + {n - 1} else a;
    }
  }

  /** The incoming instances, one after the other, are pushed unless their dataset is there. */
  ghost function AppendNew(cur: seq<Json>, inc: seq<Json>): seq<Json>
    decreases inc
  {
    if inc == [] then cur
    else AppendNew(if HoldsFor(cur, GetText(inc[0], "datasetId")) then cur else cur + [inc[0]], inc[1..])
  }

  lemma {:induction false} PositionHolds(cur: seq<Json>, ds: Option<string>)
    ensures Position(cur, ds) < |cur| <==> HoldsFor(cur, ds)
  {
    if Position(cur, ds) < |cur| { assert HoldsAs(cur, ds, cur[Position(cur, ds)]); }
    if HoldsFor(cur, ds) {
      var x :| HoldsAs(cur, ds, x);
      var i :| 0 <= i < |cur| && cur[i] == x;
      PositionFirst(cur, ds, i);
    }
  }

  lemma {:induction false} AppendNewLast(cur: seq<Json>, inc: seq<Json>, x: Json)
    ensures AppendNew(cur, inc + [x]) == var u := AppendNew(cur, inc); if HoldsFor(u, GetText(x, "datasetId")) then u else u + [x]
    decreases inc
  {
    if inc == [] {
      assert [x][1..] == [];
    } else {
      assert (inc + [x])[1..] == inc[1..] + [x];
      AppendNewLast(if HoldsFor(cur, GetText(inc[0], "datasetId")) then cur else cur + [inc[0]], inc[1..], x);
    }
  }

  lemma {:induction false} AddAbsentByName(cur: seq<Json>, inc: seq<Json>)
    ensures AddAbsent(cur, inc) == AppendNew(cur, inc)
    ensures cur <= AddAbsent(cur, inc)
  {
    if inc != [] {
      var n := |inc| - 1;
      AddAbsentByName(cur, inc[..n]);
      AppendNewLast(cur, inc[..n], inc[n]);
      PositionHolds(AddAbsent(cur, inc[..n]), Dataset(inc[n]));
      assert inc == inc[..n] + [inc[n]];
    }
  }

  /** An incoming instance finds its dataset there already. */
  ghost predicate SkipsAt(cur: seq<Json>, inc: seq<Json>, i: nat) {
    i < |inc| && HoldsFor(AppendNew(cur, inc[..i]), GetText(inc[i], "datasetId"))
  }

  lemma {:induction false} AnySkippedByName(cur: seq<Json>, inc: seq<Json>)
    ensures AnySkipped(cur, inc) <==> exists i: nat :: SkipsAt(cur, inc, i)
  {
    if inc != [] {
      var n := |inc| - 1;
      var before := inc[..n];
      AnySkippedByName(cur, before);
      AddAbsentByName(cur, before);
      PositionHolds(AddAbsent(cur, before), Dataset(inc[n]));
      forall i: nat
        ensures i < n ==> (SkipsAt(cur, before, i) <==> SkipsAt(cur, inc, i))
      {
        if i < n { assert before[..i] == inc[..i]; }
      }
      assert SkipsAt(cur, inc, n) <==> Position(AddAbsent(cur, before), Dataset(inc[n])) < |AddAbsent(cur, before)|;
      if AnySkipped(cur, before) {
        var i: nat :| SkipsAt(cur, before, i);
        assert SkipsAt(cur, inc, i);
      }
      if i: nat :| SkipsAt(cur, inc, i) { assert i == n || SkipsAt(cur, before, i); }
    }
  }

  /** A stored document under an update with noOverwrite: each Attribute of the fragment keeps what it has and gains what
      it lacks; everything else but modifiedAt stays. */
  ghost predicate KeptAsClause(target: Members, frag: Members, ts: string, r: Members) {
    && At(r, "modifiedAt") == Some(Text(ts))
    && forall k :: KeptMember(target, frag, r, k)
  }

  ghost predicate KeptMember(target: Members, frag: Members, r: Members, k: string) {
    if k == "modifiedAt" then true
    else if E.NamesAttr(frag, k) then
      At(r, k) == Some(Array(if k in target && target[k].Array? then AppendNew(target[k].items, E.ListAt(frag, k)) else E.ListAt(frag, k)))
    else AgreeAt(r, target, k)
  }

  ghost predicate Skips(target: Members, frag: Members, k: string) {
    E.NamesAttr(frag, k) && k in target && target[k].Array? && exists i: nat :: SkipsAt(target[k].items, E.ListAt(frag, k), i)
  }

  lemma {:induction false} NoOverwriteByName(target: Members, frag: Members, ts: string)
    ensures KeptAsClause(target, frag, ts, NoOverwriteDoc(target, frag, ts))
    ensures NoOverwriteSkipped(target, frag) <==> exists k :: Skips(target, frag, k)
  {
    var r := NoOverwriteDoc(target, frag, ts);
    forall k
      ensures KeptMember(target, frag, r, k)
      ensures k in E.FragAttrs(frag) && NoOverwriteSkips(At(target, k), frag[k]) <==> Skips(target, frag, k)
    {
      NoOverwriteAt(target, frag, ts, k);
    }
    if NoOverwriteSkipped(target, frag) {
      var k :| k in E.FragAttrs(frag) && NoOverwriteSkips(At(target, k), frag[k]);
      assert Skips(target, frag, k);
    }
  }

  lemma {:induction false} NoOverwriteAt(target: Members, frag: Members, ts: string, k: string)
    ensures KeptMember(target, frag, NoOverwriteDoc(target, frag, ts), k)
    ensures k in E.FragAttrs(frag) && NoOverwriteSkips(At(target, k), frag[k]) <==> Skips(target, frag, k)
  {
    E.NamesByName(frag, k);
    if k in E.FragAttrs(frag) && k in target && target[k].Array? {
      AddAbsentByName(target[k].items, E.ListAt(frag, k));
      AnySkippedByName(target[k].items, E.ListAt(frag, k));
    }
  }

  /** What was there stays in front of what an Attribute gains. */
  lemma {:induction false} GainsAtTheEnd(cur: seq<Json>, inc: seq<Json>)
    ensures cur <= AppendNew(cur, inc)
  {
    AddAbsentByName(cur, inc);
  }

  /** What the store holds for an id after the first `n` entries of the array, of which each is applied at the instant of
      its round, or all at one for a create. */
  ghost predicate HeldAfter(env: Env, mode: Mode, cur: Option<Json>, items: seq<Item>, createTs: string, clock: nat -> string,
                            id: string, n: nat, r: Option<Json>)
    requires n <= |items|
    decreases n
  {
    if n == 0 then r == cur
    else
      var m: nat := n - 1;
      if items[m].id != id then HeldAfter(env, mode, cur, items, createTs, clock, id, m, r)
      else exists p :: HeldAfter(env, mode, cur, items, createTs, clock, id, m, p)
                    && EntryLeaves(env, mode, p, items[m].doc, if mode.Create? then createTs else clock(Earlier(items, m)), r)
  }

  /** What one entry makes of what the store holds for its id. */
  ghost predicate EntryLeaves(env: Env, mode: Mode, p: Option<Json>, doc: Json, ts: string, r: Option<Json>) {
    match mode
    case Create => r == if p.None? then Some(env.stampNew(doc, ts)) else p
    case Upsert(update) => r == if p.Some? && update then Some(env.mergeInto(p.value, doc, ts)) else Some(env.stampNew(doc, ts))
    case Merge => r == if p.Some? then Some(env.mergeInto(p.value, doc, ts)) else None
    case Update(noOverwrite) =>
      if p.None? then r == None
      else if !noOverwrite then r == Some(env.mergeInto(p.value, doc, ts))
      else if !p.value.Object? || !doc.Object? then r == p
      else r.Some? && r.value.Object? && KeptAsClause(p.value.members, doc.members, ts, r.value.members)
  }

  /** How one entry ends: nothing but an absent id fails an update or a merge, nothing but a present one a create, and
      nothing an upsert; with noOverwrite an Attribute that was there already fails it too. */
  ghost predicate EntryFails(mode: Mode, p: Option<Json>, doc: Json) {
    match mode
    case Create => p.Some?
    case Upsert(_) => false
    case Merge => p.None?
    case Update(noOverwrite) =>
      p.None? || (noOverwrite && (!p.value.Object? || !doc.Object? || exists k :: Skips(p.value.members, doc.members, k)))
  }

  ghost predicate EntryCreates(mode: Mode, p: Option<Json>) {
    (mode.Create? || mode.Upsert?) && p.None?
  }

  lemma {:induction false} ApplyByName(env: Env, mode: Mode, p: Option<Json>, doc: Json, ts: string)
    ensures var (d, r) := Apply(env, mode, p, doc, ts);
            && EntryLeaves(env, mode, p, doc, ts, d)
            && (Succeeded(r) <==> !EntryFails(mode, p, doc)) && (r.Created? <==> EntryCreates(mode, p))
  {
    if p.Some? && p.value.Object? && doc.Object? { NoOverwriteByName(p.value.members, doc.members, ts); }
  }

  /** A document is determined by what the clause says of it: so is what an entry leaves. */
  lemma {:induction false} LeavesOne(env: Env, mode: Mode, p: Option<Json>, doc: Json, ts: string, a: Option<Json>, b: Option<Json>)
    requires EntryLeaves(env, mode, p, doc, ts, a) && EntryLeaves(env, mode, p, doc, ts, b)
    ensures a == b
  {
    if mode == Update(true) && p.Some? && p.value.Object? && doc.Object? {
      var x, y := a.value.members, b.value.members;
      forall k
        ensures AgreeAt(x, y, k)
      {
        if k == "modifiedAt" {
          assert At(x, k) == At(y, k);
        } else {
          assert KeptMember(p.value.members, doc.members, x, k) && KeptMember(p.value.members, doc.members, y, k);
        }
      }
      SameMembers(x, y);
    }
  }

  lemma {:induction false} HeldOne(env: Env, mode: Mode, cur: Option<Json>, items: seq<Item>, createTs: string, clock: nat -> string,
                                   id: string, n: nat, a: Option<Json>, b: Option<Json>)
    requires n <= |items|
    requires HeldAfter(env, mode, cur, items, createTs, clock, id, n, a) && HeldAfter(env, mode, cur, items, createTs, clock, id, n, b)
    ensures a == b
    decreases n
  {
    if n > 0 {
      if items[n - 1].id != id {
        HeldOne(env, mode, cur, items, createTs, clock, id, n - 1, a, b);
      } else {
        var ts := if mode.Create? then createTs else clock(Earlier(items, n - 1));
        var p :| HeldAfter(env, mode, cur, items, createTs, clock, id, n - 1, p) && EntryLeaves(env, mode, p, items[n - 1].doc, ts, a);
        var q :| HeldAfter(env, mode, cur, items, createTs, clock, id, n - 1, q) && EntryLeaves(env, mode, q, items[n - 1].doc, ts, b);
        HeldOne(env, mode, cur, items, createTs, clock, id, n - 1, p, q);
        LeavesOne(env, mode, p, items[n - 1].doc, ts, a, b);
      }
    }
  }
}
