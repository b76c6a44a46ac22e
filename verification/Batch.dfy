/** `batch_write` of crates/antares-api/src/batch.rs: rounds of bulk store calls, and what
    they report in the S and E arrays. */
module Batch {
  import opened Json
  import opened Instances
  import opened Rounds
  import E = EntityAttrs

  // ---------- the noOverwrite closure ----------

  /** The instance loop of the noOverwrite closure. */
  method PushAbsent(cur: seq<Json>, inc: seq<Json>) returns (r: seq<Json>, skipped: bool)
    ensures r == AddAbsent(cur, inc) && skipped == AnySkipped(cur, inc)
  {
    r, skipped := cur, false;
    for i := 0 to |inc|
      invariant r == AddAbsent(cur, inc[..i]) && skipped == AnySkipped(cur, inc[..i])
    {
      assert inc[..i + 1][..i] == inc[..i];
      if Position(r, Dataset(inc[i])) < |r| {
        skipped := true;
      } else {
        r := r + [inc[i]];
      }
    }
    assert inc[..|inc|] == inc;
  }

  /** One Attribute of the noOverwrite closure. */
  method KeepAttr(target: Members, k: string, v: Json) returns (r: Members, skipped: bool)
    ensures r == target[k := NoOverwriteAttr(At(target, k), v)]
    ensures skipped == NoOverwriteSkips(At(target, k), v)
  {
    var incoming := if v.Array? then v.items else [];
    if k in target && target[k].Array? {
      var cur, s := PushAbsent(target[k].items, incoming);
      return target[k := Array(cur)], s;
    }
    return target[k := Array(incoming)], false;
  }

  ghost predicate KeptAt(target: Members, frag: Members, r: Members, done: set<string>, k: string) {
    At(r, k) == if k in done && k in frag then Some(NoOverwriteAttr(At(target, k), frag[k])) else At(target, k)
  }

  ghost predicate SkipsIn(target: Members, frag: Members, ks: set<string>) {
    exists k :: k in ks && k in frag && NoOverwriteSkips(At(target, k), frag[k])
  }

  /** The noOverwrite closure on one stored document. */
  method KeepExisting(target: Members, frag: Members, ts: string) returns (r: Members, skipped: bool)
    ensures r == NoOverwriteDoc(target, frag, ts)
    ensures skipped <==> NoOverwriteSkipped(target, frag)
  {
    r, skipped := target, false;
    var attrs := E.FragAttrs(frag);
    var rest := attrs;
    while rest != {}
      invariant rest <= attrs
      invariant forall k :: KeptAt(target, frag, r, attrs - rest, k)
      invariant skipped <==> SkipsIn(target, frag, attrs - rest)
      decreases rest
    {
      var k :| k in rest;
      ghost var r0, done := r, attrs - rest;
      assert KeptAt(target, frag, r0, done, k);
      var s;
      r, s := KeepAttr(r, k, frag[k]);
      skipped := skipped || s;
      rest := rest - {k};
      assert attrs - rest == done + {k};
      KeptNext(target, frag, r0, r, done, k);
      assert SkipsIn(target, frag, done + {k}) <==> SkipsIn(target, frag, done) || s;
    }
    assert attrs - {} == attrs;
    ghost var body := r;
    r := r["modifiedAt" := Text(ts)];
    forall k | k != "modifiedAt"
      ensures KeptAt(target, frag, r, attrs, k)
    {
      assert KeptAt(target, frag, body, attrs, k);
    }
    KeptEnds(target, frag, r, ts);
  }

  lemma KeptNext(target: Members, frag: Members, a: Members, b: Members, done: set<string>, k: string)
    requires forall j :: KeptAt(target, frag, a, done, j)
    requires k in frag && k !in done && b == a[k := NoOverwriteAttr(At(target, k), frag[k])]
    ensures forall j :: KeptAt(target, frag, b, done + {k}, j)
  {
    var done' := done + {k};
    forall j
      ensures KeptAt(target, frag, b, done', j)
    {
      assert KeptAt(target, frag, a, done, j);
    }
  }

  lemma KeptEnds(target: Members, frag: Members, r: Members, ts: string)
    requires At(r, "modifiedAt") == Some(Text(ts))
    requires forall k :: k != "modifiedAt" ==> KeptAt(target, frag, r, E.FragAttrs(frag), k)
    ensures r == NoOverwriteDoc(target, frag, ts)
  {
    var q := NoOverwriteDoc(target, frag, ts);
    forall k
      ensures AgreeAt(r, q, k)
    {
      if k != "modifiedAt" { assert KeptAt(target, frag, r, E.FragAttrs(frag), k); }
    }
    SameMembers(r, q);
  }

  // ---------- the store ----------

  /** The closure handed to `batch_mutate`. */
  method EditOne(env: Env, mode: Mode, doc: Json, frag: Json, ts: string) returns (d: Json, r: Result)
    ensures (d, r) == Edit(env, mode, doc, frag, ts)
  {
    if mode.Update? && mode.noOverwrite {
      if !doc.Object? || !frag.Object? {
        return doc, Rejected;
      }
      var m, skipped := KeepExisting(doc.members, frag.members, ts);
      return Object(m), if skipped then Skipped else Merged;
    }
    return env.mergeInto(doc, frag, ts), Merged;
  }

  /** The documents of one tenant, behind the bulk calls of the store's contract. */
  class Store {
    var docs: Docs

    constructor (d: Docs)
      ensures docs == d
    {
      docs := d;
    }

    /** Read-modify-write in input order; `None` for an absent id, never an insert. */
    method BatchMutate(env: Env, mode: Mode, ids: seq<string>, frags: map<string, Json>, ts: string) returns (res: seq<Option<Result>>)
      requires forall i :: 0 <= i < |ids| ==> ids[i] in frags
      requires forall i, j :: 0 <= i < j < |ids| ==> ids[i] != ids[j]
      modifies this
      ensures |res| == |ids|
      ensures forall i :: 0 <= i < |ids| ==> MutatedAt(env, mode, old(docs), docs, ids[i], frags[ids[i]], ts, res[i])
      ensures forall id :: id !in ids ==> At(docs, id) == At(old(docs), id)
    {
      res := [];
      for i := 0 to |ids|
        invariant |res| == i
        invariant forall j :: 0 <= j < i ==> MutatedAt(env, mode, old(docs), docs, ids[j], frags[ids[j]], ts, res[j])
        invariant forall id :: id !in ids[..i] ==> At(docs, id) == At(old(docs), id)
      {
        var id := ids[i];
        ghost var before := docs;
        assert At(docs, id) == At(old(docs), id);
        if id in docs {
          var d, r := EditOne(env, mode, docs[id], frags[id], ts);
          docs := docs[id := d];
          res := res + [Some(r)];
        } else {
          res := res + [None];
        }
        assert forall j :: j != id ==> At(docs, j) == At(before, j);
        assert ids[..i + 1] == ids[..i] + [id];
      }
      assert ids[..|ids|] == ids;
    }

    /** Insert or replace; created-flags in input order. */
    method BatchUpsert(items: seq<Item>) returns (flags: seq<bool>)
      requires forall i, j :: 0 <= i < j < |items| ==> items[i].id != items[j].id
      modifies this
      ensures |flags| == |items|
      ensures forall i :: 0 <= i < |items| ==> flags[i] == (items[i].id !in old(docs)) && At(docs, items[i].id) == Some(items[i].doc)
      ensures forall id :: (forall i :: 0 <= i < |items| ==> items[i].id != id) ==> At(docs, id) == At(old(docs), id)
    {
      flags := [];
      for i := 0 to |items|
        invariant |flags| == i
        invariant forall j :: 0 <= j < i ==> flags[j] == (items[j].id !in old(docs)) && At(docs, items[j].id) == Some(items[j].doc)
        invariant forall id :: (forall j :: 0 <= j < i ==> items[j].id != id) ==> At(docs, id) == At(old(docs), id)
      {
        ghost var before := docs;
        assert At(docs, items[i].id) == At(old(docs), items[i].id);
        flags := flags + [items[i].id !in docs];
        docs := docs[items[i].id := items[i].doc];
        assert forall j :: j != items[i].id ==> At(docs, j) == At(before, j);
      }
    }

    /** Insert what is absent; created-flags in input order, of two equal ids the second reads present. */
    method BatchCreate(items: seq<Item>, ghost env: Env, ghost raw: seq<Item>, ghost ts: string) returns (flags: seq<bool>)
      requires |raw| == |items|
      requires forall i :: 0 <= i < |items| ==> items[i] == Item(raw[i].id, env.stampNew(raw[i].doc, ts))
      modifies this
      ensures CreateDone(env, old(docs), raw, ts, docs, flags)
    {
      flags := [];
      ghost var start := docs;
      assert raw[..0] == [];
      for i := 0 to |items|
        invariant CreateDone(env, start, raw[..i], ts, docs, flags)
      {
        CreateNext(env, start, raw, i, ts, docs, flags);
        if items[i].id !in docs {
          docs := docs[items[i].id := items[i].doc];
          flags := flags + [true];
        } else {
          flags := flags + [false];
        }
      }
      assert raw[..|raw|] == raw;
    }

    /** Delete by id; deleted-flags in input order, of two equal ids the second reads absent. */
    method BatchDelete(ids: seq<string>) returns (flags: seq<bool>)
      modifies this
      ensures |flags| == |ids|
      ensures forall i :: 0 <= i < |ids| ==> flags[i] == (ids[i] in old(docs) && ids[i] !in ids[..i])
      ensures docs == old(docs) - (set x | x in ids)
    {
      flags := [];
      for i := 0 to |ids|
        invariant |flags| == i
        invariant forall j :: 0 <= j < i ==> flags[j] == (ids[j] in old(docs) && ids[j] !in ids[..j])
        invariant docs == old(docs) - (set x | x in ids[..i])
      {
        assert ids[..i + 1] == ids[..i] + [ids[i]];
        flags := flags + [ids[i] in docs];
        docs := docs - {ids[i]};
      }
      assert ids[..|ids|] == ids;
    }
  }

  /** The bulk create leaves the store of the sequential run, and its flags are that run's log. */
  ghost predicate CreateDone(env: Env, start: Docs, raw: seq<Item>, ts: string, docs: Docs, flags: seq<bool>) {
    var o := Run(RuleOf(env, Create), start, StampAll(raw, ts));
    && docs == o.docs && |flags| == |raw| == |o.log|
    && forall i :: 0 <= i < |raw| ==> o.log[i] == Entry(raw[i].id, if flags[i] then Created else Exists)
  }

  lemma CreateNext(env: Env, start: Docs, raw: seq<Item>, i: nat, ts: string, docs: Docs, flags: seq<bool>)
    requires i < |raw| && CreateDone(env, start, raw[..i], ts, docs, flags)
    ensures var id := raw[i].id;
            CreateDone(env, start, raw[..i + 1], ts,
                       if id in docs then docs else docs[id := env.stampNew(raw[i].doc, ts)], flags + [id !in docs])
  {
    RunNext(RuleOf(env, Create), start, raw, i, ts);
    assert raw[..i + 1] == raw[..i] + [raw[i]];
  }

  /** What `batch_mutate` did to one id. */
  ghost predicate MutatedAt(env: Env, mode: Mode, before: Docs, after: Docs, id: string, frag: Json, ts: string, r: Option<Result>) {
    if id in before then
      var (d, x) := Edit(env, mode, before[id], frag, ts);
      At(after, id) == Some(d) && r == Some(x)
    else At(after, id) == None && r == None
  }

  lemma RunNext(rule: Rule, docs: Docs, raw: seq<Item>, i: nat, ts: string)
    requires i < |raw|
    ensures Run(rule, docs, StampAll(raw[..i + 1], ts)) == Next(rule, Run(rule, docs, StampAll(raw[..i], ts)), Stamped(raw[i], ts))
  {
    assert raw[..i + 1] == raw[..i] + [raw[i]];
    StampAllAppend(raw[..i], raw[i], ts);
    var a := StampAll(raw[..i], ts);
    assert (a + [Stamped(raw[i], ts)])[..|a|] == a;
  }

  // ---------- what is reported ----------

  /** The failing entries of a log, in order. */
  function Failures(log: seq<Entry>): seq<Entry> {
    if log == [] then []
    else
      var f := Failures(log[..|log| - 1]);
      if Succeeded(log[|log| - 1].result) then f else f + [log[|log| - 1]]
  }

  predicate SucceededIn(log: seq<Entry>, id: string) {
    exists i :: 0 <= i < |log| && log[i].id == id && Succeeded(log[i].result)
  }

  predicate CreatedIn(log: seq<Entry>, id: string) {
    exists i :: 0 <= i < |log| && log[i].id == id && log[i].result.Created?
  }

  ghost predicate NoRepeats(s: seq<string>) {
    forall i, j :: 0 <= i < j < |s| ==> s[i] != s[j]
  }

  /** The lists report the log: `success` and `created` name each id once, `errors` every failure. */
  ghost predicate Reports(log: seq<Entry>, prep: seq<Entry>, success: seq<string>, errors: seq<Entry>, created: seq<string>) {
    && NoRepeats(success) && (forall id :: id in success <==> SucceededIn(log, id))
    && NoRepeats(created) && (forall id :: id in created <==> CreatedIn(log, id))
    && errors == prep + Failures(log)
  }

  lemma ReportNext(log: seq<Entry>, prep: seq<Entry>, success: seq<string>, errors: seq<Entry>, created: seq<string>, e: Entry)
    requires Reports(log, prep, success, errors, created)
    ensures Reports(log + [e], prep,
                    if Succeeded(e.result) && e.id !in success then success + [e.id] else success,
                    if Succeeded(e.result) then errors else errors + [e],
                    if e.result.Created? && e.id !in created then created + [e.id] else created)
  {
    var log' := log + [e];
    assert log'[..|log|] == log;
    assert log'[|log|] == e;
    forall id
      ensures SucceededIn(log', id) <==> SucceededIn(log, id) || (id == e.id && Succeeded(e.result))
      ensures CreatedIn(log', id) <==> CreatedIn(log, id) || (id == e.id && e.result.Created?)
    {
      if SucceededIn(log, id) {
        var i :| 0 <= i < |log| && log[i].id == id && Succeeded(log[i].result);
        assert log'[i] == log[i];
      }
      if CreatedIn(log, id) {
        var i :| 0 <= i < |log| && log[i].id == id && log[i].result.Created?;
        assert log'[i] == log[i];
      }
    }
  }

  /** The lists after one entry's outcome. */
  method Reported(ghost log: seq<Entry>, ghost prep: seq<Entry>, success: seq<string>, errors: seq<Entry>, created: seq<string>, e: Entry)
    returns (s: seq<string>, er: seq<Entry>, c: seq<string>)
    requires Reports(log, prep, success, errors, created)
    ensures Reports(log + [e], prep, s, er, c)
    ensures c != [] <==> created != [] || e.result.Created?
  {
    ReportNext(log, prep, success, errors, created, e);
    s, er, c := success, errors, created;
    if e.result.Created? && e.id !in c { c := c + [e.id]; }
    if Succeeded(e.result) {
      if e.id !in s { s := s + [e.id]; }
    } else {
      er := er + [e];
    }
  }

  /** `out`, `created_ids` and `any_created` of `batch_write`. */
  class Tally {
    var success: seq<string>
    var errors: seq<Entry>
    var created: seq<string>
    var anyCreated: bool
    ghost var log: seq<Entry>
    ghost const prep: seq<Entry>

    ghost predicate Valid()
      reads this
    {
      Reports(log, prep, success, errors, created) && (anyCreated <==> created != [])
    }

    /** Starts from the errors the preparation of the items left. */
    constructor (prepErrors: seq<Entry>)
      ensures Valid() && log == [] && prep == prepErrors
    {
      success, errors, created, anyCreated := [], prepErrors, [], false;
      log, prep := [], prepErrors;
    }

    /** One entry's outcome. */
    method Note(id: string, r: Result)
      requires Valid()
      modifies this
      ensures Valid() && log == old(log) + [Entry(id, r)]
    {
      ghost var log' := log + [Entry(id, r)];
      var s, e, c := Reported(log, prep, success, errors, created, Entry(id, r));
      success, errors, created, anyCreated, log := s, e, c, anyCreated || r.Created?, log';
    }
  }

  // ---------- one round ----------

  ghost predicate DistinctIds(items: seq<Item>) {
    forall i, j :: 0 <= i < j < |items| ==> items[i].id != items[j].id
  }

  /** The document a list holds for an id. */
  function Lookup(items: seq<Item>, id: string): Option<Json> {
    if items == [] then None
    else if items[|items| - 1].id == id then Some(items[|items| - 1].doc)
    else Lookup(items[..|items| - 1], id)
  }

  /** The log names each of `items` once more, with the result the rule gives it on `docs`. */
  ghost predicate LoggedAt(rule: Rule, docs: Docs, items: seq<Item>, ts: string, before: seq<Entry>, after: seq<Entry>, id: string) {
    ResultsOf(after, id) == ResultsOf(before, id) +
      match Lookup(items, id)
      case None => []
      case Some(doc) => [rule(At(docs, id), doc, ts).1]
  }

  ghost predicate Logged(rule: Rule, docs: Docs, items: seq<Item>, ts: string, before: seq<Entry>, after: seq<Entry>) {
    forall id :: LoggedAt(rule, docs, items, ts, before, after, id)
  }

  lemma LogNext(rule: Rule, docs: Docs, items: seq<Item>, ts: string, before: seq<Entry>, after: seq<Entry>, x: Item)
    requires Logged(rule, docs, items, ts, before, after) && Lookup(items, x.id) == None
    ensures Logged(rule, docs, items + [x], ts, before, after + [Entry(x.id, rule(At(docs, x.id), x.doc, ts).1)])
  {
    var items', after' := items + [x], after + [Entry(x.id, rule(At(docs, x.id), x.doc, ts).1)];
    assert items'[..|items|] == items;
    forall id
      ensures LoggedAt(rule, docs, items', ts, before, after', id)
    {
      assert LoggedAt(rule, docs, items, ts, before, after, id);
      ResultsAppend(after, Entry(x.id, rule(At(docs, x.id), x.doc, ts).1), id);
    }
  }

  lemma {:induction false} LookupNone(items: seq<Item>, id: string)
    ensures Lookup(items, id) == None <==> forall i :: 0 <= i < |items| ==> items[i].id != id
  {
    if items != [] {
      LookupNone(items[..|items| - 1], id);
      assert forall i :: 0 <= i < |items| - 1 ==> items[..|items| - 1][i] == items[i];
    }
  }

  lemma {:induction false} LookupIs(items: seq<Item>, i: nat)
    requires DistinctIds(items) && i < |items|
    ensures Lookup(items, items[i].id) == Some(items[i].doc)
  {
    if i < |items| - 1 { LookupIs(items[..|items| - 1], i); }
  }

  lemma DistinctPrefix(items: seq<Item>, i: nat)
    requires DistinctIds(items) && i < |items|
    ensures DistinctIds(items[..i]) && Lookup(items[..i], items[i].id) == None
    ensures items[..i + 1] == items[..i] + [items[i]]
  {
    LookupNone(items[..i], items[i].id);
  }

  /** The ids of a round, and the documents by id, as the closures look them up. */
  method Index(round: seq<Item>) returns (ids: seq<string>, frags: map<string, Json>)
    requires DistinctIds(round)
    ensures |ids| == |round| && forall i :: 0 <= i < |round| ==> ids[i] == round[i].id
    ensures forall i :: 0 <= i < |round| ==> round[i].id in frags && frags[round[i].id] == round[i].doc
  {
    ids := seq(|round|, i requires 0 <= i < |round| => round[i].id);
    frags := map[];
    for i := 0 to |round|
      invariant forall j :: 0 <= j < i ==> round[j].id in frags && frags[round[j].id] == round[j].doc
    {
      frags := frags[round[i].id := round[i].doc];
    }
  }

  /** What a round does to the store, id by id. */
  ghost predicate StoredAt(rule: Rule, before: Docs, items: seq<Item>, ts: string, after: Docs, id: string) {
    At(after, id) ==
      match Lookup(items, id)
      case None => At(before, id)
      case Some(doc) => rule(At(before, id), doc, ts).0
  }

  ghost predicate RoundDone(rule: Rule, before: Docs, log: seq<Entry>, round: seq<Item>, ts: string, after: Docs, log': seq<Entry>) {
    && (forall id :: StoredAt(rule, before, round, ts, after, id))
    && Logged(rule, before, round, ts, log, log')
  }

  /** The result that is reported of an entry: of one the store does not hold, that it is absent. */
  ghost predicate ReportedAt(rule: Rule, docs: Docs, x: Item, ts: string, r: Option<Result>) {
    rule(At(docs, x.id), x.doc, ts).1 == if r.Some? then r.value else Absent
  }

  /** Report what was mutated, and what was not there. */
  method NoteMutated(tally: Tally, ghost rule: Rule, ghost docs: Docs, round: seq<Item>, ghost ts: string, res: seq<Option<Result>>)
    requires DistinctIds(round) && tally.Valid() && |res| == |round|
    requires forall i :: 0 <= i < |round| ==> ReportedAt(rule, docs, round[i], ts, res[i])
    modifies tally
    ensures tally.Valid() && Logged(rule, docs, round, ts, old(tally.log), tally.log)
  {
    ghost var log := tally.log;
    for i := 0 to |round|
      invariant tally.Valid()
      invariant Logged(rule, docs, round[..i], ts, log, tally.log)
    {
      DistinctPrefix(round, i);
      LogNext(rule, docs, round[..i], ts, log, tally.log, round[i]);
      assert ReportedAt(rule, docs, round[i], ts, res[i]);
      match res[i]
      case None => tally.Note(round[i].id, Absent);
      case Some(r) => tally.Note(round[i].id, r);
    }
    assert round[..|round|] == round;
  }

  /** A round of `Update` or `Merge`. */
  method MutateRound(store: Store, tally: Tally, env: Env, mode: Mode, round: seq<Item>, ts: string)
    requires DistinctIds(round) && tally.Valid() && (mode.Update? || mode.Merge?)
    modifies store, tally
    ensures tally.Valid()
    ensures RoundDone(RuleOf(env, mode), old(store.docs), old(tally.log), round, ts, store.docs, tally.log)
  {
    ghost var docs, rule := store.docs, RuleOf(env, mode);
    var ids, frags := Index(round);
    var res := store.BatchMutate(env, mode, ids, frags, ts);
    MutateReported(env, mode, docs, round, ts, ids, frags, res, store.docs);
    NoteMutated(tally, rule, docs, round, ts, res);
  }

  lemma MutateReported(env: Env, mode: Mode, docs: Docs, round: seq<Item>, ts: string, ids: seq<string>, frags: map<string, Json>,
                       res: seq<Option<Result>>, after: Docs)
    requires DistinctIds(round) && (mode.Update? || mode.Merge?) && |ids| == |res| == |round|
    requires forall i :: 0 <= i < |round| ==> ids[i] == round[i].id && round[i].id in frags && frags[round[i].id] == round[i].doc
    requires forall i :: 0 <= i < |ids| ==> MutatedAt(env, mode, docs, after, ids[i], frags[ids[i]], ts, res[i])
    requires forall x :: x !in ids ==> At(after, x) == At(docs, x)
    ensures forall i :: 0 <= i < |round| ==> ReportedAt(RuleOf(env, mode), docs, round[i], ts, res[i])
    ensures forall id :: StoredAt(RuleOf(env, mode), docs, round, ts, after, id)
  {
    forall i | 0 <= i < |round|
      ensures ReportedAt(RuleOf(env, mode), docs, round[i], ts, res[i])
    {
      assert MutatedAt(env, mode, docs, after, ids[i], frags[ids[i]], ts, res[i]);
    }
    forall id
      ensures StoredAt(RuleOf(env, mode), docs, round, ts, after, id)
    {
      MutateStored(env, mode, docs, round, ts, ids, frags, res, after, id);
    }
  }

  lemma MutateStored(env: Env, mode: Mode, docs: Docs, round: seq<Item>, ts: string, ids: seq<string>, frags: map<string, Json>,
                     res: seq<Option<Result>>, after: Docs, id: string)
    requires DistinctIds(round) && (mode.Update? || mode.Merge?) && |ids| == |res| == |round|
    requires forall i :: 0 <= i < |round| ==> ids[i] == round[i].id && round[i].id in frags && frags[round[i].id] == round[i].doc
    requires forall i :: 0 <= i < |ids| ==> MutatedAt(env, mode, docs, after, ids[i], frags[ids[i]], ts, res[i])
    requires forall x :: x !in ids ==> At(after, x) == At(docs, x)
    ensures StoredAt(RuleOf(env, mode), docs, round, ts, after, id)
  {
    if Lookup(round, id).None? {
      LookupNone(round, id);
      assert id !in ids;
    } else {
      LookupNone(round, id);
      var i :| 0 <= i < |round| && round[i].id == id;
      LookupIs(round, i);
      assert MutatedAt(env, mode, docs, after, ids[i], frags[ids[i]], ts, res[i]);
    }
  }

  /** The entries of a round whose id the store holds, or those whose id it does not. */
  function Having(docs: Docs, items: seq<Item>, held: bool): seq<Item> {
    if items == [] then []
    else
      var p := Having(docs, items[..|items| - 1], held);
      var x := items[|items| - 1];
      if (x.id in docs) == held then p + [x] else p
  }

  lemma {:induction false} HavingLookup(docs: Docs, items: seq<Item>, held: bool, id: string)
    ensures Lookup(Having(docs, items, held), id) == if (id in docs) == held then Lookup(items, id) else None
  {
    if items != [] {
      var p := Having(docs, items[..|items| - 1], held);
      HavingLookup(docs, items[..|items| - 1], held, id);
      assert (p + [items[|items| - 1]])[..|p|] == p;
    }
  }

  lemma HavingNext(docs: Docs, items: seq<Item>, held: bool, i: nat)
    requires i < |items|
    ensures Having(docs, items[..i + 1], held)
         == if (items[i].id in docs) == held then Having(docs, items[..i], held) + [items[i]] else Having(docs, items[..i], held)
  {
    assert items[..i + 1][..i] == items[..i];
  }

  lemma {:induction false} HavingDistinct(docs: Docs, items: seq<Item>, held: bool)
    requires DistinctIds(items)
    ensures DistinctIds(Having(docs, items, held))
    ensures forall i :: 0 <= i < |Having(docs, items, held)| ==> (Having(docs, items, held)[i].id in docs) == held
  {
    if items != [] {
      var before, x := items[..|items| - 1], items[|items| - 1];
      HavingDistinct(docs, before, held);
      LookupNone(before, x.id);
      HavingLookup(docs, before, held, x.id);
      DistinctAppend(Having(docs, before, held), x);
    }
  }

  lemma {:induction false} DistinctAppend(items: seq<Item>, x: Item)
    requires DistinctIds(items) && Lookup(items, x.id) == None
    ensures DistinctIds(items + [x])
  {
    LookupNone(items, x.id);
  }

  /** The result a merge hands back for an entry: none if the store does not hold its id. */
  ghost predicate ResultAt(rule: Rule, docs: Docs, x: Item, ts: string, r: Option<Result>) {
    r == if x.id in docs then Some(rule(At(docs, x.id), x.doc, ts).1) else None
  }

  /** Report what was merged; hand back what was not there. */
  method NoteMerged(tally: Tally, ghost rule: Rule, ghost docs: Docs, round: seq<Item>, ghost ts: string, res: seq<Option<Result>>)
    returns (absent: seq<Item>)
    requires DistinctIds(round) && tally.Valid() && |res| == |round|
    requires forall i :: 0 <= i < |round| ==> ResultAt(rule, docs, round[i], ts, res[i])
    modifies tally
    ensures tally.Valid()
    ensures absent == Having(docs, round, false)
    ensures Logged(rule, docs, Having(docs, round, true), ts, old(tally.log), tally.log)
  {
    ghost var log := tally.log;
    absent := [];
    for i := 0 to |round|
      invariant tally.Valid()
      invariant absent == Having(docs, round[..i], false)
      invariant Logged(rule, docs, Having(docs, round[..i], true), ts, log, tally.log)
    {
      DistinctPrefix(round, i);
      HavingLookup(docs, round[..i], true, round[i].id);
      HavingNext(docs, round, true, i);
      HavingNext(docs, round, false, i);
      assert ResultAt(rule, docs, round[i], ts, res[i]);
      match res[i] {
        case None => absent := absent + [round[i]];
        case Some(r) =>
          LogNext(rule, docs, Having(docs, round[..i], true), ts, log, tally.log, round[i]);
          tally.Note(round[i].id, r);
      }
    }
    assert round[..|round|] == round;
  }

  /** Merge what is there; hand back what is not. */
  method MergePresent(store: Store, tally: Tally, env: Env, round: seq<Item>, ts: string) returns (absent: seq<Item>)
    requires DistinctIds(round) && tally.Valid()
    modifies store, tally
    ensures tally.Valid()
    ensures absent == Having(old(store.docs), round, false)
    ensures RoundDone(RuleOf(env, Upsert(true)), old(store.docs), old(tally.log), Having(old(store.docs), round, true), ts, store.docs, tally.log)
  {
    ghost var docs, rule := store.docs, RuleOf(env, Upsert(true));
    var ids, frags := Index(round);
    var res := store.BatchMutate(env, Upsert(true), ids, frags, ts);
    forall i | 0 <= i < |round|
      ensures ResultAt(rule, docs, round[i], ts, res[i])
    {
      assert MutatedAt(env, Upsert(true), docs, store.docs, ids[i], frags[ids[i]], ts, res[i]);
    }
    forall id
      ensures StoredAt(rule, docs, Having(docs, round, true), ts, store.docs, id)
    {
      MergeStored(env, docs, round, ts, ids, frags, res, store.docs, id);
    }
    absent := NoteMerged(tally, rule, docs, round, ts, res);
  }

  lemma MergeStored(env: Env, docs: Docs, round: seq<Item>, ts: string, ids: seq<string>, frags: map<string, Json>,
                    res: seq<Option<Result>>, after: Docs, id: string)
    requires DistinctIds(round) && |ids| == |res| == |round|
    requires forall i :: 0 <= i < |round| ==> ids[i] == round[i].id && round[i].id in frags && frags[round[i].id] == round[i].doc
    requires forall i :: 0 <= i < |ids| ==> MutatedAt(env, Upsert(true), docs, after, ids[i], frags[ids[i]], ts, res[i])
    requires forall x :: x !in ids ==> At(after, x) == At(docs, x)
    ensures StoredAt(RuleOf(env, Upsert(true)), docs, Having(docs, round, true), ts, after, id)
  {
    HavingLookup(docs, round, true, id);
    LookupNone(round, id);
    if Lookup(round, id).None? {
      assert id !in ids;
    } else {
      var i :| 0 <= i < |round| && round[i].id == id;
      LookupIs(round, i);
      assert MutatedAt(env, Upsert(true), docs, after, ids[i], frags[ids[i]], ts, res[i]);
    }
  }

  /** Insert or replace the given entries, stamped as new documents. */
  method ReplaceRound(store: Store, tally: Tally, env: Env, update: bool, items: seq<Item>, ts: string)
    requires DistinctIds(items) && tally.Valid()
    requires update ==> forall i :: 0 <= i < |items| ==> items[i].id !in store.docs
    modifies store, tally
    ensures tally.Valid()
    ensures RoundDone(RuleOf(env, Upsert(update)), old(store.docs), old(tally.log), items, ts, store.docs, tally.log)
  {
    ghost var docs, rule := store.docs, RuleOf(env, Upsert(update));
    var stamped := seq(|items|, i requires 0 <= i < |items| => Item(items[i].id, env.stampNew(items[i].doc, ts)));
    var flags := store.BatchUpsert(stamped);
    UpsertStored(env, update, docs, items, ts, stamped, store.docs);
    NoteUpserted(tally, rule, docs, items, ts, flags);
  }

  lemma UpsertStored(env: Env, update: bool, docs: Docs, items: seq<Item>, ts: string, stamped: seq<Item>, after: Docs)
    requires DistinctIds(items) && |stamped| == |items| && (update ==> forall i :: 0 <= i < |items| ==> items[i].id !in docs)
    requires forall i :: 0 <= i < |items| ==> stamped[i] == Item(items[i].id, env.stampNew(items[i].doc, ts))
    requires forall i :: 0 <= i < |items| ==> At(after, stamped[i].id) == Some(stamped[i].doc)
    requires forall id :: (forall i :: 0 <= i < |items| ==> stamped[i].id != id) ==> At(after, id) == At(docs, id)
    ensures forall id :: StoredAt(RuleOf(env, Upsert(update)), docs, items, ts, after, id)
  {
    forall id
      ensures StoredAt(RuleOf(env, Upsert(update)), docs, items, ts, after, id)
    {
      LookupNone(items, id);
      if Lookup(items, id).Some? {
        var i :| 0 <= i < |items| && items[i].id == id;
        LookupIs(items, i);
        assert stamped[i].id == id;
      }
    }
  }

  /** Report what was inserted, and what was replaced. */
  method NoteUpserted(tally: Tally, ghost rule: Rule, ghost docs: Docs, items: seq<Item>, ghost ts: string, flags: seq<bool>)
    requires DistinctIds(items) && tally.Valid() && |flags| == |items|
    requires forall i :: 0 <= i < |items| ==>
               rule(At(docs, items[i].id), items[i].doc, ts).1 == if flags[i] then Created else Replaced
    modifies tally
    ensures tally.Valid() && Logged(rule, docs, items, ts, old(tally.log), tally.log)
  {
    ghost var log := tally.log;
    for i := 0 to |items|
      invariant tally.Valid()
      invariant Logged(rule, docs, items[..i], ts, log, tally.log)
    {
      DistinctPrefix(items, i);
      LogNext(rule, docs, items[..i], ts, log, tally.log, items[i]);
      tally.Note(items[i].id, if flags[i] then Created else Replaced);
    }
    assert items[..|items|] == items;
  }

  /** A round of `Upsert`: merged where present if `options=update` asks for it, inserted or replaced otherwise. */
  method UpsertRound(store: Store, tally: Tally, env: Env, update: bool, round: seq<Item>, ts: string)
    requires DistinctIds(round) && tally.Valid()
    modifies store, tally
    ensures tally.Valid()
    ensures RoundDone(RuleOf(env, Upsert(update)), old(store.docs), old(tally.log), round, ts, store.docs, tally.log)
  {
    var absent := round;
    ghost var docs, log, rule := store.docs, tally.log, RuleOf(env, Upsert(update));
    ghost var docs1, log1 := docs, log;
    if update {
      absent := MergePresent(store, tally, env, round, ts);
      docs1, log1 := store.docs, tally.log;
      HavingDistinct(docs, round, false);
      MergedLeavesAbsent(rule, docs, log, round, ts, docs1, log1);
    }
    if absent != [] {
      ReplaceRound(store, tally, env, update, absent, ts);
    }
    if update { TwoParts(rule, docs, log, round, ts, docs1, log1, store.docs, tally.log); }
  }

  lemma MergedLeavesAbsent(rule: Rule, docs: Docs, log: seq<Entry>, round: seq<Item>, ts: string, docs1: Docs, log1: seq<Entry>)
    requires RoundDone(rule, docs, log, Having(docs, round, true), ts, docs1, log1)
    ensures forall id :: id !in docs ==> id !in docs1
  {
    forall id | id !in docs
      ensures id !in docs1
    {
      assert StoredAt(rule, docs, Having(docs, round, true), ts, docs1, id);
      HavingLookup(docs, round, true, id);
      assert At(docs1, id) == None;
    }
  }

  /** The present entries first, the absent ones after: as good as all of them at once. */
  lemma TwoParts(rule: Rule, docs: Docs, log: seq<Entry>, round: seq<Item>, ts: string,
                 docs1: Docs, log1: seq<Entry>, docs2: Docs, log2: seq<Entry>)
    requires RoundDone(rule, docs, log, Having(docs, round, true), ts, docs1, log1)
    requires RoundDone(rule, docs1, log1, Having(docs, round, false), ts, docs2, log2)
    ensures RoundDone(rule, docs, log, round, ts, docs2, log2)
  {
    var a, b := Having(docs, round, true), Having(docs, round, false);
    forall id
      ensures StoredAt(rule, docs, round, ts, docs2, id)
      ensures LoggedAt(rule, docs, round, ts, log, log2, id)
    {
      HavingLookup(docs, round, true, id);
      HavingLookup(docs, round, false, id);
      assert StoredAt(rule, docs, a, ts, docs1, id) && LoggedAt(rule, docs, a, ts, log, log1, id);
      assert StoredAt(rule, docs1, b, ts, docs2, id) && LoggedAt(rule, docs1, b, ts, log1, log2, id);
    }
  }

  // ---------- all rounds ----------

  ghost predicate OccurredAt(occurrence: map<string, nat>, items: seq<Item>, id: string) {
    Count(items, id) == if id in occurrence then occurrence[id] else 0
  }

  /** The loop over `prepped`: the nth occurrence of an id lands in round n. */
  method SplitRounds(items: seq<Item>) returns (rounds: seq<seq<Item>>)
    ensures rounds == Split(items)
    ensures forall r :: 0 <= r < |rounds| ==> DistinctIds(rounds[r])
  {
    rounds := [];
    var occurrence: map<string, nat> := map[];
    for i := 0 to |items|
      invariant rounds == Split(items[..i])
      invariant forall id :: OccurredAt(occurrence, items[..i], id)
    {
      var x := items[i];
      assert items[..i + 1][..i] == items[..i];
      assert OccurredAt(occurrence, items[..i], x.id);
      var n := if x.id in occurrence then occurrence[x.id] else 0;
      ghost var placed := Place(rounds, x, n);
      if |rounds| <= n { rounds := rounds + [[]]; }
      rounds := rounds[n := rounds[n] + [x]];
      assert [] + [x] == [x];
      assert rounds == placed;
      ghost var seen := occurrence;
      var n' := n + 1;
      occurrence := occurrence[x.id := n'];
      ghost var upto := items[..i + 1];
      forall id
        ensures OccurredAt(occurrence, upto, id)
      {
        assert OccurredAt(seen, items[..i], id);
      }
    }
    assert items[..|items|] == items;
    forall r | 0 <= r < |rounds|
      ensures DistinctIds(rounds[r])
    {
      forall id
        ensures Count(rounds[r], id) <= 1
      {
        RoundHolds(items, r, id);
      }
      OnceIsDistinct(rounds[r]);
    }
  }

  lemma {:induction false} CountAt(items: seq<Item>, i: nat)
    requires i < |items|
    ensures Count(items, items[i].id) >= 1
  {
    if i < |items| - 1 { CountAt(items[..|items| - 1], i); }
  }

  lemma {:induction false} OnceIsDistinct(items: seq<Item>)
    requires forall id :: Count(items, id) <= 1
    ensures DistinctIds(items)
  {
    if items != [] {
      var before, x := items[..|items| - 1], items[|items| - 1];
      forall id
        ensures Count(before, id) <= 1
      {
        assert Count(items, id) <= 1;
      }
      OnceIsDistinct(before);
      forall i | 0 <= i < |before|
        ensures items[i].id != x.id
      {
        CountAt(before, i);
        assert Count(items, x.id) <= 1;
      }
    }
  }

  /** The store and the log, seen from one id, are those of a run of `entries` from `start`. */
  ghost predicate AdvancedAt(rule: Rule, start: Docs, entries: seq<Stamped>, docs: Docs, log: seq<Entry>, id: string) {
    One(At(docs, id), ResultsOf(log, id)) == RunOne(rule, At(start, id), Of(entries, id))
  }

  ghost predicate Advanced(rule: Rule, start: Docs, entries: seq<Stamped>, docs: Docs, log: seq<Entry>) {
    forall id :: AdvancedAt(rule, start, entries, docs, log, id)
  }

  lemma {:induction false} OfDistinct(items: seq<Item>, ts: string, id: string)
    requires DistinctIds(items)
    ensures Of(StampAll(items, ts), id) ==
      match Lookup(items, id)
      case None => []
      case Some(doc) => [Stamped(Item(id, doc), ts)]
  {
    if items != [] {
      var before, x := items[..|items| - 1], items[|items| - 1];
      assert items == before + [x];
      OfDistinct(before, ts, id);
      StampAllOf(before, x, ts, id);
      if x.id == id { LookupNone(before, id); }
    }
  }

  /** A round done is its entries run. */
  lemma RoundAdvances(rule: Rule, start: Docs, entries: seq<Stamped>, docs: Docs, log: seq<Entry>,
                      round: seq<Item>, ts: string, docs': Docs, log': seq<Entry>)
    requires Advanced(rule, start, entries, docs, log) && DistinctIds(round)
    requires RoundDone(rule, docs, log, round, ts, docs', log')
    ensures Advanced(rule, start, entries + StampAll(round, ts), docs', log')
  {
    var more := StampAll(round, ts);
    forall id
      ensures AdvancedAt(rule, start, entries + more, docs', log', id)
    {
      assert AdvancedAt(rule, start, entries, docs, log, id);
      assert StoredAt(rule, docs, round, ts, docs', id) && LoggedAt(rule, docs, round, ts, log, log', id);
      OfConcat(entries, more, id);
      OfDistinct(round, ts, id);
      match Lookup(round, id) {
        case None => assert Of(entries, id) + [] == Of(entries, id);
        case Some(doc) =>
      }
    }
  }

  /** Agreeing with a run id by id is having its store and, for every id, its results. */
  lemma AdvancedIsRun(rule: Rule, start: Docs, entries: seq<Stamped>, docs: Docs, log: seq<Entry>)
    requires Advanced(rule, start, entries, docs, log)
    ensures docs == Run(rule, start, entries).docs
    ensures forall id :: SameResults(log, Run(rule, start, entries).log, id)
  {
    var o := Run(rule, start, entries);
    forall id
      ensures At(docs, id) == At(o.docs, id) && SameResults(log, o.log, id)
    {
      assert AdvancedAt(rule, start, entries, docs, log, id);
      RunById(rule, start, entries, id);
    }
    forall id
      ensures id in docs <==> id in o.docs
      ensures id in docs ==> docs[id] == o.docs[id]
    {
      assert At(docs, id) == At(o.docs, id);
    }
  }

  /** The loop over the rounds, round n at the instant `clock(n)`. */
  method RunRounds(store: Store, tally: Tally, env: Env, mode: Mode, rounds: seq<seq<Item>>, clock: nat -> string)
    requires !mode.Create? && tally.Valid() && tally.log == []
    requires forall r :: 0 <= r < |rounds| ==> DistinctIds(rounds[r])
    modifies store, tally
    ensures tally.Valid()
    ensures Advanced(RuleOf(env, mode), old(store.docs), Flatten(rounds, clock), store.docs, tally.log)
  {
    ghost var start, rule := store.docs, RuleOf(env, mode);
    for n := 0 to |rounds|
      invariant tally.Valid()
      invariant Advanced(rule, start, Flatten(rounds[..n], clock), store.docs, tally.log)
    {
      assert rounds[..n + 1][..n] == rounds[..n];
      ghost var docs, log := store.docs, tally.log;
      if mode.Upsert? {
        UpsertRound(store, tally, env, mode.update, rounds[n], clock(n));
      } else {
        MutateRound(store, tally, env, mode, rounds[n], clock(n));
      }
      RoundAdvances(rule, start, Flatten(rounds[..n], clock), docs, log, rounds[n], clock(n), store.docs, tally.log);
    }
    assert rounds[..|rounds|] == rounds;
  }

  /** Upsert, update and merge mean the left-to-right run of the array, each entry at its round's instant. */
  method WriteRounds(store: Store, tally: Tally, env: Env, mode: Mode, items: seq<Item>, clock: nat -> string)
    requires !mode.Create? && tally.Valid() && tally.log == []
    modifies store, tally
    ensures tally.Valid()
    ensures var o := Run(RuleOf(env, mode), old(store.docs), StampByRound(items, clock));
            store.docs == o.docs && forall id :: SameResults(tally.log, o.log, id)
  {
    ghost var start, rule := store.docs, RuleOf(env, mode);
    var rounds := SplitRounds(items);
    RunRounds(store, tally, env, mode, rounds, clock);
    RoundsAreSequential(rule, start, items, clock);
    AdvancedIsRun(rule, start, Flatten(rounds, clock), store.docs, tally.log);
    BothSame(tally.log, Run(rule, start, Flatten(rounds, clock)).log, Run(rule, start, StampByRound(items, clock)).log);
  }

  lemma BothSame(a: seq<Entry>, b: seq<Entry>, c: seq<Entry>)
    requires (forall id :: SameResults(a, b, id)) && (forall id :: SameResults(b, c, id))
    ensures forall id :: SameResults(a, c, id)
  {
    forall id
      ensures SameResults(a, c, id)
    {
      assert SameResults(a, b, id) && SameResults(b, c, id);
    }
  }

  // ---------- the answer ----------

  datatype Reply<E> = Reply201(ids: seq<string>) | Reply204 | Reply207(success: seq<string>, errors: seq<E>)

  /** The array as one run: a create stamps every entry alike, the other modes by round. */
  function Entries(mode: Mode, items: seq<Item>, createTs: string, clock: nat -> string): seq<Stamped> {
    if mode.Create? then StampAll(items, createTs) else StampByRound(items, clock)
  }

  function Failing(rs: seq<Result>): seq<Result> {
    if rs == [] then []
    else
      var f := Failing(rs[..|rs| - 1]);
      if Succeeded(rs[|rs| - 1]) then f else f + [rs[|rs| - 1]]
  }

  predicate FailedIn(log: seq<Entry>, id: string) {
    Failing(ResultsOf(log, id)) != []
  }

  ghost predicate ErrorsAt(log: seq<Entry>, errors: seq<Entry>, id: string) {
    ResultsOf(errors, id) == Failing(ResultsOf(log, id))
  }

  /** What an answer must say of a run: E holds every failure, S the ids that succeeded,
      a 201 the ids that were created, a 204 that nothing was. */
  ghost predicate Answers(mode: Mode, prep: seq<Entry>, log: seq<Entry>, reply: Reply<Entry>) {
    && (reply.Reply207? <==> prep != [] || exists id :: FailedIn(log, id))
    && (reply.Reply207? ==>
          && NoRepeats(reply.success) && (forall id :: id in reply.success <==> SucceededIn(log, id))
          && prep <= reply.errors && forall id :: ErrorsAt(log, reply.errors[|prep|..], id))
    && (reply.Reply201? ==>
          && (mode.Create? || (mode.Upsert? && reply.ids != []))
          && NoRepeats(reply.ids) && (forall id :: id in reply.ids <==> CreatedIn(log, id)))
    && (reply.Reply204? ==> !mode.Create? && (mode.Upsert? ==> forall id :: !CreatedIn(log, id)))
  }

  lemma {:induction false} FailuresById(log: seq<Entry>, id: string)
    ensures ErrorsAt(log, Failures(log), id)
  {
    if log != [] {
      var before, last := log[..|log| - 1], log[|log| - 1];
      FailuresById(before, id);
      ResultsAppend(Failures(before), last, id);
      var p := ResultsOf(before, id);
      assert (p + [last.result])[..|p|] == p;
    }
  }

  lemma {:induction false} NoFailures(log: seq<Entry>)
    ensures Failures(log) == [] <==> forall id :: !FailedIn(log, id)
  {
    if Failures(log) == [] {
      forall id
        ensures !FailedIn(log, id)
      {
        FailuresById(log, id);
      }
    } else {
      var f := Failures(log);
      FailuresById(log, f[|f| - 1].id);
      assert FailedIn(log, f[|f| - 1].id);
    }
  }

  /** Succeeding and being created are facts about an id's results alone. */
  lemma {:induction false} ById(log: seq<Entry>, id: string)
    ensures SucceededIn(log, id) <==> exists r :: r in ResultsOf(log, id) && Succeeded(r)
    ensures CreatedIn(log, id) <==> Created in ResultsOf(log, id)
  {
    if log != [] {
      var before, last := log[..|log| - 1], log[|log| - 1];
      ById(before, id);
      assert log == before + [last];
      InNext(before, last, id);
    }
  }

  lemma InNext(log: seq<Entry>, e: Entry, id: string)
    ensures SucceededIn(log + [e], id) <==> SucceededIn(log, id) || (id == e.id && Succeeded(e.result))
    ensures CreatedIn(log + [e], id) <==> CreatedIn(log, id) || (id == e.id && e.result.Created?)
  {
    var log' := log + [e];
    assert log'[|log|] == e;
    if SucceededIn(log, id) {
      var i :| 0 <= i < |log| && log[i].id == id && Succeeded(log[i].result);
      assert log'[i] == log[i];
    }
    if CreatedIn(log, id) {
      var i :| 0 <= i < |log| && log[i].id == id && log[i].result.Created?;
      assert log'[i] == log[i];
    }
  }

  /** A log with the same results for every id is answered alike. */
  lemma AnswersById(mode: Mode, prep: seq<Entry>, a: seq<Entry>, b: seq<Entry>, reply: Reply<Entry>)
    requires forall id :: SameResults(a, b, id)
    requires Answers(mode, prep, a, reply)
    ensures Answers(mode, prep, b, reply)
  {
    forall id
      ensures SucceededIn(a, id) <==> SucceededIn(b, id)
      ensures CreatedIn(a, id) <==> CreatedIn(b, id)
      ensures FailedIn(a, id) <==> FailedIn(b, id)
      ensures reply.Reply207? ==> ErrorsAt(b, reply.errors[|prep|..], id)
    {
      assert SameResults(a, b, id);
      ById(a, id);
      ById(b, id);
      if reply.Reply207? { assert ErrorsAt(a, reply.errors[|prep|..], id); }
    }
  }

  /** The end of `batch_write`: an error-free upsert that created something answers the created ids only. */
  function Respond<E>(mode: Mode, success: seq<string>, errors: seq<E>, created: seq<string>, anyCreated: bool): Reply<E> {
    var s := if mode.Upsert? && anyCreated && |errors| == 0 then created else success;
    if |errors| > 0 then Reply207(s, errors)
    else if mode.Create? || (mode.Upsert? && anyCreated) then Reply201(s)
    else Reply204
  }

  lemma RespondAnswers(mode: Mode, prep: seq<Entry>, log: seq<Entry>, success: seq<string>, errors: seq<Entry>, created: seq<string>)
    requires Reports(log, prep, success, errors, created)
    requires mode.Create? ==> forall id :: SucceededIn(log, id) <==> CreatedIn(log, id)
    ensures Answers(mode, prep, log, Respond(mode, success, errors, created, created != []))
  {
    NoFailures(log);
    assert errors[|prep|..] == Failures(log);
    forall id
      ensures ErrorsAt(log, Failures(log), id)
    {
      FailuresById(log, id);
    }
    if created != [] { assert CreatedIn(log, created[0]); }
  }

  /** The one multi-row statement for the creates of the array. */
  method WriteCreates(store: Store, tally: Tally, env: Env, items: seq<Item>, ts: string)
    requires tally.Valid() && tally.log == []
    modifies store, tally
    ensures tally.Valid()
    ensures var o := Run(RuleOf(env, Create), old(store.docs), StampAll(items, ts));
            store.docs == o.docs && tally.log == o.log
    ensures forall i :: 0 <= i < |tally.log| ==> tally.log[i].result.Created? || tally.log[i].result.Exists?
  {
    ghost var docs := store.docs;
    var stamped := seq(|items|, i requires 0 <= i < |items| => Item(items[i].id, env.stampNew(items[i].doc, ts)));
    var flags := store.BatchCreate(stamped, env, items, ts);
    NoteCreated(tally, items, flags, Run(RuleOf(env, Create), docs, StampAll(items, ts)).log);
  }

  /** Report what was created, and what was there already. */
  method NoteCreated(tally: Tally, items: seq<Item>, flags: seq<bool>, ghost log: seq<Entry>)
    requires tally.Valid() && tally.log == [] && |flags| == |items| == |log|
    requires forall i :: 0 <= i < |items| ==> log[i] == Entry(items[i].id, if flags[i] then Created else Exists)
    modifies tally
    ensures tally.Valid() && tally.log == log
  {
    for i := 0 to |items|
      invariant tally.Valid()
      invariant tally.log == log[..i]
    {
      tally.Note(items[i].id, if flags[i] then Created else Exists);
      assert log[..i + 1] == log[..i] + [log[i]];
    }
    assert log[..|items|] == log;
  }

  /** The local arm of `batch_write`. */
  method WriteLocal(store: Store, tally: Tally, env: Env, mode: Mode, items: seq<Item>, createTs: string, clock: nat -> string)
    requires tally.Valid() && tally.log == []
    modifies store, tally
    ensures tally.Valid()
    ensures var o := Run(RuleOf(env, mode), old(store.docs), Entries(mode, items, createTs, clock));
            store.docs == o.docs && forall id :: SameResults(tally.log, o.log, id)
    ensures mode.Create? ==> forall id :: SucceededIn(tally.log, id) <==> CreatedIn(tally.log, id)
  {
    if mode.Create? {
      WriteCreates(store, tally, env, items, createTs);
    } else {
      WriteRounds(store, tally, env, mode, items, clock);
    }
  }

  /** A local batch write: the store it leaves and the answer it gives are those of the array
      executed one entry after the other. */
  method BatchWrite(store: Store, env: Env, mode: Mode, items: seq<Item>, prep: seq<Entry>, createTs: string, clock: nat -> string)
    returns (reply: Reply<Entry>)
    modifies store
    ensures var o := Run(RuleOf(env, mode), old(store.docs), Entries(mode, items, createTs, clock));
            store.docs == o.docs && Answers(mode, prep, o.log, reply)
    ensures StoredByEntry(env, mode, old(store.docs), items, createTs, clock, store.docs)
    ensures AnsweredByEntry(env, mode, old(store.docs), items, createTs, clock, prep, reply)
  {
    ghost var start := store.docs;
    var tally := new Tally(prep);
    WriteLocal(store, tally, env, mode, items, createTs, clock);
    reply := Respond(mode, tally.success, tally.errors, tally.created, tally.anyCreated);
    RespondAnswers(mode, prep, tally.log, tally.success, tally.errors, tally.created);
    AnswersById(mode, prep, tally.log, Run(RuleOf(env, mode), start, Entries(mode, items, createTs, clock)).log, reply);
    ByEntry(env, mode, start, items, createTs, clock, prep, reply);
  }

  // ---------- the array, entry by entry ----------

  /** What the store holds for the id of entry `m` when its turn comes. */
  ghost predicate FindsAt(env: Env, mode: Mode, docs: Docs, items: seq<Item>, createTs: string, clock: nat -> string, m: nat, p: Option<Json>) {
    m < |items| && HeldAfter(env, mode, At(docs, items[m].id), items, createTs, clock, items[m].id, m, p)
  }

  ghost predicate FailsAt(env: Env, mode: Mode, docs: Docs, items: seq<Item>, createTs: string, clock: nat -> string, m: nat) {
    exists p :: FindsAt(env, mode, docs, items, createTs, clock, m, p) && EntryFails(mode, p, items[m].doc)
  }

  ghost predicate SucceedsAt(env: Env, mode: Mode, docs: Docs, items: seq<Item>, createTs: string, clock: nat -> string, m: nat) {
    exists p :: FindsAt(env, mode, docs, items, createTs, clock, m, p) && !EntryFails(mode, p, items[m].doc)
  }

  ghost predicate CreatesAt(env: Env, mode: Mode, docs: Docs, items: seq<Item>, createTs: string, clock: nat -> string, m: nat) {
    exists p :: FindsAt(env, mode, docs, items, createTs, clock, m, p) && EntryCreates(mode, p)
  }

  /** The store after the array. */
  ghost predicate StoredByEntry(env: Env, mode: Mode, before: Docs, items: seq<Item>, createTs: string, clock: nat -> string, after: Docs) {
    forall id :: HeldAfter(env, mode, At(before, id), items, createTs, clock, id, |items|, At(after, id))
  }

  /** The answer to the array: 207 exactly when something failed, and then S names the ids of the entries that succeeded;
      201 names the ids of those that created; 204 says that nothing failed and nothing was to be named. */
  ghost predicate AnsweredByEntry(env: Env, mode: Mode, docs: Docs, items: seq<Item>, createTs: string, clock: nat -> string,
                                  prep: seq<Entry>, reply: Reply<Entry>) {
    && (reply.Reply207? <==> prep != [] || exists m: nat :: FailsAt(env, mode, docs, items, createTs, clock, m))
    && (reply.Reply207? ==> forall id :: id in reply.success <==>
          exists m: nat :: SucceedsAt(env, mode, docs, items, createTs, clock, m) && items[m].id == id)
    && (reply.Reply201? ==> (mode.Create? || mode.Upsert?) && forall id :: id in reply.ids <==>
          exists m: nat :: CreatesAt(env, mode, docs, items, createTs, clock, m) && items[m].id == id)
    && (reply.Reply204? ==> !mode.Create? && (mode.Upsert? ==> forall m: nat :: !CreatesAt(env, mode, docs, items, createTs, clock, m)))
  }

  lemma {:induction false} EntriesNext(mode: Mode, items: seq<Item>, createTs: string, clock: nat -> string, n: nat)
    requires n < |items|
    ensures Entries(mode, items[..n + 1], createTs, clock) ==
              Entries(mode, items[..n], createTs, clock) + [Stamped(items[n], if mode.Create? then createTs else clock(Earlier(items, n)))]
  {
    assert items[..n + 1] == items[..n] + [items[n]];
    assert items[..n + 1][..n] == items[..n];
    if mode.Create? {
      StampAllAppend(items[..n], items[n], createTs);
    } else {
      CountIsEarlier(items, items[n].id, n);
    }
  }

  /** How some entry ended. */
  datatype End = Failed | Succeeding | Creating

  ghost predicate EndsAt(env: Env, mode: Mode, docs: Docs, items: seq<Item>, createTs: string, clock: nat -> string, e: End, m: nat) {
    match e
    case Failed => FailsAt(env, mode, docs, items, createTs, clock, m)
    case Succeeding => SucceedsAt(env, mode, docs, items, createTs, clock, m)
    case Creating => CreatesAt(env, mode, docs, items, createTs, clock, m)
  }

  /** One of the first `n` entries with this id ended so. */
  ghost predicate SomeEnds(env: Env, mode: Mode, docs: Docs, items: seq<Item>, createTs: string, clock: nat -> string, e: End, id: string, n: nat)
    requires n <= |items|
  {
    exists m: nat :: m < n && items[m].id == id && EndsAt(env, mode, docs, items, createTs, clock, e, m)
  }

  lemma {:induction false} SomeNext(env: Env, mode: Mode, docs: Docs, items: seq<Item>, createTs: string, clock: nat -> string, e: End, id: string, n: nat)
    requires n < |items|
    ensures SomeEnds(env, mode, docs, items, createTs, clock, e, id, n + 1) <==>
              SomeEnds(env, mode, docs, items, createTs, clock, e, id, n)
              || (items[n].id == id && EndsAt(env, mode, docs, items, createTs, clock, e, n))
  {
    if SomeEnds(env, mode, docs, items, createTs, clock, e, id, n + 1) {
      var m: nat :| m < n + 1 && items[m].id == id && EndsAt(env, mode, docs, items, createTs, clock, e, m);
    }
  }

  /** What is known of one id's entries after `n` of the array. */
  ghost predicate KnownAfter(env: Env, mode: Mode, docs: Docs, items: seq<Item>, createTs: string, clock: nat -> string, id: string, n: nat, o: One)
    requires n <= |items|
  {
    && HeldAfter(env, mode, At(docs, id), items, createTs, clock, id, n, o.doc)
    && (Failing(o.results) != [] <==> SomeEnds(env, mode, docs, items, createTs, clock, Failed, id, n))
    && (AnySucceeded(o.results) <==> SomeEnds(env, mode, docs, items, createTs, clock, Succeeding, id, n))
    && (Created in o.results <==> SomeEnds(env, mode, docs, items, createTs, clock, Creating, id, n))
  }

  ghost predicate AnySucceeded(rs: seq<Result>) {
    exists r :: r in rs && Succeeded(r)
  }

  lemma {:induction false} ResultsNext(rs: seq<Result>, r: Result)
    ensures Failing(rs + [r]) != [] <==> Failing(rs) != [] || !Succeeded(r)
    ensures AnySucceeded(rs + [r]) <==> AnySucceeded(rs) || Succeeded(r)
    ensures Created in rs + [r] <==> Created in rs || r.Created?
  {
    var all := rs + [r];
    assert all[..|rs|] == rs && all[|rs|] == r;
    if AnySucceeded(rs) {
      var x :| x in rs && Succeeded(x);
      assert x in all;
    }
    if Succeeded(r) { assert r in all; }
  }

  lemma {:induction false} FoundOnce(env: Env, mode: Mode, docs: Docs, items: seq<Item>, createTs: string, clock: nat -> string, m: nat, p: Option<Json>)
    requires FindsAt(env, mode, docs, items, createTs, clock, m, p)
    ensures FailsAt(env, mode, docs, items, createTs, clock, m) <==> EntryFails(mode, p, items[m].doc)
    ensures SucceedsAt(env, mode, docs, items, createTs, clock, m) <==> !EntryFails(mode, p, items[m].doc)
    ensures CreatesAt(env, mode, docs, items, createTs, clock, m) <==> EntryCreates(mode, p)
  {
    forall q | FindsAt(env, mode, docs, items, createTs, clock, m, q)
      ensures q == p
    {
      HeldOne(env, mode, At(docs, items[m].id), items, createTs, clock, items[m].id, m, p, q);
    }
  }

  lemma {:induction false} KnownNext(env: Env, mode: Mode, docs: Docs, items: seq<Item>, createTs: string, clock: nat -> string, id: string, n: nat, o: One)
    requires n < |items| && KnownAfter(env, mode, docs, items, createTs, clock, id, n, o)
    ensures var x, ts := items[n], if mode.Create? then createTs else clock(Earlier(items, n));
            var (d, r) := Apply(env, mode, o.doc, x.doc, ts);
            KnownAfter(env, mode, docs, items, createTs, clock, id, n + 1, if x.id == id then One(d, o.results + [r]) else o)
  {
    SomeNext(env, mode, docs, items, createTs, clock, Failed, id, n);
    SomeNext(env, mode, docs, items, createTs, clock, Succeeding, id, n);
    SomeNext(env, mode, docs, items, createTs, clock, Creating, id, n);
    if items[n].id == id { KnownHere(env, mode, docs, items, createTs, clock, n, o); }
  }

  lemma {:induction false} KnownHere(env: Env, mode: Mode, docs: Docs, items: seq<Item>, createTs: string, clock: nat -> string, n: nat, o: One)
    requires n < |items| && HeldAfter(env, mode, At(docs, items[n].id), items, createTs, clock, items[n].id, n, o.doc)
    ensures var x, ts := items[n], if mode.Create? then createTs else clock(Earlier(items, n));
            var (d, r) := Apply(env, mode, o.doc, x.doc, ts);
            && HeldAfter(env, mode, At(docs, x.id), items, createTs, clock, x.id, n + 1, d)
            && (Failing(o.results + [r]) != [] <==> Failing(o.results) != [] || EndsAt(env, mode, docs, items, createTs, clock, Failed, n))
            && (AnySucceeded(o.results + [r]) <==> AnySucceeded(o.results) || EndsAt(env, mode, docs, items, createTs, clock, Succeeding, n))
            && (Created in o.results + [r] <==> Created in o.results || EndsAt(env, mode, docs, items, createTs, clock, Creating, n))
  {
    var x, ts := items[n], if mode.Create? then createTs else clock(Earlier(items, n));
    var (d, r) := Apply(env, mode, o.doc, x.doc, ts);
    ApplyByName(env, mode, o.doc, x.doc, ts);
    FoundOnce(env, mode, docs, items, createTs, clock, n, o.doc);
    ResultsNext(o.results, r);
  }

  lemma {:induction false} RunByEntry(env: Env, mode: Mode, docs: Docs, items: seq<Item>, createTs: string, clock: nat -> string, id: string, n: nat)
    requires n <= |items|
    ensures KnownAfter(env, mode, docs, items, createTs, clock, id, n,
                       RunOne(RuleOf(env, mode), At(docs, id), Of(Entries(mode, items[..n], createTs, clock), id)))
    decreases n
  {
    if n > 0 {
      var m := n - 1;
      RunByEntry(env, mode, docs, items, createTs, clock, id, m);
      var before := Entries(mode, items[..m], createTs, clock);
      var x := Stamped(items[m], if mode.Create? then createTs else clock(Earlier(items, m)));
      var o := RunOne(RuleOf(env, mode), At(docs, id), Of(before, id));
      EntriesNext(mode, items, createTs, clock, m);
      assert (before + [x])[..|before|] == before;
      KnownNext(env, mode, docs, items, createTs, clock, id, m, o);
      var p := Of(before, id);
      assert (p + [x])[..|p|] == p;
    } else {
      assert items[..0] == [];
    }
  }

  /** The run of the array, entry by entry: its store, and the answer to it. */
  lemma {:induction false} ByEntry(env: Env, mode: Mode, docs: Docs, items: seq<Item>, createTs: string, clock: nat -> string, prep: seq<Entry>, reply: Reply<Entry>)
    requires Answers(mode, prep, Run(RuleOf(env, mode), docs, Entries(mode, items, createTs, clock)).log, reply)
    ensures StoredByEntry(env, mode, docs, items, createTs, clock, Run(RuleOf(env, mode), docs, Entries(mode, items, createTs, clock)).docs)
    ensures AnsweredByEntry(env, mode, docs, items, createTs, clock, prep, reply)
  {
    var o := Run(RuleOf(env, mode), docs, Entries(mode, items, createTs, clock));
    forall id
      ensures HeldAfter(env, mode, At(docs, id), items, createTs, clock, id, |items|, At(o.docs, id))
      ensures FailedIn(o.log, id) <==> SomeEnds(env, mode, docs, items, createTs, clock, Failed, id, |items|)
      ensures SucceededIn(o.log, id) <==> SomeEnds(env, mode, docs, items, createTs, clock, Succeeding, id, |items|)
      ensures CreatedIn(o.log, id) <==> SomeEnds(env, mode, docs, items, createTs, clock, Creating, id, |items|)
    {
      assert items[..|items|] == items;
      RunByEntry(env, mode, docs, items, createTs, clock, id, |items|);
      RunById(RuleOf(env, mode), docs, Entries(mode, items, createTs, clock), id);
      ById(o.log, id);
    }
    AnsweredFrom(env, mode, docs, items, createTs, clock, prep, o.log, reply);
  }

  lemma {:induction false} AnsweredFrom(env: Env, mode: Mode, docs: Docs, items: seq<Item>, createTs: string, clock: nat -> string,
                                        prep: seq<Entry>, log: seq<Entry>, reply: Reply<Entry>)
    requires Answers(mode, prep, log, reply)
    requires forall id :: FailedIn(log, id) <==> SomeEnds(env, mode, docs, items, createTs, clock, Failed, id, |items|)
    requires forall id :: SucceededIn(log, id) <==> SomeEnds(env, mode, docs, items, createTs, clock, Succeeding, id, |items|)
    requires forall id :: CreatedIn(log, id) <==> SomeEnds(env, mode, docs, items, createTs, clock, Creating, id, |items|)
    ensures AnsweredByEntry(env, mode, docs, items, createTs, clock, prep, reply)
  {
    forall m: nat
      ensures FailsAt(env, mode, docs, items, createTs, clock, m) ==> FailedIn(log, items[m].id)
      ensures SucceedsAt(env, mode, docs, items, createTs, clock, m) ==> SucceededIn(log, items[m].id)
      ensures CreatesAt(env, mode, docs, items, createTs, clock, m) ==> CreatedIn(log, items[m].id)
    {
      if m < |items| {
        assert EndsAt(env, mode, docs, items, createTs, clock, Failed, m) ==> FailedIn(log, items[m].id);
        assert EndsAt(env, mode, docs, items, createTs, clock, Succeeding, m) ==> SucceededIn(log, items[m].id);
        assert EndsAt(env, mode, docs, items, createTs, clock, Creating, m) ==> CreatedIn(log, items[m].id);
      }
    }
  }

  /** The merges of an id's entries, in array order, each at the instant of its round. */
  ghost function MergeFold(env: Env, stored: Json, items: seq<Item>, clock: nat -> string, id: string, n: nat): Json
    requires n <= |items|
  {
    if n == 0 then stored
    else
      var p := MergeFold(env, stored, items, clock, id, n - 1);
      if items[n - 1].id == id then env.mergeInto(p, items[n - 1].doc, clock(Earlier(items, n - 1))) else p
  }

  /** A merge, an update and an upsert with options=update leave a stored id as the fold of its merges. */
  lemma {:induction false} StoredIsFold(env: Env, mode: Mode, stored: Json, items: seq<Item>, createTs: string, clock: nat -> string, id: string, n: nat, r: Option<Json>)
    requires mode == Merge || mode == Update(false) || mode == Upsert(true)
    requires n <= |items| && HeldAfter(env, mode, Some(stored), items, createTs, clock, id, n, r)
    ensures r == Some(MergeFold(env, stored, items, clock, id, n))
    decreases n
  {
    if n > 0 {
      var m := n - 1;
      if items[m].id != id {
        StoredIsFold(env, mode, stored, items, createTs, clock, id, m, r);
      } else {
        var ts := clock(Earlier(items, m));
        var p :| HeldAfter(env, mode, Some(stored), items, createTs, clock, id, m, p) && EntryLeaves(env, mode, p, items[m].doc, ts, r);
        StoredIsFold(env, mode, stored, items, createTs, clock, id, m, p);
      }
    }
  }

  // ---------- upsert ----------

  lemma {:induction false} UpsertResults(env: Env, update: bool, cur: Option<Json>, entries: seq<Stamped>)
    ensures var o := RunOne(RuleOf(env, Upsert(update)), cur, entries);
            && (o.doc.Some? <==> cur.Some? || entries != [])
            && (Created in o.results <==> cur.None? && entries != [])
            && Failing(o.results) == []
  {
    if entries != [] {
      var before := entries[..|entries| - 1];
      UpsertResults(env, update, cur, before);
      UpsertNext(env, update, RunOne(RuleOf(env, Upsert(update)), cur, before), entries[|entries| - 1]);
    }
  }

  lemma {:induction false} UpsertNext(env: Env, update: bool, o: One, x: Stamped)
    ensures var (d, r) := Apply(env, Upsert(update), o.doc, x.item.doc, x.ts);
            && d.Some? && (Created in o.results + [r] <==> Created in o.results || o.doc.None?)
            && (Failing(o.results + [r]) == [] <==> Failing(o.results) == [])
  {
    var (d, r) := Apply(env, Upsert(update), o.doc, x.item.doc, x.ts);
    ResultsNext(o.results, r);
  }

  lemma {:induction false} OfStamped(items: seq<Item>, clock: nat -> string, id: string)
    ensures |Of(StampByRound(items, clock), id)| == Count(items, id)
  {
    if items != [] {
      var before, x := items[..|items| - 1], items[|items| - 1];
      OfStamped(before, clock, id);
      OfConcat(StampByRound(before, clock), [Stamped(x, clock(Count(before, x.id)))], id);
      OfSingle(Stamped(x, clock(Count(before, x.id))), id);
    }
  }

  /** An upsert fails no entry, and creates exactly the ids named that were absent beforehand. */
  lemma {:induction false} UpsertCreates(env: Env, update: bool, docs: Docs, items: seq<Item>, clock: nat -> string, id: string)
    ensures var log := Run(RuleOf(env, Upsert(update)), docs, StampByRound(items, clock)).log;
            && !FailedIn(log, id)
            && (CreatedIn(log, id) <==> id !in docs && Count(items, id) > 0)
  {
    var rule, entries := RuleOf(env, Upsert(update)), StampByRound(items, clock);
    RunById(rule, docs, entries, id);
    UpsertResults(env, update, At(docs, id), Of(entries, id));
    OfStamped(items, clock, id);
    ById(Run(rule, docs, entries).log, id);
  }

  /** An upsert whose entries all prepared well answers exactly the ids absent beforehand, or 204 when there are none. */
  lemma UpsertAnswer(env: Env, update: bool, docs: Docs, items: seq<Item>, createTs: string, clock: nat -> string, reply: Reply<Entry>)
    requires Answers(Upsert(update), [], Run(RuleOf(env, Upsert(update)), docs, Entries(Upsert(update), items, createTs, clock)).log, reply)
    ensures reply.Reply201? || reply.Reply204?
    ensures reply.Reply201? ==> NoRepeats(reply.ids) && forall id :: id in reply.ids <==> id !in docs && Count(items, id) > 0
    ensures reply.Reply204? <==> forall id :: Count(items, id) > 0 ==> id in docs
  {
    forall id
      ensures var log := Run(RuleOf(env, Upsert(update)), docs, StampByRound(items, clock)).log;
              && !FailedIn(log, id)
              && (CreatedIn(log, id) <==> id !in docs && Count(items, id) > 0)
    {
      UpsertCreates(env, update, docs, items, clock, id);
    }
    if reply.Reply201? { assert reply.ids[0] in reply.ids; }
  }
}
