/** The paged walk over one tenant's documents, and the reads built on it
    (crates/antares-api/src/csource.rs). */
module Walk {
  import opened Names
  import opened Json
  import R = Registry

  /** Registrations per page. */
  const SCAN_PAGE: nat := 1000

  /** Strictly after the cursor. */
  predicate Past(after: Option<string>, k: string) {
    after.None? || Before(after.value, k)
  }

  /** On the page, or after a full one. */
  predicate OnPage(ids: seq<string>, limit: nat, k: string) {
    k in ids || (|ids| == limit && ids != [] && Before(ids[|ids| - 1], k))
  }

  /** One id-ordered page: the first `limit` ids after the cursor. */
  ghost predicate IsPage(keys: set<string>, after: Option<string>, limit: nat, ids: seq<string>) {
    && Ascending(ids) && |ids| <= limit
    && (forall i :: 0 <= i < |ids| ==> ids[i] in keys && Past(after, ids[i]))
    && (forall k :: k in keys && Past(after, k) ==> OnPage(ids, limit, k))
  }

  method PageOf(keys: set<string>, after: Option<string>, limit: nat) returns (ids: seq<string>)
    requires limit > 0
    ensures IsPage(keys, after, limit, ids)
  {
    var rest := set k | k in keys && Past(after, k);
    var all := SortKeys(rest);
    ids := if |all| <= limit then all else all[..limit];
    assert forall k :: k in all <==> k in rest by { assert forall k :: k in all <==> k in Elements(all); }
    forall k | k in keys && Past(after, k)
      ensures OnPage(ids, limit, k)
    {
      assert k in all;
      var i :| 0 <= i < |all| && all[i] == k;
      if i < |ids| { assert ids[i] == k; }
    }
    forall i | 0 <= i < |ids|
      ensures ids[i] in keys && Past(after, ids[i])
    {
      assert all[i] in rest;
    }
  }

  ghost predicate AllIdentified(states: seq<Docs>) {
    forall n :: 0 <= n < |states| ==> R.Identified(states[n])
  }

  predicate IsWritten(written: Docs, k: string) {
    k in written && GetText(written[k], "id") == Some(k)
  }

  /** Some documents gone, some rewritten, some new. */
  function Changed(docs: Docs, gone: set<string>, written: Docs): (r: Docs)
    ensures R.Identified(docs) ==> R.Identified(r)
  {
    map k | k in docs.Keys + written.Keys && k !in gone && (k in docs || IsWritten(written, k))
      :: if IsWritten(written, k) then written[k] else docs[k]
  }

  lemma AllIdentifiedNext(states: seq<Docs>, docs: Docs)
    requires AllIdentified(states) && R.Identified(docs)
    ensures AllIdentified(states + [docs])
  {
  }

  /** The documents of one kind in one tenant, everything they have been, and how many more may still come. */
  class Store {
    var docs: map<string, Json>
    ghost var states: seq<Docs>
    var births: nat

    ghost predicate Valid()
      reads this
    {
      states != [] && docs == states[|states| - 1] && AllIdentified(states)
    }

    /** This moment, in `states`. */
    ghost function Now(): nat
      reads this
      requires Valid()
    {
      |states| - 1
    }

    constructor (docs: Docs, births: nat)
      requires R.Identified(docs)
      ensures Valid() && this.docs == docs && states == [docs] && this.births == births
    {
      this.docs, states, this.births := docs, [docs], births;
    }

    /** What other clients may do between two reads: remove, rewrite and insert documents. */
    method Others()
      requires Valid()
      modifies this
      ensures Valid() && (states == old(states) || states == old(states) + [docs])
      ensures births <= old(births) && (births == old(births) ==> docs.Keys <= old(docs.Keys))
      ensures |docs.Keys - old(docs.Keys)| + births <= old(births)
    {
      var busy: bool := *;
      if busy {
        var gone: set<string> := *;
        var written: Docs := *;
        var next := Changed(docs, gone, written);
        var born := next.Keys - docs.Keys;
        if |born| <= births {
          assert |born| == 0 ==> born == {};
          AllIdentifiedNext(states, next);
          docs, states, births := next, states + [next], births - |born|;
        }
      }
    }

    /** `list_page` */
    method ListPage(after: Option<string>, limit: nat) returns (page: seq<Json>, ghost ids: seq<string>)
      requires limit > 0
      ensures |page| <= limit
      ensures IsPage(docs.Keys, after, limit, ids) && |page| == |ids|
      ensures Same(docs, page, ids)
    {
      var keys := PageOf(docs.Keys, after, limit);
      ids := keys;
      var all := docs;
      page := seq(|keys|, i requires 0 <= i < |keys| => all[keys[i]]);
    }

    method Fetch(id: string) returns (r: Option<Json>)
      ensures r == At(docs, id)
    {
      r := if id in docs then Some(docs[id]) else None;
    }
  }

  // ---------- walk_docs ----------

  /** A visit: given what was visited before, does this document end the walk? */
  type Visit = (seq<Json>, Json) -> bool

  predicate Passed(stop: Visit, seen: seq<Json>, i: nat)
    requires i < |seen|
  {
    !stop(seen[..i], seen[i])
  }

  /** Every visit but the last went on, and the last one exactly if the walk was not ended by it. */
  ghost predicate Ran(stop: Visit, seen: seq<Json>, ended: bool) {
    && (ended ==> seen != [])
    && forall i :: 0 <= i < |seen| ==> (Passed(stop, seen, i) <==> !(ended && i == |seen| - 1))
  }

  /** There at every moment since `from`. */
  ghost predicate Throughout(states: seq<Docs>, from: nat, k: string) {
    forall n :: from <= n < |states| ==> k in states[n]
  }

  ghost function Lasting(states: seq<Docs>, from: nat): set<string>
    requires from < |states|
  {
    set k | k in states[from] && Throughout(states, from, k)
  }

  /** Stored under `k` at some moment since `from`. */
  ghost predicate StoredOnce(states: seq<Docs>, from: nat, k: string, doc: Json) {
    exists n :: from <= n < |states| && k in states[n] && states[n][k] == doc
  }

  ghost predicate SeenAt(states: seq<Docs>, from: nat, seen: seq<Json>, ids: seq<string>, i: nat)
    requires |seen| == |ids| && i < |ids|
  {
    StoredOnce(states, from, ids[i], seen[i])
  }

  /** The visited documents, in id order, each once, as they were stored at some moment since `from`. */
  ghost predicate InOrder(states: seq<Docs>, from: nat, seen: seq<Json>, ids: seq<string>) {
    && |seen| == |ids| && Ascending(ids)
    && forall i :: 0 <= i < |ids| ==> SeenAt(states, from, seen, ids, i)
  }

  function LastOf(ids: seq<string>): Option<string> {
    if ids == [] then None else Some(ids[|ids| - 1])
  }

  /** Nothing at or before the cursor was missed. */
  ghost predicate UpTo(keys: set<string>, ids: seq<string>, after: Option<string>) {
    forall k :: k in keys && !Past(after, k) ==> k in ids
  }

  ghost predicate Same(docs: Docs, seen: seq<Json>, ids: seq<string>) {
    |seen| == |ids| && forall i :: 0 <= i < |ids| ==> ids[i] in docs && seen[i] == docs[ids[i]]
  }

  /** The visits of one page. */
  method VisitPage(page: seq<Json>, stop: Visit, seen: seq<Json>) returns (r: seq<Json>, ended: bool, n: nat)
    requires Ran(stop, seen, false)
    ensures n <= |page| && r == seen + page[..n] && Ran(stop, r, ended)
    ensures !ended ==> n == |page|
    ensures ended ==> n > 0
  {
    r, ended, n := seen, false, 0;
    while n < |page|
      invariant n <= |page| && r == seen + page[..n] && Ran(stop, r, false)
    {
      var doc := page[n];
      RanNext(stop, r, doc);
      var failed := stop(r, doc);
      r, n := r + [doc], n + 1;
      assert r == seen + page[..n];
      if failed { return r, true, n; }
    }
  }

  lemma RanNext(stop: Visit, seen: seq<Json>, doc: Json)
    requires Ran(stop, seen, false)
    ensures Ran(stop, seen + [doc], stop(seen, doc))
  {
    var s := seen + [doc];
    assert s[..|seen|] == seen;
    forall i | 0 <= i < |seen|
      ensures Passed(stop, s, i)
    {
      assert s[..i] == seen[..i];
      assert Passed(stop, seen, i);
    }
  }

  /** Time passes: what lasts are fewer documents, what was seen was seen. */
  lemma LaterStates(states: seq<Docs>, states': seq<Docs>, from: nat, seen: seq<Json>, ids: seq<string>)
    requires from < |states| && states <= states'
    ensures Lasting(states', from) <= Lasting(states, from)
    ensures InOrder(states, from, seen, ids) ==> InOrder(states', from, seen, ids)
  {
    if InOrder(states, from, seen, ids) {
      forall i | 0 <= i < |ids|
        ensures SeenAt(states', from, seen, ids, i)
      {
        assert SeenAt(states, from, seen, ids, i);
        var n :| from <= n < |states| && ids[i] in states[n] && states[n][ids[i]] == seen[i];
        assert ids[i] in states'[n] && states'[n][ids[i]] == seen[i];
      }
    }
  }

  /** Reading on from the cursor keeps the visits in order, */
  lemma OrderExtends(states: seq<Docs>, from: nat, seen: seq<Json>, ids: seq<string>, page: seq<Json>, pageIds: seq<string>, n: nat)
    requires from < |states| && InOrder(states, from, seen, ids)
    requires var docs := states[|states| - 1];
             IsPage(docs.Keys, LastOf(ids), SCAN_PAGE, pageIds) && Same(docs, page, pageIds) && n <= |page|
    ensures InOrder(states, from, seen + page[..n], ids + pageIds[..n])
  {
    var seen', ids' := seen + page[..n], ids + pageIds[..n];
    forall i, j | 0 <= i < j < |ids'|
      ensures Before(ids'[i], ids'[j])
    {
      if i < |ids| <= j {
        assert Past(LastOf(ids), pageIds[j - |ids|]);
        if i < |ids| - 1 { BeforeTransitive(ids[i], ids[|ids| - 1], ids'[j]); }
      }
    }
    forall i | 0 <= i < |ids'|
      ensures SeenAt(states, from, seen', ids', i)
    {
      if i < |ids| { assert SeenAt(states, from, seen, ids, i); }
    }
  }

  /** and complete. */
  lemma CoverExtends(keys: set<string>, lasting: set<string>, ids: seq<string>, pageIds: seq<string>, n: nat)
    requires lasting <= keys && UpTo(lasting, ids, LastOf(ids)) && IsPage(keys, LastOf(ids), SCAN_PAGE, pageIds) && n <= |pageIds|
    ensures UpTo(lasting, ids + pageIds[..n], LastOf(ids + pageIds[..n]))
    ensures n == |pageIds| < SCAN_PAGE ==> forall k :: k in lasting ==> k in ids + pageIds
  {
    var ids' := ids + pageIds[..n];
    forall k | k in lasting && !Past(LastOf(ids'), k)
      ensures k in ids'
    {
      if Past(LastOf(ids), k) && n > 0 { PageReaches(keys, LastOf(ids), pageIds, n, k); }
    }
    forall k | k in lasting && n == |pageIds| < SCAN_PAGE
      ensures k in ids + pageIds
    {
      if Past(LastOf(ids), k) { assert OnPage(pageIds, SCAN_PAGE, k); }
    }
  }

  lemma PageReaches(keys: set<string>, after: Option<string>, ids: seq<string>, n: nat, k: string)
    requires IsPage(keys, after, SCAN_PAGE, ids) && 0 < n <= |ids|
    requires k in keys && Past(after, k) && !Before(ids[n - 1], k)
    ensures k in ids[..n]
  {
    assert OnPage(ids, SCAN_PAGE, k);
    if k in ids {
      var i :| 0 <= i < |ids| && ids[i] == k;
      assert i < n;
    } else if n < |ids| {
      BeforeTransitive(ids[n - 1], ids[|ids| - 1], k);
    }
  }

  /** Ids still ahead of the cursor. */
  function Ahead(keys: set<string>, after: Option<string>): set<string> {
    set k | k in keys && Past(after, k)
  }

  /** What is ahead grows by what is inserted at most, */
  lemma AheadGrows(before: set<string>, keys: set<string>, after: Option<string>)
    ensures |Ahead(keys, after)| <= |Ahead(before, after)| + |keys - before|
  {
    SubsetSize(Ahead(keys, after), Ahead(before, after) + (keys - before));
  }

  /** and shrinks as the cursor moves. */
  lemma AheadShrinks(keys: set<string>, after: Option<string>, ids: seq<string>)
    requires IsPage(keys, after, SCAN_PAGE, ids) && ids != []
    ensures |Ahead(keys, Some(ids[|ids| - 1]))| < |Ahead(keys, after)|
  {
    var x := ids[|ids| - 1];
    var a, b := Ahead(keys, Some(x)), Ahead(keys, after);
    BeforeIrreflexive(x);
    assert Past(after, x);
    forall k | k in a
      ensures k in b - {x}
    {
      if after.Some? { BeforeTransitive(after.value, x, k); }
    }
    SubsetSize(a, b - {x});
  }

  /** Where a walk stands: what it has visited since `from`, and that up to its cursor it missed nothing that lasted. */
  ghost predicate Reached(states: seq<Docs>, from: nat, seen: seq<Json>, ids: seq<string>) {
    from < |states| && InOrder(states, from, seen, ids) && UpTo(Lasting(states, from), ids, LastOf(ids))
  }

  lemma SameExtends(docs: Docs, seen: seq<Json>, ids: seq<string>, page: seq<Json>, pageIds: seq<string>, n: nat)
    requires Same(docs, seen, ids) && Same(docs, page, pageIds) && n <= |page|
    ensures Same(docs, seen + page[..n], ids + pageIds[..n])
  {
  }

  lemma ReachedLater(states: seq<Docs>, states': seq<Docs>, from: nat, seen: seq<Json>, ids: seq<string>)
    requires Reached(states, from, seen, ids) && states <= states'
    ensures Reached(states', from, seen, ids)
  {
    LaterStates(states, states', from, seen, ids);
  }

  lemma ReachedNext(states: seq<Docs>, from: nat, seen: seq<Json>, ids: seq<string>, page: seq<Json>, pageIds: seq<string>, n: nat)
    requires Reached(states, from, seen, ids)
    requires var docs := states[|states| - 1];
             IsPage(docs.Keys, LastOf(ids), SCAN_PAGE, pageIds) && Same(docs, page, pageIds) && n <= |page|
    ensures Reached(states, from, seen + page[..n], ids + pageIds[..n])
    ensures n == |page| < SCAN_PAGE ==> forall k :: k in Lasting(states, from) ==> k in ids + pageIds[..n]
    ensures var docs := states[|states| - 1]; Same(docs, seen, ids) ==> Same(docs, seen + page[..n], ids + pageIds[..n])
  {
    var docs := states[|states| - 1];
    OrderExtends(states, from, seen, ids, page, pageIds, n);
    assert forall k :: k in Lasting(states, from) ==> k in states[|states| - 1];
    CoverExtends(docs.Keys, Lasting(states, from), ids, pageIds, n);
    assert n == |page| ==> pageIds[..n] == pageIds;
    if Same(docs, seen, ids) { SameExtends(docs, seen, ids, page, pageIds, n); }
  }

  /** The cursor after a page: the id of its last document, which leaves fewer ids ahead. */
  lemma CursorMoves(docs: Docs, page: seq<Json>, pageIds: seq<string>, after: Option<string>)
    requires R.Identified(docs)
    requires IsPage(docs.Keys, after, SCAN_PAGE, pageIds) && Same(docs, page, pageIds) && page != []
    ensures GetText(page[|page| - 1], "id") == LastOf(pageIds) != after
    ensures |Ahead(docs.Keys, LastOf(pageIds))| < |Ahead(docs.Keys, after)|
  {
    var last := pageIds[|pageIds| - 1];
    AheadShrinks(docs.Keys, after, pageIds);
    assert Past(after, last);
    BeforeIrreflexive(last);
  }

  /** What nobody has inserted was there all along. */
  lemma LastingStays(states: seq<Docs>, docs: Docs, from: nat)
    requires from < |states| && docs.Keys <= states[|states| - 1].Keys <= Lasting(states, from)
    ensures docs.Keys <= Lasting(states + [docs], from)
  {
    forall k | k in docs
      ensures Throughout(states + [docs], from, k)
    {
      assert k in Lasting(states, from);
    }
  }

  /** Others move, then a page is read. */
  method ReadPage(store: Store, ghost from: nat, ghost seen: seq<Json>, ghost ids: seq<string>, after: Option<string>)
    returns (page: seq<Json>, ghost pageIds: seq<string>)
    requires store.Valid() && Reached(store.states, from, seen, ids)
    modifies store
    ensures store.Valid() && old(store.states) <= store.states && Reached(store.states, from, seen, ids)
    ensures IsPage(store.docs.Keys, after, SCAN_PAGE, pageIds) && Same(store.docs, page, pageIds)
    ensures store.births <= old(store.births)
    ensures store.births == old(store.births) && old(store.docs.Keys <= Lasting(store.states, from)) ==>
              store.docs.Keys <= Lasting(store.states, from)
    ensures |Ahead(store.docs.Keys, after)| + store.births <= |Ahead(old(store.docs.Keys), after)| + old(store.births)
  {
    ghost var states, keys := store.states, store.docs.Keys;
    store.Others();
    ReachedLater(states, store.states, from, seen, ids);
    AheadGrows(keys, store.docs.Keys, after);
    if store.births == old(store.births) && keys <= Lasting(states, from) { LastingStays(states, store.docs, from); }
    page, pageIds := store.ListPage(after, SCAN_PAGE);
  }

  /** The cursor moves to the last document of the page; a short page ends the walk, and so does a cursor that stands. */
  method NextCursor(page: seq<Json>, after: Option<string>, ghost docs: Docs, ghost pageIds: seq<string>)
    returns (after': Option<string>, more: bool)
    requires R.Identified(docs) && IsPage(docs.Keys, after, SCAN_PAGE, pageIds) && Same(docs, page, pageIds)
    ensures after' == if page == [] then after else LastOf(pageIds)
    ensures more <==> |page| == SCAN_PAGE
    ensures more ==> |Ahead(docs.Keys, after')| < |Ahead(docs.Keys, after)|
  {
    after' := after;
    if page != [] {
      CursorMoves(docs, page, pageIds, after);
      after' := GetText(page[|page| - 1], "id");
    }
    var short := |page| < SCAN_PAGE;
    more := !(short || after' == after);
  }

  /** The documents of a page are visited, the cursor moves. */
  method VisitOn(page: seq<Json>, ghost pageIds: seq<string>, stop: Visit, seen: seq<Json>, ghost ids: seq<string>,
                 ghost states: seq<Docs>, ghost from: nat, after: Option<string>)
    returns (seen': seq<Json>, ended: bool, ghost ids': seq<string>, after': Option<string>, more: bool)
    requires Reached(states, from, seen, ids) && AllIdentified(states) && Ran(stop, seen, false) && after == LastOf(ids)
    requires var docs := states[|states| - 1]; IsPage(docs.Keys, after, SCAN_PAGE, pageIds) && Same(docs, page, pageIds)
    ensures Reached(states, from, seen', ids') && Ran(stop, seen', ended)
    ensures !ended ==> after' == LastOf(ids')
    ensures !ended && !more ==> forall k :: k in Lasting(states, from) ==> k in ids'
    ensures !ended && more ==> |Ahead(states[|states| - 1].Keys, after')| < |Ahead(states[|states| - 1].Keys, after)|
    ensures Same(states[|states| - 1], seen, ids) ==> Same(states[|states| - 1], seen', ids')
  {
    var n;
    seen', ended, n := VisitPage(page, stop, seen);
    ReachedNext(states, from, seen, ids, page, pageIds, n);
    ids', after', more := ids + pageIds[..n], after, false;
    if !ended {
      after', more := NextCursor(page, after, states[|states| - 1], pageIds);
      assert pageIds[..n] == pageIds;
    }
  }

  /** One turn of the walk's loop: a page is read, its documents are visited, the cursor moves. */
  method ReadOn(store: Store, stop: Visit, seen: seq<Json>, ghost ids: seq<string>, ghost from: nat, after: Option<string>)
    returns (seen': seq<Json>, ended: bool, ghost ids': seq<string>, after': Option<string>, more: bool)
    requires store.Valid() && Reached(store.states, from, seen, ids) && Ran(stop, seen, false) && after == LastOf(ids)
    modifies store
    ensures store.Valid() && old(store.states) <= store.states
    ensures Reached(store.states, from, seen', ids') && Ran(stop, seen', ended)
    ensures !ended ==> after' == LastOf(ids')
    ensures !ended && !more ==> forall k :: k in Lasting(store.states, from) ==> k in ids'
    ensures !ended && more ==>
              |Ahead(store.docs.Keys, after')| + store.births < |Ahead(old(store.docs.Keys), after)| + old(store.births)
    ensures store.births <= old(store.births)
    ensures store.births == old(store.births) && old(store.docs.Keys <= Lasting(store.states, from)) ==>
              store.docs.Keys <= Lasting(store.states, from)
    ensures Same(store.docs, seen, ids) ==> Same(store.docs, seen', ids')
  {
    var page, pageIds := ReadPage(store, from, seen, ids, after);
    seen', ended, ids', after', more := VisitOn(page, pageIds, stop, seen, ids, store.states, from, after);
  }

  /** `walk_docs`, while other clients remove, rewrite and insert documents between its pages: it visits in id order,
      each document once; it misses none that was there throughout; it stops at the first refusal; it ends, if
      only so many documents come. */
  method WalkDocs(store: Store, stop: Visit) returns (seen: seq<Json>, ended: bool, ghost ids: seq<string>)
    requires store.Valid()
    modifies store
    ensures store.Valid() && old(store.states) <= store.states
    ensures Reached(store.states, old(store.Now()), seen, ids) && Ran(stop, seen, ended)
    ensures !ended ==> forall k :: k in Lasting(store.states, old(store.Now())) ==> k in ids
    ensures store.births == old(store.births) ==> store.docs.Keys <= Lasting(store.states, old(store.Now()))
    ensures store.states == old(store.states) ==> Same(store.docs, seen, ids)
  {
    ghost var from := store.Now();
    seen, ended, ids := [], false, [];
    var after: Option<string>, more := None, true;
    while more && !ended
      invariant store.Valid() && old(store.states) <= store.states
      invariant Reached(store.states, from, seen, ids) && Ran(stop, seen, ended)
      invariant !ended ==> after == LastOf(ids)
      invariant !ended && !more ==> forall k :: k in Lasting(store.states, from) ==> k in ids
      invariant store.births <= old(store.births)
      invariant store.births == old(store.births) ==> store.docs.Keys <= Lasting(store.states, from)
      invariant store.states == old(store.states) ==> Same(store.docs, seen, ids)
      decreases more && !ended, |Ahead(store.docs.Keys, after)| + store.births
    {
      seen, ended, ids, after, more := ReadOn(store, stop, seen, ids, from, after);
    }
  }

  // ---------- collect_matching ----------

  type Keep = Json -> bool

  function Kept(keep: Keep, seen: seq<Json>): seq<Json> {
    if seen == [] then []
    else
      var p := Kept(keep, seen[..|seen| - 1]);
      if keep(seen[|seen| - 1]) then p + [seen[|seen| - 1]] else p
  }

  /** The ids of the kept documents. */
  ghost function KeptIds(keep: Keep, seen: seq<Json>, ids: seq<string>): seq<string>
    requires |seen| == |ids|
  {
    if seen == [] then []
    else
      var n := |seen| - 1;
      var p := KeptIds(keep, seen[..n], ids[..n]);
      if keep(seen[n]) then p + [ids[n]] else p
  }

  lemma {:induction false} KeptInOrder(keep: Keep, seen: seq<Json>, ids: seq<string>)
    requires |seen| == |ids| && Ascending(ids)
    ensures Ascending(KeptIds(keep, seen, ids)) && |KeptIds(keep, seen, ids)| == |Kept(keep, seen)|
    ensures forall k :: k in KeptIds(keep, seen, ids) <==> exists i :: 0 <= i < |ids| && ids[i] == k && keep(seen[i])
  {
    if seen != [] {
      var n := |seen| - 1;
      KeptInOrder(keep, seen[..n], ids[..n]);
      var p, r := KeptIds(keep, seen[..n], ids[..n]), KeptIds(keep, seen, ids);
      forall i | 0 <= i < |p|
        ensures Before(p[i], ids[n])
      {
        assert p[i] in p;
        var j :| 0 <= j < n && ids[..n][j] == p[i];
      }
      forall k
        ensures k in r <==> exists i :: 0 <= i < |ids| && ids[i] == k && keep(seen[i])
      {
        if k in p {
          var i :| 0 <= i < n && ids[..n][i] == k && keep(seen[..n][i]);
          assert ids[i] == k && keep(seen[i]);
        }
        if i :| 0 <= i < n && ids[i] == k && keep(seen[i]) {
          assert ids[..n][i] == k && keep(seen[..n][i]);
        }
      }
    }
  }

  ghost function Matching(docs: Docs, keep: Keep): set<string> {
    set k | k in docs && keep(docs[k])
  }

  /** The visit of `collect_matching`. */
  function AtCeiling(keep: Keep, ceiling: nat): Visit {
    (seen, doc) => keep(doc) && |Kept(keep, seen)| == ceiling
  }

  lemma {:induction false} BelowCeiling(keep: Keep, ceiling: nat, seen: seq<Json>)
    requires forall i :: 0 <= i < |seen| ==> Passed(AtCeiling(keep, ceiling), seen, i)
    ensures |Kept(keep, seen)| <= ceiling
  {
    if seen != [] {
      var n := |seen| - 1;
      var before := seen[..n];
      forall i | 0 <= i < n
        ensures Passed(AtCeiling(keep, ceiling), before, i)
      {
        assert before[..i] == seen[..i];
        assert Passed(AtCeiling(keep, ceiling), seen, i);
      }
      BelowCeiling(keep, ceiling, before);
      assert Passed(AtCeiling(keep, ceiling), seen, n);
    }
  }

  /** What a walk to the ceiling has kept: at most the ceiling if it came to its end, one more if it was refused. */
  lemma CeilingReached(keep: Keep, ceiling: nat, seen: seq<Json>, ended: bool)
    requires Ran(AtCeiling(keep, ceiling), seen, ended)
    ensures if ended then |Kept(keep, seen)| == ceiling + 1 else |Kept(keep, seen)| <= ceiling
  {
    if ended {
      assert !Passed(AtCeiling(keep, ceiling), seen, |seen| - 1);
    } else {
      BelowCeiling(keep, ceiling, seen);
    }
  }

  ghost predicate AlwaysMatches(states: seq<Docs>, from: nat, keep: Keep, k: string) {
    forall n :: from <= n < |states| ==> k in states[n] && keep(states[n][k])
  }

  /** Documents that matched at every moment, */
  ghost function Always(states: seq<Docs>, from: nat, keep: Keep): set<string>
    requires from < |states|
  {
    set k | k in states[from] && AlwaysMatches(states, from, keep, k)
  }

  /** or at some. */
  ghost function Sometime(states: seq<Docs>, from: nat, keep: Keep): set<string> {
    set n, k | from <= n < |states| && k in states[n] && keep(states[n][k]) :: k
  }

  /** `collect_matching`: the matching documents in id order, with every one that matched throughout; or
      TooManyResults (`None`), and then more than `ceiling` have matched. On a store that holds still both are exact. */
  method CollectMatching(store: Store, keep: Keep, ceiling: nat) returns (r: Option<seq<Json>>, ghost ids: seq<string>)
    requires store.Valid()
    modifies store
    ensures store.Valid() && old(store.states) <= store.states
    ensures r.Some? ==> |ids| <= ceiling && InOrder(store.states, old(store.Now()), r.value, ids)
    ensures r.Some? ==> forall i :: 0 <= i < |ids| ==> keep(r.value[i]) && GetText(r.value[i], "id") == Some(ids[i])
    ensures r.Some? ==> Always(store.states, old(store.Now()), keep) <= Elements(ids)
    ensures r.None? ==> |Sometime(store.states, old(store.Now()), keep)| > ceiling
    ensures store.states == old(store.states) ==>
              && (r.Some? <==> |Matching(store.docs, keep)| <= ceiling)
              && (r.Some? ==> Elements(ids) == Matching(store.docs, keep) && Same(store.docs, r.value, ids))
  {
    ghost var from := store.Now();
    var seen, ended, all := WalkDocs(store, AtCeiling(keep, ceiling));
    ids := KeptIds(keep, seen, all);
    r := if ended then None else Some(Kept(keep, seen));
    WalkCollects(store.states, from, keep, ceiling, seen, all, ended);
    if store.states == old(store.states) { StillCollects(store.states, from, keep, ceiling, seen, all, ended); }
  }

  lemma WalkCollects(states: seq<Docs>, from: nat, keep: Keep, ceiling: nat, seen: seq<Json>, all: seq<string>, ended: bool)
    requires AllIdentified(states) && from < |states| && InOrder(states, from, seen, all)
    requires Ran(AtCeiling(keep, ceiling), seen, ended)
    requires !ended ==> forall k :: k in Lasting(states, from) ==> k in all
    ensures var kept, ids := Kept(keep, seen), KeptIds(keep, seen, all);
            && InOrder(states, from, kept, ids) && (|ids| <= ceiling <==> !ended)
            && (forall i :: 0 <= i < |ids| ==> keep(kept[i]) && GetText(kept[i], "id") == Some(ids[i]))
            && (!ended ==> Always(states, from, keep) <= Elements(ids))
            && Elements(ids) <= Sometime(states, from, keep) && |ids| <= |Sometime(states, from, keep)|
  {
    CeilingReached(keep, ceiling, seen, ended);
    KeptIsSometime(states, from, keep, seen, all);
    VisitsIdentified(states, from, seen, all);
    KeptAreSeen(keep, seen, all);
    if !ended { AlwaysIsKept(states, from, keep, seen, all); }
  }

  lemma StillCollects(states: seq<Docs>, from: nat, keep: Keep, ceiling: nat, seen: seq<Json>, all: seq<string>, ended: bool)
    requires from == |states| - 1 && AllIdentified(states) && InOrder(states, from, seen, all)
    requires Ran(AtCeiling(keep, ceiling), seen, ended) && Same(states[from], seen, all)
    requires !ended ==> forall k :: k in Lasting(states, from) ==> k in all
    ensures var kept, ids := Kept(keep, seen), KeptIds(keep, seen, all);
            && (|Matching(states[from], keep)| <= ceiling <==> !ended)
            && (!ended ==> Elements(ids) == Matching(states[from], keep) && Same(states[from], kept, ids))
  {
    var ids := KeptIds(keep, seen, all);
    WalkCollects(states, from, keep, ceiling, seen, all, ended);
    StillMatches(states, from, keep);
    KeptSame(states[from], keep, seen, all);
    if !ended {
      assert Elements(ids) == Matching(states[from], keep);
      AscendingSize(ids);
    }
  }

  /** On a store that holds still. */
  lemma StillMatches(states: seq<Docs>, from: nat, keep: Keep)
    requires from == |states| - 1
    ensures Always(states, from, keep) == Matching(states[from], keep) == Sometime(states, from, keep)
  {
    var docs := states[from];
    forall k
      ensures k in Sometime(states, from, keep) <==> k in Matching(docs, keep)
      ensures k in Always(states, from, keep) <==> k in Matching(docs, keep)
    {
    }
  }

  lemma KeptIsSometime(states: seq<Docs>, from: nat, keep: Keep, seen: seq<Json>, ids: seq<string>)
    requires InOrder(states, from, seen, ids)
    ensures InOrder(states, from, Kept(keep, seen), KeptIds(keep, seen, ids))
    ensures Elements(KeptIds(keep, seen, ids)) <= Sometime(states, from, keep)
    ensures |KeptIds(keep, seen, ids)| <= |Sometime(states, from, keep)|
  {
    var kept, keptIds := Kept(keep, seen), KeptIds(keep, seen, ids);
    KeptInOrder(keep, seen, ids);
    KeptStored(states, from, keep, seen, ids);
    forall k | k in keptIds
      ensures k in Sometime(states, from, keep)
    {
      var i :| 0 <= i < |ids| && ids[i] == k && keep(seen[i]);
      assert SeenAt(states, from, seen, ids, i);
    }
    AscendingSize(keptIds);
    SubsetSize(Elements(keptIds), Sometime(states, from, keep));
  }

  lemma {:induction false} KeptStored(states: seq<Docs>, from: nat, keep: Keep, seen: seq<Json>, ids: seq<string>)
    requires |seen| == |ids| && forall i :: 0 <= i < |ids| ==> SeenAt(states, from, seen, ids, i)
    ensures |Kept(keep, seen)| == |KeptIds(keep, seen, ids)|
    ensures forall i :: 0 <= i < |Kept(keep, seen)| ==> SeenAt(states, from, Kept(keep, seen), KeptIds(keep, seen, ids), i)
  {
    if seen != [] {
      var n := |seen| - 1;
      var seen', ids' := seen[..n], ids[..n];
      forall i | 0 <= i < n
        ensures SeenAt(states, from, seen', ids', i)
      {
        assert SeenAt(states, from, seen, ids, i);
      }
      KeptStored(states, from, keep, seen', ids');
      assert SeenAt(states, from, seen, ids, n);
      var p, q := Kept(keep, seen'), KeptIds(keep, seen', ids');
      forall i | 0 <= i < |Kept(keep, seen)|
        ensures SeenAt(states, from, Kept(keep, seen), KeptIds(keep, seen, ids), i)
      {
        if i < |p| { assert SeenAt(states, from, p, q, i); }
      }
    }
  }

  /** A walk that came to its end kept every document that matched throughout. */
  lemma AlwaysIsKept(states: seq<Docs>, from: nat, keep: Keep, seen: seq<Json>, ids: seq<string>)
    requires from < |states| && InOrder(states, from, seen, ids) && forall k :: k in Lasting(states, from) ==> k in ids
    ensures Always(states, from, keep) <= Elements(KeptIds(keep, seen, ids))
  {
    KeptInOrder(keep, seen, ids);
    forall k | k in Always(states, from, keep)
      ensures k in KeptIds(keep, seen, ids)
    {
      assert Throughout(states, from, k);
      assert k in Lasting(states, from);
      var i :| 0 <= i < |ids| && ids[i] == k;
      assert SeenAt(states, from, seen, ids, i);
    }
  }

  lemma VisitsIdentified(states: seq<Docs>, from: nat, seen: seq<Json>, ids: seq<string>)
    requires AllIdentified(states) && InOrder(states, from, seen, ids)
    ensures forall i :: 0 <= i < |ids| ==> GetText(seen[i], "id") == Some(ids[i])
  {
    forall i | 0 <= i < |ids|
      ensures GetText(seen[i], "id") == Some(ids[i])
    {
      assert SeenAt(states, from, seen, ids, i);
    }
  }

  lemma {:induction false} KeptAreSeen(keep: Keep, seen: seq<Json>, ids: seq<string>)
    requires |seen| == |ids| && forall i :: 0 <= i < |ids| ==> GetText(seen[i], "id") == Some(ids[i])
    ensures |KeptIds(keep, seen, ids)| == |Kept(keep, seen)|
    ensures forall i :: 0 <= i < |Kept(keep, seen)| ==>
              keep(Kept(keep, seen)[i]) && GetText(Kept(keep, seen)[i], "id") == Some(KeptIds(keep, seen, ids)[i])
  {
    if seen != [] {
      var n := |seen| - 1;
      KeptAreSeen(keep, seen[..n], ids[..n]);
    }
  }

  lemma {:induction false} KeptSame(docs: Docs, keep: Keep, seen: seq<Json>, ids: seq<string>)
    requires Same(docs, seen, ids)
    ensures Same(docs, Kept(keep, seen), KeptIds(keep, seen, ids))
  {
    if seen != [] {
      var n := |seen| - 1;
      KeptSame(docs, keep, seen[..n], ids[..n]);
    }
  }

  // ---------- the checks of a registration write ----------

  ghost predicate Hits(env: R.Env, mode: string, info: Json, docs: Docs) {
    exists id :: R.HitAt(env, mode, info, docs, id)
  }

  ghost predicate HitsAt(env: R.Env, doc: Members, docs: Docs, i: nat)
    requires i < |R.Infos(doc)|
  {
    Hits(env, R.Mode(doc), R.Infos(doc)[i], docs)
  }

  /** Some stored Entity conflicts with the registration. */
  ghost predicate EntityConflict(env: R.Env, doc: Members, docs: Docs) {
    IsChecked(doc) && exists i :: 0 <= i < |R.Infos(doc)| && HitsAt(env, doc, docs, i)
  }

  ghost predicate HitsAtMoment(env: R.Env, mode: string, info: Json, states: seq<Docs>, n: nat)
    requires n < |states|
  {
    Hits(env, mode, info, states[n])
  }

  /** At some moment since `from` an Entity stood in the way. */
  ghost predicate HitsOnce(env: R.Env, mode: string, info: Json, states: seq<Docs>, from: nat) {
    exists n: nat :: from <= n < |states| && HitsAtMoment(env, mode, info, states, n)
  }

  /** At some moment since `from` this Entity did not stand in the way. */
  ghost predicate ClearOnce(env: R.Env, mode: string, info: Json, states: seq<Docs>, from: nat, id: string) {
    exists n: nat :: from <= n < |states| && !R.HitAt(env, mode, info, states[n], id)
  }

  /** Every Entity that was there throughout was found out of the way. */
  ghost predicate AllClear(env: R.Env, mode: string, info: Json, states: seq<Docs>, from: nat)
    requires from < |states|
  {
    forall id :: id in Lasting(states, from) ==> ClearOnce(env, mode, info, states, from, id)
  }

  /** What was found stays found, over a longer time. */
  lemma FoundLater(env: R.Env, mode: string, info: Json, states: seq<Docs>, states': seq<Docs>, from: nat, since: nat)
    requires from <= since < |states| && states <= states'
    ensures AllClear(env, mode, info, states, since) ==> AllClear(env, mode, info, states', from)
    ensures HitsOnce(env, mode, info, states, since) ==> HitsOnce(env, mode, info, states', from)
  {
    if AllClear(env, mode, info, states, since) {
      forall id | id in Lasting(states', from)
        ensures ClearOnce(env, mode, info, states', from, id)
      {
        assert states[since] == states'[since] && Throughout(states, since, id);
        assert id in Lasting(states, since);
        var n: nat :| since <= n < |states| && !R.HitAt(env, mode, info, states[n], id);
        assert states'[n] == states[n];
      }
    }
    if HitsOnce(env, mode, info, states, since) {
      var n: nat :| since <= n < |states| && HitsAtMoment(env, mode, info, states, n);
      assert HitsAtMoment(env, mode, info, states', n);
    }
  }

  /** On a store that holds still, found out of the way is out of the way. */
  lemma StillClear(env: R.Env, mode: string, info: Json, states: seq<Docs>, from: nat)
    requires from == |states| - 1
    ensures AllClear(env, mode, info, states, from) ==> !Hits(env, mode, info, states[from])
    ensures HitsOnce(env, mode, info, states, from) ==> Hits(env, mode, info, states[from])
  {
    if AllClear(env, mode, info, states, from) {
      forall id
        ensures !R.HitAt(env, mode, info, states[from], id)
      {
        if id in states[from] { assert id in Lasting(states, from); }
      }
    }
  }

  /** Others move, then a document is read. */
  method ReadOne(store: Store, id: string) returns (existing: Option<Json>)
    requires store.Valid()
    modifies store
    ensures store.Valid() && old(store.states) <= store.states
    ensures existing == At(store.states[|store.states| - 1], id)
  {
    store.Others();
    existing := store.Fetch(id);
  }

  method HitIn(env: R.Env, mode: string, info: Json, ghost states: seq<Docs>, id: string, ghost from: nat, existing: Option<Json>)
    returns (hit: bool)
    requires from < |states| && existing == At(states[|states| - 1], id)
    ensures if hit then HitsOnce(env, mode, info, states, from) else ClearOnce(env, mode, info, states, from, id)
  {
    hit := existing.Some? && R.Hit(env, mode, info, existing.value);
    ghost var n := |states| - 1;
    if existing.Some? { R.HitByName(env, mode, info, existing.value); }
    assert hit <==> R.HitAt(env, mode, info, states[n], id);
    assert hit ==> HitsAtMoment(env, mode, info, states, n);
  }

  /** Reading one named Entity. */
  method HitOne(store: Store, env: R.Env, mode: string, info: Json, id: string, ghost from: nat) returns (hit: bool)
    requires store.Valid() && from < |store.states|
    modifies store
    ensures store.Valid() && old(store.states) <= store.states
    ensures if hit then HitsOnce(env, mode, info, store.states, from) else ClearOnce(env, mode, info, store.states, from, id)
  {
    var existing := ReadOne(store, id);
    hit := HitIn(env, mode, info, store.states, id, from, existing);
  }

  ghost predicate ClearEach(env: R.Env, mode: string, info: Json, states: seq<Docs>, from: nat, ids: seq<string>, n: nat)
    requires n <= |ids|
  {
    forall m :: 0 <= m < n ==> ClearOnce(env, mode, info, states, from, ids[m])
  }

  /** Reading just the Entities an information element names. */
  method HitById(store: Store, env: R.Env, mode: string, info: Json) returns (hit: bool)
    requires store.Valid() && R.Keyed(info)
    modifies store
    ensures store.Valid() && old(store.states) <= store.states
    ensures if hit then HitsOnce(env, mode, info, store.states, old(store.Now()))
            else AllClear(env, mode, info, store.states, old(store.Now()))
  {
    ghost var from := store.Now();
    var ids := R.Ids(R.Entities(info));
    hit := false;
    for n := 0 to |ids|
      invariant store.Valid() && old(store.states) <= store.states
      invariant ClearEach(env, mode, info, store.states, from, ids, n)
    {
      ghost var states := store.states;
      hit := HitOne(store, env, mode, info, ids[n], from);
      if hit { return; }
      ClearNext(env, mode, info, states, store.states, from, ids, n);
    }
    NamedIsAll(env, mode, info, store.states, from, ids);
  }

  lemma ClearNext(env: R.Env, mode: string, info: Json, states: seq<Docs>, states': seq<Docs>, from: nat, ids: seq<string>, n: nat)
    requires states <= states' && n < |ids| && ClearEach(env, mode, info, states, from, ids, n)
    requires ClearOnce(env, mode, info, states', from, ids[n])
    ensures ClearEach(env, mode, info, states', from, ids, n + 1)
  {
    forall m | 0 <= m < n
      ensures ClearOnce(env, mode, info, states', from, ids[m])
    {
      assert ClearOnce(env, mode, info, states, from, ids[m]);
      var i: nat :| from <= i < |states| && !R.HitAt(env, mode, info, states[i], ids[m]);
      assert states'[i] == states[i];
    }
  }

  /** No Entity that is not named can stand in the way. */
  lemma NamedIsAll(env: R.Env, mode: string, info: Json, states: seq<Docs>, from: nat, ids: seq<string>)
    requires from < |states| && AllIdentified(states) && R.Keyed(info) && ids == R.Ids(R.Entities(info))
    requires ClearEach(env, mode, info, states, from, ids, |ids|)
    ensures AllClear(env, mode, info, states, from)
  {
    forall id | id in Lasting(states, from)
      ensures ClearOnce(env, mode, info, states, from, id)
    {
      if R.HitAt(env, mode, info, states[from], id) { R.HitIsNamed(env, mode, info, states[from], id); }
    }
  }

  function HitVisit(env: R.Env, mode: string, info: Json): Visit {
    (seen, existing) => R.Hit(env, mode, info, existing)
  }

  /** Reading every Entity of the tenant. */
  method HitByWalk(store: Store, env: R.Env, mode: string, info: Json) returns (hit: bool)
    requires store.Valid()
    modifies store
    ensures store.Valid() && old(store.states) <= store.states
    ensures if hit then HitsOnce(env, mode, info, store.states, old(store.Now()))
            else AllClear(env, mode, info, store.states, old(store.Now()))
  {
    ghost var from := store.Now();
    var seen, ended, ids := WalkDocs(store, HitVisit(env, mode, info));
    hit := ended;
    WalkFinds(env, mode, info, store.states, from, seen, ids, ended);
  }

  lemma WalkFinds(env: R.Env, mode: string, info: Json, states: seq<Docs>, from: nat, seen: seq<Json>, ids: seq<string>, ended: bool)
    requires from < |states| && InOrder(states, from, seen, ids) && Ran(HitVisit(env, mode, info), seen, ended)
    requires !ended ==> forall k :: k in Lasting(states, from) ==> k in ids
    ensures if ended then HitsOnce(env, mode, info, states, from) else AllClear(env, mode, info, states, from)
  {
    var stop := HitVisit(env, mode, info);
    if ended {
      var last := |seen| - 1;
      assert !Passed(stop, seen, last) && SeenAt(states, from, seen, ids, last);
      var n: nat :| from <= n < |states| && ids[last] in states[n] && states[n][ids[last]] == seen[last];
      R.HitByName(env, mode, info, seen[last]);
      assert R.HitAt(env, mode, info, states[n], ids[last]);
      assert HitsAtMoment(env, mode, info, states, n);
    } else {
      forall id | id in Lasting(states, from)
        ensures ClearOnce(env, mode, info, states, from, id)
      {
        var i :| 0 <= i < |ids| && ids[i] == id;
        assert Passed(stop, seen, i) && SeenAt(states, from, seen, ids, i);
        R.HitByName(env, mode, info, seen[i]);
      }
    }
  }

  /** One information element of `check_entity_conflict`: by id where every selector names one, by walking otherwise. */
  method CheckInfo(store: Store, env: R.Env, mode: string, info: Json) returns (hit: bool)
    requires store.Valid()
    modifies store
    ensures store.Valid() && old(store.states) <= store.states
    ensures if hit then HitsOnce(env, mode, info, store.states, old(store.Now()))
            else AllClear(env, mode, info, store.states, old(store.Now()))
  {
    if R.Entities(info) == [] {
      return false;
    } else if R.Keyed(info) {
      hit := HitById(store, env, mode, info);
    } else {
      hit := HitByWalk(store, env, mode, info);
    }
  }

  /** Some information element met, at some moment since `from`, an Entity in its way. */
  ghost predicate ConflictOnce(env: R.Env, doc: Members, states: seq<Docs>, from: nat) {
    exists i :: 0 <= i < |R.Infos(doc)| && HitsOnce(env, R.Mode(doc), R.Infos(doc)[i], states, from)
  }

  /** Every Entity that was there throughout was found out of the way of the first `n` elements. */
  ghost predicate ClearBelow(env: R.Env, mode: string, infos: seq<Json>, states: seq<Docs>, from: nat, n: nat)
    requires from < |states| && n <= |infos|
  {
    forall i :: 0 <= i < n ==> AllClear(env, mode, infos[i], states, from)
  }

  /** The loop of `check_entity_conflict`. */
  method CheckInfos(store: Store, env: R.Env, mode: string, infos: seq<Json>) returns (conflict: bool)
    requires store.Valid()
    modifies store
    ensures store.Valid() && old(store.states) <= store.states
    ensures if conflict then exists i :: 0 <= i < |infos| && HitsOnce(env, mode, infos[i], store.states, old(store.Now()))
            else ClearBelow(env, mode, infos, store.states, old(store.Now()), |infos|)
  {
    ghost var from := store.Now();
    conflict := false;
    for n := 0 to |infos|
      invariant store.Valid() && old(store.states) <= store.states
      invariant ClearBelow(env, mode, infos, store.states, from, n)
    {
      ghost var states := store.states;
      conflict := CheckInfo(store, env, mode, infos[n]);
      CheckedNext(env, mode, infos, states, store.states, from, n, conflict);
      if conflict { return; }
    }
  }

  /** `check_entity_conflict`, whichever of the two reads each element takes: a conflict is an Entity that stood in
      the way at some moment, and without one every Entity that was there throughout was found out of the way of every
      element. On a store that holds still the check is exact. */
  method CheckEntityConflict(store: Store, env: R.Env, doc: Members) returns (conflict: bool)
    requires store.Valid()
    modifies store
    ensures store.Valid() && old(store.states) <= store.states
    ensures conflict ==> IsChecked(doc) && ConflictOnce(env, doc, store.states, old(store.Now()))
    ensures !conflict && IsChecked(doc) ==>
              ClearBelow(env, R.Mode(doc), R.Infos(doc), store.states, old(store.Now()), |R.Infos(doc)|)
    ensures store.states == old(store.states) ==> (conflict <==> EntityConflict(env, doc, store.docs))
  {
    ghost var from := store.Now();
    conflict := false;
    R.ModeByName(doc);
    if R.Proxied(R.Mode(doc)) {
      conflict := CheckInfos(store, env, R.Mode(doc), R.Infos(doc));
    }
    ExactIfStill(env, doc, store.states, from, conflict);
  }

  lemma ExactIfStill(env: R.Env, doc: Members, states: seq<Docs>, from: nat, conflict: bool)
    requires from < |states|
    requires conflict ==> IsChecked(doc) && ConflictOnce(env, doc, states, from)
    requires !conflict && IsChecked(doc) ==> ClearBelow(env, R.Mode(doc), R.Infos(doc), states, from, |R.Infos(doc)|)
    ensures from == |states| - 1 ==> (conflict <==> EntityConflict(env, doc, states[from]))
  {
    if conflict {
      StillConflict(env, doc, states, from);
    } else if from == |states| - 1 && IsChecked(doc) {
      StillAllClear(env, doc, states, from);
    }
  }

  /** One more element checked, from the moment `states` ends to the moment `states'` ends. */
  lemma CheckedNext(env: R.Env, mode: string, infos: seq<Json>, states: seq<Docs>, states': seq<Docs>, from: nat, n: nat, hit: bool)
    requires from < |states| && states <= states' && n < |infos| && ClearBelow(env, mode, infos, states, from, n)
    requires if hit then HitsOnce(env, mode, infos[n], states', |states| - 1) else AllClear(env, mode, infos[n], states', |states| - 1)
    ensures if hit then HitsOnce(env, mode, infos[n], states', from) else ClearBelow(env, mode, infos, states', from, n + 1)
  {
    FoundLater(env, mode, infos[n], states', states', from, |states| - 1);
    ClearLater(env, mode, infos, states, states', from, n);
  }

  lemma StillConflict(env: R.Env, doc: Members, states: seq<Docs>, from: nat)
    requires from < |states| && IsChecked(doc) && ConflictOnce(env, doc, states, from)
    ensures from == |states| - 1 ==> EntityConflict(env, doc, states[from])
  {
    var i :| 0 <= i < |R.Infos(doc)| && HitsOnce(env, R.Mode(doc), R.Infos(doc)[i], states, from);
    if from == |states| - 1 {
      StillClear(env, R.Mode(doc), R.Infos(doc)[i], states, from);
      assert HitsAt(env, doc, states[from], i);
    }
  }

  lemma ClearLater(env: R.Env, mode: string, infos: seq<Json>, states: seq<Docs>, states': seq<Docs>, from: nat, n: nat)
    requires from < |states| && states <= states' && n <= |infos| && ClearBelow(env, mode, infos, states, from, n)
    ensures ClearBelow(env, mode, infos, states', from, n)
  {
    forall i | 0 <= i < n
      ensures AllClear(env, mode, infos[i], states', from)
    {
      FoundLater(env, mode, infos[i], states, states', from, from);
    }
  }

  lemma StillAllClear(env: R.Env, doc: Members, states: seq<Docs>, from: nat)
    requires from == |states| - 1 && ClearBelow(env, R.Mode(doc), R.Infos(doc), states, from, |R.Infos(doc)|)
    ensures !EntityConflict(env, doc, states[from])
  {
    forall i | 0 <= i < |R.Infos(doc)|
      ensures !HitsAt(env, doc, states[from], i)
    {
      StillClear(env, R.Mode(doc), R.Infos(doc)[i], states, from);
    }
  }

  /** The visit of `check_proxied_overlap`; `expired(n, other)` is what the clock says at the nth visit. */
  function OverlapVisit(env: R.Env, doc: Members, self: Option<string>, expired: (nat, Json) -> bool): Visit {
    (seen: seq<Json>, other: Json) => other.Object? && R.Blocks(env, doc, self, other.members, expired(|seen|, other))
  }

  /** `check_proxied_overlap`: if it finds nothing, then no registration that was there throughout, nor any that is
      there if none has come, stood in the way when it was visited; if it refuses, one that was visited did. */
  method CheckProxiedOverlap(store: Store, env: R.Env, doc: Members, self: Option<string>, expired: (nat, Json) -> bool)
    returns (conflict: bool, ghost seen: seq<Json>, ghost ids: seq<string>)
    requires store.Valid()
    modifies store
    ensures store.Valid() && old(store.states) <= store.states
    ensures InOrder(store.states, old(store.Now()), seen, ids)
    ensures !conflict && IsChecked(doc) ==> forall k :: k in Lasting(store.states, old(store.Now())) ==> k in ids
    ensures !conflict && IsChecked(doc) && store.births == old(store.births) ==> forall k :: k in store.docs ==> k in ids
    ensures !conflict ==> forall i :: 0 <= i < |seen| ==> !StandsAt(env, doc, self, expired, seen, i)
    ensures conflict ==> IsChecked(doc) && seen != [] && StandsAt(env, doc, self, expired, seen, |seen| - 1)
  {
    conflict, seen, ids := false, [], [];
    R.ModeByName(doc);
    if !R.Proxied(R.Mode(doc)) { return; }
    var visited;
    visited, conflict, ids := WalkDocs(store, OverlapVisit(env, doc, self, expired));
    seen := visited;
    VisitsByName(env, doc, self, expired, seen, conflict);
  }

  /** Only exclusive and redirect registrations are checked. */
  ghost predicate IsChecked(doc: Members) {
    R.IsMode(doc, "exclusive") || R.IsMode(doc, "redirect")
  }

  /** The document at `i` stands in the way. */
  ghost predicate StandsAt(env: R.Env, doc: Members, self: Option<string>, expired: (nat, Json) -> bool, seen: seq<Json>, i: nat)
    requires i < |seen|
  {
    seen[i].Object? && R.InTheWay(env, doc, self, seen[i].members, expired(i, seen[i]))
  }

  lemma VisitsByName(env: R.Env, doc: Members, self: Option<string>, expired: (nat, Json) -> bool, seen: seq<Json>, ended: bool)
    requires Ran(OverlapVisit(env, doc, self, expired), seen, ended)
    ensures forall i :: 0 <= i < |seen| ==> (StandsAt(env, doc, self, expired, seen, i) <==> ended && i == |seen| - 1)
  {
    forall i | 0 <= i < |seen|
      ensures StandsAt(env, doc, self, expired, seen, i) <==> ended && i == |seen| - 1
    {
      assert Passed(OverlapVisit(env, doc, self, expired), seen, i) <==> !(ended && i == |seen| - 1);
      if seen[i].Object? { R.BlocksByName(env, doc, self, seen[i].members, expired(i, seen[i])); }
    }
  }
}
