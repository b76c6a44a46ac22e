/** The attribute operations of crates/antares-api/src/attrs.rs on one stored Entity:
    append (5.6.3), update (5.6.2), partial update (5.6.4), replace (5.6.19), delete (5.6.5). */
module EntityAttrs {
  import opened Json
  import opened Instances

  /** `is_fragment_meta` */
  predicate IsFragmentMeta(k: string) {
    k in { "id", "type", "scope", "createdAt", "modifiedAt" }
  }

  // ---------- the stamps of crates/antares-api/src/stamp.rs ----------

  /** `RESERVED_MEMBERS`: no sub-Attribute carries one of these names. */
  predicate IsReservedMember(k: string) {
    k in {
      "type", "value", "object", "objectType", "datasetId", "observedAt", "unitCode", "lang", "languageMap",
      "vocab", "json", "valueList", "objectList", "entity", "entityList", "entityIdSealed", "entityTypeSealed",
      "valueType", "createdAt", "modifiedAt", "deletedAt", "expiresAt", "instanceId", "previousValue",
      "previousObject", "previousLanguageMap", "previousJson", "previousVocab", "previousValueList",
      "previousObjectList" }
  }

  /** `stamp_instances` */
  function Stamp(v: Json, ts: string): Json {
    match v
    case Array(items) => Array(seq(|items|, i requires 0 <= i < |items| => StampOne(items[i], ts)))
    case _ => v
  }

  function StampOne(inst: Json, ts: string): Json {
    match inst
    case Object(o) =>
      var m := o["createdAt" := Text(ts)]["modifiedAt" := Text(ts)];
      Object(map k | k in m :: if k in o && o[k].Array? && !IsReservedMember(k) then Stamp(o[k], ts) else m[k])
    case _ => inst
  }

  lemma StampedMember(o: Members, ts: string, k: string)
    requires k == "datasetId" || Marks(k, Text(NULL_MARK))
    ensures AgreeAt(StampOne(Object(o), ts).members, o, k)
  {
  }

  /** Stamping neither renames an instance's dataset nor makes or unmakes a deletion marker. */
  lemma StampKeeps(inst: Json, ts: string)
    ensures Dataset(StampOne(inst, ts)) == Dataset(inst)
    ensures IsDeletion(StampOne(inst, ts)) <==> IsDeletion(inst)
  {
    if inst.Object? {
      var o, r := inst.members, StampOne(inst, ts).members;
      StampedMember(o, ts, "datasetId");
      if IsDeletion(inst) {
        var k :| k in o && Marks(k, o[k]);
        StampedMember(o, ts, k);
        assert k in r && Marks(k, r[k]);
      }
      if IsDeletion(StampOne(inst, ts)) {
        var k :| k in r && Marks(k, r[k]);
        StampedMember(o, ts, k);
        assert k in o && Marks(k, o[k]);
      }
    }
  }

  lemma StampListKeeps(items: seq<Json>, ts: string)
    ensures |Stamp(Array(items), ts).items| == |items|
    ensures Distinct(items) ==> Distinct(Stamp(Array(items), ts).items)
    ensures Unmarked(items) <==> Unmarked(Stamp(Array(items), ts).items)
  {
    var r := Stamp(Array(items), ts).items;
    forall i | 0 <= i < |items|
      ensures Dataset(r[i]) == Dataset(items[i])
      ensures IsDeletion(r[i]) <==> IsDeletion(items[i])
    {
      StampKeeps(items[i], ts);
    }
    if Distinct(items) {
      forall i: nat, j: nat
        ensures Apart(r, i, j)
      {
        assert Apart(items, i, j);
      }
    }
    if Unmarked(r) {
      forall i | 0 <= i < |items|
        ensures !IsDeletion(items[i])
      {
        assert !IsDeletion(r[i]);
      }
    }
  }

  // ---------- well-formed entities ----------

  /** One stored Attribute: at least one instance, one per dataset, no deletion marker. */
  ghost predicate GoodAttr(v: Json) {
    v.Array? && v.items != [] && Distinct(v.items) && Unmarked(v.items)
  }

  ghost predicate GoodAt(doc: Members, k: string) {
    k in doc && !IsMeta(k) ==> GoodAttr(doc[k])
  }

  ghost predicate GoodEntity(doc: Members) {
    forall k :: GoodAt(doc, k)
  }

  /** One Attribute of a fragment, as expansion delivers it. */
  ghost predicate IncomingAttr(v: Json) {
    v.Array? && v.items != [] && Distinct(v.items)
  }

  /** The live part of a list: its instances that are no deletion markers. */
  function Live(items: seq<Json>): seq<Json> {
    if items == [] then []
    else (if IsDeletion(items[0]) then [] else [items[0]]) + Live(items[1..])
  }

  /** Where two live instances stand in the list they come from. */
  lemma {:induction false} LiveAt(items: seq<Json>, i: nat, j: nat) returns (p: nat, q: nat)
    requires i < j < |Live(items)|
    ensures p < q < |items| && Live(items)[i] == items[p] && Live(items)[j] == items[q]
  {
    var rest := items[1..];
    if IsDeletion(items[0]) {
      p, q := LiveAt(rest, i, j);
      p, q := p + 1, q + 1;
    } else if i > 0 {
      p, q := LiveAt(rest, i - 1, j - 1);
      p, q := p + 1, q + 1;
    } else {
      q := LiveOne(rest, j - 1);
      p, q := 0, q + 1;
    }
  }

  lemma {:induction false} LiveOne(items: seq<Json>, i: nat) returns (p: nat)
    requires i < |Live(items)|
    ensures p < |items| && Live(items)[i] == items[p]
  {
    if IsDeletion(items[0]) {
      p := LiveOne(items[1..], i);
      p := p + 1;
    } else if i > 0 {
      p := LiveOne(items[1..], i - 1);
      p := p + 1;
    } else {
      p := 0;
    }
  }

  lemma {:induction false} LiveUnmarked(items: seq<Json>)
    ensures Unmarked(Live(items))
    ensures Unmarked(items) ==> Live(items) == items
  {
    if items != [] {
      LiveUnmarked(items[1..]);
      assert items == [items[0]] + items[1..];
      if Unmarked(items) {
        assert forall i :: 0 <= i < |items[1..]| ==> items[1..][i] == items[i + 1];
      }
    }
  }

  lemma LiveDistinct(items: seq<Json>)
    requires Distinct(items)
    ensures Distinct(Live(items))
  {
    var l := Live(items);
    forall i: nat, j: nat
      ensures Apart(l, i, j)
    {
      if i < j < |l| {
        var p, q := LiveAt(items, i, j);
        assert Apart(items, p, q);
      }
    }
  }

  // ---------- append and update: one Attribute ----------

  datatype Mode = Append(noOverwrite: bool) | Update

  /** What one incoming Attribute makes of the stored one. */
  function AttrAfter(mode: Mode, cur: Option<Json>, inc: Json): Option<Json> {
    match cur
    case None =>
      if mode.Append? then Some(inc)
      else if inc.Array? && Live(inc.items) != [] then Some(Array(Live(inc.items)))
      else None
    case Some(existing) =>
      var merged := MergeSets(existing, inc, mode.Append? && mode.noOverwrite);
      if mode.Update? && merged == Array([]) then None else Some(merged)
  }

  /** Whether it is reported in `updated`. */
  predicate Taken(mode: Mode, cur: Option<Json>, inc: Json) {
    mode.Append? && cur.Some? ==> SetsApply(cur.value, inc, mode.noOverwrite)
  }

  /** An Attribute of the write, after it, is well-formed whenever it was before. */
  lemma AttrAfterGood(mode: Mode, cur: Option<Json>, inc: Json)
    requires IncomingAttr(inc) && (mode.Append? ==> Unmarked(inc.items))
    requires cur.Some? ==> GoodAttr(cur.value)
    ensures AttrAfter(mode, cur, inc).Some? ==> GoodAttr(AttrAfter(mode, cur, inc).value)
  {
    LiveDistinct(inc.items);
    LiveUnmarked(inc.items);
    if cur.Some? {
      var no := mode.Append? && mode.noOverwrite;
      MergeIsPutAll(cur.value.items, inc.items, no);
      if mode.Append? { MergeGrows(cur.value.items, inc.items, no); }
    }
  }

  /** An Attribute that is not taken stays as it is stored. */
  lemma NotTakenUnchanged(mode: Mode, cur: Option<Json>, inc: Json)
    requires !Taken(mode, cur, inc)
    ensures AttrAfter(mode, cur, inc) == cur
  {
    if cur.value.Array? && inc.Array? { NothingApplied(cur.value.items, inc.items, mode.noOverwrite); }
  }

  // ---------- append and update: the whole fragment ----------

  /** One entry of `notUpdated` (5.2.19). */
  datatype NotUpdated = NotUpdated(attr: string, reason: string, reg: Option<string>)

  function AttrsOf(nu: seq<NotUpdated>): seq<string> {
    seq(|nu|, i requires 0 <= i < |nu| => nu[i].attr)
  }

  lemma AttrsOfAppend(nu: seq<NotUpdated>, x: NotUpdated)
    ensures AttrsOf(nu + [x]) == AttrsOf(nu) + [x.attr]
  {
  }

  function FragAttrs(frag: Members): set<string> {
    set k | k in frag && !IsFragmentMeta(k)
  }

  /** The items of `extra` that `cur` lacks are added at its end. */
  function UnionInto(cur: seq<Json>, extra: seq<Json>): seq<Json> {
    if extra == [] then cur
    else
      var u := UnionInto(cur, extra[..|extra| - 1]);
      if extra[|extra| - 1] in u then u else u + [extra[|extra| - 1]]
  }

  method Union(cur: seq<Json>, extra: seq<Json>) returns (u: seq<Json>)
    ensures u == UnionInto(cur, extra)
  {
    u := cur;
    for i := 0 to |extra|
      invariant u == UnionInto(cur, extra[..i])
    {
      assert extra[..i + 1][..i] == extra[..i];
      if extra[i] !in u { u := u + [extra[i]]; }
    }
    assert extra[..|extra|] == extra;
  }

  function ItemsOf(v: Option<Json>): seq<Json> {
    if v.Some? && v.value.Array? then v.value.items else []
  }

  /** The scope after the write, and whether it counts as updated; a fragment without one changes nothing. */
  function ScopeAfter(mode: Mode, cur: Option<Json>, inc: Option<Json>): Option<Json> {
    if inc.None? then cur
    else if mode.Append? && cur.Some? && mode.noOverwrite then
      var u := UnionInto(ItemsOf(cur), ItemsOf(inc));
      if |u| > |ItemsOf(cur)| then Some(Array(u)) else cur
    else if mode.Update? && cur.None? then cur
    else inc
  }

  function ScopeUpdated(mode: Mode, cur: Option<Json>, inc: Option<Json>): seq<string> {
    if inc.None? then []
    else if mode.Append? && cur.Some? && mode.noOverwrite then
      if |UnionInto(ItemsOf(cur), ItemsOf(inc))| > |ItemsOf(cur)| then ["scope"] else []
    else if mode.Update? && cur.None? then []
    else ["scope"]
  }

  /** The Attribute loop has passed `done`. */
  ghost predicate WrittenAt(before: Members, frag: Members, ts: string, mode: Mode, after: Members, done: set<string>, k: string) {
    && (k in done && k in frag ==> At(after, k) == AttrAfter(mode, At(before, k), Stamp(frag[k], ts)))
    && (k !in done ==> At(after, k) == At(before, k))
  }

  ghost predicate ListedAt(before: Members, frag: Members, ts: string, mode: Mode, updated: seq<string>, nu: seq<NotUpdated>, k: string) {
    k in frag && !IsFragmentMeta(k) ==>
      && (k in updated <==> Taken(mode, At(before, k), Stamp(frag[k], ts)))
      && (k in AttrsOf(nu) <==> !Taken(mode, At(before, k), Stamp(frag[k], ts)))
  }

  /** One Attribute of the fragment: the closures' loop body. */
  method MergeAttr(before: Members, k: string, v: Json, ts: string, mode: Mode) returns (after: Members, taken: bool)
    ensures At(after, k) == AttrAfter(mode, At(before, k), Stamp(v, ts))
    ensures forall j :: j != k ==> At(after, j) == At(before, j)
    ensures taken == Taken(mode, At(before, k), Stamp(v, ts))
  {
    var incoming := Stamp(v, ts);
    after, taken := before, true;
    match mode
    case Append(noOverwrite) =>
      if k !in before {
        after := before[k := incoming];
      } else {
        var merged, any := MergeInstanceSets(before[k], incoming, noOverwrite);
        after := before[k := merged];
        taken := any;
      }
    case Update =>
      if k !in before {
        var live := if incoming.Array? then Live(incoming.items) else [];
        if live != [] { after := before[k := Array(live)]; }
      } else {
        var merged, _ := MergeInstanceSets(before[k], incoming, false);
        after := before[k := merged];
        if merged.Array? && merged.items == [] { after := after - {k}; }
      }
  }

  /** The Attribute loop of the append and update closures. */
  method MergeAttrs(before: Members, frag: Members, ts: string, mode: Mode) returns (after: Members, updated: seq<string>, nu: seq<NotUpdated>)
    ensures forall k :: WrittenAt(before, frag, ts, mode, after, FragAttrs(frag), k)
    ensures forall k :: ListedAt(before, frag, ts, mode, updated, nu, k)
    ensures multiset(updated) + multiset(AttrsOf(nu)) == multiset(FragAttrs(frag))
    ensures forall x :: x in nu ==> x.reason == "attribute already exists (noOverwrite)" && x.reg == None
  {
    after, updated, nu := before, [], [];
    var rest := FragAttrs(frag);
    ghost var done: set<string> := {};
    while rest != {}
      invariant rest !! done && rest + done == FragAttrs(frag)
      invariant forall k :: WrittenAt(before, frag, ts, mode, after, done, k)
      invariant forall k :: k in done ==> ListedAt(before, frag, ts, mode, updated, nu, k)
      invariant multiset(updated) + multiset(AttrsOf(nu)) == multiset(done)
      invariant forall x :: x in nu ==> x.reason == "attribute already exists (noOverwrite)" && x.reg == None
      decreases rest
    {
      var k :| k in rest;
      assert WrittenAt(before, frag, ts, mode, after, done, k);
      ghost var a0, u0, n0, d0 := after, updated, nu, done;
      var taken;
      after, taken := MergeAttr(after, k, frag[k], ts, mode);
      if taken {
        updated := updated + [k];
      } else {
        AttrsOfAppend(nu, NotUpdated(k, "attribute already exists (noOverwrite)", None));
        nu := nu + [NotUpdated(k, "attribute already exists (noOverwrite)", None)];
      }
      rest, done := rest - {k}, done + {k};
      WrittenNext(before, frag, ts, mode, a0, after, d0, k);
      ListedNext(before, frag, ts, mode, u0, n0, updated, nu, d0, k);
    }
    assert done == FragAttrs(frag);
  }

  lemma WrittenNext(before: Members, frag: Members, ts: string, mode: Mode, a: Members, b: Members, done: set<string>, k: string)
    requires forall j :: WrittenAt(before, frag, ts, mode, a, done, j)
    requires k in frag && k !in done
    requires At(b, k) == AttrAfter(mode, At(before, k), Stamp(frag[k], ts))
    requires forall j :: j != k ==> At(b, j) == At(a, j)
    ensures forall j :: WrittenAt(before, frag, ts, mode, b, done + {k}, j)
  {
    var done' := done + {k};
    forall j
      ensures WrittenAt(before, frag, ts, mode, b, done', j)
    {
      assert WrittenAt(before, frag, ts, mode, a, done, j);
    }
  }

  lemma ListedNext(before: Members, frag: Members, ts: string, mode: Mode, u: seq<string>, n: seq<NotUpdated>,
                   u': seq<string>, n': seq<NotUpdated>, done: set<string>, k: string)
    requires forall j :: j in done ==> ListedAt(before, frag, ts, mode, u, n, j)
    requires multiset(u) + multiset(AttrsOf(n)) == multiset(done)
    requires k in FragAttrs(frag) && k !in done
    requires if Taken(mode, At(before, k), Stamp(frag[k], ts))
             then u' == u + [k] && n' == n
             else u' == u && AttrsOf(n') == AttrsOf(n) + [k]
    ensures forall j :: j in done + {k} ==> ListedAt(before, frag, ts, mode, u', n', j)
    ensures multiset(u') + multiset(AttrsOf(n')) == multiset(done + {k})
  {
    assert multiset(done + {k}) == multiset(done) + multiset{k};
    assert k !in multiset(u) + multiset(AttrsOf(n));
    assert k !in u && k !in AttrsOf(n);
    forall j | j in done + {k}
      ensures ListedAt(before, frag, ts, mode, u', n', j)
    {
      if j != k { assert ListedAt(before, frag, ts, mode, u, n, j); }
    }
  }

  // ---------- write_attrs ----------

  /** How the store's `mutate` ended: `Unmatched` is the type selector's 404, `Untouched` commits nothing. */
  datatype WriteResult =
    | Unmatched
    | Untouched(notUpdated: seq<NotUpdated>)
    | Written(doc: Members, updated: seq<string>, notUpdated: seq<NotUpdated>)

  /** The Entity Types after the write: names not yet there are added. */
  function TypesAfter(cur: Option<Json>, inc: Option<Json>): Option<Json> {
    if inc.Some? && inc.value.Array? && |UnionInto(ItemsOf(cur), inc.value.items)| > |ItemsOf(cur)|
    then Some(Array(UnionInto(ItemsOf(cur), inc.value.items)))
    else cur
  }

  function TypesUpdated(cur: Option<Json>, inc: Option<Json>): seq<string> {
    if inc.Some? && inc.value.Array? && |UnionInto(ItemsOf(cur), inc.value.items)| > |ItemsOf(cur)| then ["type"] else []
  }

  function ScopeRefused(mode: Mode, cur: Option<Json>, inc: Option<Json>): seq<NotUpdated> {
    if mode.Update? && inc.Some? && cur.None? then [NotUpdated("scope", "entity has no scope", None)] else []
  }

  /** The document the closure has made when it knows what was updated: types, scope and every Attribute of the
      fragment, nothing else. */
  ghost predicate Drafted(before: Members, frag: Members, ts: string, mode: Mode, doc: Members) {
    forall k :: DraftedAt(before, frag, ts, mode, doc, k)
  }

  ghost predicate DraftedAt(before: Members, frag: Members, ts: string, mode: Mode, doc: Members, k: string) {
    At(doc, k) ==
      if k == "type" then TypesAfter(At(before, k), At(frag, k))
      else if k == "scope" then ScopeAfter(mode, At(before, k), At(frag, k))
      else if k in FragAttrs(frag) then AttrAfter(mode, At(before, k), Stamp(frag[k], ts))
      else At(before, k)
  }

  /** A committed write: the same, and modifiedAt. */
  ghost predicate Wrote(before: Members, frag: Members, ts: string, mode: Mode, after: Members) {
    forall k :: WroteAt(before, frag, ts, mode, after, k)
  }

  ghost predicate WroteAt(before: Members, frag: Members, ts: string, mode: Mode, after: Members, k: string) {
    if k == "modifiedAt" then At(after, k) == Some(Text(ts)) else DraftedAt(before, frag, ts, mode, after, k)
  }

  /** Types and scope are listed where they changed; every Attribute of the fragment is listed once, in `updated` if
      it was taken and in `notUpdated` if not. */
  ghost predicate Listed(before: Members, frag: Members, ts: string, mode: Mode, updated: seq<string>, nu: seq<NotUpdated>) {
    && (forall k :: ListedAt(before, frag, ts, mode, updated, nu, k))
    && TypesUpdated(At(before, "type"), At(frag, "type")) + ScopeUpdated(mode, At(before, "scope"), At(frag, "scope")) <= updated
    && AttrsOf(ScopeRefused(mode, At(before, "scope"), At(frag, "scope"))) <= AttrsOf(nu)
    && multiset(updated) + multiset(AttrsOf(nu)) ==
       multiset(FragAttrs(frag)) + multiset(TypesUpdated(At(before, "type"), At(frag, "type")))
       + multiset(ScopeUpdated(mode, At(before, "scope"), At(frag, "scope")))
       + multiset(AttrsOf(ScopeRefused(mode, At(before, "scope"), At(frag, "scope"))))
  }

  /** The scope part of the closures. */
  method MergeScope(before: Members, frag: Members, mode: Mode) returns (after: Members, updated: seq<string>, nu: seq<NotUpdated>)
    ensures At(after, "scope") == ScopeAfter(mode, At(before, "scope"), At(frag, "scope"))
    ensures forall k :: k != "scope" ==> At(after, k) == At(before, k)
    ensures updated == ScopeUpdated(mode, At(before, "scope"), At(frag, "scope"))
    ensures nu == ScopeRefused(mode, At(before, "scope"), At(frag, "scope"))
    ensures forall x :: x in nu ==> x == NotUpdated("scope", "entity has no scope", None)
  {
    after, updated, nu := before, [], [];
    if "scope" in frag {
      match mode
      case Append(noOverwrite) =>
        if "scope" in before && noOverwrite {
          var cur := ItemsOf(At(before, "scope"));
          var u := Union(cur, ItemsOf(At(frag, "scope")));
          if |u| > |cur| {
            after, updated := before["scope" := Array(u)], ["scope"];
          }
        } else {
          after, updated := before["scope" := frag["scope"]], ["scope"];
        }
      case Update =>
        if "scope" in before {
          after, updated := before["scope" := frag["scope"]], ["scope"];
        } else {
          nu := [NotUpdated("scope", "entity has no scope", None)];
        }
    }
  }

  /** The Entity Type part of `write_attrs`. */
  method MergeTypes(before: Members, frag: Members) returns (after: Members, updated: seq<string>)
    ensures At(after, "type") == TypesAfter(At(before, "type"), At(frag, "type"))
    ensures forall k :: k != "type" ==> At(after, k) == At(before, k)
    ensures updated == TypesUpdated(At(before, "type"), At(frag, "type"))
  {
    after, updated := before, [];
    if "type" in frag && frag["type"].Array? {
      var cur := ItemsOf(At(before, "type"));
      var u := Union(cur, frag["type"].items);
      if |u| > |cur| {
        after, updated := before["type" := Array(u)], ["type"];
      }
    }
  }

  /** Every entry of `notUpdated` says why. */
  ghost predicate Reasoned(nu: seq<NotUpdated>) {
    forall x :: x in nu ==> HasReason(x)
  }

  ghost predicate HasReason(x: NotUpdated) {
    x == NotUpdated("scope", "entity has no scope", None) || (x.reason == "attribute already exists (noOverwrite)" && x.reg == None)
  }

  /** The three parts of the closure of `write_attrs`. */
  method MergeFragment(before: Members, frag: Members, ts: string, mode: Mode) returns (doc: Members, updated: seq<string>, nu: seq<NotUpdated>)
    ensures Drafted(before, frag, ts, mode, doc) && Listed(before, frag, ts, mode, updated, nu)
    ensures updated == [] ==> doc == before
    ensures Reasoned(nu)
  {
    var typed, typeUpdated := MergeTypes(before, frag);
    var scoped, scopeUpdated, scopeRefused := MergeScope(typed, frag, mode);
    var attrUpdated, attrRefused;
    doc, attrUpdated, attrRefused := MergeAttrs(scoped, frag, ts, mode);
    ListsJoin(before, scoped, frag, ts, mode, typeUpdated, scopeUpdated, scopeRefused, attrUpdated, attrRefused);
    DraftJoins(before, typed, scoped, doc, frag, ts, mode);
    updated, nu := typeUpdated + scopeUpdated + attrUpdated, scopeRefused + attrRefused;
    if updated == [] { UntouchedChangesNothing(before, frag, ts, mode, nu, doc); }
  }

  /** The store closure of `write_attrs`. */
  method WriteAttrs(before: Members, frag: Members, ts: string, mode: Mode, matches: bool) returns (r: WriteResult)
    ensures r.Unmatched? <==> !matches
    ensures r.Written? ==> Wrote(before, frag, ts, mode, r.doc) && Listed(before, frag, ts, mode, r.updated, r.notUpdated)
    ensures r.Written? ==> r.updated != []
    ensures r.Written? ==> WriteAsClause(before, frag, ts, mode, r.doc) && ReportAsClause(before, frag, mode, r.updated, r.notUpdated)
    ensures r.Untouched? ==> Listed(before, frag, ts, mode, [], r.notUpdated) && Drafted(before, frag, ts, mode, before)
    ensures r.Untouched? ==> ReportAsClause(before, frag, mode, [], r.notUpdated)
    ensures !r.Unmatched? ==> Reasoned(r.notUpdated)
  {
    r := WriteMatched(before, frag, ts, mode, matches);
    if r.Written? {
      WroteAsClause(before, frag, ts, mode, r.doc);
      ListedAsClause(before, frag, ts, mode, r.updated, r.notUpdated);
    }
    if r.Untouched? { ListedAsClause(before, frag, ts, mode, [], r.notUpdated); }
  }

  /** Its steps. */
  method WriteMatched(before: Members, frag: Members, ts: string, mode: Mode, matches: bool) returns (r: WriteResult)
    ensures r.Unmatched? <==> !matches
    ensures r.Written? ==> Wrote(before, frag, ts, mode, r.doc) && Listed(before, frag, ts, mode, r.updated, r.notUpdated)
    ensures r.Written? ==> r.updated != []
    ensures r.Untouched? ==> Listed(before, frag, ts, mode, [], r.notUpdated) && Drafted(before, frag, ts, mode, before)
    ensures !r.Unmatched? ==> Reasoned(r.notUpdated)
  {
    if !matches {
      return Unmatched;
    }
    var doc, updated, nu := MergeFragment(before, frag, ts, mode);
    if updated == [] {
      return Untouched(nu);
    }
    r := Written(doc["modifiedAt" := Text(ts)], updated, nu);
    forall k
      ensures WroteAt(before, frag, ts, mode, r.doc, k)
    {
      assert DraftedAt(before, frag, ts, mode, doc, k);
    }
  }

  lemma DraftJoins(before: Members, typed: Members, scoped: Members, doc: Members, frag: Members, ts: string, mode: Mode)
    requires At(typed, "type") == TypesAfter(At(before, "type"), At(frag, "type"))
    requires forall k :: k != "type" ==> At(typed, k) == At(before, k)
    requires At(scoped, "scope") == ScopeAfter(mode, At(typed, "scope"), At(frag, "scope"))
    requires forall k :: k != "scope" ==> At(scoped, k) == At(typed, k)
    requires forall k :: WrittenAt(scoped, frag, ts, mode, doc, FragAttrs(frag), k)
    ensures Drafted(before, frag, ts, mode, doc)
  {
    forall k
      ensures DraftedAt(before, frag, ts, mode, doc, k)
    {
      assert WrittenAt(scoped, frag, ts, mode, doc, FragAttrs(frag), k);
      assert At(scoped, k) == At(typed, k) || k == "scope";
      assert At(typed, k) == At(before, k) || k == "type";
    }
  }

  /** A write that reports nothing updated has made no other document than the stored one, types and scope included. */
  lemma UntouchedChangesNothing(before: Members, frag: Members, ts: string, mode: Mode, nu: seq<NotUpdated>, doc: Members)
    requires Drafted(before, frag, ts, mode, doc) && Listed(before, frag, ts, mode, [], nu)
    ensures doc == before && FragAttrs(frag) <= set a | a in AttrsOf(nu)
  {
    forall k
      ensures AgreeAt(doc, before, k) && (k in FragAttrs(frag) ==> k in AttrsOf(nu))
    {
      assert DraftedAt(before, frag, ts, mode, doc, k) && ListedAt(before, frag, ts, mode, [], nu, k);
      if k in FragAttrs(frag) { NotTakenUnchanged(mode, At(before, k), Stamp(frag[k], ts)); }
    }
    SameMembers(doc, before);
  }

  lemma ListsJoin(before: Members, scoped: Members, frag: Members, ts: string, mode: Mode,
                  typeUpdated: seq<string>, scopeUpdated: seq<string>, scopeRefused: seq<NotUpdated>,
                  attrUpdated: seq<string>, attrRefused: seq<NotUpdated>)
    requires forall k :: k in FragAttrs(frag) ==> At(scoped, k) == At(before, k)
    requires typeUpdated == TypesUpdated(At(before, "type"), At(frag, "type"))
    requires scopeUpdated == ScopeUpdated(mode, At(before, "scope"), At(frag, "scope"))
    requires scopeRefused == ScopeRefused(mode, At(before, "scope"), At(frag, "scope"))
    requires forall k :: ListedAt(scoped, frag, ts, mode, attrUpdated, attrRefused, k)
    requires multiset(attrUpdated) + multiset(AttrsOf(attrRefused)) == multiset(FragAttrs(frag))
    ensures Listed(before, frag, ts, mode, typeUpdated + scopeUpdated + attrUpdated, scopeRefused + attrRefused)
  {
    var updated, nu := typeUpdated + scopeUpdated + attrUpdated, scopeRefused + attrRefused;
    assert AttrsOf(nu) == AttrsOf(scopeRefused) + AttrsOf(attrRefused);
    CountsAdd(typeUpdated, scopeUpdated, attrUpdated, AttrsOf(scopeRefused), AttrsOf(attrRefused), multiset(FragAttrs(frag)));
    forall k
      ensures ListedAt(before, frag, ts, mode, updated, nu, k)
    {
      assert ListedAt(scoped, frag, ts, mode, attrUpdated, attrRefused, k);
      if k in FragAttrs(frag) {
        OnlyMeta(typeUpdated, scopeUpdated, AttrsOf(scopeRefused), k);
      }
    }
  }

  lemma CountsAdd(a: seq<string>, b: seq<string>, c: seq<string>, d: seq<string>, e: seq<string>, all: multiset<string>)
    requires multiset(c) + multiset(e) == all
    ensures multiset(a + b + c) + multiset(d + e) == all + multiset(a) + multiset(b) + multiset(d)
    ensures a + b <= a + b + c
  {
  }

  lemma OnlyMeta(a: seq<string>, b: seq<string>, c: seq<string>, k: string)
    requires a <= ["type"] && b <= ["scope"] && c <= ["scope"] && !IsFragmentMeta(k)
    ensures k !in a && k !in b && k !in c
  {
  }

  // ---------- the write, name by name ----------

  ghost predicate IsReservedName(k: string) {
    || k in { "type", "value", "object", "objectType", "datasetId", "observedAt", "unitCode", "lang", "languageMap" }
    || k in { "vocab", "json", "valueList", "objectList", "entity", "entityList", "entityIdSealed", "entityTypeSealed" }
    || k in { "valueType", "createdAt", "modifiedAt", "deletedAt", "expiresAt", "instanceId" }
    || k in { "previousValue", "previousObject", "previousLanguageMap", "previousJson", "previousVocab" }
    || k in { "previousValueList", "previousObjectList" }
  }

  /** `r` is the list `v` with each instance, and each of their sub-Attributes, created and modified at `ts` (clause 4.8). */
  ghost predicate StampedList(v: Json, ts: string, r: Json)
    requires v.Array?
  {
    r.Array? && |r.items| == |v.items| && forall i :: 0 <= i < |v.items| ==> StampedInstance(v.items[i], ts, r.items[i])
  }

  ghost predicate StampedInstance(inst: Json, ts: string, r: Json) {
    match inst
    case Object(o) =>
      && r.Object? && At(r.members, "createdAt") == Some(Text(ts)) && At(r.members, "modifiedAt") == Some(Text(ts))
      && (forall k :: k == "createdAt" || k == "modifiedAt" || (k in r.members <==> k in o))
      && forall k :: k in o && k in r.members && k != "createdAt" && k != "modifiedAt" ==>
           if o[k].Array? && !IsReservedName(k) then StampedList(o[k], ts, r.members[k]) else r.members[k] == o[k]
    case _ => r == inst
  }

  lemma ReservedByName(k: string)
    ensures IsReservedMember(k) <==> IsReservedName(k)
  {
  }

  lemma {:induction false} StampByName(v: Json, ts: string)
    requires v.Array?
    ensures StampedList(v, ts, Stamp(v, ts))
    decreases v
  {
    forall i | 0 <= i < |v.items|
      ensures StampedInstance(v.items[i], ts, StampOne(v.items[i], ts))
    {
      if v.items[i].Object? {
        var o := v.items[i].members;
        forall k | k in o
          ensures o[k].Array? ==> StampedList(o[k], ts, Stamp(o[k], ts))
          ensures IsReservedMember(k) <==> IsReservedName(k)
        {
          ReservedByName(k);
          if o[k].Array? { StampByName(o[k], ts); }
        }
        assert IsReservedMember("createdAt") && IsReservedMember("modifiedAt");
      }
    }
  }

  /** The instances that are no nulls, in order. */
  ghost function Undeleted(items: seq<Json>): seq<Json> {
    if items == [] then []
    else if Deletes(items[|items| - 1]) then Undeleted(items[..|items| - 1])
    else Undeleted(items[..|items| - 1]) + [items[|items| - 1]]
  }

  lemma {:induction false} LiveAppend(items: seq<Json>, x: Json)
    ensures Live(items + [x]) == Live(items) + if IsDeletion(x) then [] else [x]
  {
    if items == [] {
      assert [x][1..] == [];
    } else {
      assert (items + [x])[1..] == items[1..] + [x];
      LiveAppend(items[1..], x);
    }
  }

  lemma {:induction false} LiveByName(items: seq<Json>)
    ensures Live(items) == Undeleted(items)
  {
    if items != [] {
      var n := |items| - 1;
      LiveByName(items[..n]);
      LiveAppend(items[..n], items[n]);
      DeletesByName(items[n]);
      assert items == items[..n] + [items[n]];
    }
  }

  /** Whatever names an Attribute: no member of the fragment's own. */
  ghost predicate NamesAttr(frag: Members, k: string) {
    k in frag && k != "id" && k != "type" && k != "scope" && k != "createdAt" && k != "modifiedAt"
  }

  lemma NamesByName(frag: Members, k: string)
    ensures k in FragAttrs(frag) <==> NamesAttr(frag, k)
  {
  }

  /** What one Attribute becomes (clauses 5.6.2.4 and 5.6.3.4): an absent one is stored as it came, on an update without
      its nulls; a stored one is merged, and goes on an update that leaves it no instance. */
  ghost predicate AttrWritten(before: Members, k: string, inc: seq<Json>, mode: Mode, after: Members) {
    if k !in before then
      At(after, k) == if mode.Append? then Some(Array(inc)) else if Undeleted(inc) == [] then None else Some(Array(Undeleted(inc)))
    else if !before[k].Array? then At(after, k) == At(before, k)
    else if Distinct(before[k].items) && Distinct(inc) then
      exists r :: MergedAsClause(before[k].items, inc, mode.Append? && mode.noOverwrite, r)
               && At(after, k) == if mode.Update? && r == [] then None else Some(Array(r))
    else true
  }

  ghost predicate AttrAsClause(before: Members, frag: Members, ts: string, mode: Mode, after: Members, k: string) {
    NamesAttr(frag, k) && frag[k].Array? ==>
      exists inc :: StampedList(frag[k], ts, Array(inc)) && AttrWritten(before, k, inc, mode, after)
  }

  lemma {:induction false} AttrByName(before: Members, frag: Members, ts: string, mode: Mode, after: Members, k: string)
    requires DraftedAt(before, frag, ts, mode, after, k)
    ensures AttrAsClause(before, frag, ts, mode, after, k)
  {
    NamesByName(frag, k);
    if NamesAttr(frag, k) && frag[k].Array? {
      var inc := Stamp(frag[k], ts).items;
      StampByName(frag[k], ts);
      LiveByName(inc);
      if k in before && before[k].Array? && Distinct(before[k].items) && Distinct(inc) {
        MergeAsClause(before[k].items, inc, mode.Append? && mode.noOverwrite);
      }
      assert AttrWritten(before, k, inc, mode, after);
    }
  }

  /** The items of `extra`, one after the other, are added at the end unless they are there. */
  ghost function AddEach(cur: seq<Json>, extra: seq<Json>): seq<Json>
    decreases extra
  {
    if extra == [] then cur else AddEach(if extra[0] in cur then cur else cur + [extra[0]], extra[1..])
  }

  lemma {:induction false} AddEachAppend(cur: seq<Json>, extra: seq<Json>, x: Json)
    ensures AddEach(cur, extra + [x]) == var u := AddEach(cur, extra); if x in u then u else u + [x]
    decreases extra
  {
    if extra == [] {
      assert [x][1..] == [];
    } else {
      assert (extra + [x])[1..] == extra[1..] + [x];
      AddEachAppend(if extra[0] in cur then cur else cur + [extra[0]], extra[1..], x);
    }
  }

  lemma {:induction false} UnionByName(cur: seq<Json>, extra: seq<Json>)
    ensures UnionInto(cur, extra) == AddEach(cur, extra)
    ensures cur <= UnionInto(cur, extra)
  {
    if extra != [] {
      var n := |extra| - 1;
      UnionByName(cur, extra[..n]);
      AddEachAppend(cur, extra[..n], extra[n]);
      assert extra == extra[..n] + [extra[n]];
    }
  }

  ghost function ListAt(o: Members, k: string): seq<Json> {
    if k in o && o[k].Array? then o[k].items else []
  }

  ghost function Extended(before: Members, frag: Members, k: string): Option<Json> {
    var u := AddEach(ListAt(before, k), ListAt(frag, k));
    if u == ListAt(before, k) then At(before, k) else Some(Array(u))
  }

  /** The Entity Types, the scope, and whatever the fragment does not name. */
  ghost predicate RestAsClause(before: Members, frag: Members, mode: Mode, after: Members) {
    && At(after, "type") == Extended(before, frag, "type")
    && At(after, "scope") == (
         if "scope" !in frag || (mode.Update? && "scope" !in before) then At(before, "scope")
         else if "scope" in before && mode == Append(true) then Extended(before, frag, "scope")
         else At(frag, "scope"))
    && forall k :: NamesAttr(frag, k) || k == "type" || k == "scope" || k == "modifiedAt" || AgreeAt(after, before, k)
  }

  ghost predicate WriteAsClause(before: Members, frag: Members, ts: string, mode: Mode, after: Members) {
    && At(after, "modifiedAt") == Some(Text(ts)) && RestAsClause(before, frag, mode, after)
    && forall k :: AttrAsClause(before, frag, ts, mode, after, k)
  }

  lemma ExtendedByName(before: Members, frag: Members, k: string)
    ensures var u := UnionInto(ItemsOf(At(before, k)), ItemsOf(At(frag, k)));
            && (|u| > |ItemsOf(At(before, k))| <==> Extended(before, frag, k) != At(before, k) || u != ItemsOf(At(before, k)))
            && Extended(before, frag, k) == if |u| > |ItemsOf(At(before, k))| then Some(Array(u)) else At(before, k)
  {
    UnionByName(ItemsOf(At(before, k)), ItemsOf(At(frag, k)));
  }

  lemma {:induction false} RestByName(before: Members, frag: Members, ts: string, mode: Mode, after: Members)
    requires forall k :: k != "modifiedAt" ==> DraftedAt(before, frag, ts, mode, after, k)
    ensures RestAsClause(before, frag, mode, after)
  {
    ExtendedByName(before, frag, "type");
    ExtendedByName(before, frag, "scope");
    assert DraftedAt(before, frag, ts, mode, after, "type") && DraftedAt(before, frag, ts, mode, after, "scope");
    forall k
      ensures NamesAttr(frag, k) || k == "type" || k == "scope" || k == "modifiedAt" || AgreeAt(after, before, k)
    {
      NamesByName(frag, k);
      if k != "modifiedAt" { assert DraftedAt(before, frag, ts, mode, after, k); }
    }
  }

  lemma {:induction false} WroteAsClause(before: Members, frag: Members, ts: string, mode: Mode, after: Members)
    requires Wrote(before, frag, ts, mode, after)
    ensures WriteAsClause(before, frag, ts, mode, after)
  {
    assert WroteAt(before, frag, ts, mode, after, "modifiedAt");
    forall k
      ensures k != "modifiedAt" ==> DraftedAt(before, frag, ts, mode, after, k)
      ensures AttrAsClause(before, frag, ts, mode, after, k)
    {
      assert WroteAt(before, frag, ts, mode, after, k);
      if k != "modifiedAt" { AttrByName(before, frag, ts, mode, after, k); }
    }
    RestByName(before, frag, ts, mode, after);
  }

  /** The write has something to do for the Attribute: it is absent, or on an update anyway, or an incoming instance has
      an effect on what is stored. */
  ghost predicate Accepted(before: Members, frag: Members, mode: Mode, k: string)
    requires k in frag
  {
    mode.Append? && k in before ==>
      && before[k].Array? && frag[k].Array?
      && exists inst :: inst in frag[k].items && HasEffect(before[k].items, inst, mode.noOverwrite)
  }

  lemma {:induction false} EffectStamped(cur: seq<Json>, items: seq<Json>, ts: string, noOverwrite: bool)
    ensures (exists inst :: inst in Stamp(Array(items), ts).items && HasEffect(cur, inst, noOverwrite))
       <==> exists inst :: inst in items && HasEffect(cur, inst, noOverwrite)
  {
    var r := Stamp(Array(items), ts).items;
    forall i | 0 <= i < |items|
      ensures HasEffect(cur, r[i], noOverwrite) <==> HasEffect(cur, items[i], noOverwrite)
    {
      StampKeeps(items[i], ts);
      DeletesByName(items[i]);
      DeletesByName(r[i]);
    }
    if inst :| inst in r && HasEffect(cur, inst, noOverwrite) {
      var i :| 0 <= i < |r| && r[i] == inst;
      assert items[i] in items;
    }
    if inst :| inst in items && HasEffect(cur, inst, noOverwrite) {
      var i :| 0 <= i < |items| && items[i] == inst;
      assert r[i] in r;
    }
  }

  lemma {:induction false} TakenByName(before: Members, frag: Members, ts: string, mode: Mode, k: string)
    requires k in frag && (k in before && before[k].Array? ==> Distinct(before[k].items))
    requires frag[k].Array? ==> Distinct(frag[k].items)
    ensures Taken(mode, At(before, k), Stamp(frag[k], ts)) <==> Accepted(before, frag, mode, k)
  {
    if mode.Append? && k in before && before[k].Array? && frag[k].Array? {
      StampListKeeps(frag[k].items, ts);
      AnyAppliesByName(before[k].items, Stamp(frag[k], ts).items, mode.noOverwrite);
      EffectStamped(before[k].items, frag[k].items, ts, mode.noOverwrite);
    }
  }

  ghost predicate ReportAt(before: Members, frag: Members, mode: Mode, updated: seq<string>, nu: seq<NotUpdated>, k: string) {
    NamesAttr(frag, k) && (k in before && before[k].Array? ==> Distinct(before[k].items)) && (frag[k].Array? ==> Distinct(frag[k].items)) ==>
      if Accepted(before, frag, mode, k) then k in updated && k !in AttrsOf(nu) else k !in updated && k in AttrsOf(nu)
  }

  /** Each Attribute of the fragment is reported in `updated` if the write had something to do for it, and in `notUpdated`
      if not; types and scope are reported where they changed. */
  ghost predicate ReportAsClause(before: Members, frag: Members, mode: Mode, updated: seq<string>, nu: seq<NotUpdated>) {
    && (forall k :: ReportAt(before, frag, mode, updated, nu, k))
    && ("type" in updated <==> AddEach(ListAt(before, "type"), ListAt(frag, "type")) != ListAt(before, "type"))
    && ("scope" in updated <==>
          "scope" in frag && (mode.Update? ==> "scope" in before)
          && (mode == Append(true) && "scope" in before ==> AddEach(ListAt(before, "scope"), ListAt(frag, "scope")) != ListAt(before, "scope")))
    && ("scope" in AttrsOf(nu) <==> mode.Update? && "scope" in frag && "scope" !in before)
  }

  lemma {:induction false} ListedAsClause(before: Members, frag: Members, ts: string, mode: Mode, updated: seq<string>, nu: seq<NotUpdated>)
    requires Listed(before, frag, ts, mode, updated, nu)
    ensures ReportAsClause(before, frag, mode, updated, nu)
  {
    forall k
      ensures ReportAt(before, frag, mode, updated, nu, k)
    {
      NamesByName(frag, k);
      assert ListedAt(before, frag, ts, mode, updated, nu, k);
      if NamesAttr(frag, k) && (k in before && before[k].Array? ==> Distinct(before[k].items)) && (frag[k].Array? ==> Distinct(frag[k].items)) {
        TakenByName(before, frag, ts, mode, k);
      }
    }
    var types, scopes := TypesUpdated(At(before, "type"), At(frag, "type")), ScopeUpdated(mode, At(before, "scope"), At(frag, "scope"));
    assert multiset(types + scopes) == multiset(types) + multiset(scopes);
    MetaByName(before, frag, mode, updated, nu);
  }

  lemma MetaByName(before: Members, frag: Members, mode: Mode, updated: seq<string>, nu: seq<NotUpdated>)
    requires var types, scopes, refused := TypesUpdated(At(before, "type"), At(frag, "type")),
               ScopeUpdated(mode, At(before, "scope"), At(frag, "scope")), AttrsOf(ScopeRefused(mode, At(before, "scope"), At(frag, "scope")));
             types + scopes <= updated && refused <= AttrsOf(nu)
             && multiset(updated) + multiset(AttrsOf(nu)) == multiset(FragAttrs(frag)) + multiset(types + scopes) + multiset(refused)
    ensures "type" in updated <==> AddEach(ListAt(before, "type"), ListAt(frag, "type")) != ListAt(before, "type")
    ensures "scope" in updated <==>
              "scope" in frag && (mode.Update? ==> "scope" in before)
              && (mode == Append(true) && "scope" in before ==> AddEach(ListAt(before, "scope"), ListAt(frag, "scope")) != ListAt(before, "scope"))
    ensures "scope" in AttrsOf(nu) <==> mode.Update? && "scope" in frag && "scope" !in before
  {
    var types, scopes := TypesUpdated(At(before, "type"), At(frag, "type")), ScopeUpdated(mode, At(before, "scope"), At(frag, "scope"));
    var refused := AttrsOf(ScopeRefused(mode, At(before, "scope"), At(frag, "scope")));
    FirstListed(updated, AttrsOf(nu), types + scopes, refused, multiset(FragAttrs(frag)), "type");
    FirstListed(updated, AttrsOf(nu), types + scopes, refused, multiset(FragAttrs(frag)), "scope");
    TypesByName(before, frag);
    ScopeByName(before, frag, mode);
  }

  lemma {:induction false} TypesByName(before: Members, frag: Members)
    ensures var types := TypesUpdated(At(before, "type"), At(frag, "type"));
            && ("type" in types <==> AddEach(ListAt(before, "type"), ListAt(frag, "type")) != ListAt(before, "type")) && "scope" !in types
  {
    UnionByName(ItemsOf(At(before, "type")), ItemsOf(At(frag, "type")));
  }

  lemma {:induction false} ScopeByName(before: Members, frag: Members, mode: Mode)
    ensures var scopes, refused := ScopeUpdated(mode, At(before, "scope"), At(frag, "scope")), AttrsOf(ScopeRefused(mode, At(before, "scope"), At(frag, "scope")));
            && ("scope" in scopes <==>
                  "scope" in frag && (mode.Update? ==> "scope" in before)
                  && (mode == Append(true) && "scope" in before ==> AddEach(ListAt(before, "scope"), ListAt(frag, "scope")) != ListAt(before, "scope")))
            && "type" !in scopes
            && ("scope" in refused <==> mode.Update? && "scope" in frag && "scope" !in before)
  {
    UnionByName(ItemsOf(At(before, "scope")), ItemsOf(At(frag, "scope")));
    var refused := ScopeRefused(mode, At(before, "scope"), At(frag, "scope"));
    assert refused != [] ==> AttrsOf(refused)[0] == "scope";
  }

  /** A name that is no Attribute is listed where it is listed first. */
  lemma {:induction false} FirstListed(updated: seq<string>, nu: seq<string>, first: seq<string>, refused: seq<string>, attrs: multiset<string>, k: string)
    requires first <= updated && refused <= nu && attrs[k] == 0
    requires multiset(updated) + multiset(nu) == attrs + multiset(first) + multiset(refused)
    ensures (k in updated <==> k in first) && (k in nu <==> k in refused)
  {
    var a, b := updated[|first|..], nu[|refused|..];
    assert updated == first + a && nu == refused + b;
    assert (multiset(updated) + multiset(nu))[k] == multiset(first)[k] + multiset(a)[k] + multiset(refused)[k] + multiset(b)[k];
    assert multiset(a)[k] == 0 && multiset(b)[k] == 0;
  }

  /** A name in `updated` is stored, or nulls took it out. */
  lemma {:induction false} UpdatedIsStored(before: Members, frag: Members, ts: string, mode: Mode, after: Members, k: string)
    requires WriteAsClause(before, frag, ts, mode, after)
    requires NamesAttr(frag, k) && frag[k].Array? && frag[k].items != [] && Distinct(frag[k].items)
    requires k in before ==> before[k].Array? && before[k].items != [] && Distinct(before[k].items)
    ensures k in after || (mode.Update? && exists inst :: inst in frag[k].items && Deletes(inst))
  {
    assert AttrAsClause(before, frag, ts, mode, after, k);
    var inc :| StampedList(frag[k], ts, Array(inc)) && AttrWritten(before, k, inc, mode, after);
    if k !in after {
      StampedKeeps(frag[k].items, ts, inc);
      if k !in before { UndeletedNone(inc); } else { MergedAway(before[k].items, inc); }
    }
  }

  lemma {:induction false} StampedKeeps(items: seq<Json>, ts: string, inc: seq<Json>)
    requires StampedList(Array(items), ts, Array(inc))
    ensures Distinct(items) ==> Distinct(inc)
    ensures forall inst :: inst in inc && Deletes(inst) ==> exists x :: x in items && Deletes(x)
  {
    forall i | 0 <= i < |items|
      ensures Dataset(inc[i]) == Dataset(items[i]) && (Deletes(inc[i]) <==> Deletes(items[i]))
    {
      assert StampedInstance(items[i], ts, inc[i]);
      StampedInstanceKeeps(items[i], ts, inc[i]);
    }
    if Distinct(items) {
      forall i: nat, j: nat
        ensures Apart(inc, i, j)
      {
        assert Apart(items, i, j);
      }
    }
    forall inst | inst in inc && Deletes(inst)
      ensures exists x :: x in items && Deletes(x)
    {
      var i :| 0 <= i < |inc| && inc[i] == inst;
      assert items[i] in items && Deletes(items[i]);
    }
  }

  lemma StampedInstanceKeeps(inst: Json, ts: string, r: Json)
    requires StampedInstance(inst, ts, r)
    ensures Dataset(r) == Dataset(inst) && (Deletes(r) <==> Deletes(inst))
  {
    if inst.Object? {
      forall k | k in { "value", "object", "json", "vocab", "languageMap", "valueList", "objectList", "datasetId" }
        ensures At(r.members, k) == At(inst.members, k)
      {
        assert IsReservedName(k);
      }
    }
  }

  lemma {:induction false} UndeletedNone(inc: seq<Json>)
    requires Undeleted(inc) == [] && inc != []
    ensures exists inst :: inst in inc && Deletes(inst)
  {
    assert inc[|inc| - 1] in inc;
  }

  lemma {:induction false} MergedAway(cur: seq<Json>, inc: seq<Json>)
    requires cur != [] && MergedAsClause(cur, inc, false, [])
    ensures exists inst :: inst in inc && Deletes(inst)
  {
    var ds := GetText(cur[0], "datasetId");
    assert MergedFor(cur, inc, false, [], ds);
    assert HoldsAs(cur, ds, cur[0]);
    assert !SameFor([], cur, ds);
    var inst :| HoldsAs(inc, ds, inst) && MergedBy(cur, inst, false, [], ds);
  }

  // ---------- partial update, replace, delete ----------

  /** How an edit of one Attribute ended: `Refused` commits nothing, `found` decides 204 or 404. */
  datatype EditResult = Refused | Edited(doc: Members, found: bool)

  predicate Removes(v: Json) {
    v.Null? || IsNull(v)
  }

  predicate IsStampName(k: string) {
    k == "createdAt" || k == "modifiedAt"
  }

  /** The stored instance under a partial update: null takes a member out, anything else sets it (5.6.4.4). */
  function Overlay(inst: Members, frag: Members): Members {
    map k | k in inst.Keys + frag.Keys && (if Overrides(frag, k) then !Removes(frag[k]) else k in inst)
      :: if Overrides(frag, k) then frag[k] else inst[k]
  }

  predicate Overrides(frag: Members, k: string) {
    k in frag && !IsStampName(k)
  }

  method OverlayEach(inst: Members, frag: Members) returns (r: Members)
    ensures r == Overlay(inst, frag)
  {
    r := inst;
    var rest := frag.Keys;
    while rest != {}
      invariant rest <= frag.Keys
      invariant forall k :: OverlaidAt(inst, frag, r, frag.Keys - rest, k)
      decreases rest
    {
      var k :| k in rest;
      ghost var r0, done := r, frag.Keys - rest;
      if !IsStampName(k) {
        if Removes(frag[k]) { r := r - {k}; } else { r := r[k := frag[k]]; }
      }
      rest := rest - {k};
      assert frag.Keys - rest == done + {k};
      OverlaidNext(inst, frag, r0, r, done, k);
    }
    assert frag.Keys - {} == frag.Keys;
    OverlaidEnds(inst, frag, r);
  }

  ghost predicate OverlaidAt(inst: Members, frag: Members, r: Members, done: set<string>, k: string) {
    At(r, k) == if k in done && Overrides(frag, k) then (if Removes(frag[k]) then None else Some(frag[k])) else At(inst, k)
  }

  lemma OverlaidNext(inst: Members, frag: Members, a: Members, b: Members, done: set<string>, k: string)
    requires forall j :: OverlaidAt(inst, frag, a, done, j)
    requires k in frag && k !in done
    requires b == if IsStampName(k) then a else if Removes(frag[k]) then a - {k} else a[k := frag[k]]
    ensures forall j :: OverlaidAt(inst, frag, b, done + {k}, j)
  {
    var done' := done + {k};
    forall j
      ensures OverlaidAt(inst, frag, b, done', j)
    {
      assert OverlaidAt(inst, frag, a, done, j);
    }
  }

  lemma OverlaidEnds(inst: Members, frag: Members, r: Members)
    requires forall k :: OverlaidAt(inst, frag, r, frag.Keys, k)
    ensures r == Overlay(inst, frag)
  {
    var q := Overlay(inst, frag);
    forall k
      ensures AgreeAt(r, q, k)
    {
      assert OverlaidAt(inst, frag, r, frag.Keys, k);
    }
    SameMembers(r, q);
  }

  /** The fragment names another Attribute type than the stored instance. */
  predicate TypeClash(inst: Json, frag: Members) {
    GetText(Object(frag), "type").Some? && GetText(inst, "type").Some? && GetText(Object(frag), "type") != GetText(inst, "type")
  }

  /** `items` stored as Attribute `attr`; an empty list takes the Attribute out. */
  function Store(doc: Members, attr: string, items: seq<Json>): Members {
    if items == [] then doc - {attr} else doc[attr := Array(items)]
  }

  function Touched(doc: Members, found: bool, ts: string): Members {
    if found then doc["modifiedAt" := Text(ts)] else doc
  }

  function PartialAfter(doc: Members, attr: string, frag: Members, ts: string): EditResult {
    if attr !in doc || !doc[attr].Array? then Edited(doc, false)
    else
      var items := doc[attr].items;
      var p := Position(items, Dataset(Object(frag)));
      if p == |items| then Edited(Store(doc, attr, items), false)
      else if IsDeletion(Object(frag)) then Edited(Touched(Store(doc, attr, items[..p] + items[p + 1..]), true, ts), true)
      else if TypeClash(items[p], frag) || !items[p].Object? then Refused
      else
        var inst := Object(Overlay(items[p].members, frag)["modifiedAt" := Text(ts)]);
        Edited(Touched(Store(doc, attr, items[p := inst]), true, ts), true)
  }

  /** The store closure of a partial update (5.6.4). */
  method PartialUpdate(doc: Members, attr: string, frag: Members, ts: string, matches: bool) returns (r: EditResult)
    ensures r == if matches then PartialAfter(doc, attr, frag, ts) else Refused
    ensures matches && OnePerDataset(doc, attr) && attr != "modifiedAt" && GoodDataset(frag) ==> Patched(doc, attr, frag, ts, r)
  {
    if !matches {
      return Refused;
    }
    r := UpdateMatched(doc, attr, frag, ts);
    if OnePerDataset(doc, attr) && attr != "modifiedAt" && GoodDataset(frag) { PartialChanges(doc, attr, frag, ts); }
  }

  /** Its steps, on an Entity that the type selector matches. */
  method UpdateMatched(doc: Members, attr: string, frag: Members, ts: string) returns (r: EditResult)
    ensures r == PartialAfter(doc, attr, frag, ts)
  {
    var target, found := doc, false;
    if attr in target && target[attr].Array? {
      var existing := target[attr].items;
      var pos := Position(existing, Dataset(Object(frag)));
      if pos < |existing| {
        found := true;
        if IsDeletion(Object(frag)) {
          existing := existing[..pos] + existing[pos + 1..];
        } else {
          if TypeClash(existing[pos], frag) || !existing[pos].Object? {
            return Refused;
          }
          var t := OverlayEach(existing[pos].members, frag);
          existing := existing[pos := Object(t["modifiedAt" := Text(ts)])];
        }
      }
      target := target[attr := Array(existing)];
      if existing == [] { target := target - {attr}; }
    }
    if found { target := target["modifiedAt" := Text(ts)]; }
    r := Edited(target, found);
    assert attr in doc ==> doc[attr := doc[attr]] == doc;
  }

  /** A replacement instance keeps the createdAt of the one it replaces. */
  function Successor(prev: Json, inst: Json, ts: string): Json {
    if inst.Object? then
      var created := if Get(prev, "createdAt").Some? then prev.members["createdAt"] else Text(ts);
      Object(inst.members["createdAt" := created]["modifiedAt" := Text(ts)])
    else inst
  }

  function ReplaceAfter(doc: Members, attr: string, inst: Json, ts: string): EditResult {
    if attr !in doc || !doc[attr].Array? then Edited(doc, false)
    else
      var items := doc[attr].items;
      var p := Position(items, Dataset(inst));
      if p == |items| then Edited(doc, false)
      else Edited(Touched(doc[attr := Array(items[p := Successor(items[p], inst, ts)])], true, ts), true)
  }

  /** The store closure of a replace (5.6.19). */
  method ReplaceAttr(doc: Members, attr: string, inst: Json, ts: string, matches: bool) returns (r: EditResult)
    ensures r == if matches then ReplaceAfter(doc, attr, inst, ts) else Refused
    ensures matches && OnePerDataset(doc, attr) && attr != "modifiedAt" && inst.Object? ==> Replaced(doc, attr, inst.members, ts, r)
  {
    if !matches {
      return Refused;
    }
    if OnePerDataset(doc, attr) && attr != "modifiedAt" && inst.Object? { ReplaceChanges(doc, attr, inst.members, ts); }
    var target, found := doc, false;
    if attr in target && target[attr].Array? {
      var existing := target[attr].items;
      var p := Position(existing, Dataset(inst));
      if p < |existing| {
        found := true;
        var created := Get(existing[p], "createdAt");
        var ni := inst;
        if ni.Object? {
          ni := Object(ni.members["createdAt" := if created.Some? then created.value else Text(ts)]);
          ni := Object(ni.members["modifiedAt" := Text(ts)]);
        }
        target := target[attr := Array(existing[p := ni])];
      }
    }
    if found { target := target["modifiedAt" := Text(ts)]; }
    r := Edited(target, found);
  }

  function DeleteAfter(doc: Members, attr: string, ds: Option<string>, all: bool, ts: string): EditResult {
    if attr == "scope" then Edited(Touched(doc - {"scope"}, "scope" in doc, ts), "scope" in doc)
    else if attr !in doc || !doc[attr].Array? then Edited(doc, false)
    else
      var items := doc[attr].items;
      var p := Position(items, ds);
      var left := if all then [] else if p < |items| then items[..p] + items[p + 1..] else items;
      var found := if all then items != [] else p < |items|;
      Edited(Touched(Store(doc, attr, left), found, ts), found)
  }

  /** The store closure of a delete (5.6.5). */
  method DeleteAttr(doc: Members, attr: string, ds: Option<string>, all: bool, ts: string, matches: bool) returns (r: EditResult)
    ensures r == if matches then DeleteAfter(doc, attr, ds, all, ts) else Refused
    ensures matches && OnePerDataset(doc, attr) && attr != "modifiedAt" && attr != "scope" ==> Deleted(doc, attr, ds, all, ts, r)
  {
    if !matches {
      return Refused;
    }
    r := DeleteMatched(doc, attr, ds, all, ts);
    if OnePerDataset(doc, attr) && attr != "modifiedAt" && attr != "scope" { DeleteChanges(doc, attr, ds, all, ts); }
  }

  /** Its steps, on an Entity that the type selector matches. */
  method DeleteMatched(doc: Members, attr: string, ds: Option<string>, all: bool, ts: string) returns (r: EditResult)
    ensures r == DeleteAfter(doc, attr, ds, all, ts)
  {
    var target, found := doc, false;
    if attr == "scope" {
      found := "scope" in target;
      target := target - {"scope"};
      if found { target := target["modifiedAt" := Text(ts)]; }
      return Edited(target, found);
    }
    if attr in target && target[attr].Array? {
      var existing := target[attr].items;
      if all {
        found := existing != [];
        existing := [];
      } else {
        var pos := Position(existing, ds);
        if pos < |existing| {
          existing := existing[..pos] + existing[pos + 1..];
          found := true;
        }
      }
      target := target[attr := Array(existing)];
      if existing == [] { target := target - {attr}; }
    }
    if found { target := target["modifiedAt" := Text(ts)]; }
    assert attr in doc ==> doc[attr := doc[attr]] == doc;
    r := Edited(target, found);
  }

  // ---------- what a partial update, a replace and a delete change ----------

  /** The instances stored of an Attribute, by dataset. */
  function Held(doc: Members, attr: string): map<Option<string>, Json> {
    if attr in doc && doc[attr].Array? then ByDataset(doc[attr].items) else map[]
  }

  ghost predicate OnePerDataset(doc: Members, attr: string) {
    attr in doc && doc[attr].Array? ==> Distinct(doc[attr].items)
  }

  /** Besides `attr` and the stamp nothing has changed. */
  ghost predicate OnlyAttr(doc: Members, r: Members, attr: string, ts: string) {
    At(r, "modifiedAt") == Some(Text(ts)) && forall k :: k == attr || k == "modifiedAt" || AgreeAt(r, doc, k)
  }

  /** The members of the new instance are the incoming one's, but for its stamps: it is as old as the one it replaces. */
  ghost predicate Succeeds(prev: Json, inst: Members, ts: string, r: Json) {
    && r.Object?
    && (forall k :: k == "createdAt" || k == "modifiedAt" || AgreeAt(r.members, inst, k))
    && Get(r, "createdAt") == (if Get(prev, "createdAt").Some? then Get(prev, "createdAt") else Some(Text(ts)))
    && Get(r, "modifiedAt") == Some(Text(ts))
  }

  lemma {:induction false} FoundIsHeld(items: seq<Json>, ds: Option<string>)
    requires Distinct(items)
    ensures Position(items, ds) < |items| <==> ds in ByDataset(items)
    ensures ds in ByDataset(items) ==> ByDataset(items)[ds] == items[Position(items, ds)]
    ensures items != [] <==> ByDataset(items) != map[]
  {
    if Position(items, ds) < |items| { AtDataset(items, ds, Position(items, ds)); }
    if items != [] { AtDataset(items, Dataset(items[0]), 0); }
  }

  predicate NamesType(inst: Members) {
    "type" in inst && inst["type"].Text? && !IsNull(inst["type"])
  }

  /** An instance under a fragment: its age and its type stay, the fragment's other members are set or taken out, the
      rest is as it was. */
  ghost predicate Overlaid(inst: Members, frag: Members, ts: string, r: Json) {
    && r.Object? && Get(r, "modifiedAt") == Some(Text(ts)) && Get(r, "createdAt") == At(inst, "createdAt")
    && (forall k :: k == "createdAt" || k == "modifiedAt" || (At(r.members, k) ==
          if k in frag then (if frag[k] == Null || frag[k] == Text("urn:ngsi-ld:null") then None else Some(frag[k])) else At(inst, k)))
    && (NamesType(inst) && ("type" in frag ==> frag["type"].Text?) ==> At(r.members, "type") == At(inst, "type"))
  }

  lemma OverlayOverlaid(inst: Members, frag: Members, ts: string)
    requires !TypeClash(Object(inst), frag)
    ensures Overlaid(inst, frag, ts, Object(Overlay(inst, frag)["modifiedAt" := Text(ts)]))
  {
  }

  lemma OverlayDataset(inst: Members, frag: Members, ts: string)
    requires GoodDataset(frag) && Dataset(Object(inst)) == Dataset(Object(frag))
    ensures Dataset(Object(Overlay(inst, frag)["modifiedAt" := Text(ts)])) == Dataset(Object(inst))
  {
    var m := Overlay(inst, frag)["modifiedAt" := Text(ts)];
    assert At(m, "datasetId") == if "datasetId" in frag then Some(frag["datasetId"]) else At(inst, "datasetId");
  }

  /** A partial update finds the instance of the fragment's dataset or changes nothing; it takes that instance out if the
      fragment marks it for deletion, is refused if the fragment names another type, and overlays it otherwise. */
  ghost predicate Patched(doc: Members, attr: string, frag: Members, ts: string, r: EditResult) {
    var m, ds := Held(doc, attr), Dataset(Object(frag));
    if ds !in m then r.Edited? && !r.found && (r.doc == doc || (m == map[] && r.doc == doc - {attr}))
    else if IsDeletion(Object(frag)) then
      && r.Edited? && r.found && OnlyAttr(doc, r.doc, attr, ts) && OnePerDataset(r.doc, attr)
      && Held(r.doc, attr) == m - {ds} && (attr in r.doc <==> Held(r.doc, attr) != map[])
    else if TypeClash(m[ds], frag) || !m[ds].Object? then r.Refused?
    else
      && r.Edited? && r.found && OnlyAttr(doc, r.doc, attr, ts) && OnePerDataset(r.doc, attr)
      && ds in Held(r.doc, attr) && Held(r.doc, attr) == m[ds := Held(r.doc, attr)[ds]]
      && Overlaid(m[ds].members, frag, ts, Held(r.doc, attr)[ds])
  }

  lemma {:induction false} PartialChanges(doc: Members, attr: string, frag: Members, ts: string)
    requires OnePerDataset(doc, attr) && attr != "modifiedAt" && GoodDataset(frag)
    ensures Patched(doc, attr, frag, ts, PartialAfter(doc, attr, frag, ts))
  {
    if attr in doc && doc[attr].Array? {
      var items, ds := doc[attr].items, Dataset(Object(frag));
      var p := Position(items, ds);
      FoundIsHeld(items, ds);
      if p == |items| {
        if items != [] { StoreSame(doc, attr); }
      } else if IsDeletion(Object(frag)) {
        RemoveIsPut(items, p);
        StoreChanges(doc, attr, items[..p] + items[p + 1..], ts);
      } else if !TypeClash(items[p], frag) && items[p].Object? {
        PartialOverlays(doc, attr, frag, ts);
      }
    }
  }

  lemma {:induction false} PartialOverlays(doc: Members, attr: string, frag: Members, ts: string)
    requires attr in doc && doc[attr].Array? && Distinct(doc[attr].items) && attr != "modifiedAt" && GoodDataset(frag)
    requires Dataset(Object(frag)) in Held(doc, attr) && !IsDeletion(Object(frag))
    requires var prev := Held(doc, attr)[Dataset(Object(frag))]; !TypeClash(prev, frag) && prev.Object?
    ensures Patched(doc, attr, frag, ts, PartialAfter(doc, attr, frag, ts))
  {
    var items, ds := doc[attr].items, Dataset(Object(frag));
    var p := Position(items, ds);
    FoundIsHeld(items, ds);
    var inst := Object(Overlay(items[p].members, frag)["modifiedAt" := Text(ts)]);
    OverlayDataset(items[p].members, frag, ts);
    OverlayOverlaid(items[p].members, frag, ts);
    UpdateIsPut(items, p, inst);
    StoreChanges(doc, attr, items[p := inst], ts);
  }

  lemma SuccessorSucceeds(prev: Json, inst: Members, ts: string)
    ensures Succeeds(prev, inst, ts, Successor(prev, Object(inst), ts))
  {
  }

  /** Storing another list under `attr`, and the stamp. */
  lemma StoreChanges(doc: Members, attr: string, items: seq<Json>, ts: string)
    requires Distinct(items) && attr != "modifiedAt"
    ensures var r := Touched(Store(doc, attr, items), true, ts);
            && OnlyAttr(doc, r, attr, ts) && OnePerDataset(r, attr) && Held(r, attr) == ByDataset(items)
            && (attr in r <==> ByDataset(items) != map[])
  {
    if items != [] { FoundIsHeld(items, Dataset(items[0])); }
  }

  /** A replace finds the instance of the incoming one's dataset or changes nothing; it replaces that instance alone. */
  ghost predicate Replaced(doc: Members, attr: string, inst: Members, ts: string, r: EditResult) {
    var m, ds := Held(doc, attr), Dataset(Object(inst));
    && r.Edited? && (r.found <==> ds in m)
    && if !r.found then r.doc == doc
       else
         && OnlyAttr(doc, r.doc, attr, ts) && OnePerDataset(r.doc, attr)
         && ds in Held(r.doc, attr) && Held(r.doc, attr) == m[ds := Held(r.doc, attr)[ds]]
         && Succeeds(m[ds], inst, ts, Held(r.doc, attr)[ds])
  }

  lemma {:induction false} ReplaceChanges(doc: Members, attr: string, inst: Members, ts: string)
    requires OnePerDataset(doc, attr) && attr != "modifiedAt"
    ensures Replaced(doc, attr, inst, ts, ReplaceAfter(doc, attr, Object(inst), ts))
  {
    if attr in doc && doc[attr].Array? {
      var items, v := doc[attr].items, Object(inst);
      var p := Position(items, Dataset(v));
      FoundIsHeld(items, Dataset(v));
      if p < |items| {
        var next := Successor(items[p], v, ts);
        SuccessorKeeps(items[p], v, ts);
        SuccessorSucceeds(items[p], inst, ts);
        UpdateIsPut(items, p, next);
        StoreChanges(doc, attr, items[p := next], ts);
      }
    }
  }

  lemma RemoveAbsent<K, V>(m: map<K, V>, k: K)
    requires k !in m
    ensures m - {k} == m
  {
  }

  /** The list that a delete of one dataset leaves. */
  lemma {:induction false} LeftIsPut(items: seq<Json>, ds: Option<string>, left: seq<Json>)
    requires Distinct(items)
    requires var p := Position(items, ds); left == if p < |items| then items[..p] + items[p + 1..] else items
    ensures Distinct(left) && ByDataset(left) == ByDataset(items) - {ds}
  {
    var p := Position(items, ds);
    if p < |items| {
      RemoveIsPut(items, p);
    } else {
      FoundIsHeld(items, ds);
      RemoveAbsent(ByDataset(items), ds);
    }
  }

  lemma StoreSame(doc: Members, attr: string)
    requires attr in doc && doc[attr].Array? && doc[attr].items != []
    ensures Store(doc, attr, doc[attr].items) == doc
  {
    assert doc[attr := doc[attr]] == doc;
  }

  /** A delete takes out the instance of the addressed dataset, or all, and the Attribute with the last one. */
  ghost predicate Deleted(doc: Members, attr: string, ds: Option<string>, all: bool, ts: string, r: EditResult) {
    var m := Held(doc, attr);
    && r.Edited? && (r.found <==> if all then m != map[] else ds in m)
    && Held(r.doc, attr) == (if all then map[] else m - {ds})
    && if !r.found then r.doc == doc || (m == map[] && r.doc == doc - {attr})
       else OnlyAttr(doc, r.doc, attr, ts) && OnePerDataset(r.doc, attr) && (attr in r.doc <==> Held(r.doc, attr) != map[])
  }

  lemma {:induction false} DeleteChanges(doc: Members, attr: string, ds: Option<string>, all: bool, ts: string)
    requires OnePerDataset(doc, attr) && attr != "modifiedAt" && attr != "scope"
    ensures Deleted(doc, attr, ds, all, ts, DeleteAfter(doc, attr, ds, all, ts))
  {
    if attr in doc && doc[attr].Array? {
      DeleteFromList(doc, attr, ds, all, ts);
    } else {
      assert Held(doc, attr) == map[] && Held(doc, attr) - {ds} == map[];
    }
  }

  lemma {:induction false} DeleteFromList(doc: Members, attr: string, ds: Option<string>, all: bool, ts: string)
    requires attr in doc && doc[attr].Array? && Distinct(doc[attr].items) && attr != "modifiedAt" && attr != "scope"
    ensures Deleted(doc, attr, ds, all, ts, DeleteAfter(doc, attr, ds, all, ts))
  {
    var items := doc[attr].items;
    FoundIsHeld(items, ds);
    if !all && Position(items, ds) == |items| {
      NothingDeleted(doc, attr, ds, ts);
    } else {
      var p := Position(items, ds);
      var left := if all then [] else items[..p] + items[p + 1..];
      if all { FoundIsHeld(left, ds); } else { LeftIsPut(items, ds, left); }
      DeletedList(doc, attr, ds, all, ts, left);
    }
  }

  lemma {:induction false} NothingDeleted(doc: Members, attr: string, ds: Option<string>, ts: string)
    requires attr in doc && doc[attr].Array? && Distinct(doc[attr].items) && attr != "modifiedAt" && attr != "scope"
    requires Position(doc[attr].items, ds) == |doc[attr].items|
    ensures Deleted(doc, attr, ds, false, ts, DeleteAfter(doc, attr, ds, false, ts))
  {
    var items := doc[attr].items;
    FoundIsHeld(items, ds);
    RemoveAbsent(ByDataset(items), ds);
    if items != [] { StoreSame(doc, attr); }
  }

  /** With what is left of the list known. */
  lemma {:induction false} DeletedList(doc: Members, attr: string, ds: Option<string>, all: bool, ts: string, left: seq<Json>)
    requires attr in doc && doc[attr].Array? && Distinct(doc[attr].items) && attr != "modifiedAt" && Distinct(left)
    requires ByDataset(left) == if all then map[] else ByDataset(doc[attr].items) - {ds}
    ensures var found := if all then ByDataset(doc[attr].items) != map[] else ds in ByDataset(doc[attr].items);
            found || (all && left == []) ==> Deleted(doc, attr, ds, all, ts, Edited(Touched(Store(doc, attr, left), found, ts), found))
  {
    StoreChanges(doc, attr, left, ts);
  }

  /** Deleting the scope takes it out and leaves the rest. */
  lemma DeleteScope(doc: Members, ds: Option<string>, all: bool, ts: string)
    ensures var r := DeleteAfter(doc, "scope", ds, all, ts);
            && r.Edited? && (r.found <==> "scope" in doc) && "scope" !in r.doc
            && if r.found then OnlyAttr(doc, r.doc, "scope", ts) else r.doc == doc
  {
    if "scope" !in doc { assert doc - {"scope"} == doc; }
  }

  // ---------- every run keeps the entity well-formed ----------

  /** A fragment as expansion delivers it; only an update may carry deletion markers. */
  ghost predicate GoodFragment(frag: Members, mode: Mode) {
    forall k :: k in FragAttrs(frag) && !IsMeta(k) ==> IncomingAttr(frag[k]) && (mode.Append? ==> Unmarked(frag[k].items))
  }

  /** The datasetId of a partial update is absent or a URI, never the null marker (5.5.8). */
  predicate GoodDataset(frag: Members) {
    "datasetId" in frag ==> frag["datasetId"].Text? && !IsNull(frag["datasetId"])
  }

  datatype Op =
    | Write(frag: Members, mode: Mode)
    | Partial(attr: string, inst: Members)
    | Replace(attr: string, with: Json)
    | Delete(attr: string, ds: Option<string>, all: bool)

  ghost predicate GoodOp(op: Op) {
    match op
    case Write(frag, mode) => GoodFragment(frag, mode)
    case Partial(attr, inst) => !IsMeta(attr) && GoodDataset(inst)
    case Replace(attr, with) => !IsMeta(attr) && !IsDeletion(with)
    case Delete(attr, _, _) => true
  }

  /** One operation at time `ts` takes the stored document from `a` to `b`; a refused or empty one leaves it. */
  ghost predicate Step(a: Members, op: Op, ts: string, b: Members) {
    b == a ||
    match op
    case Write(frag, mode) => Wrote(a, frag, ts, mode, b)
    case Partial(attr, inst) => PartialAfter(a, attr, inst, ts) == Edited(b, true)
    case Replace(attr, with) => ReplaceAfter(a, attr, with, ts) == Edited(b, true)
    case Delete(attr, ds, all) => DeleteAfter(a, attr, ds, all, ts) == Edited(b, true)
  }

  lemma WriteKeepsGood(a: Members, frag: Members, ts: string, mode: Mode, b: Members)
    requires GoodEntity(a) && GoodFragment(frag, mode) && Wrote(a, frag, ts, mode, b)
    ensures GoodEntity(b)
  {
    forall k
      ensures GoodAt(b, k)
    {
      assert WroteAt(a, frag, ts, mode, b, k) && GoodAt(a, k);
      if k in FragAttrs(frag) && !IsMeta(k) {
        StampListKeeps(frag[k].items, ts);
        AttrAfterGood(mode, At(a, k), Stamp(frag[k], ts));
      }
    }
  }

  /** Changing one Attribute to a well-formed list, or dropping it, keeps the entity well-formed. */
  lemma StoreKeepsGood(doc: Members, attr: string, items: seq<Json>, ts: string)
    requires GoodEntity(doc) && Distinct(items) && Unmarked(items)
    ensures GoodEntity(Touched(Store(doc, attr, items), true, ts))
  {
    var r := Touched(Store(doc, attr, items), true, ts);
    forall k
      ensures GoodAt(r, k)
    {
      assert GoodAt(doc, k);
    }
  }

  /** An overlaid instance stays in its dataset and is no deletion marker. */
  lemma OverlayKeeps(inst: Members, frag: Members, ts: string)
    requires GoodDataset(frag) && !IsDeletion(Object(inst)) && !IsDeletion(Object(frag))
    requires Dataset(Object(inst)) == Dataset(Object(frag))
    ensures var r := Object(Overlay(inst, frag)["modifiedAt" := Text(ts)]);
            Dataset(r) == Dataset(Object(inst)) && !IsDeletion(r)
  {
    var m := Overlay(inst, frag)["modifiedAt" := Text(ts)];
    assert !Marks("modifiedAt", Text(ts));
    forall k | k in m
      ensures !Marks(k, m[k])
    {
      assert k in inst ==> !Marks(k, inst[k]);
      assert k in frag ==> !Marks(k, frag[k]);
    }
    assert At(m, "datasetId") == if "datasetId" in frag then Some(frag["datasetId"]) else At(inst, "datasetId");
  }

  lemma PartialKeepsGood(a: Members, attr: string, frag: Members, ts: string)
    requires GoodEntity(a) && !IsMeta(attr) && GoodDataset(frag)
    ensures var r := PartialAfter(a, attr, frag, ts); r.Edited? && r.found ==> GoodEntity(r.doc)
  {
    assert GoodAt(a, attr);
    if attr in a {
      var items := a[attr].items;
      var p := Position(items, Dataset(Object(frag)));
      if p < |items| && IsDeletion(Object(frag)) {
        RemoveAtDistinct(items, p);
        StoreKeepsGood(a, attr, items[..p] + items[p + 1..], ts);
      } else if p < |items| && items[p].Object? {
        var inst := Object(Overlay(items[p].members, frag)["modifiedAt" := Text(ts)]);
        OverlayKeeps(items[p].members, frag, ts);
        UpdateAtDistinct(items, p, inst);
        StoreKeepsGood(a, attr, items[p := inst], ts);
      }
    }
  }

  lemma {:induction false} SuccessorKeeps(prev: Json, inst: Json, ts: string)
    ensures Dataset(Successor(prev, inst, ts)) == Dataset(inst)
    ensures IsDeletion(inst) <==> IsDeletion(Successor(prev, inst, ts))
  {
    var r := Successor(prev, inst, ts);
    assert forall v :: !Marks("createdAt", v) && !Marks("modifiedAt", v);
    if inst.Object? {
      if IsDeletion(inst) {
        var k :| k in inst.members && Marks(k, inst.members[k]);
        assert k in r.members && Marks(k, r.members[k]);
      }
      if IsDeletion(r) {
        var k :| k in r.members && Marks(k, r.members[k]);
        assert k in inst.members && Marks(k, inst.members[k]);
      }
    }
  }

  lemma ReplaceKeepsGood(a: Members, attr: string, with: Json, ts: string)
    requires GoodEntity(a) && !IsMeta(attr) && !IsDeletion(with)
    ensures var r := ReplaceAfter(a, attr, with, ts); r.found ==> GoodEntity(r.doc)
  {
    assert GoodAt(a, attr);
    if attr in a {
      var items := a[attr].items;
      var p := Position(items, Dataset(with));
      if p < |items| {
        var inst := Successor(items[p], with, ts);
        SuccessorKeeps(items[p], with, ts);
        UpdateAtDistinct(items, p, inst);
        StoreKeepsGood(a, attr, items[p := inst], ts);
      }
    }
  }

  lemma {:induction false} DeleteKeepsGood(a: Members, attr: string, ds: Option<string>, all: bool, ts: string)
    requires GoodEntity(a)
    ensures var r := DeleteAfter(a, attr, ds, all, ts); r.found ==> GoodEntity(r.doc)
  {
    if IsMeta(attr) {
      DeleteMetaKeepsGood(a, attr, ds, all, ts);
    } else if attr in a {
      assert GoodAt(a, attr);
      var p := Position(a[attr].items, ds);
      if all {
        StoreKeepsGood(a, attr, [], ts);
      } else if p < |a[attr].items| {
        RemoveAtDistinct(a[attr].items, p);
        StoreKeepsGood(a, attr, a[attr].items[..p] + a[attr].items[p + 1..], ts);
      }
    }
  }

  lemma {:induction false} DeleteMetaKeepsGood(a: Members, attr: string, ds: Option<string>, all: bool, ts: string)
    requires GoodEntity(a) && IsMeta(attr)
    ensures GoodEntity(DeleteAfter(a, attr, ds, all, ts).doc)
  {
    var r := DeleteAfter(a, attr, ds, all, ts);
    forall k
      ensures GoodAt(r.doc, k)
    {
      assert GoodAt(a, k);
    }
  }

  lemma StepKeepsGood(a: Members, op: Op, ts: string, b: Members)
    requires GoodEntity(a) && GoodOp(op) && Step(a, op, ts, b)
    ensures GoodEntity(b)
  {
    if b != a {
      match op
      case Write(frag, mode) => WriteKeepsGood(a, frag, ts, mode, b);
      case Partial(attr, inst) => PartialKeepsGood(a, attr, inst, ts);
      case Replace(attr, with) => ReplaceKeepsGood(a, attr, with, ts);
      case Delete(attr, ds, all) => DeleteKeepsGood(a, attr, ds, all, ts);
    }
  }

  /** A run of the five operations: the documents it passes through. */
  ghost predicate IsRun(docs: seq<Members>, ops: seq<Op>, stamps: seq<string>) {
    && |docs| == |ops| + 1 == |stamps| + 1
    && forall i :: 0 <= i < |ops| ==> Step(docs[i], ops[i], stamps[i], docs[i + 1])
  }

  /** In every run each Attribute keeps at least one instance, at most one per dataset, and no deletion marker. */
  lemma {:induction false} RunKeepsGood(docs: seq<Members>, ops: seq<Op>, stamps: seq<string>)
    requires IsRun(docs, ops, stamps) && GoodEntity(docs[0])
    requires forall i :: 0 <= i < |ops| ==> GoodOp(ops[i])
    ensures GoodEntity(docs[|ops|])
  {
    if ops != [] {
      var n := |ops| - 1;
      RunKeepsGood(docs[..n + 1], ops[..n], stamps[..n]);
      assert Step(docs[n], ops[n], stamps[n], docs[n + 1]);
      StepKeepsGood(docs[n], ops[n], stamps[n], docs[n + 1]);
    }
  }

  /** Every Attribute of the fragment is reported exactly once. */
  lemma ReportedOnce(before: Members, frag: Members, ts: string, mode: Mode, updated: seq<string>, nu: seq<NotUpdated>, k: string)
    requires Listed(before, frag, ts, mode, updated, nu) && k in FragAttrs(frag)
    ensures multiset(updated)[k] + multiset(AttrsOf(nu))[k] == 1
    ensures k in updated <==> k !in AttrsOf(nu)
    ensures k !in updated ==> AttrAfter(mode, At(before, k), Stamp(frag[k], ts)) == At(before, k)
  {
    assert ListedAt(before, frag, ts, mode, updated, nu, k);
    if k !in updated { NotTakenUnchanged(mode, At(before, k), Stamp(frag[k], ts)); }
    var types := TypesUpdated(At(before, "type"), At(frag, "type"));
    var scopes := ScopeUpdated(mode, At(before, "scope"), At(frag, "scope"));
    var refused := AttrsOf(ScopeRefused(mode, At(before, "scope"), At(frag, "scope")));
    OnlyMeta(types, scopes, refused, k);
    assert multiset(types)[k] == 0 && multiset(scopes)[k] == 0 && multiset(refused)[k] == 0;
    assert (multiset(updated) + multiset(AttrsOf(nu)))[k] == multiset(FragAttrs(frag))[k];
  }
}
