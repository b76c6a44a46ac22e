/** The instances of one Attribute, told apart by datasetId: `merge_instance_sets` of
    crates/antares-api/src/attrs.rs (clause 5.5.8 of ETSI GS CIM 009). */
module Instances {
  import opened Json

  const NULL_MARK := "urn:ngsi-ld:null"

  predicate IsNull(v: Json) {
    v == Text(NULL_MARK)
  }

  predicate IsNullLangmap(v: Json) {
    IsNull(v) || (v.Object? && v.members == map["@none" := Text(NULL_MARK)])
  }

  predicate IsNullList(v: Json) {
    IsNull(v) || (v.Array? && v.items == [Text(NULL_MARK)])
  }

  /** Member `k` holding `v` marks its instance for deletion. */
  predicate Marks(k: string, v: Json) {
    if k == "value" || k == "object" || k == "json" || k == "vocab" then IsNull(v)
    else if k == "languageMap" then IsNullLangmap(v)
    else if k == "valueList" || k == "objectList" then IsNullList(v)
    else false
  }

  /** `is_deletion_instance` */
  predicate IsDeletion(inst: Json) {
    IsNull(inst) || (inst.Object? && exists k :: k in inst.members && Marks(k, inst.members[k]))
  }

  /** What tells one instance from another; `None` is the default instance. */
  function Dataset(inst: Json): Option<string> {
    GetText(inst, "datasetId")
  }

  /** `iter().position(..)`: the first instance of a dataset, or the length. */
  function Position(cur: seq<Json>, ds: Option<string>): (p: nat)
    ensures p <= |cur|
    ensures p < |cur| ==> Dataset(cur[p]) == ds
  {
    if cur == [] || Dataset(cur[0]) == ds then 0 else 1 + Position(cur[1..], ds)
  }

  lemma {:induction false} PositionFirst(cur: seq<Json>, ds: Option<string>, i: nat)
    requires i < |cur| && Dataset(cur[i]) == ds
    ensures Position(cur, ds) <= i
  {
    if Dataset(cur[0]) != ds { PositionFirst(cur[1..], ds, i - 1); }
  }

  /** The instance that takes the place of `prev`: its createdAt survives. */
  function Replacing(prev: Json, inst: Json): Json {
    if inst.Object? && Get(prev, "createdAt").Some?
    then Object(inst.members["createdAt" := prev.members["createdAt"]])
    else inst
  }

  /** One pass of the merge loop. */
  function MergeOne(cur: seq<Json>, inst: Json, noOverwrite: bool): seq<Json> {
    var p := Position(cur, Dataset(inst));
    if IsDeletion(inst) then
      if p < |cur| then cur[..p] + cur[p + 1..] else cur
    else if p < |cur| then
      if noOverwrite then cur else cur[p := Replacing(cur[p], inst)]
    else cur + [inst]
  }

  /** Whether that pass applied anything. */
  predicate Applies(cur: seq<Json>, inst: Json, noOverwrite: bool) {
    var known := Position(cur, Dataset(inst)) < |cur|;
    if IsDeletion(inst) then known else !known || !noOverwrite
  }

  function MergeAll(cur: seq<Json>, inc: seq<Json>, noOverwrite: bool): seq<Json> {
    if inc == [] then cur
    else MergeOne(MergeAll(cur, inc[..|inc| - 1], noOverwrite), inc[|inc| - 1], noOverwrite)
  }

  predicate AnyApplies(cur: seq<Json>, inc: seq<Json>, noOverwrite: bool) {
    inc != [] &&
    (AnyApplies(cur, inc[..|inc| - 1], noOverwrite)
     || Applies(MergeAll(cur, inc[..|inc| - 1], noOverwrite), inc[|inc| - 1], noOverwrite))
  }

  /** `merge_instance_sets`, applied to two JSON values. */
  function MergeSets(existing: Json, incoming: Json, noOverwrite: bool): Json {
    if existing.Array? && incoming.Array? then Array(MergeAll(existing.items, incoming.items, noOverwrite)) else existing
  }

  predicate SetsApply(existing: Json, incoming: Json, noOverwrite: bool) {
    existing.Array? && incoming.Array? && AnyApplies(existing.items, incoming.items, noOverwrite)
  }

  /** `merge_instance_sets` */
  method MergeInstanceSets(existing: Json, incoming: Json, noOverwrite: bool) returns (r: Json, any: bool)
    ensures r == MergeSets(existing, incoming, noOverwrite)
    ensures any == SetsApply(existing, incoming, noOverwrite)
  {
    if !existing.Array? || !incoming.Array? {
      return existing, false;
    }
    var cur, inc := existing.items, incoming.items;
    any := false;
    for i := 0 to |inc|
      invariant cur == MergeAll(existing.items, inc[..i], noOverwrite)
      invariant any == AnyApplies(existing.items, inc[..i], noOverwrite)
    {
      MergeAllNext(existing.items, inc, i, noOverwrite);
      var applied;
      cur, applied := MergeStep(cur, inc[i], noOverwrite);
      any := any || applied;
    }
    assert inc[..|inc|] == inc;
    r := Array(cur);
  }

  lemma {:induction false} MergeAllNext(cur: seq<Json>, inc: seq<Json>, i: nat, noOverwrite: bool)
    requires i < |inc|
    ensures var before := MergeAll(cur, inc[..i], noOverwrite);
            && MergeAll(cur, inc[..i + 1], noOverwrite) == MergeOne(before, inc[i], noOverwrite)
            && (AnyApplies(cur, inc[..i + 1], noOverwrite) <==>
                  AnyApplies(cur, inc[..i], noOverwrite) || Applies(before, inc[i], noOverwrite))
  {
    assert inc[..i + 1][..i] == inc[..i];
  }

  /** The body of its loop. */
  method MergeStep(items: seq<Json>, ni: Json, noOverwrite: bool) returns (cur: seq<Json>, applied: bool)
    ensures cur == MergeOne(items, ni, noOverwrite)
    ensures applied == Applies(items, ni, noOverwrite)
  {
    cur, applied := items, false;
    var pos := Position(cur, Dataset(ni));
    if IsDeletion(ni) {
      if pos < |cur| {
        cur := cur[..pos] + cur[pos + 1..];
        applied := true;
      }
    } else if pos < |cur| {
      if !noOverwrite {
        var created := Get(cur[pos], "createdAt");
        cur := cur[pos := ni];
        if ni.Object? && created.Some? {
          cur := cur[pos := Object(ni.members["createdAt" := created.value])];
        }
        applied := true;
      }
    } else {
      cur := cur + [ni];
      applied := true;
    }
  }

  // ---------- the map from dataset to instance ----------

  ghost predicate Apart(cur: seq<Json>, i: nat, j: nat) {
    i < j < |cur| ==> Dataset(cur[i]) != Dataset(cur[j])
  }

  /** At most one instance per dataset. */
  ghost predicate Distinct(cur: seq<Json>) {
    forall i, j :: Apart(cur, i, j)
  }

  /** No deletion marker is stored. */
  ghost predicate Unmarked(cur: seq<Json>) {
    forall i :: 0 <= i < |cur| ==> !IsDeletion(cur[i])
  }

  function Datasets(cur: seq<Json>): set<Option<string>> {
    set i | 0 <= i < |cur| :: Dataset(cur[i])
  }

  /** The instances as a map from dataset to instance. */
  function ByDataset(cur: seq<Json>): map<Option<string>, Json> {
    map ds | ds in Datasets(cur) && Position(cur, ds) < |cur| :: cur[Position(cur, ds)]
  }

  /** What one incoming instance does to that map (clause 5.5.8). */
  function Put(m: map<Option<string>, Json>, inst: Json, noOverwrite: bool): map<Option<string>, Json> {
    var ds := Dataset(inst);
    if IsDeletion(inst) then m - {ds}
    else if ds !in m then m[ds := inst]
    else if noOverwrite then m
    else m[ds := Replacing(m[ds], inst)]
  }

  function PutAll(m: map<Option<string>, Json>, inc: seq<Json>, noOverwrite: bool): map<Option<string>, Json> {
    if inc == [] then m
    else Put(PutAll(m, inc[..|inc| - 1], noOverwrite), inc[|inc| - 1], noOverwrite)
  }

  lemma {:induction false} PositionIs(cur: seq<Json>, i: nat)
    requires Distinct(cur) && i < |cur|
    ensures Position(cur, Dataset(cur[i])) == i
  {
    PositionFirst(cur, Dataset(cur[i]), i);
    assert Apart(cur, Position(cur, Dataset(cur[i])), i);
  }

  /** The map is read off position by position. */
  lemma AtDataset(cur: seq<Json>, ds: Option<string>, i: nat)
    requires Distinct(cur) && i < |cur| && Dataset(cur[i]) == ds
    ensures ds in ByDataset(cur) && ByDataset(cur)[ds] == cur[i]
  {
    PositionIs(cur, i);
  }

  lemma ReplacingMark(prev: Json, inst: Json)
    ensures IsDeletion(Replacing(prev, inst)) <==> IsDeletion(inst)
  {
    var r := Replacing(prev, inst);
    assert forall v :: !Marks("createdAt", v);
    if inst.Object? {
      if IsDeletion(inst) {
        var k :| k in inst.members && Marks(k, inst.members[k]);
        assert k in r.members && Marks(k, r.members[k]);
      }
      if IsDeletion(r) {
        var k :| k in r.members && Marks(k, r.members[k]);
        assert k in inst.members && Marks(k, inst.members[k]);
      }
    }
  }

  lemma ReplacingKeeps(prev: Json, inst: Json)
    ensures Dataset(Replacing(prev, inst)) == Dataset(inst)
    ensures Get(prev, "createdAt").Some? && inst.Object? ==> Get(Replacing(prev, inst), "createdAt") == Get(prev, "createdAt")
  {
  }

  lemma RemoveAtDistinct(cur: seq<Json>, p: nat)
    requires Distinct(cur) && p < |cur|
    ensures Distinct(cur[..p] + cur[p + 1..])
  {
    var r := cur[..p] + cur[p + 1..];
    forall i: nat, j: nat
      ensures Apart(r, i, j)
    {
      assert Apart(cur, if i < p then i else i + 1, if j < p then j else j + 1);
    }
  }

  lemma UpdateAtDistinct(cur: seq<Json>, p: nat, inst: Json)
    requires Distinct(cur) && p < |cur| && Dataset(inst) == Dataset(cur[p])
    ensures Distinct(cur[p := inst])
  {
    var r := cur[p := inst];
    forall i: nat, j: nat
      ensures Apart(r, i, j)
    {
      assert Apart(cur, i, j);
    }
  }

  lemma {:induction false} AppendDistinct(cur: seq<Json>, inst: Json)
    requires Distinct(cur) && Position(cur, Dataset(inst)) == |cur|
    ensures Distinct(cur + [inst])
  {
    var r := cur + [inst];
    forall i: nat, j: nat
      ensures Apart(r, i, j)
    {
      assert Apart(cur, i, j);
      if i < |cur| && Dataset(cur[i]) == Dataset(inst) { PositionFirst(cur, Dataset(inst), i); }
    }
  }

  lemma MergeOneDistinct(cur: seq<Json>, inst: Json, noOverwrite: bool)
    requires Distinct(cur)
    ensures Distinct(MergeOne(cur, inst, noOverwrite))
  {
    var p := Position(cur, Dataset(inst));
    if IsDeletion(inst) {
      if p < |cur| { RemoveAtDistinct(cur, p); }
    } else if p < |cur| {
      ReplacingKeeps(cur[p], inst);
      UpdateAtDistinct(cur, p, Replacing(cur[p], inst));
    } else {
      AppendDistinct(cur, inst);
    }
  }

  lemma MergeOneUnmarked(cur: seq<Json>, inst: Json, noOverwrite: bool)
    requires Unmarked(cur)
    ensures Unmarked(MergeOne(cur, inst, noOverwrite))
  {
    var p := Position(cur, Dataset(inst));
    if p < |cur| { ReplacingMark(cur[p], inst); }
  }

  ghost predicate SameAt(a: map<Option<string>, Json>, b: map<Option<string>, Json>, ds: Option<string>) {
    (ds in a <==> ds in b) && (ds in a ==> a[ds] == b[ds])
  }

  lemma SameMap(a: map<Option<string>, Json>, b: map<Option<string>, Json>)
    requires forall ds :: SameAt(a, b, ds)
    ensures a == b
  {
    forall ds
      ensures ds in a <==> ds in b
      ensures ds in a ==> a[ds] == b[ds]
    {
      assert SameAt(a, b, ds);
    }
  }

  /** One pass of the list loop is one update of the map. */
  lemma MergeOneIsPut(cur: seq<Json>, inst: Json, noOverwrite: bool)
    requires Distinct(cur)
    ensures ByDataset(MergeOne(cur, inst, noOverwrite)) == Put(ByDataset(cur), inst, noOverwrite)
  {
    var r := MergeOne(cur, inst, noOverwrite);
    MergeOneDistinct(cur, inst, noOverwrite);
    forall ds
      ensures SameAt(ByDataset(r), Put(ByDataset(cur), inst, noOverwrite), ds)
    {
      if ds == Dataset(inst) {
        PutHere(cur, inst, noOverwrite);
      } else {
        PutElsewhere(cur, inst, noOverwrite, ds);
      }
    }
    SameMap(ByDataset(r), Put(ByDataset(cur), inst, noOverwrite));
  }

  lemma PutHere(cur: seq<Json>, inst: Json, noOverwrite: bool)
    requires Distinct(cur) && Distinct(MergeOne(cur, inst, noOverwrite))
    ensures SameAt(ByDataset(MergeOne(cur, inst, noOverwrite)), Put(ByDataset(cur), inst, noOverwrite), Dataset(inst))
  {
    if IsDeletion(inst) {
      PutDeleted(cur, inst, noOverwrite);
    } else if Position(cur, Dataset(inst)) < |cur| {
      PutReplaced(cur, inst, noOverwrite);
    } else {
      PutAdded(cur, inst, noOverwrite);
    }
  }

  lemma PutDeleted(cur: seq<Json>, inst: Json, noOverwrite: bool)
    requires Distinct(cur) && IsDeletion(inst)
    ensures Dataset(inst) !in ByDataset(MergeOne(cur, inst, noOverwrite))
  {
    var p := Position(cur, Dataset(inst));
    if p < |cur| { RemovedGone(cur, p); }
  }

  lemma {:induction false} PutReplaced(cur: seq<Json>, inst: Json, noOverwrite: bool)
    requires Distinct(cur) && Distinct(MergeOne(cur, inst, noOverwrite))
    requires !IsDeletion(inst) && Position(cur, Dataset(inst)) < |cur|
    ensures SameAt(ByDataset(MergeOne(cur, inst, noOverwrite)), Put(ByDataset(cur), inst, noOverwrite), Dataset(inst))
  {
    var p := Position(cur, Dataset(inst));
    AtDataset(cur, Dataset(inst), p);
    ReplacingKeeps(cur[p], inst);
    AtDataset(MergeOne(cur, inst, noOverwrite), Dataset(inst), p);
  }

  lemma {:induction false} PutAdded(cur: seq<Json>, inst: Json, noOverwrite: bool)
    requires Distinct(cur) && Distinct(MergeOne(cur, inst, noOverwrite))
    requires !IsDeletion(inst) && Position(cur, Dataset(inst)) == |cur|
    ensures SameAt(ByDataset(MergeOne(cur, inst, noOverwrite)), Put(ByDataset(cur), inst, noOverwrite), Dataset(inst))
  {
    AtDataset(MergeOne(cur, inst, noOverwrite), Dataset(inst), |cur|);
  }

  lemma RemovedGone(cur: seq<Json>, p: nat)
    requires Distinct(cur) && p < |cur|
    ensures Dataset(cur[p]) !in ByDataset(cur[..p] + cur[p + 1..])
  {
    var r := cur[..p] + cur[p + 1..];
    forall q: nat | q < |r|
      ensures Dataset(r[q]) != Dataset(cur[p])
    {
      var at := if q < p then q else q + 1;
      assert Apart(cur, p, at) && Apart(cur, at, p);
    }
  }

  lemma PutElsewhere(cur: seq<Json>, inst: Json, noOverwrite: bool, ds: Option<string>)
    requires Distinct(cur) && Distinct(MergeOne(cur, inst, noOverwrite)) && ds != Dataset(inst)
    ensures SameAt(ByDataset(MergeOne(cur, inst, noOverwrite)), ByDataset(cur), ds)
  {
    var r := MergeOne(cur, inst, noOverwrite);
    var p, q := Position(cur, Dataset(inst)), Position(cur, ds);
    if p < |cur| { ReplacingKeeps(cur[p], inst); }
    if q < |cur| {
      AtDataset(cur, ds, q);
      var at := if IsDeletion(inst) && p < q then q - 1 else q;
      assert r[at] == cur[q];
      AtDataset(r, ds, at);
    } else {
      forall i: nat | i < |r|
        ensures Dataset(r[i]) != ds
      {
        var at := if IsDeletion(inst) && p <= i then i + 1 else i;
        if at < |cur| && Dataset(cur[at]) == ds { PositionFirst(cur, ds, at); }
      }
    }
  }

  /** A deletion marker for a dataset. */
  function Marker(ds: Option<string>): (r: Json)
    ensures Dataset(r) == ds && IsDeletion(r)
  {
    var m: Members := map["value" := Text(NULL_MARK)];
    var marked := if ds.Some? then m["datasetId" := Text(ds.value)] else m;
    assert "value" in marked && Marks("value", marked["value"]);
    Object(marked)
  }

  /** Taking an instance out of the list takes its dataset out of the map. */
  lemma RemoveIsPut(cur: seq<Json>, p: nat)
    requires Distinct(cur) && p < |cur|
    ensures Distinct(cur[..p] + cur[p + 1..])
    ensures ByDataset(cur[..p] + cur[p + 1..]) == ByDataset(cur) - {Dataset(cur[p])}
  {
    PositionIs(cur, p);
    RemoveAtDistinct(cur, p);
    MergeOneIsPut(cur, Marker(Dataset(cur[p])), false);
  }

  /** Replacing an instance by one of its dataset is an update of the map. */
  lemma UpdateIsPut(cur: seq<Json>, p: nat, inst: Json)
    requires Distinct(cur) && p < |cur| && Dataset(inst) == Dataset(cur[p])
    ensures Distinct(cur[p := inst]) && ByDataset(cur[p := inst]) == ByDataset(cur)[Dataset(inst) := inst]
  {
    var r, m := cur[p := inst], ByDataset(cur)[Dataset(inst) := inst];
    UpdateAtDistinct(cur, p, inst);
    forall ds
      ensures SameAt(ByDataset(r), m, ds)
    {
      var q := Position(cur, ds);
      if ds == Dataset(inst) {
        AtDataset(r, ds, p);
      } else if q < |cur| {
        AtDataset(cur, ds, q);
        AtDataset(r, ds, q);
      } else if Position(r, ds) < |r| {
        PositionFirst(cur, ds, Position(r, ds));
      }
    }
    SameMap(ByDataset(r), m);
  }

  /** `merge_instance_sets` refines the map fold, and keeps one unmarked instance per dataset. */
  lemma {:induction false} MergeIsPutAll(cur: seq<Json>, inc: seq<Json>, noOverwrite: bool)
    requires Distinct(cur)
    ensures Distinct(MergeAll(cur, inc, noOverwrite))
    ensures ByDataset(MergeAll(cur, inc, noOverwrite)) == PutAll(ByDataset(cur), inc, noOverwrite)
    ensures Unmarked(cur) ==> Unmarked(MergeAll(cur, inc, noOverwrite))
  {
    if inc != [] {
      var before := MergeAll(cur, inc[..|inc| - 1], noOverwrite);
      MergeIsPutAll(cur, inc[..|inc| - 1], noOverwrite);
      MergeOneDistinct(before, inc[|inc| - 1], noOverwrite);
      MergeOneIsPut(before, inc[|inc| - 1], noOverwrite);
      if Unmarked(cur) { MergeOneUnmarked(before, inc[|inc| - 1], noOverwrite); }
    }
  }

  /** A dataset that the incoming list does not name keeps its instance; one it overwrites keeps its createdAt. */
  lemma {:induction false} CreatedSurvives(m: map<Option<string>, Json>, inc: seq<Json>, noOverwrite: bool, ds: Option<string>)
    requires ds in m && Get(m[ds], "createdAt").Some?
    requires forall i :: 0 <= i < |inc| && Dataset(inc[i]) == ds ==> inc[i].Object? && !IsDeletion(inc[i])
    ensures var r := PutAll(m, inc, noOverwrite); ds in r && Get(r[ds], "createdAt") == Get(m[ds], "createdAt")
    ensures (noOverwrite || forall i :: 0 <= i < |inc| ==> Dataset(inc[i]) != ds) ==> PutAll(m, inc, noOverwrite)[ds] == m[ds]
  {
    if inc != [] {
      CreatedSurvives(m, inc[..|inc| - 1], noOverwrite, ds);
      var before, last := PutAll(m, inc[..|inc| - 1], noOverwrite), inc[|inc| - 1];
      if Dataset(last) == ds { ReplacingKeeps(before[ds], last); }
    }
  }

  /** A merge that reports nothing applied changed nothing. */
  lemma {:induction false} NothingApplied(cur: seq<Json>, inc: seq<Json>, noOverwrite: bool)
    requires !AnyApplies(cur, inc, noOverwrite)
    ensures MergeAll(cur, inc, noOverwrite) == cur
  {
    if inc != [] { NothingApplied(cur, inc[..|inc| - 1], noOverwrite); }
  }

  /** Without nulls, a merge never shrinks the list. */
  lemma {:induction false} MergeGrows(cur: seq<Json>, inc: seq<Json>, noOverwrite: bool)
    requires Unmarked(inc)
    ensures |MergeAll(cur, inc, noOverwrite)| >= |cur|
    ensures inc != [] ==> MergeAll(cur, inc, noOverwrite) != []
  {
    if inc != [] { MergeGrows(cur, inc[..|inc| - 1], noOverwrite); }
  }

  /** Without overwriting and without nulls, the list only gains the datasets it lacked, in order. */
  lemma {:induction false} NoOverwriteExtends(cur: seq<Json>, inc: seq<Json>)
    requires Unmarked(inc)
    ensures cur <= MergeAll(cur, inc, true)
    ensures AnyApplies(cur, inc, true) <==> MergeAll(cur, inc, true) != cur
  {
    if inc != [] { NoOverwriteExtends(cur, inc[..|inc| - 1]); }
  }

  // ---------- the clause, name by name ----------

  ghost predicate NullAt(o: Members, k: string) {
    At(o, k) == Some(Text("urn:ngsi-ld:null"))
  }

  /** A null where an instance has its value (clause 5.5.8). */
  ghost predicate Deletes(inst: Json) {
    || inst == Text("urn:ngsi-ld:null")
    || (inst.Object? &&
         var o := inst.members;
         || NullAt(o, "value") || NullAt(o, "object") || NullAt(o, "json") || NullAt(o, "vocab")
         || NullAt(o, "languageMap") || At(o, "languageMap") == Some(Object(map["@none" := Text("urn:ngsi-ld:null")]))
         || NullAt(o, "valueList") || At(o, "valueList") == Some(Array([Text("urn:ngsi-ld:null")]))
         || NullAt(o, "objectList") || At(o, "objectList") == Some(Array([Text("urn:ngsi-ld:null")])))
  }

  lemma DeletesByName(inst: Json)
    ensures IsDeletion(inst) <==> Deletes(inst)
  {
    if inst.Object? {
      var o := inst.members;
      forall k | k in o && Marks(k, o[k])
        ensures Deletes(inst)
      {
      }
      if Deletes(inst) {
        var k := if NullAt(o, "value") then "value" else if NullAt(o, "object") then "object" else if NullAt(o, "json") then "json"
                 else if NullAt(o, "vocab") then "vocab"
                 else if NullAt(o, "languageMap") || At(o, "languageMap") == Some(Object(map["@none" := Text("urn:ngsi-ld:null")])) then "languageMap"
                 else if NullAt(o, "valueList") || At(o, "valueList") == Some(Array([Text("urn:ngsi-ld:null")])) then "valueList"
                 else "objectList";
        assert k in o && Marks(k, o[k]);
      }
    }
  }

  /** The list holds `x` for this datasetId. */
  ghost predicate HoldsAs(items: seq<Json>, ds: Option<string>, x: Json) {
    x in items && GetText(x, "datasetId") == ds
  }

  /** The list holds an instance for this datasetId. */
  ghost predicate HoldsFor(items: seq<Json>, ds: Option<string>) {
    exists x :: HoldsAs(items, ds, x)
  }

  /** What the list holds for this datasetId, if anything, is the same in both. */
  ghost predicate SameFor(a: seq<Json>, b: seq<Json>, ds: Option<string>) {
    forall x :: HoldsAs(a, ds, x) <==> HoldsAs(b, ds, x)
  }

  /** `x` is the incoming instance, as old as the stored one it replaces. */
  ghost predicate Renewed(prev: Json, inst: Json, x: Json) {
    if inst.Object? && Get(prev, "createdAt").Some? then
      && x.Object? && Get(x, "createdAt") == Get(prev, "createdAt")
      && forall k :: k == "createdAt" || AgreeAt(x.members, inst.members, k)
    else x == inst
  }

  /** What an incoming instance makes of its datasetId: a null takes it out; anything else is added, or takes the place of
      what was there unless it may not overwrite. */
  ghost predicate MergedBy(cur: seq<Json>, inst: Json, noOverwrite: bool, r: seq<Json>, ds: Option<string>) {
    if Deletes(inst) then !HoldsFor(r, ds)
    else if !HoldsFor(cur, ds) then HoldsAs(r, ds, inst)
    else if noOverwrite then SameFor(r, cur, ds)
    else exists prev, x :: HoldsAs(cur, ds, prev) && HoldsAs(r, ds, x) && Renewed(prev, inst, x)
  }

  /** What becomes of one datasetId (clause 5.5.8): it stays, or is what an incoming instance makes of it. */
  ghost predicate MergedFor(cur: seq<Json>, inc: seq<Json>, noOverwrite: bool, r: seq<Json>, ds: Option<string>) {
    if !HoldsFor(inc, ds) then SameFor(r, cur, ds)
    else exists inst :: HoldsAs(inc, ds, inst) && MergedBy(cur, inst, noOverwrite, r, ds)
  }

  ghost predicate MergedAsClause(cur: seq<Json>, inc: seq<Json>, noOverwrite: bool, r: seq<Json>) {
    Distinct(r) && forall ds :: MergedFor(cur, inc, noOverwrite, r, ds)
  }

  lemma {:induction false} HeldByMap(items: seq<Json>, ds: Option<string>, x: Json)
    requires Distinct(items)
    ensures HoldsAs(items, ds, x) <==> ds in ByDataset(items) && ByDataset(items)[ds] == x
  {
    if HoldsAs(items, ds, x) {
      var i :| 0 <= i < |items| && items[i] == x;
      AtDataset(items, ds, i);
    }
  }

  lemma {:induction false} HeldFor(items: seq<Json>, ds: Option<string>)
    requires Distinct(items)
    ensures HoldsFor(items, ds) <==> ds in ByDataset(items)
  {
    if HoldsFor(items, ds) {
      var x :| HoldsAs(items, ds, x);
      HeldByMap(items, ds, x);
    }
    if ds in ByDataset(items) { HeldByMap(items, ds, ByDataset(items)[ds]); }
  }

  /** The incoming instances are of different datasets: each has its say once. */
  lemma {:induction false} PutAllAt(m: map<Option<string>, Json>, inc: seq<Json>, noOverwrite: bool, ds: Option<string>)
    requires Distinct(inc)
    ensures var r := PutAll(m, inc, noOverwrite);
            if ds !in ByDataset(inc) then SameAt(r, m, ds) else SameAt(r, Put(m, ByDataset(inc)[ds], noOverwrite), ds)
  {
    if inc != [] {
      var n := |inc| - 1;
      var before, last := inc[..n], inc[n];
      DistinctFront(inc);
      PutAllAt(m, before, noOverwrite, ds);
      FrontByMap(inc, ds);
      var p := PutAll(m, before, noOverwrite);
      if ds == Dataset(last) { PutAtSame(p, m, last, noOverwrite); } else { PutAtOther(p, last, noOverwrite, ds); }
    }
  }

  lemma PutAtSame(a: map<Option<string>, Json>, b: map<Option<string>, Json>, inst: Json, noOverwrite: bool)
    requires SameAt(a, b, Dataset(inst))
    ensures SameAt(Put(a, inst, noOverwrite), Put(b, inst, noOverwrite), Dataset(inst))
  {
  }

  lemma PutAtOther(a: map<Option<string>, Json>, inst: Json, noOverwrite: bool, ds: Option<string>)
    requires ds != Dataset(inst)
    ensures SameAt(Put(a, inst, noOverwrite), a, ds)
  {
  }

  lemma {:induction false} DistinctFront(items: seq<Json>)
    requires Distinct(items) && items != []
    ensures Distinct(items[..|items| - 1])
  {
    var r := items[..|items| - 1];
    forall i: nat, j: nat
      ensures Apart(r, i, j)
    {
      assert Apart(items, i, j);
    }
  }

  lemma {:induction false} FrontByMap(items: seq<Json>, ds: Option<string>)
    requires Distinct(items) && items != []
    ensures var n := |items| - 1;
            var front := items[..n];
            && (ds == Dataset(items[n]) ==> ds !in ByDataset(front) && ds in ByDataset(items) && ByDataset(items)[ds] == items[n])
            && (ds != Dataset(items[n]) ==> SameAt(ByDataset(front), ByDataset(items), ds))
  {
    var n := |items| - 1;
    var front := items[..n];
    DistinctFront(items);
    assert items == front + [items[n]];
    if ds == Dataset(items[n]) {
      AtDataset(items, ds, n);
      var q := Position(front, ds);
      assert q < n ==> !Apart(items, q, n);
    } else {
      var q := Position(items, ds);
      if q < |items| {
        AtDataset(items, ds, q);
        AtDataset(front, ds, q);
      } else if Position(front, ds) < n {
        PositionFirst(items, ds, Position(front, ds));
      }
    }
  }

  lemma {:induction false} MergedDataset(cur: seq<Json>, inc: seq<Json>, noOverwrite: bool, r: seq<Json>, ds: Option<string>)
    requires Distinct(cur) && Distinct(inc) && Distinct(r)
    requires ByDataset(r) == PutAll(ByDataset(cur), inc, noOverwrite)
    ensures MergedFor(cur, inc, noOverwrite, r, ds)
  {
    PutAllAt(ByDataset(cur), inc, noOverwrite, ds);
    HeldFor(cur, ds);
    HeldFor(inc, ds);
    HeldFor(r, ds);
    forall x
      ensures HoldsAs(r, ds, x) <==> ds in ByDataset(r) && ByDataset(r)[ds] == x
      ensures HoldsAs(cur, ds, x) <==> ds in ByDataset(cur) && ByDataset(cur)[ds] == x
    {
      HeldByMap(r, ds, x);
      HeldByMap(cur, ds, x);
    }
    if ds in ByDataset(inc) {
      var inst := ByDataset(inc)[ds];
      HeldByMap(inc, ds, inst);
      DeletesByName(inst);
      if ds in ByDataset(cur) { assert Renewed(ByDataset(cur)[ds], inst, Replacing(ByDataset(cur)[ds], inst)); }
      assert MergedBy(cur, inst, noOverwrite, r, ds);
    }
  }

  /** `merge_instance_sets` merges as the clause says. */
  lemma {:induction false} MergeAsClause(cur: seq<Json>, inc: seq<Json>, noOverwrite: bool)
    requires Distinct(cur) && Distinct(inc)
    ensures MergedAsClause(cur, inc, noOverwrite, MergeAll(cur, inc, noOverwrite))
  {
    var r := MergeAll(cur, inc, noOverwrite);
    MergeIsPutAll(cur, inc, noOverwrite);
    forall ds
      ensures MergedFor(cur, inc, noOverwrite, r, ds)
    {
      MergedDataset(cur, inc, noOverwrite, r, ds);
    }
  }

  /** An incoming instance has an effect: it takes out what is there, adds what is not, or may overwrite. */
  ghost predicate HasEffect(cur: seq<Json>, inst: Json, noOverwrite: bool) {
    var held := HoldsFor(cur, GetText(inst, "datasetId"));
    if Deletes(inst) then held else !held || !noOverwrite
  }

  lemma {:induction false} AppliesByName(cur: seq<Json>, inst: Json, noOverwrite: bool)
    requires Distinct(cur)
    ensures Applies(cur, inst, noOverwrite) <==> HasEffect(cur, inst, noOverwrite)
  {
    var ds := Dataset(inst);
    DeletesByName(inst);
    HeldFor(cur, ds);
    if Position(cur, ds) < |cur| { AtDataset(cur, ds, Position(cur, ds)); }
  }

  /** A merge applies something exactly when some incoming instance has an effect on the stored list. */
  lemma {:induction false} AnyAppliesByName(cur: seq<Json>, inc: seq<Json>, noOverwrite: bool)
    requires Distinct(cur) && Distinct(inc)
    ensures AnyApplies(cur, inc, noOverwrite) <==> exists inst :: inst in inc && HasEffect(cur, inst, noOverwrite)
  {
    if inc != [] {
      var n := |inc| - 1;
      var before, mid := inc[..n], MergeAll(cur, inc[..n], noOverwrite);
      DistinctFront(inc);
      assert inc == before + [inc[n]];
      AnyAppliesByName(cur, before, noOverwrite);
      MergeIsPutAll(cur, before, noOverwrite);
      AppliesByName(mid, inc[n], noOverwrite);
      UntouchedDataset(cur, before, noOverwrite, mid, inc[n]);
    }
  }

  lemma {:induction false} UntouchedDataset(cur: seq<Json>, before: seq<Json>, noOverwrite: bool, mid: seq<Json>, inst: Json)
    requires Distinct(cur) && Distinct(before) && Distinct(mid) && Distinct(before + [inst])
    requires ByDataset(mid) == PutAll(ByDataset(cur), before, noOverwrite)
    ensures HasEffect(mid, inst, noOverwrite) <==> HasEffect(cur, inst, noOverwrite)
  {
    var ds, all := Dataset(inst), before + [inst];
    FrontByMap(all, ds);
    assert all[..|all| - 1] == before;
    PutAllAt(ByDataset(cur), before, noOverwrite, ds);
    HeldFor(mid, ds);
    HeldFor(cur, ds);
  }
}
