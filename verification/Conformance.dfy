/** `amend_entity`, `amend_attr` and `amend_payload` of crates/antares-api/src/conformance.rs: the
    backwards-compatibility fallbacks of clause 4.3.6.8 of ETSI GS CIM 009.

    First the amendment of one Attribute node as a function, what it leaves behind, and its two-step
    law; then the code's own loops, which rewrite the tree in place, proved against it; then Entities
    and payloads. */
module Conformance {
  import opened Json

  datatype Version = Version(major: nat, minor: nat)

  /** Rust's tuple order on `(major, minor)`. */
  predicate Earlier(a: Version, b: Version) {
    a.major < b.major || (a.major == b.major && a.minor < b.minor)
  }

  const NATIVE := Version(1, 9)

  // ---------- the tables: when each name was introduced ----------

  /** The version that introduced an Attribute type. */
  function TypeSince(ty: string): Version {
    if ty == "LanguageProperty" then Version(1, 4)
    else if ty == "JsonProperty" || ty == "VocabProperty" || ty == "ListProperty" || ty == "ListRelationship" then Version(1, 8)
    else Version(0, 0)
  }

  /** The version that introduced a member of an Attribute. */
  function MemberSince(k: string): Version {
    if k == "datasetId" || k == "observedAt" || k == "unitCode" then Version(1, 3)
    else if k == "objectType" then Version(1, 8)
    else if k == "valueType" || k == "expiresAt" then Version(1, 9)
    else Version(0, 0)
  }

  /** The members an Attribute itself is made of; every other one is a sub-Attribute. */
  predicate IsOwn(k: string) {
    k in {
      "type", "value", "object", "languageMap", "json", "vocab", "valueList", "objectList",
      "previousValue", "previousObject", "previousLanguageMap", "previousJson", "previousVocab",
      "previousValueList", "previousObjectList",
      "datasetId", "observedAt", "unitCode", "objectType", "valueType", "expiresAt",
      "createdAt", "modifiedAt", "instanceId" }
  }

  // ---------- the amendment as a function ----------

  /** Where a later Attribute type keeps its payload, and the type and member that stand in for it. */
  datatype Fallback = Fallback(ty: string, from: string, to: string)

  function FallbackOf(ty: string): Fallback {
    if ty == "LanguageProperty" then Fallback("Property", "languageMap", "value")
    else if ty == "JsonProperty" then Fallback("Property", "json", "value")
    else if ty == "VocabProperty" then Fallback("Property", "vocab", "value")
    else if ty == "ListProperty" then Fallback("Property", "valueList", "value")
    else Fallback("Relationship", "objectList", "object")
  }

  function TypeOf(o: Members): string {
    match GetText(Object(o), "type")
    case Some(ty) => ty
    case None => ""
  }

  /** The type replaced, and the payload moved to the member that stands in. */
  function Standing(o: Members, f: Fallback): Members {
    var m := o["type" := Text(f.ty)];
    if f.from in m then (m - {f.from})[f.to := m[f.from]] else m
  }

  function Retyped(o: Members, ver: Version): Members {
    if Earlier(ver, TypeSince(TypeOf(o))) then Standing(o, FallbackOf(TypeOf(o))) else o
  }

  /** The Attribute's own members after the fallback. */
  function Head(o: Members, ver: Version): Members {
    var m := Retyped(o, ver);
    map k | k in m && !Earlier(ver, MemberSince(k)) :: m[k]
  }

  /** Notes 2 and 3: the first instance without a datasetId, else the first. */
  function Default(items: seq<Json>): (p: nat)
    ensures items != [] ==> p < |items|
  {
    var p := FirstWithout(items, "datasetId");
    if p < |items| then p else 0
  }

  function FirstWithout(items: seq<Json>, k: string): (p: nat)
    ensures p <= |items|
    ensures p < |items| ==> Get(items[p], k).None?
    ensures forall i :: 0 <= i < p ==> Get(items[i], k).Some?
  {
    if items == [] || Get(items[0], k).None? then 0 else 1 + FirstWithout(items[1..], k)
  }

  /** A temporal instance array: some instance carries an instanceId. */
  predicate Temporal(items: seq<Json>) {
    exists i :: 0 <= i < |items| && Get(items[i], "instanceId").Some?
  }

  predicate Collapses(items: seq<Json>, ver: Version) {
    items != [] && Earlier(ver, Version(1, 3)) && !Temporal(items)
  }

  function AmendAttr(v: Json, ver: Version): Json {
    match v
    case Array(items) =>
      if Collapses(items, ver) then AmendAttr(items[Default(items)], ver)
      else Array(seq(|items|, i requires 0 <= i < |items| => AmendAttr(items[i], ver)))
    case Object(o) =>
      var h := Head(o, ver);
      Object(map k | k in h :: if k in o && !IsOwn(k) then AmendAttr(o[k], ver) else h[k])
    case _ => v
  }

  // ---------- what conforming means ----------

  /** An Attribute node that uses nothing introduced after `ver`, at any depth. */
  predicate Conforms(v: Json, ver: Version) {
    match v
    case Array(items) =>
      && (Earlier(ver, Version(1, 3)) ==> items == [] || Temporal(items))
      && forall i :: 0 <= i < |items| ==> Conforms(items[i], ver)
    case Object(o) =>
      && !Earlier(ver, TypeSince(TypeOf(o)))
      && (forall k :: k in o ==> !Earlier(ver, MemberSince(k)))
      && (forall k :: k in o && !IsOwn(k) ==> Conforms(o[k], ver))
    case _ => true
  }

  lemma StandingCarries(o: Members, f: Fallback)
    requires f.from != f.to && f.from != "type" && f.to != "type"
    ensures Carried(o, Standing(o, f), f)
  {
  }

  lemma StandingKeeps(o: Members, f: Fallback, k: string)
    requires k != "type" && k != f.from && k != f.to
    ensures AgreeAt(Standing(o, f), o, k)
  {
  }

  lemma FallbackNames(ty: string)
    ensures var f := FallbackOf(ty);
            && f.from != f.to && f.from != "type" && f.to != "type"
            && IsOwn("type") && IsOwn(f.from) && IsOwn(f.to)
            && MemberSince("type") == MemberSince(f.from) == MemberSince(f.to) == Version(0, 0)
  {
  }

  lemma StandingReads(o: Members, p: Members, f: Fallback, k: string)
    requires AgreeAt(o, p, k) && AgreeAt(o, p, f.from)
    ensures AgreeAt(Standing(o, f), Standing(p, f), k)
  {
  }

  // ---------- after the amendment the document conforms ----------

  lemma HeadConforms(o: Members, ver: Version)
    ensures "type" in o ==> "type" in Head(o, ver)
    ensures !Earlier(ver, TypeSince(TypeOf(Head(o, ver))))
    ensures forall k :: k in Head(o, ver) ==> !Earlier(ver, MemberSince(k))
  {
    var h, m := Head(o, ver), Retyped(o, ver);
    assert MemberSince("type") == Version(0, 0);
    assert "type" in m ==> "type" in h && h["type"] == m["type"];
    assert TypeOf(h) == TypeOf(m);
  }

  /** Every sub-Attribute keeps its name, and reaches the recursion unmodified. */
  lemma HeadKeepsSubs(o: Members, ver: Version, k: string)
    requires !IsOwn(k)
    ensures k in Head(o, ver) <==> k in o
    ensures k in o ==> Head(o, ver)[k] == o[k]
  {
    FallbackNames(TypeOf(o));
    StandingKeeps(o, FallbackOf(TypeOf(o)), k);
    assert MemberSince(k) == Version(0, 0);
  }

  /** No member, Attribute type or multi-instance array introduced after `ver` is left at any depth. */
  lemma {:induction false} AmendConforms(v: Json, ver: Version)
    ensures Conforms(AmendAttr(v, ver), ver)
    decreases v
  {
    match v
    case Array(items) =>
      forall i | 0 <= i < |items|
        ensures Conforms(AmendAttr(items[i], ver), ver)
      {
        AmendConforms(items[i], ver);
      }
      if !Collapses(items, ver) && Temporal(items) {
        var i :| 0 <= i < |items| && Get(items[i], "instanceId").Some?;
        InstanceIdStays(items[i], ver);
        assert Get(AmendAttr(v, ver).items[i], "instanceId").Some?;
      }
    case Object(o) =>
      HeadConforms(o, ver);
      var r := AmendAttr(v, ver).members;
      assert "type" in r <==> "type" in Head(o, ver);
      assert TypeOf(r) == TypeOf(Head(o, ver));
      forall k | k in r && !IsOwn(k)
        ensures Conforms(r[k], ver)
      {
        HeadKeepsSubs(o, ver, k);
        AmendConforms(o[k], ver);
      }
    case _ =>
  }

  lemma InstanceIdStays(v: Json, ver: Version)
    requires v.Object?
    ensures AmendAttr(v, ver).Object?
    ensures Get(v, "instanceId").Some? <==> Get(AmendAttr(v, ver), "instanceId").Some?
    ensures !Earlier(ver, Version(1, 3)) ==>
              (Get(v, "datasetId").Some? <==> Get(AmendAttr(v, ver), "datasetId").Some?)
  {
    var f := FallbackOf(TypeOf(v.members));
    assert IsOwn("instanceId") && MemberSince("instanceId") == Version(0, 0) && MemberSince("datasetId") == Version(1, 3);
    assert "instanceId" != f.from && "instanceId" != f.to && "datasetId" != f.from && "datasetId" != f.to;
    StandingKeeps(v.members, f, "instanceId");
    StandingKeeps(v.members, f, "datasetId");
  }

  // ---------- a document changes exactly when it did not conform ----------

  /** Nesting of arrays directly inside arrays. */
  function ArrayDepth(v: Json): nat {
    match v
    case Array(items) => 1 + MaxDepth(items)
    case _ => 0
  }

  function MaxDepth(items: seq<Json>): (d: nat)
    ensures forall i :: 0 <= i < |items| ==> ArrayDepth(items[i]) <= d
  {
    if items == [] then 0
    else
      var rest := MaxDepth(items[1..]);
      var first := ArrayDepth(items[0]);
      if first > rest then first else rest
  }

  lemma MaxDepthBound(items: seq<Json>, d: nat)
    requires forall i :: 0 <= i < |items| ==> ArrayDepth(items[i]) <= d
    ensures MaxDepth(items) <= d
  {
  }

  lemma {:induction false} AmendNotDeeper(v: Json, ver: Version)
    ensures ArrayDepth(AmendAttr(v, ver)) <= ArrayDepth(v)
    decreases v
  {
    if v.Array? {
      var items := v.items;
      forall i | 0 <= i < |items|
        ensures ArrayDepth(AmendAttr(items[i], ver)) <= MaxDepth(items)
      {
        AmendNotDeeper(items[i], ver);
      }
      if !Collapses(items, ver) {
        MaxDepthBound(AmendAttr(v, ver).items, MaxDepth(items));
      }
    }
  }

  /** The amendment leaves exactly the conforming nodes as they are. */
  lemma {:induction false} AmendFixpoint(v: Json, ver: Version)
    ensures AmendAttr(v, ver) == v <==> Conforms(v, ver)
    decreases v
  {
    match v
    case Array(items) =>
      if Collapses(items, ver) {
        AmendNotDeeper(items[Default(items)], ver);
      } else {
        var r := AmendAttr(v, ver).items;
        forall i | 0 <= i < |items|
          ensures r[i] == items[i] <==> Conforms(items[i], ver)
        {
          AmendFixpoint(items[i], ver);
        }
        assert r == items <==> forall i :: 0 <= i < |items| ==> r[i] == items[i];
      }
    case Object(o) =>
      forall k | k in o && !IsOwn(k)
        ensures AmendAttr(o[k], ver) == o[k] <==> Conforms(o[k], ver)
      {
        AmendFixpoint(o[k], ver);
      }
      ObjectFixpoint(o, ver);
    case _ =>
  }

  lemma ObjectFixpoint(o: Members, ver: Version)
    requires forall k :: k in o && !IsOwn(k) ==> (AmendAttr(o[k], ver) == o[k] <==> Conforms(o[k], ver))
    ensures AmendAttr(Object(o), ver) == Object(o) <==> Conforms(Object(o), ver)
  {
    var r := AmendAttr(Object(o), ver).members;
    if Conforms(Object(o), ver) {
      assert Head(o, ver) == o;
      assert r == o;
    }
    if r == o {
      AmendHeadConforms(o, ver);
      forall k | k in o && !IsOwn(k)
        ensures Conforms(o[k], ver)
      {
        HeadKeepsSubs(o, ver, k);
        assert r[k] == AmendAttr(o[k], ver);
      }
    }
  }

  lemma AmendHeadConforms(o: Members, ver: Version)
    ensures var r := AmendAttr(Object(o), ver).members;
            && !Earlier(ver, TypeSince(TypeOf(r)))
            && forall k :: k in r ==> !Earlier(ver, MemberSince(k))
  {
    HeadConforms(o, ver);
    var r := AmendAttr(Object(o), ver).members;
    assert "type" in r <==> "type" in Head(o, ver);
    assert TypeOf(r) == TypeOf(Head(o, ver));
  }

  // ---------- composition ----------

  /** The members the removals of Tables 4.3.6.8-2 and 4.3.6.8-3 name for `ver`. */
  function LaterMembers(ver: Version): (names: seq<string>)
    ensures forall k :: k in names <==> Earlier(ver, MemberSince(k))
  {
    (if Earlier(ver, Version(1, 3)) then ["datasetId", "observedAt", "unitCode"] else [])
    + (if Earlier(ver, Version(1, 8)) then ["objectType"] else [])
    + (if Earlier(ver, Version(1, 9)) then ["valueType", "expiresAt"] else [])
  }

  lemma HeadComposes(o: Members, hi: Version, lo: Version)
    requires !Earlier(hi, lo)
    ensures Head(Head(o, hi), lo) == Head(o, lo)
  {
    if Earlier(hi, TypeSince(TypeOf(o))) {
      RetypedOnce(o, hi, lo);
    } else {
      RetypeCommutes(o, hi, lo);
    }
    assert forall k :: Earlier(hi, MemberSince(k)) ==> Earlier(lo, MemberSince(k));
  }

  /** A type already replaced by its fallback has none of its own. */
  lemma RetypedOnce(o: Members, hi: Version, lo: Version)
    requires Earlier(hi, TypeSince(TypeOf(o))) && Earlier(lo, TypeSince(TypeOf(o)))
    ensures Retyped(o, hi) == Retyped(o, lo)
    ensures Retyped(Head(o, hi), lo) == Head(o, hi)
  {
    var f := FallbackOf(TypeOf(o));
    assert TypeSince(f.ty) == Version(0, 0) && MemberSince("type") == Version(0, 0);
    assert Retyped(o, hi)["type"] == Text(f.ty) by { assert f.to != "type" && f.from != "type"; }
    assert TypeOf(Head(o, hi)) == f.ty;
  }

  /** Dropping later members and falling back commute. */
  lemma RetypeCommutes(o: Members, hi: Version, lo: Version)
    requires !Earlier(hi, TypeSince(TypeOf(o)))
    ensures Retyped(Head(o, hi), lo) == map k | k in Retyped(o, lo) && !Earlier(hi, MemberSince(k)) :: Retyped(o, lo)[k]
  {
    var h, f := Head(o, hi), FallbackOf(TypeOf(o));
    var later := set k | k in LaterMembers(hi);
    FallbackNames(TypeOf(o));
    assert h == o - later;
    StandingCommutes(o, f, later);
    assert AgreeAt(h, o, "type") && TypeOf(h) == TypeOf(o);
  }

  lemma StandingCommutes(o: Members, f: Fallback, later: set<string>)
    requires "type" !in later && f.from !in later && f.to !in later
    ensures Standing(o - later, f) == Standing(o, f) - later
  {
  }

  /** A sub-Attribute amended in between does not change the Attribute's own members. */
  lemma HeadReadsOwn(o: Members, p: Members, ver: Version, k: string)
    requires o.Keys == p.Keys && forall m :: m in o && IsOwn(m) ==> o[m] == p[m]
    requires IsOwn(k)
    ensures AgreeAt(Head(o, ver), Head(p, ver), k)
  {
    RetypedReads(o, p, ver, k);
  }

  lemma RetypedReads(o: Members, p: Members, ver: Version, k: string)
    requires o.Keys == p.Keys && forall m :: m in o && IsOwn(m) ==> o[m] == p[m]
    requires IsOwn(k)
    ensures AgreeAt(Retyped(o, ver), Retyped(p, ver), k)
  {
    var f := FallbackOf(TypeOf(o));
    FallbackNames(TypeOf(o));
    assert AgreeAt(o, p, "type") && AgreeAt(o, p, k) && AgreeAt(o, p, f.from);
    assert TypeOf(o) == TypeOf(p);
    StandingReads(o, p, f, k);
  }

  /** Downgrading in two steps is downgrading at once. */
  lemma {:induction false} AmendComposes(v: Json, hi: Version, lo: Version)
    requires !Earlier(hi, lo)
    ensures AmendAttr(AmendAttr(v, hi), lo) == AmendAttr(v, lo)
    decreases v
  {
    match v
    case Array(items) =>
      forall i | 0 <= i < |items|
        ensures AmendAttr(AmendAttr(items[i], hi), lo) == AmendAttr(items[i], lo)
      {
        AmendComposes(items[i], hi, lo);
      }
      ArrayComposes(items, hi, lo);
    case Object(o) =>
      forall k | k in o
        ensures AmendAttr(AmendAttr(o[k], hi), lo) == AmendAttr(o[k], lo)
      {
        AmendComposes(o[k], hi, lo);
      }
      ObjectComposes(o, hi, lo);
    case _ =>
  }

  lemma ObjectComposes(o: Members, hi: Version, lo: Version)
    requires !Earlier(hi, lo)
    requires forall k :: k in o ==> AmendAttr(AmendAttr(o[k], hi), lo) == AmendAttr(o[k], lo)
    ensures AmendAttr(AmendAttr(Object(o), hi), lo) == AmendAttr(Object(o), lo)
  {
    var r, q := AmendAttr(AmendAttr(Object(o), hi), lo).members, AmendAttr(Object(o), lo).members;
    forall k
      ensures AgreeAt(r, q, k)
    {
      if IsOwn(k) { OwnComposes(o, hi, lo, k); } else { SubComposes(o, hi, lo, k); }
    }
    SameMembers(r, q);
  }

  lemma SubComposes(o: Members, hi: Version, lo: Version, k: string)
    requires !IsOwn(k)
    requires k in o ==> AmendAttr(AmendAttr(o[k], hi), lo) == AmendAttr(o[k], lo)
    ensures AgreeAt(AmendAttr(AmendAttr(Object(o), hi), lo).members, AmendAttr(Object(o), lo).members, k)
  {
    HeadKeepsSubs(o, hi, k);
    HeadKeepsSubs(AmendAttr(Object(o), hi).members, lo, k);
    HeadKeepsSubs(o, lo, k);
  }

  lemma OwnComposes(o: Members, hi: Version, lo: Version, k: string)
    requires !Earlier(hi, lo) && IsOwn(k)
    ensures AgreeAt(AmendAttr(AmendAttr(Object(o), hi), lo).members, AmendAttr(Object(o), lo).members, k)
  {
    var p := AmendAttr(Object(o), hi).members;
    HeadComposes(o, hi, lo);
    HeadReadsOwn(p, Head(o, hi), lo, k);
  }

  lemma ArrayComposes(items: seq<Json>, hi: Version, lo: Version)
    requires !Earlier(hi, lo)
    requires forall i :: 0 <= i < |items| ==> AmendAttr(AmendAttr(items[i], hi), lo) == AmendAttr(items[i], lo)
    ensures AmendAttr(AmendAttr(Array(items), hi), lo) == AmendAttr(Array(items), lo)
  {
    if !Collapses(items, hi) {
      var p := AmendAttr(Array(items), hi).items;
      AmendKeepsShape(items, p, hi);
      if Collapses(items, lo) {
        assert Default(p) == Default(items) by { SameDefault(items, p); }
      } else {
        var r, q := AmendAttr(Array(p), lo).items, AmendAttr(Array(items), lo).items;
        assert r == q;
      }
    }
  }

  lemma AmendKeepsShape(items: seq<Json>, p: seq<Json>, ver: Version)
    requires !Collapses(items, ver) && AmendAttr(Array(items), ver) == Array(p)
    ensures |p| == |items|
    ensures !Earlier(ver, Version(1, 3)) || Temporal(items) ==> (Temporal(p) <==> Temporal(items))
    ensures !Earlier(ver, Version(1, 3)) ==>
              forall i :: 0 <= i < |items| ==> (Get(p[i], "datasetId").None? <==> Get(items[i], "datasetId").None?)
  {
    forall i | 0 <= i < |items|
      ensures Get(items[i], "instanceId").Some? ==> Get(p[i], "instanceId").Some?
      ensures !Earlier(ver, Version(1, 3)) ==>
                && (Get(p[i], "instanceId").Some? <==> Get(items[i], "instanceId").Some?)
                && (Get(p[i], "datasetId").None? <==> Get(items[i], "datasetId").None?)
    {
      if items[i].Object? { InstanceIdStays(items[i], ver); }
    }
  }

  lemma {:induction false} SameDefault(a: seq<Json>, b: seq<Json>)
    requires |a| == |b|
    requires forall i :: 0 <= i < |a| ==> (Get(a[i], "datasetId").None? <==> Get(b[i], "datasetId").None?)
    ensures FirstWithout(a, "datasetId") == FirstWithout(b, "datasetId")
  {
    if a != [] { SameDefault(a[1..], b[1..]); }
  }

  // ---------- the clause, name by name ----------

  /** `ver` is before 1.minor. */
  ghost predicate Under(ver: Version, minor: nat) {
    ver.major < 1 || (ver.major == 1 && ver.minor < minor)
  }

  ghost predicate OfType(o: Members, ty: string) {
    At(o, "type") == Some(Text(ty))
  }

  /** What stands in for the Attribute: the member its payload is in, the type that replaces its own, and the member
      that takes the payload (Table 4.3.6.8-1). */
  ghost function StandIn(o: Members, ver: Version): Option<(string, string, string)> {
    if OfType(o, "LanguageProperty") && Under(ver, 4) then Some(("languageMap", "Property", "value"))
    else if OfType(o, "JsonProperty") && Under(ver, 8) then Some(("json", "Property", "value"))
    else if OfType(o, "VocabProperty") && Under(ver, 8) then Some(("vocab", "Property", "value"))
    else if OfType(o, "ListProperty") && Under(ver, 8) then Some(("valueList", "Property", "value"))
    else if OfType(o, "ListRelationship") && Under(ver, 8) then Some(("objectList", "Relationship", "object"))
    else None
  }

  /** The members `ver` does not know (Tables 4.3.6.8-2 and 4.3.6.8-3). */
  ghost predicate Unknown(ver: Version, k: string) {
    || (Under(ver, 3) && k in { "datasetId", "observedAt", "unitCode" })
    || (Under(ver, 8) && k == "objectType")
    || (Under(ver, 9) && k in { "valueType", "expiresAt" })
  }

  /** What an Attribute is made of: no sub-Attribute has such a name. */
  ghost predicate MadeOf(k: string) {
    || k in { "type", "value", "object", "languageMap", "json", "vocab", "valueList", "objectList" }
    || k in { "previousValue", "previousObject", "previousLanguageMap", "previousJson", "previousVocab" }
    || k in { "previousValueList", "previousObjectList", "datasetId", "observedAt", "unitCode", "objectType" }
    || k in { "valueType", "expiresAt", "createdAt", "modifiedAt", "instanceId" }
  }

  /** Member `k` of an amended Attribute. */
  ghost function MemberAfter(o: Members, ver: Version, k: string): Option<Json> {
    var s := StandIn(o, ver);
    if s.Some? && k == "type" then Some(Text(s.value.1))
    else if s.Some? && k == s.value.2 && s.value.0 in o then Some(o[s.value.0])
    else if s.Some? && k == s.value.0 then None
    else if k !in o || Unknown(ver, k) then None
    else if MadeOf(k) then Some(o[k])
    else Some(AmendAttr(o[k], ver))
  }

  /** Notes 2 and 3: the instance kept, the first without a datasetId or else the first. */
  ghost predicate IsDefault(items: seq<Json>, p: nat) {
    && p < |items|
    && if exists i :: 0 <= i < |items| && Get(items[i], "datasetId").None?
       then Get(items[p], "datasetId").None? && forall i :: 0 <= i < p ==> Get(items[i], "datasetId").Some?
       else p == 0
  }

  ghost predicate HasHistory(items: seq<Json>) {
    exists i :: 0 <= i < |items| && Get(items[i], "instanceId").Some?
  }

  /** `r` is the Attribute node `v` as clause 4.3.6.8 has it for `ver`. */
  ghost predicate AsClause(v: Json, ver: Version, r: Json) {
    match v
    case Array(items) =>
      if items != [] && Under(ver, 3) && !HasHistory(items) then exists p: nat :: IsDefault(items, p) && r == AmendAttr(items[p], ver)
      else r.Array? && |r.items| == |items| && forall i :: 0 <= i < |items| ==> r.items[i] == AmendAttr(items[i], ver)
    case Object(o) => r.Object? && forall k :: At(r.members, k) == MemberAfter(o, ver, k)
    case _ => r == v
  }

  lemma TypesByName(o: Members, ver: Version)
    ensures Earlier(ver, TypeSince(TypeOf(o))) <==> StandIn(o, ver).Some?
    ensures StandIn(o, ver).Some? ==>
              var f, s := FallbackOf(TypeOf(o)), StandIn(o, ver).value; f.from == s.0 && f.ty == s.1 && f.to == s.2
  {
  }

  lemma MembersByName(ver: Version, k: string)
    ensures Earlier(ver, MemberSince(k)) <==> Unknown(ver, k)
    ensures IsOwn(k) <==> MadeOf(k)
  {
  }

  lemma HeadByName(o: Members, ver: Version, k: string)
    ensures At(Head(o, ver), k) ==
              var s := StandIn(o, ver);
              if s.Some? && k == "type" then Some(Text(s.value.1))
              else if s.Some? && k == s.value.2 && s.value.0 in o then Some(o[s.value.0])
              else if s.Some? && k == s.value.0 then None
              else if k !in o || Unknown(ver, k) then None
              else Some(o[k])
  {
    TypesByName(o, ver);
    MembersByName(ver, k);
    FallbackNames(TypeOf(o));
  }

  lemma MemberByName(o: Members, ver: Version, k: string)
    ensures At(AmendAttr(Object(o), ver).members, k) == MemberAfter(o, ver, k)
  {
    HeadByName(o, ver, k);
    MembersByName(ver, k);
    TypesByName(o, ver);
    FallbackNames(TypeOf(o));
    if !IsOwn(k) { HeadKeepsSubs(o, ver, k); }
  }

  lemma {:induction false} DefaultByName(items: seq<Json>)
    requires items != []
    ensures IsDefault(items, Default(items))
  {
    var p := FirstWithout(items, "datasetId");
    if p == |items| { assert !exists i :: 0 <= i < |items| && Get(items[i], "datasetId").None?; }
  }

  /** The amendment of an Attribute node is the clause's. */
  lemma {:induction false} AmendedAsClause(v: Json, ver: Version)
    ensures AsClause(v, ver, AmendAttr(v, ver))
  {
    match v
    case Array(items) =>
      if Collapses(items, ver) { DefaultByName(items); }
    case Object(o) =>
      forall k
        ensures At(AmendAttr(v, ver).members, k) == MemberAfter(o, ver, k)
      {
        MemberByName(o, ver, k);
      }
    case _ =>
  }

  // ---------- the code, step by step ----------

  /** One arm of the type match: the new type, and the payload moved to the member that stands in. */
  method FallBack(obj: Members, ty: string, from: string, to: string) returns (r: Members)
    ensures r == Standing(obj, Fallback(ty, from, to))
  {
    r := obj["type" := Text(ty)];
    if from in r {
      var payload := r[from];
      r := r - {from};
      r := r[to := payload];
    }
  }

  /** The match on the Attribute type. */
  method Retype(obj: Members, ver: Version) returns (r: Members, changed: bool)
    ensures r == Retyped(obj, ver)
    ensures changed == Earlier(ver, TypeSince(TypeOf(obj)))
  {
    var ty := TypeOf(obj);
    r, changed := obj, true;
    if ty == "LanguageProperty" && Earlier(ver, Version(1, 4)) {
      r := FallBack(obj, "Property", "languageMap", "value");
    } else if ty == "JsonProperty" && Earlier(ver, Version(1, 8)) {
      r := FallBack(obj, "Property", "json", "value");
    } else if ty == "VocabProperty" && Earlier(ver, Version(1, 8)) {
      r := FallBack(obj, "Property", "vocab", "value");
    } else if ty == "ListProperty" && Earlier(ver, Version(1, 8)) {
      r := FallBack(obj, "Property", "valueList", "value");
    } else if ty == "ListRelationship" && Earlier(ver, Version(1, 8)) {
      r := FallBack(obj, "Relationship", "objectList", "object");
    } else {
      changed := false;
    }
  }

  /** `for k in names { if obj.remove(k).is_some() { changed = true } }` */
  method RemoveEach(obj: Members, names: seq<string>) returns (r: Members, changed: bool)
    ensures r == obj - set k | k in names
    ensures changed <==> exists k :: k in names && k in obj
  {
    r, changed := obj, false;
    for i := 0 to |names|
      invariant r == obj - set k | k in names[..i]
      invariant changed <==> exists k :: k in names[..i] && k in obj
    {
      assert names[..i + 1] == names[..i] + [names[i]];
      if names[i] in r {
        changed := true;
      }
      r := r - {names[i]};
    }
    assert names[..|names|] == names;
  }

  lemma RemovedHead(o: Members, ver: Version)
    ensures Retyped(o, ver) - (set k | k in LaterMembers(ver)) == Head(o, ver)
    ensures (exists k :: k in LaterMembers(ver) && k in Retyped(o, ver)) <==> exists k :: k in o && Earlier(ver, MemberSince(k))
  {
    FallbackNames(TypeOf(o));
    forall k | k in LaterMembers(ver)
      ensures k in Retyped(o, ver) <==> k in o
    {
      assert MemberSince(k) != Version(0, 0);
      StandingKeeps(o, FallbackOf(TypeOf(o)), k);
    }
    forall k | k in o && Earlier(ver, MemberSince(k))
      ensures k in LaterMembers(ver)
    {
    }
  }

  /** The names of the sub-Attributes. */
  function SubNames(o: Members): set<string> {
    set k | k in o && !IsOwn(k)
  }

  ghost predicate AllConform(o: Members, ks: set<string>, ver: Version) {
    forall k :: k in ks && k in o ==> Conforms(o[k], ver)
  }

  ghost predicate NoLater(o: Members, ver: Version) {
    forall k :: k in o ==> !Earlier(ver, MemberSince(k))
  }

  /** A node that conforms, one reason at a time. */
  lemma ObjectConforms(o: Members, ver: Version)
    ensures Conforms(Object(o), ver) <==>
              !Earlier(ver, TypeSince(TypeOf(o))) && NoLater(o, ver) && AllConform(o, SubNames(o), ver)
  {
    if AllConform(o, SubNames(o), ver) {
      forall k | k in o && !IsOwn(k)
        ensures Conforms(o[k], ver)
      {
        assert k in SubNames(o);
      }
    }
  }

  lemma AllConformMore(o: Members, ks: set<string>, k: string, ver: Version)
    requires k in o
    ensures AllConform(o, ks + {k}, ver) <==> AllConform(o, ks, ver) && Conforms(o[k], ver)
  {
  }

  /** `amend_attr`: the amended node, and true exactly when it differs. */
  method AmendAttrStep(v: Json, ver: Version) returns (r: Json, changed: bool)
    ensures r == AmendAttr(v, ver)
    ensures AsClause(v, ver, r)
    ensures changed <==> r != v
    ensures changed <==> !Conforms(v, ver)
    decreases v, 2
  {
    AmendFixpoint(v, ver);
    AmendedAsClause(v, ver);
    match v
    case Array(items) =>
      if Earlier(ver, Version(1, 3)) && !Temporal(items) && items != [] {
        var one, _ := AmendAttrStep(items[Default(items)], ver);
        return one, true;
      }
      r, changed := AmendEach(v, ver);
    case Object(o) =>
      r, changed := AmendObject(v, ver);
    case _ =>
      r, changed := v, false;
  }

  /** The object part of `amend_attr`. */
  method AmendObject(v: Json, ver: Version) returns (r: Json, changed: bool)
    requires v.Object?
    ensures r == AmendAttr(v, ver)
    ensures changed <==> !Conforms(v, ver)
    decreases v, 1
  {
    var o := v.members;
    var obj, retyped := Retype(o, ver);
    RemovedHead(o, ver);
    var removed;
    obj, removed := RemoveEach(obj, LaterMembers(ver));
    var subs;
    obj, subs := AmendSubs(v, obj, ver);
    r, changed := Object(obj), retyped || removed || subs;
    ObjectConforms(o, ver);
  }

  /** The instance loop. */
  method AmendEach(v: Json, ver: Version) returns (r: Json, changed: bool)
    requires v.Array? && !Collapses(v.items, ver)
    ensures r == AmendAttr(v, ver)
    ensures changed <==> !Conforms(v, ver)
    decreases v, 1
  {
    var items := v.items;
    var out := items;
    changed := false;
    for i := 0 to |items|
      invariant |out| == |items|
      invariant forall j :: 0 <= j < |items| ==> out[j] == if j < i then AmendAttr(items[j], ver) else items[j]
      invariant changed <==> exists j :: 0 <= j < i && !Conforms(items[j], ver)
    {
      var x, c := AmendAttrStep(out[i], ver);
      out := out[i := x];
      changed := changed || c;
    }
    r := Array(out);
  }

  /** The sub-Attribute loop has passed `subs - names`. */
  ghost predicate Halfway(o: Members, obj: Members, r: Members, subs: set<string>, names: set<string>, ver: Version) {
    && obj.Keys == r.Keys && names <= subs <= obj.Keys
    && (forall k :: HalfwayAt(o, obj, r, subs, names, ver, k))
  }

  ghost predicate HalfwayAt(o: Members, obj: Members, r: Members, subs: set<string>, names: set<string>, ver: Version, k: string) {
    && (k in r && k in obj && (k !in subs || k in names) ==> r[k] == obj[k])
    && (k in r && k in subs && k !in names && k in o ==> r[k] == AmendAttr(o[k], ver))
  }

  /** The loop over the sub-Attributes of `v`, whose own members are already amended to `obj`. */
  method AmendSubs(v: Json, obj: Members, ver: Version) returns (r: Members, changed: bool)
    requires v.Object? && obj == Head(v.members, ver)
    ensures Object(r) == AmendAttr(v, ver)
    ensures changed <==> !AllConform(v.members, SubNames(v.members), ver)
    decreases v, 0
  {
    ghost var o := v.members;
    SubsUntouched(o, ver);
    r, changed := obj, false;
    var names := SubNames(obj);
    ghost var subs := names;
    while names != {}
      invariant Halfway(o, obj, r, subs, names, ver)
      invariant changed <==> !AllConform(o, subs - names, ver)
      decreases names
    {
      var name :| name in names;
      assert HalfwayAt(o, obj, r, subs, names, ver, name);
      ghost var r0, names0 := r, names;
      var sub := r[name];
      assert sub == o[name] < v;
      var x, c := sub, false;
      AmendFixpoint(sub, ver);
      if sub.Object? || sub.Array? {
        x, c := AmendAttrStep(sub, ver);
        changed := changed || c;
      }
      AllConformMore(o, subs - names, name, ver);
      assert subs - names + {name} == subs - (names - {name});
      r := r[name := x];
      names := names - {name};
      HalfwayNext(o, obj, r0, r, subs, names0, name, ver);
    }
    HalfwayEnds(o, obj, r, subs, ver);
    assert subs - {} == subs;
  }

  lemma SubsUntouched(o: Members, ver: Version)
    ensures SubNames(Head(o, ver)) == SubNames(o)
    ensures forall k :: k in SubNames(o) ==> Head(o, ver)[k] == o[k]
  {
    forall k | !IsOwn(k)
      ensures k in Head(o, ver) <==> k in o
      ensures k in o ==> Head(o, ver)[k] == o[k]
    {
      HeadKeepsSubs(o, ver, k);
    }
  }

  lemma HalfwayNext(o: Members, obj: Members, r: Members, r': Members, subs: set<string>, names: set<string>, name: string, ver: Version)
    requires Halfway(o, obj, r, subs, names, ver) && name in names && name in o
    requires r' == r[name := AmendAttr(o[name], ver)]
    ensures Halfway(o, obj, r', subs, names - {name}, ver)
  {
    var names' := names - {name};
    forall k
      ensures HalfwayAt(o, obj, r', subs, names', ver, k)
    {
      assert HalfwayAt(o, obj, r, subs, names, ver, k);
    }
  }

  lemma HalfwayEnds(o: Members, obj: Members, r: Members, subs: set<string>, ver: Version)
    requires obj == Head(o, ver) && subs == SubNames(o) && Halfway(o, obj, r, subs, {}, ver)
    ensures Object(r) == AmendAttr(Object(o), ver)
  {
    var q := AmendAttr(Object(o), ver).members;
    forall k
      ensures AgreeAt(r, q, k)
    {
      assert HalfwayAt(o, obj, r, subs, {}, ver, k);
      assert k in subs <==> k in o && !IsOwn(k);
    }
    SameMembers(r, q);
  }

  // ---------- entities ----------

  /** Note 1: 1.0 knows one Entity type, the first. */
  function FirstType(t: Json): Json {
    if t.Array? && t.items != [] then t.items[0] else t
  }

  /** The Entity-level members that Table 4.3.6.8-1 removes. */
  predicate EntityLater(k: string, ver: Version) {
    (k == "expiresAt" && Earlier(ver, Version(1, 9))) || (k == "scope" && Earlier(ver, Version(1, 4)))
  }

  function AmendMember(k: string, v: Json, ver: Version): Json {
    if k == "type" then (if Earlier(ver, Version(1, 3)) then FirstType(v) else v)
    else if IsMeta(k) then v
    else AmendAttr(v, ver)
  }

  function AmendEntity(doc: Json, ver: Version): Json {
    if !Earlier(ver, NATIVE) || !doc.Object? then doc
    else Object(map k | k in doc.members && !EntityLater(k, ver) :: AmendMember(k, doc.members[k], ver))
  }

  /** An Entity that uses nothing introduced after `ver`. */
  ghost predicate EntityConforms(doc: Json, ver: Version) {
    Earlier(ver, NATIVE) && doc.Object? ==> forall k :: MemberConforms(doc.members, k, ver)
  }

  ghost predicate MemberConforms(o: Members, k: string, ver: Version) {
    k in o ==>
      && !EntityLater(k, ver)
      && (k == "type" && Earlier(ver, Version(1, 3)) ==> !o[k].Array? || o[k].items == [])
      && (!IsMeta(k) ==> Conforms(o[k], ver))
  }

  /** A type list whose first entry is itself a non-empty list, read by a version that keeps only the first. */
  predicate NestedType(doc: Json, ver: Version) {
    && Earlier(ver, Version(1, 3)) && doc.Object? && "type" in doc.members
    && doc.members["type"].Array? && doc.members["type"].items != []
    && var first := doc.members["type"].items[0]; first.Array? && first.items != []
  }

  /** Member `k` of an Entity as clause 4.3.6.8 has it for `ver` (Table 4.3.6.8-1 and Note 1). */
  ghost function EntityMemberAfter(o: Members, ver: Version, k: string): Option<Json> {
    if !Under(ver, 9) then At(o, k)
    else if k !in o || k == "expiresAt" || (k == "scope" && Under(ver, 4)) then None
    else if k == "type" then Some(if Under(ver, 3) && o[k].Array? && o[k].items != [] then o[k].items[0] else o[k])
    else if k in { "id", "scope", "createdAt", "modifiedAt", "deletedAt", "@context" } then Some(o[k])
    else Some(AmendAttr(o[k], ver))
  }

  ghost predicate EntityAsClause(doc: Json, ver: Version, r: Json) {
    if doc.Object? then r.Object? && forall k :: At(r.members, k) == EntityMemberAfter(doc.members, ver, k) else r == doc
  }

  /** The amendment of an Entity is the clause's. */
  lemma EntityAmendedAsClause(doc: Json, ver: Version)
    ensures EntityAsClause(doc, ver, AmendEntity(doc, ver))
  {
    if doc.Object? {
      forall k
        ensures At(AmendEntity(doc, ver).members, k) == EntityMemberAfter(doc.members, ver, k)
      {
        assert Earlier(ver, NATIVE) <==> Under(ver, 9);
      }
    }
  }

  /** The Entity is left as it is exactly when it conforms. */
  lemma EntityFixpoint(doc: Json, ver: Version)
    ensures AmendEntity(doc, ver) == doc <==> EntityConforms(doc, ver)
  {
    if Earlier(ver, NATIVE) && doc.Object? {
      var o, r := doc.members, AmendEntity(doc, ver).members;
      forall k
        ensures AgreeAt(r, o, k) <==> MemberConforms(o, k, ver)
      {
        if k in o && !IsMeta(k) { AmendFixpoint(o[k], ver); }
      }
      if r == o {
        forall k
          ensures MemberConforms(o, k, ver)
        {
          assert AgreeAt(r, o, k);
        }
      }
      if EntityConforms(doc, ver) {
        forall k
          ensures AgreeAt(r, o, k)
        {
          assert MemberConforms(o, k, ver);
        }
        SameMembers(r, o);
      }
    }
  }

  /** Amended to `ver`, an Entity conforms to it, but for a list nested first in its type list. */
  lemma EntityAmended(doc: Json, ver: Version)
    ensures EntityConforms(AmendEntity(doc, ver), ver) <==> !NestedType(doc, ver)
  {
    if Earlier(ver, NATIVE) && doc.Object? {
      var r := AmendEntity(doc, ver).members;
      forall k | k != "type"
        ensures MemberConforms(r, k, ver)
      {
        if k in r && !IsMeta(k) { AmendConforms(doc.members[k], ver); }
      }
      assert MemberConforms(r, "type", ver) <==> !NestedType(doc, ver);
    }
  }

  /** Two downgrades are one, exactly when no list is nested first in the type list the first of them reads. */
  lemma EntityComposes(doc: Json, hi: Version, lo: Version)
    requires !Earlier(hi, lo)
    ensures AmendEntity(AmendEntity(doc, hi), lo) == AmendEntity(doc, lo) <==> !NestedType(doc, hi)
  {
    if Earlier(hi, NATIVE) && doc.Object? {
      var o, p := doc.members, AmendEntity(doc, hi).members;
      var r, q := AmendEntity(Object(p), lo).members, AmendEntity(doc, lo).members;
      forall k | k != "type"
        ensures AgreeAt(r, q, k)
      {
        MemberComposes(o, hi, lo, k);
      }
      TypeComposes(o, hi, lo);
      if AgreeAt(r, q, "type") { SameMembers(r, q); }
    }
  }

  lemma MemberComposes(o: Members, hi: Version, lo: Version, k: string)
    requires !Earlier(hi, lo) && Earlier(hi, NATIVE) && k != "type"
    ensures AgreeAt(AmendEntity(AmendEntity(Object(o), hi), lo).members, AmendEntity(Object(o), lo).members, k)
  {
    if k in o && !IsMeta(k) { AmendComposes(o[k], hi, lo); }
  }

  lemma TypeComposes(o: Members, hi: Version, lo: Version)
    requires !Earlier(hi, lo) && Earlier(hi, NATIVE)
    ensures AgreeAt(AmendEntity(AmendEntity(Object(o), hi), lo).members, AmendEntity(Object(o), lo).members, "type")
            <==> !NestedType(Object(o), hi)
  {
    if NestedType(Object(o), hi) {
      var first := o["type"].items[0];
      assert first.items[0] != first;
    }
  }

  /** A type list whose first entry is a list: two downgrades to 1.0 keep less than one. */
  lemma NestedTypeExample()
    ensures var doc := Object(map["type" := Array([Array([Text("A")])])]);
            AmendEntity(AmendEntity(doc, Version(1, 0)), Version(1, 0)) != AmendEntity(doc, Version(1, 0))
  {
    EntityComposes(Object(map["type" := Array([Array([Text("A")])])]), Version(1, 0), Version(1, 0));
  }

  /** Every sub-Attribute keeps its name and none appears. */
  lemma NamesSurvive(o: Members, ver: Version, k: string)
    requires !IsOwn(k)
    ensures var r := AmendAttr(Object(o), ver).members;
            (k in r <==> k in o) && (k in o ==> r[k] == AmendAttr(o[k], ver))
  {
    HeadKeepsSubs(o, ver, k);
  }

  /** Every Attribute of an Entity keeps its name, none appears, and each is amended by itself. */
  lemma EntityNamesSurvive(o: Members, ver: Version, k: string)
    requires !IsMeta(k) && Earlier(ver, NATIVE)
    ensures var r := AmendEntity(Object(o), ver).members;
            (k in r <==> k in o) && (k in o ==> r[k] == AmendAttr(o[k], ver))
  {
  }

  /** A later Attribute type hands its payload, unmodified, to the member that stands in for it. */
  lemma PayloadCarried(o: Members, ver: Version)
    requires Earlier(ver, TypeSince(TypeOf(o)))
    ensures Carried(o, AmendAttr(Object(o), ver).members, FallbackOf(TypeOf(o)))
    ensures var r := AmendAttr(Object(o), ver).members;
            StandIn(o, ver).Some? && var (from, ty, to) := StandIn(o, ver).value;
            At(r, "type") == Some(Text(ty)) && from !in r && (from in o ==> At(r, to) == Some(o[from]))
  {
    TypesByName(o, ver);
    var f := FallbackOf(TypeOf(o));
    FallbackNames(TypeOf(o));
    StandingCarries(o, f);
    HeadKeepsOwn(o, ver, "type");
    HeadKeepsOwn(o, ver, f.from);
    HeadKeepsOwn(o, ver, f.to);
  }

  /** `r` is `o` with its type and payload moved as `f` says. */
  ghost predicate Carried(o: Members, r: Members, f: Fallback) {
    && "type" in r && r["type"] == Text(f.ty) && f.from !in r
    && (f.from in o ==> f.to in r && r[f.to] == o[f.from])
    && (f.from !in o ==> AgreeAt(r, o, f.to))
  }

  /** An own member that every version knows is amended only by the type fallback. */
  lemma HeadKeepsOwn(o: Members, ver: Version, k: string)
    requires IsOwn(k) && MemberSince(k) == Version(0, 0)
    ensures AgreeAt(AmendAttr(Object(o), ver).members, Retyped(o, ver), k)
  {
  }

  /** The value members of clause 4.5 and the `previous*` members of clause 5.2.14. */
  predicate HoldsValue(k: string) {
    k in { "value", "object", "languageMap", "json", "vocab", "valueList", "objectList" }
  }

  predicate HoldsPrevious(k: string) {
    k in { "previousValue", "previousObject", "previousLanguageMap", "previousJson", "previousVocab",
           "previousValueList", "previousObjectList" }
  }

  /** The member a showChanges notification adds travels as it is, whatever the type. */
  lemma PreviousUntouched(o: Members, ver: Version, k: string)
    requires HoldsPrevious(k)
    ensures AgreeAt(AmendAttr(Object(o), ver).members, o, k)
  {
    PreviousName(k, TypeOf(o));
    OtherUntouched(o, ver, k);
  }

  lemma PreviousName(k: string, ty: string)
    requires HoldsPrevious(k)
    ensures IsOwn(k) && MemberSince(k) == Version(0, 0)
    ensures k != "type" && k != FallbackOf(ty).from && k != FallbackOf(ty).to
  {
  }

  lemma OtherUntouched(o: Members, ver: Version, k: string)
    requires IsOwn(k) && MemberSince(k) == Version(0, 0)
    requires k != "type" && k != FallbackOf(TypeOf(o)).from && k != FallbackOf(TypeOf(o)).to
    ensures AgreeAt(AmendAttr(Object(o), ver).members, o, k)
  {
    StandingKeeps(o, FallbackOf(TypeOf(o)), k);
    HeadKeepsOwn(o, ver, k);
  }

  /** A type that `ver` knows keeps its value. */
  lemma ValuesUntouched(o: Members, ver: Version, k: string)
    requires HoldsValue(k) && !Earlier(ver, TypeSince(TypeOf(o)))
    ensures AgreeAt(AmendAttr(Object(o), ver).members, o, k)
  {
    assert IsOwn(k) && MemberSince(k) == Version(0, 0);
    HeadKeepsOwn(o, ver, k);
  }

  // ---------- entities and payloads, step by step ----------

  /** `amend_entity` */
  method AmendEntityStep(doc: Json, ver: Version) returns (r: Json, changed: bool)
    ensures r == AmendEntity(doc, ver) && EntityAsClause(doc, ver, r)
    ensures changed <==> r != doc
  {
    EntityFixpoint(doc, ver);
    EntityAmendedAsClause(doc, ver);
    if !Earlier(ver, NATIVE) || !doc.Object? {
      return doc, false;
    }
    var o := doc.members;
    var head, retold := AmendEntityHead(o, ver);
    var obj, attrs := AmendAttributes(o, head, ver);
    EntityAssembled(o, head, obj, ver);
    EntityReasons(o, ver);
    r, changed := Object(obj), retold || attrs;
  }

  /** The Entity-level part of `amend_entity`. */
  method AmendEntityHead(o: Members, ver: Version) returns (obj: Members, changed: bool)
    requires Earlier(ver, NATIVE)
    ensures EntityHead(o, obj, ver)
    ensures changed <==> !HeadReasons(o, ver)
  {
    var removed, typed;
    obj, removed := RemoveEach(o, EntityLaterMembers(ver));
    typed := false;
    if Earlier(ver, Version(1, 3)) && "type" in obj && obj["type"].Array? && obj["type"].items != [] {
      obj := obj["type" := obj["type"].items[0]];
      typed := true;
    }
    changed := removed || typed;
  }

  /** The Entity's own members use nothing later. */
  ghost predicate HeadReasons(o: Members, ver: Version) {
    && (forall k :: k in o ==> !EntityLater(k, ver))
    && !(Earlier(ver, Version(1, 3)) && "type" in o && o["type"].Array? && o["type"].items != [])
  }

  /** The Entity members `amend_entity` removes for `ver`. */
  function EntityLaterMembers(ver: Version): (names: seq<string>)
    ensures forall k :: k in names <==> EntityLater(k, ver)
  {
    (if Earlier(ver, Version(1, 9)) then ["expiresAt"] else []) + (if Earlier(ver, Version(1, 4)) then ["scope"] else [])
  }

  function AttrNames(o: Members): set<string> {
    set k | k in o && !IsMeta(k)
  }

  /** The attribute loop of `amend_entity`; `obj` is what the Entity-level removals left of `o`. */
  method AmendAttributes(o: Members, obj: Members, ver: Version) returns (r: Members, changed: bool)
    requires EntityHead(o, obj, ver)
    ensures Halfway(o, obj, r, AttrNames(o), {}, ver)
    ensures changed <==> !AllConform(o, AttrNames(o), ver)
  {
    r, changed := obj, false;
    var names := AttrNames(obj);
    AttrsUntouched(o, obj, ver);
    ghost var subs := names;
    while names != {}
      invariant Halfway(o, obj, r, subs, names, ver)
      invariant changed <==> !AllConform(o, subs - names, ver)
      decreases names
    {
      var name :| name in names;
      assert HalfwayAt(o, obj, r, subs, names, ver, name);
      ghost var r0, names0 := r, names;
      var x, c := AmendAttrStep(r[name], ver);
      changed := changed || c;
      AllConformMore(o, subs - names, name, ver);
      assert subs - names + {name} == subs - (names - {name});
      r := r[name := x];
      names := names - {name};
      HalfwayNext(o, obj, r0, r, subs, names0, name, ver);
    }
    assert subs - {} == subs;
  }

  lemma AttrsUntouched(o: Members, obj: Members, ver: Version)
    requires EntityHead(o, obj, ver)
    ensures AttrNames(obj) == AttrNames(o)
    ensures forall k :: k in AttrNames(o) ==> obj[k] == o[k]
  {
  }

  lemma EntityAssembled(o: Members, obj: Members, r: Members, ver: Version)
    requires Earlier(ver, NATIVE)
    requires Halfway(o, obj, r, AttrNames(o), {}, ver) && EntityHead(o, obj, ver)
    ensures Object(r) == AmendEntity(Object(o), ver)
  {
    var q := AmendEntity(Object(o), ver).members;
    forall k
      ensures AgreeAt(r, q, k)
    {
      assert HalfwayAt(o, obj, r, AttrNames(o), {}, ver, k);
      assert k in AttrNames(o) <==> k in o && !IsMeta(k);
    }
    SameMembers(r, q);
  }

  /** The Entity after its own members are amended and before its Attributes are. */
  ghost predicate EntityHead(o: Members, obj: Members, ver: Version) {
    && (forall k :: k in obj <==> k in o && !EntityLater(k, ver))
    && (forall k :: k in obj ==> obj[k] == if k == "type" && Earlier(ver, Version(1, 3)) then FirstType(o[k]) else o[k])
  }

  lemma EntityReasons(o: Members, ver: Version)
    requires Earlier(ver, NATIVE)
    ensures EntityConforms(Object(o), ver) <==>
              HeadReasons(o, ver) && AllConform(o, AttrNames(o), ver)
  {
    if EntityConforms(Object(o), ver) {
      forall k | k in o
        ensures !EntityLater(k, ver)
        ensures k in AttrNames(o) ==> Conforms(o[k], ver)
      {
        assert MemberConforms(o, k, ver);
      }
      assert MemberConforms(o, "type", ver);
    }
    if AllConform(o, AttrNames(o), ver) {
      forall k | k in o && !IsMeta(k)
        ensures Conforms(o[k], ver)
      {
        assert k in AttrNames(o);
      }
    }
  }

  // ---------- payloads ----------

  /** The six type names that `is_reserved_resource` knows; whatever else has an `id` and a `type` is read as an Entity. */
  predicate IsReserved(ty: string) {
    ty in { "Subscription", "ContextSourceRegistration", "CSourceRegistration", "Notification", "EntityMap", "Snapshot" }
  }

  function AmendPayload(doc: Json, ver: Version): Json {
    match doc
    case Array(items) => Array(seq(|items|, i requires 0 <= i < |items| => AmendPayload(items[i], ver)))
    case Object(o) =>
      if TypeOf(o) == "Notification" then
        if "data" in o then Object(o["data" := AmendPayload(o["data"], ver)]) else doc
      else if "id" in o && "type" in o && !IsReserved(TypeOf(o)) then AmendEntity(doc, ver)
      else doc
    case _ => doc
  }

  /** The type name under which a resource is not read as an Entity, if it has one. */
  ghost predicate IsNoEntity(o: Members) {
    || OfType(o, "Subscription") || OfType(o, "ContextSourceRegistration") || OfType(o, "CSourceRegistration")
    || OfType(o, "Notification") || OfType(o, "EntityMap") || OfType(o, "Snapshot")
  }

  /** `r` is the payload with each Entity in it amended. */
  ghost predicate PayloadAmended(doc: Json, ver: Version, r: Json) {
    match doc
    case Array(items) => r.Array? && |r.items| == |items| && forall i :: 0 <= i < |items| ==> PayloadAmended(items[i], ver, r.items[i])
    case Object(o) =>
      if OfType(o, "Notification") && "data" in o then
        && r.Object? && (forall k :: k == "data" || AgreeAt(r.members, o, k))
        && "data" in r.members && PayloadAmended(o["data"], ver, r.members["data"])
      else if "id" in o && "type" in o && !IsNoEntity(o) then EntityAsClause(doc, ver, r)
      else r == doc
    case _ => r == doc
  }

  /** The amendment of a payload amends the Entities in it, in arrays and in the data of Notifications, and no more. */
  lemma {:induction false} AmendsEntities(doc: Json, ver: Version)
    ensures PayloadAmended(doc, ver, AmendPayload(doc, ver))
    decreases doc
  {
    match doc
    case Array(items) =>
      forall i | 0 <= i < |items|
        ensures PayloadAmended(items[i], ver, AmendPayload(items[i], ver))
      {
        AmendsEntities(items[i], ver);
      }
    case Object(o) =>
      assert OfType(o, "Notification") <==> TypeOf(o) == "Notification";
      assert IsNoEntity(o) <==> IsReserved(TypeOf(o));
      EntityAmendedAsClause(doc, ver);
      if "data" in o { AmendsEntities(o["data"], ver); }
    case _ =>
  }

  /** `amend_payload`: the flag that turns a 200 into a 203 is set exactly when the payload changed. */
  method AmendPayloadStep(doc: Json, ver: Version) returns (r: Json, changed: bool)
    ensures r == AmendPayload(doc, ver) && PayloadAmended(doc, ver, r)
    ensures changed <==> r != doc
    decreases doc
  {
    AmendsEntities(doc, ver);
    match doc
    case Array(items) =>
      var out := items;
      changed := false;
      for i := 0 to |items|
        invariant |out| == |items|
        invariant forall j :: 0 <= j < |items| ==> out[j] == if j < i then AmendPayload(items[j], ver) else items[j]
        invariant changed <==> out != items
      {
        var before := out;
        var x, c := AmendPayloadStep(out[i], ver);
        out := out[i := x];
        changed := changed || c;
        PrefixChanged(items, before, out, i);
      }
      r := Array(out);
    case Object(o) =>
      if TypeOf(o) == "Notification" {
        if "data" in o {
          var d, c := AmendPayloadStep(o["data"], ver);
          r, changed := Object(o["data" := d]), c;
          assert changed <==> r.members["data"] != o["data"];
          assert !changed ==> r.members == o;
        } else {
          r, changed := doc, false;
        }
      } else if "id" in o && "type" in o && !IsReserved(TypeOf(o)) {
        r, changed := AmendEntityStep(doc, ver);
      } else {
        r, changed := doc, false;
      }
    case _ =>
      r, changed := doc, false;
  }

  lemma PrefixChanged(items: seq<Json>, a: seq<Json>, b: seq<Json>, i: nat)
    requires |a| == |items| && i < |items| && a[i] == items[i]
    requires |b| == |a| && b == a[i := b[i]]
    ensures b != items <==> a != items || b[i] != items[i]
  {
    if a != items && b[i] == items[i] {
      assert b == a;
    }
    if b != items && a == items {
      assert b[i] == items[i] ==> b == items;
    }
    if b == items {
      assert a == items;
    }
  }

  /** A resource under one of the six names passes as it is, unless it is a Notification. */
  lemma ReservedUntouched(o: Members, ver: Version)
    requires IsReserved(TypeOf(o)) && TypeOf(o) != "Notification"
    ensures AmendPayload(Object(o), ver) == Object(o)
  {
  }

  /** A version this broker speaks natively changes nothing. */
  lemma {:induction false} NativeUntouched(doc: Json, ver: Version)
    requires !Earlier(ver, NATIVE)
    ensures AmendPayload(doc, ver) == doc
    decreases doc
  {
    match doc
    case Array(items) =>
      forall i | 0 <= i < |items|
        ensures AmendPayload(items[i], ver) == items[i]
      {
        NativeUntouched(items[i], ver);
      }
      assert AmendPayload(doc, ver).items == items;
    case Object(o) =>
      if TypeOf(o) == "Notification" && "data" in o {
        NativeUntouched(o["data"], ver);
        assert o["data" := o["data"]] == o;
      }
    case _ =>
  }
}
