/** Whole payloads under a downgrade (crates/antares-api/src/conformance.rs). */
module Payloads {
  import opened Json
  import opened Conformance

  /** A resource that is amended as an Entity. */
  predicate IsEntity(o: Members) {
    TypeOf(o) != "Notification" && "id" in o && "type" in o && !IsReserved(TypeOf(o))
  }

  /** Every Entity of the payload uses nothing introduced after `ver`. */
  ghost predicate PayloadConforms(doc: Json, ver: Version) {
    match doc
    case Array(items) => forall i :: 0 <= i < |items| ==> PayloadConforms(items[i], ver)
    case Object(o) =>
      if TypeOf(o) == "Notification" then "data" in o ==> PayloadConforms(o["data"], ver)
      else IsEntity(o) ==> EntityConforms(doc, ver)
    case _ => true
  }

  /** A payload is left as it is exactly when each of its Entities conforms; nothing else is ever amended. */
  lemma {:induction false} PayloadFixpoint(doc: Json, ver: Version)
    ensures AmendPayload(doc, ver) == doc <==> PayloadConforms(doc, ver)
    decreases doc
  {
    match doc
    case Array(items) =>
      var r := AmendPayload(doc, ver).items;
      forall i | 0 <= i < |items|
        ensures r[i] == items[i] <==> PayloadConforms(items[i], ver)
      {
        PayloadFixpoint(items[i], ver);
      }
      assert r == items <==> forall i :: 0 <= i < |items| ==> r[i] == items[i];
    case Object(o) =>
      if TypeOf(o) != "Notification" {
        EntityFixpoint(doc, ver);
      } else if "data" in o {
        PayloadFixpoint(o["data"], ver);
        DataReplaced(o, AmendPayload(o["data"], ver));
      }
    case _ =>
  }

  lemma DataReplaced(o: Members, d: Json)
    requires "data" in o
    ensures o["data" := d] == o <==> d == o["data"]
  {
    if d == o["data"] { assert o["data" := d] == o; }
  }

  // ---------- versions before 1.3 are one ----------

  /** Nothing was introduced between two versions before 1.3. */
  lemma {:induction false} EarlyConforms(v: Json, hi: Version, lo: Version)
    requires Earlier(hi, Version(1, 3)) && Earlier(lo, Version(1, 3)) && Conforms(v, hi)
    ensures Conforms(v, lo)
    decreases v
  {
    match v
    case Array(items) =>
      forall i | 0 <= i < |items|
        ensures Conforms(items[i], lo)
      {
        EarlyConforms(items[i], hi, lo);
      }
    case Object(o) =>
      forall k | k in o && !IsOwn(k)
        ensures Conforms(o[k], lo)
      {
        EarlyConforms(o[k], hi, lo);
      }
    case _ =>
  }

  lemma EarlyEntityConforms(o: Members, hi: Version, lo: Version)
    requires Earlier(hi, Version(1, 3)) && Earlier(lo, Version(1, 3)) && EntityConforms(Object(o), hi)
    ensures EntityConforms(Object(o), lo)
  {
    forall k
      ensures MemberConforms(o, k, lo)
    {
      assert MemberConforms(o, k, hi);
      if k in o && !IsMeta(k) { EarlyConforms(o[k], hi, lo); }
    }
  }

  /** Of a type list that names Text first, either version makes the same Entity. */
  lemma EarlyEntity(o: Members, hi: Version, lo: Version)
    requires !Earlier(hi, lo) && Earlier(hi, Version(1, 3)) && !NestedType(Object(o), hi)
    ensures AmendEntity(Object(o), lo) == AmendEntity(Object(o), hi)
  {
    EntityComposes(Object(o), hi, lo);
    EntityAmended(Object(o), hi);
    EarlyEntityConforms(AmendEntity(Object(o), hi).members, hi, lo);
    EntityFixpoint(AmendEntity(Object(o), hi), lo);
  }

  // ---------- composition ----------

  /** An Entity whose type list names Notification first, before a version that keeps only the first type. */
  predicate Renamed(o: Members, ver: Version) {
    Earlier(ver, Version(1, 3)) && "type" in o && FirstType(o["type"]) == Text("Notification")
  }

  /** A value or previous value that the amendment to a version before 1.3 leaves in the Attribute, under its own name or
      under the one that stands in for it. */
  predicate LeftIn(o: Members, k: string) {
    var f := FallbackOf(TypeOf(o));
    && k in o && IsOwn(k) && !IsMeta(k) && MemberSince(k) == Version(0, 0)
    && !(Moved(o) && k == f.to && f.from in o)
  }

  predicate LeftConforms(o: Members, k: string, ver: Version) {
    LeftIn(o, k) ==> Conforms(o[k], ver)
  }

  /** An Attribute that a version before 1.3 may read as the data of a Notification: the resources in it that would be
      read as Entities have no scope, no type list, and no value with anything later in it. */
  ghost predicate DataStands(v: Json, ver: Version) {
    match v
    case Array(items) =>
      items == [] || if Temporal(items) then forall i :: 0 <= i < |items| ==> DataStands(items[i], ver)
                     else DataStands(items[Default(items)], ver)
    case Object(o) =>
      if TypeOf(o) == "Notification" then "data" in o ==> DataStands(o["data"], ver)
      else IsEntity(o) ==> EntityStands(o, ver)
    case _ => true
  }

  lemma {:induction false} DataConforms(v: Json, hi: Version, lo: Version)
    requires Earlier(hi, Version(1, 3)) && Earlier(lo, Version(1, 3))
    ensures PayloadConforms(AmendAttr(v, hi), lo) <==> DataStands(v, lo)
    decreases v
  {
    match v
    case Array(items) =>
      if items != [] && !Temporal(items) {
        DataConforms(items[Default(items)], hi, lo);
      } else {
        var r := AmendAttr(v, hi).items;
        forall i | 0 <= i < |items|
          ensures PayloadConforms(r[i], lo) <==> DataStands(items[i], lo)
        {
          DataConforms(items[i], hi, lo);
        }
      }
    case Object(o) =>
      DataNames(o, hi);
      if TypeOf(o) == "Notification" {
        if "data" in o { DataConforms(o["data"], hi, lo); }
      } else if IsEntity(o) {
        DataEntity(o, hi, lo);
      }
    case _ =>
  }

  /** What an Attribute's amendment leaves for a reading of it as a resource. */
  lemma DataNames(o: Members, ver: Version)
    requires Earlier(ver, Version(1, 3))
    ensures var r := AmendAttr(Object(o), ver).members;
            && ("type" in r <==> "type" in o) && ("id" in r <==> "id" in o)
            && (TypeOf(r) == "Notification" <==> TypeOf(o) == "Notification") && (IsReserved(TypeOf(r)) <==> IsReserved(TypeOf(o)))
            && ("data" in r <==> "data" in o) && ("data" in o ==> r["data"] == AmendAttr(o["data"], ver))
            && ("scope" in r <==> "scope" in o) && "expiresAt" !in r
            && ("type" in o && o["type"].Array? ==> r["type"] == o["type"])
            && ("type" in o && !o["type"].Array? ==> !r["type"].Array?)
  {
    NamesSurvive(o, ver, "id");
    NamesSurvive(o, ver, "data");
    NamesSurvive(o, ver, "scope");
    TypeRead(o, ver);
    AmendHeadConforms(o, ver);
    assert MemberSince("expiresAt") == Version(1, 9);
  }

  lemma TypeRead(o: Members, ver: Version)
    ensures var r := AmendAttr(Object(o), ver).members;
            && ("type" in r <==> "type" in o) && ("type" in o && !GetText(Object(o), "type").Some? ==> r["type"] == o["type"])
            && ("type" in o && GetText(Object(o), "type").Some? ==> r["type"].Text?)
            && (TypeOf(r) == "Notification" <==> TypeOf(o) == "Notification") && (IsReserved(TypeOf(r)) <==> IsReserved(TypeOf(o)))
  {
    var r, f := AmendAttr(Object(o), ver).members, FallbackOf(TypeOf(o));
    HeadKeepsOwn(o, ver, "type");
    FallbackType(TypeOf(o));
    if Earlier(ver, TypeSince(TypeOf(o))) {
      PayloadCarried(o, ver);
      assert TypeOf(r) == f.ty;
    } else {
      assert AgreeAt(r, o, "type") && TypeOf(r) == TypeOf(o);
    }
  }

  lemma FallbackType(ty: string)
    ensures !IsReserved(FallbackOf(ty).ty) && IsReserved("Notification") && !IsReserved("")
    ensures TypeSince(ty) != Version(0, 0) ==> !IsReserved(ty)
  {
  }

  ghost predicate EntityStands(o: Members, ver: Version)
    requires "type" in o
  {
    "scope" !in o && !(o["type"].Array? && o["type"].items != []) && forall k :: LeftConforms(o, k, ver)
  }

  lemma DataEntity(o: Members, hi: Version, lo: Version)
    requires Earlier(hi, Version(1, 3)) && Earlier(lo, Version(1, 3)) && "type" in o
    ensures EntityConforms(AmendAttr(Object(o), hi), lo) <==> EntityStands(o, lo)
  {
    var r := AmendAttr(Object(o), hi).members;
    DataNames(o, hi);
    LeftMembers(o, hi, lo);
    forall k
      ensures MemberConforms(r, k, lo) <==>
                if k == "scope" then "scope" !in o
                else if k == "type" then !(o["type"].Array? && o["type"].items != [])
                else OwnConforms(r, k, lo)
    {
      MemberOfData(o, hi, lo, k);
    }
    if EntityConforms(Object(r), lo) {
      assert MemberConforms(r, "scope", lo) && MemberConforms(r, "type", lo);
      forall k
        ensures OwnConforms(r, k, lo)
      {
        assert MemberConforms(r, k, lo);
      }
    }
    if EntityStands(o, lo) {
      forall k
        ensures MemberConforms(r, k, lo)
      {
        assert OwnConforms(r, k, lo);
      }
    }
  }

  lemma MemberOfData(o: Members, hi: Version, lo: Version, k: string)
    requires Earlier(hi, Version(1, 3)) && Earlier(lo, Version(1, 3)) && "type" in o
    ensures var r := AmendAttr(Object(o), hi).members;
            MemberConforms(r, k, lo) <==>
              if k == "scope" then "scope" !in o
              else if k == "type" then !(o["type"].Array? && o["type"].items != [])
              else OwnConforms(r, k, lo)
  {
    var r := AmendAttr(Object(o), hi).members;
    DataNames(o, hi);
    if !IsOwn(k) && k in r {
      NamesSurvive(o, hi, k);
      AmendConforms(o[k], hi);
      EarlyConforms(r[k], hi, lo);
    }
  }

  predicate OwnConforms(r: Members, k: string, ver: Version) {
    k in r && IsOwn(k) && !IsMeta(k) ==> Conforms(r[k], ver)
  }

  lemma LeftMembers(o: Members, hi: Version, lo: Version)
    requires Earlier(hi, Version(1, 3)) && Earlier(lo, Version(1, 3))
    ensures var r := AmendAttr(Object(o), hi).members;
            (forall k :: OwnConforms(r, k, lo)) <==> forall k :: LeftConforms(o, k, lo)
  {
    var r := AmendAttr(Object(o), hi).members;
    if forall k :: OwnConforms(r, k, lo) { OwnThenLeft(o, hi, lo, r); }
    if forall k :: LeftConforms(o, k, lo) { LeftThenOwn(o, hi, lo, r); }
  }

  lemma OwnThenLeft(o: Members, hi: Version, lo: Version, r: Members)
    requires Earlier(hi, Version(1, 3)) && r == AmendAttr(Object(o), hi).members && forall k :: OwnConforms(r, k, lo)
    ensures forall k :: LeftConforms(o, k, lo)
  {
    var f := FallbackOf(TypeOf(o));
    FallbackNames(TypeOf(o));
    forall k
      ensures LeftConforms(o, k, lo)
    {
      var at := if Moved(o) && k == f.from then f.to else k;
      OwnMember(o, hi, lo, at);
      assert OwnConforms(r, at, lo);
    }
  }

  lemma LeftThenOwn(o: Members, hi: Version, lo: Version, r: Members)
    requires Earlier(hi, Version(1, 3)) && r == AmendAttr(Object(o), hi).members && forall k :: LeftConforms(o, k, lo)
    ensures forall k :: OwnConforms(r, k, lo)
  {
    var f := FallbackOf(TypeOf(o));
    forall k
      ensures OwnConforms(r, k, lo)
    {
      OwnMember(o, hi, lo, k);
      assert LeftConforms(o, if Moved(o) && k == f.to && f.from in o then f.from else k, lo);
    }
  }

  /** The type is one that no version before 1.3 has. */
  predicate Moved(o: Members) {
    TypeSince(TypeOf(o)) != Version(0, 0)
  }

  lemma OwnMember(o: Members, hi: Version, lo: Version, k: string)
    requires Earlier(hi, Version(1, 3))
    ensures var r, f := AmendAttr(Object(o), hi).members, FallbackOf(TypeOf(o));
            OwnConforms(r, k, lo) <==> LeftConforms(o, if Moved(o) && k == f.to && f.from in o then f.from else k, lo) || (Moved(o) && k == f.from)
  {
    var r, f := AmendAttr(Object(o), hi).members, FallbackOf(TypeOf(o));
    FallbackNames(TypeOf(o));
    ValueNames(TypeOf(o));
    AmendHeadConforms(o, hi);
    if IsOwn(k) && !IsMeta(k) && MemberSince(k) == Version(0, 0) {
      if !Moved(o) {
        HeadKeepsOwn(o, hi, k);
        assert AgreeAt(r, o, k);
      } else {
        PayloadCarried(o, hi);
        if k != f.from && k != f.to {
          OtherUntouched(o, hi, k);
          assert AgreeAt(r, o, k);
        }
      }
    }
  }

  lemma ValueNames(ty: string)
    ensures !IsMeta(FallbackOf(ty).from) && !IsMeta(FallbackOf(ty).to)
  {
  }

  /** No Entity of the payload has a list nested first in its type list, and none that is renamed to a Notification has
      an Attribute `data` that does not stand being read as the data of one. */
  ghost predicate TypesStand(doc: Json, hi: Version, lo: Version) {
    match doc
    case Array(items) => forall i :: 0 <= i < |items| ==> TypesStand(items[i], hi, lo)
    case Object(o) =>
      if TypeOf(o) == "Notification" then "data" in o ==> TypesStand(o["data"], hi, lo)
      else IsEntity(o) ==>
        !NestedType(doc, hi) && (Renamed(o, hi) && "data" in o ==> DataStands(o["data"], lo))
    case _ => true
  }

  /** Two downgrades of a payload are one, exactly when the types of its Entities stand. */
  lemma {:induction false} PayloadComposes(doc: Json, hi: Version, lo: Version)
    requires !Earlier(hi, lo)
    ensures AmendPayload(AmendPayload(doc, hi), lo) == AmendPayload(doc, lo) <==> TypesStand(doc, hi, lo)
    decreases doc
  {
    match doc
    case Array(items) =>
      var r, q := AmendPayload(AmendPayload(doc, hi), lo).items, AmendPayload(doc, lo).items;
      forall i | 0 <= i < |items|
        ensures r[i] == q[i] <==> TypesStand(items[i], hi, lo)
      {
        PayloadComposes(items[i], hi, lo);
      }
      assert r == q <==> forall i :: 0 <= i < |items| ==> r[i] == q[i];
    case Object(o) =>
      if IsEntity(o) {
        EntityPayloadComposes(o, hi, lo);
      } else if TypeOf(o) == "Notification" && "data" in o {
        PayloadComposes(o["data"], hi, lo);
        NotificationComposes(o, AmendPayload(o["data"], hi), lo);
        DataReplaced(o["data" := AmendPayload(o["data"], lo)], AmendPayload(AmendPayload(o["data"], hi), lo));
      }
    case _ =>
  }

  lemma NotificationComposes(o: Members, d: Json, lo: Version)
    requires TypeOf(o) == "Notification" && "data" in o
    ensures AmendPayload(Object(o["data" := d]), lo) == Object(o["data" := AmendPayload(o["data"], lo)]["data" := AmendPayload(d, lo)])
  {
    var m := o["data" := d];
    assert TypeOf(m) == TypeOf(o);
    assert m["data" := AmendPayload(d, lo)] == o["data" := AmendPayload(o["data"], lo)]["data" := AmendPayload(d, lo)];
  }

  lemma EntityPayloadComposes(o: Members, hi: Version, lo: Version)
    requires !Earlier(hi, lo) && IsEntity(o)
    ensures AmendPayload(AmendPayload(Object(o), hi), lo) == AmendPayload(Object(o), lo) <==> TypesStand(Object(o), hi, lo)
  {
    var p := AmendEntity(Object(o), hi).members;
    EntityComposes(Object(o), hi, lo);
    AmendedNames(o, hi);
    if Earlier(hi, Version(1, 3)) && IsReserved(TypeOf(p)) {
      assert FirstType(o["type"]) == Text(TypeOf(p));
      EarlyEntity(o, hi, lo);
      if Renamed(o, hi) && "data" in o {
        DataConforms(o["data"], hi, lo);
        PayloadFixpoint(p["data"], lo);
        DataReplaced(p, AmendPayload(p["data"], lo));
      }
    }
  }

  /** What an Entity's amendment leaves for the next reading of the payload. */
  lemma AmendedNames(o: Members, ver: Version)
    requires IsEntity(o)
    ensures var p := AmendEntity(Object(o), ver).members;
            && "id" in p && "type" in p && ("data" in p <==> "data" in o)
            && p["type"] == (if Earlier(ver, Version(1, 3)) then FirstType(o["type"]) else o["type"])
            && ("data" in o && Earlier(ver, NATIVE) ==> p["data"] == AmendAttr(o["data"], ver))
  {
  }

  /** No type list of the payload names Notification, or a list, first. */
  ghost predicate TypesPlain(doc: Json) {
    match doc
    case Array(items) => forall i :: 0 <= i < |items| ==> TypesPlain(items[i])
    case Object(o) =>
      && ("type" in o && o["type"].Array? && o["type"].items != [] ==>
            o["type"].items[0] != Text("Notification") && !o["type"].items[0].Array?)
      && (TypeOf(o) == "Notification" && "data" in o ==> TypesPlain(o["data"]))
    case _ => true
  }

  lemma {:induction false} PlainTypesStand(doc: Json, hi: Version, lo: Version)
    requires !Earlier(hi, Version(1, 3)) || TypesPlain(doc)
    ensures TypesStand(doc, hi, lo)
    decreases doc
  {
    match doc
    case Array(items) =>
      forall i | 0 <= i < |items|
        ensures TypesStand(items[i], hi, lo)
      {
        PlainTypesStand(items[i], hi, lo);
      }
    case Object(o) =>
      if TypeOf(o) == "Notification" {
        if "data" in o { PlainTypesStand(o["data"], hi, lo); }
      } else if IsEntity(o) {
        assert !o["type"].Array? ==> o["type"] != Text("Notification");
      }
    case _ =>
  }

  /** Two downgrades of a payload are one wherever the first is to 1.3 or later, or no type list names Notification or a
      list first. */
  lemma PlainPayloadComposes(doc: Json, hi: Version, lo: Version)
    requires !Earlier(hi, lo) && (!Earlier(hi, Version(1, 3)) || TypesPlain(doc))
    ensures AmendPayload(AmendPayload(doc, hi), lo) == AmendPayload(doc, lo)
  {
    PlainTypesStand(doc, hi, lo);
    PayloadComposes(doc, hi, lo);
  }

  /** An Entity that 1.0 knows as a Notification: a second downgrade takes from inside the value of its Attribute
      `data` what the first one had left there. */
  lemma RenamedDiffers(o: Members, data: Members, inner: Members, ver: Version)
    requires ver == Version(1, 0) && "observedAt" in inner && TypeOf(data) == "Property"
    requires "id" in data && "type" in data && "value" in data && data["value"] == Object(inner)
    requires "id" in o && "type" in o && o["type"] == Array([Text("Notification")]) && "data" in o && o["data"] == Object(data)
    ensures AmendPayload(AmendPayload(Object(o), ver), ver) != AmendPayload(Object(o), ver) && !NestedType(Object(o), ver)
  {
    DataStillAmends(data, inner, ver);
    PayloadComposes(Object(o), ver, ver);
    assert TypeOf(o) == "" && IsEntity(o) && Renamed(o, ver);
    assert !NestedType(Object(o), ver);
  }

  function Renaming(): Members {
    var inner: Members := map["observedAt" := Text("2026-01-01T00:00:00Z")];
    var data: Members := map["id" := Text("urn:x"), "type" := Text("Property"), "value" := Object(inner)];
    map["id" := Text("urn:e"), "type" := Array([Text("Notification")]), "data" := Object(data)]
  }

  lemma RenamedExample()
    ensures var doc, v := Object(Renaming()), Version(1, 0); AmendPayload(AmendPayload(doc, v), v) != AmendPayload(doc, v)
  {
    var o := Renaming();
    var data := o["data"].members;
    RenamedDiffers(o, data, data["value"].members, Version(1, 0));
  }

  lemma DataStillAmends(data: Members, inner: Members, ver: Version)
    requires ver == Version(1, 0) && "observedAt" in inner && TypeOf(data) == "Property"
    requires "id" in data && "type" in data && "value" in data && data["value"] == Object(inner)
    ensures !DataStands(Object(data), ver)
  {
    assert Earlier(ver, MemberSince("observedAt"));
    assert !Conforms(Object(inner), ver);
    assert LeftIn(data, "value") && !LeftConforms(data, "value", ver);
  }
}
