/** Type and Attribute discovery under a downgrade (crates/antares-api/src/types_attrs.rs, conformance.rs). */
module Discovery {
  import opened Json
  import opened Conformance
  import opened Payloads

  // ---------- listings ----------

  /** Nothing in the value is of a later type or a later member, or looks like a temporal instance. */
  predicate Plain(v: Json) {
    match v
    case Array(items) => forall i :: 0 <= i < |items| ==> Plain(items[i])
    case Object(m) =>
      TypeSince(TypeOf(m)) == Version(0, 0) && forall k :: k in m ==> MemberSince(k) == Version(0, 0) && k != "instanceId" && Plain(m[k])
    case _ => true
  }

  /** A plain value uses nothing introduced after 1.2 but its lists. */
  lemma {:induction false} PlainConforms(v: Json, ver: Version)
    requires Plain(v) && !Earlier(ver, Version(1, 3))
    ensures Conforms(v, ver)
    decreases v
  {
    match v
    case Array(items) =>
      forall i | 0 <= i < |items|
        ensures Conforms(items[i], ver)
      {
        PlainConforms(items[i], ver);
      }
    case Object(m) =>
      forall k | k in m && !IsOwn(k)
        ensures Conforms(m[k], ver)
      {
        PlainConforms(m[k], ver);
      }
    case _ =>
  }

  /** Read as an Attribute, a list conforms to a version before 1.3 only if it is empty. */
  lemma PlainList(items: seq<Json>, ver: Version)
    requires Plain(Array(items))
    ensures Conforms(Array(items), ver) <==> !Earlier(ver, Version(1, 3)) || items == []
  {
    if !Earlier(ver, Version(1, 3)) {
      PlainConforms(Array(items), ver);
    } else {
      forall i | 0 <= i < |items|
        ensures Get(items[i], "instanceId").None?
      {
        assert Plain(items[i]);
      }
    }
  }

  predicate PlainAt(o: Members, k: string) {
    k in o && !IsMeta(k) ==> !o[k].Object? && Plain(o[k])
  }

  /** A resource that is read as an Entity and holds scalars and plain lists. */
  ghost predicate Listing(o: Members) {
    IsEntity(o) && o["type"].Text? && "scope" !in o && "expiresAt" !in o && forall k :: PlainAt(o, k)
  }

  predicate FilledAt(o: Members, k: string) {
    k in o && !IsMeta(k) && o[k].Array? && o[k].items != []
  }

  ghost predicate Filled(o: Members) {
    exists k :: FilledAt(o, k)
  }

  /** A listing passes as it is if and only if the version is 1.3 or later or all its lists are empty. */
  lemma ListingUntouched(o: Members, ver: Version)
    requires Listing(o)
    ensures AmendPayload(Object(o), ver) == Object(o) <==> !Earlier(ver, Version(1, 3)) || !Filled(o)
  {
    PayloadFixpoint(Object(o), ver);
    forall k
      ensures MemberConforms(o, k, ver) <==> !Earlier(ver, Version(1, 3)) || !FilledAt(o, k)
    {
      MemberOfListing(o, ver, k);
    }
    if Filled(o) {
      var k :| FilledAt(o, k);
      assert EntityConforms(Object(o), ver) && Earlier(ver, NATIVE) ==> MemberConforms(o, k, ver);
    }
  }

  lemma MemberOfListing(o: Members, ver: Version, k: string)
    requires Listing(o)
    ensures MemberConforms(o, k, ver) <==> !Earlier(ver, Version(1, 3)) || !FilledAt(o, k)
  {
    assert PlainAt(o, k);
    if k in o && !IsMeta(k) && o[k].Array? { PlainList(o[k].items, ver); }
  }

  // ---------- the resources ----------

  /** Clauses 5.2.24 to 5.2.28 and 5.2.40, as the broker serves them; an Attribute without and with its count. */
  datatype Resource =
    | TypeList(id: string, types: seq<string>)
    | TypeEntry(id: string, name: string, attrs: seq<string>)
    | TypeInfo(id: string, name: string, count: nat, details: seq<Detail>)
    | AttrList(id: string, attrs: seq<string>)
    | AttrEntry(id: string, name: string, types: seq<string>)
    | AttrInfo(id: string, name: string, count: nat, kinds: seq<string>, types: seq<string>)
    | Identity(id: string, alias: string, uptime: string, at: string)

  /** One element of `attributeDetails`. */
  datatype Detail = Detail(id: string, name: string, kinds: seq<string>)

  function NameList(a: seq<string>): Json {
    Array(seq(|a|, i requires 0 <= i < |a| => Text(a[i])))
  }

  function ServedDetail(d: Detail): Json {
    Object(map["id" := Text(d.id), "type" := Text("Attribute"), "attributeName" := Text(d.name), "attributeTypes" := NameList(d.kinds)])
  }

  function Named(id: string, ty: string): Members {
    map["id" := Text(id), "type" := Text(ty)]
  }

  function Served(r: Resource): Members {
    match r
    case TypeList(id, types) => Named(id, "EntityTypeList")["typeList" := NameList(types)]
    case TypeEntry(id, name, attrs) => Named(id, "EntityType")["typeName" := Text(name)]["attributeNames" := NameList(attrs)]
    case TypeInfo(id, name, count, details) =>
      Named(id, "EntityTypeInfo")["typeName" := Text(name)]["entityCount" := Integer(count)]
        ["attributeDetails" := Array(seq(|details|, i requires 0 <= i < |details| => ServedDetail(details[i])))]
    case AttrList(id, attrs) => Named(id, "AttributeList")["attributeList" := NameList(attrs)]
    case AttrEntry(id, name, types) => Named(id, "Attribute")["attributeName" := Text(name)]["typeNames" := NameList(types)]
    case AttrInfo(id, name, count, kinds, types) =>
      Named(id, "Attribute")["attributeName" := Text(name)]["attributeCount" := Integer(count)]
        ["attributeTypes" := NameList(kinds)]["typeNames" := NameList(types)]
    case Identity(id, alias, uptime, at) =>
      Named(id, "ContextSourceIdentity")["contextSourceAlias" := Text(alias)]["contextSourceUptime" := Text(uptime)]["contextSourceTimeAt" := Text(at)]
  }

  /** A list of the resource has an element. */
  predicate Lists(r: Resource) {
    match r
    case TypeList(_, types) => types != []
    case TypeEntry(_, _, attrs) => attrs != []
    case TypeInfo(_, _, _, details) => details != []
    case AttrList(_, attrs) => attrs != []
    case AttrEntry(_, _, types) => types != []
    case AttrInfo(_, _, _, kinds, types) => kinds != [] || types != []
    case Identity(_, _, _, _) => false
  }

  lemma DetailIsPlain(d: Detail)
    ensures Plain(ServedDetail(d))
  {
    assert Plain(NameList(d.kinds));
  }

  lemma NamesArePlain(a: seq<string>)
    ensures Plain(NameList(a)) && (NameList(a).items == [] <==> a == [])
  {
  }

  lemma DetailsArePlain(details: seq<Detail>)
    ensures forall i :: 0 <= i < |details| ==> Plain(ServedDetail(details[i]))
  {
    forall i | 0 <= i < |details|
      ensures Plain(ServedDetail(details[i]))
    {
      DetailIsPlain(details[i]);
    }
  }

  lemma NamedIsListing(id: string, ty: string)
    requires !IsReserved(ty)
    ensures Listing(Named(id, ty)) && !Filled(Named(id, ty))
  {
    var o := Named(id, ty);
    assert TypeOf(o) == ty && IsReserved("Notification");
    forall k
      ensures PlainAt(o, k) && !FilledAt(o, k)
    {
    }
  }

  /** One more member. */
  lemma WithMember(o: Members, k: string, v: Json)
    requires Listing(o) && !IsMeta(k) && k !in o && !v.Object? && Plain(v)
    ensures Listing(o[k := v]) && (Filled(o[k := v]) <==> Filled(o) || (v.Array? && v.items != []))
  {
    var p := o[k := v];
    assert TypeOf(p) == TypeOf(o);
    forall j
      ensures PlainAt(p, j) && (FilledAt(p, j) <==> if j == k then v.Array? && v.items != [] else FilledAt(o, j))
    {
      assert PlainAt(o, j);
    }
    if Filled(o) {
      var j :| FilledAt(o, j);
      assert FilledAt(p, j);
    }
    if v.Array? && v.items != [] { assert FilledAt(p, k); }
  }

  lemma WithText(o: Members, k: string, s: string)
    requires Listing(o) && !IsMeta(k) && k !in o
    ensures Listing(o[k := Text(s)]) && (Filled(o[k := Text(s)]) <==> Filled(o))
  {
    WithMember(o, k, Text(s));
  }

  lemma WithNames(o: Members, k: string, a: seq<string>)
    requires Listing(o) && !IsMeta(k) && k !in o
    ensures Listing(o[k := NameList(a)]) && (Filled(o[k := NameList(a)]) <==> Filled(o) || a != [])
  {
    NamesArePlain(a);
    WithMember(o, k, NameList(a));
  }

  lemma ServedIsListing(r: Resource)
    ensures Listing(Served(r)) && (Filled(Served(r)) <==> Lists(r))
  {
    match r
    case TypeList(id, types) =>
      NamedIsListing(id, "EntityTypeList");
      WithNames(Named(id, "EntityTypeList"), "typeList", types);
    case TypeEntry(id, name, attrs) =>
      var o := Named(id, "EntityType");
      NamedIsListing(id, "EntityType");
      WithText(o, "typeName", name);
      WithNames(o["typeName" := Text(name)], "attributeNames", attrs);
    case TypeInfo(_, _, _, _) => TypeInfoIsListing(r);
    case AttrList(id, attrs) =>
      NamedIsListing(id, "AttributeList");
      WithNames(Named(id, "AttributeList"), "attributeList", attrs);
    case AttrEntry(id, name, types) =>
      var o := Named(id, "Attribute");
      NamedIsListing(id, "Attribute");
      WithText(o, "attributeName", name);
      WithNames(o["attributeName" := Text(name)], "typeNames", types);
    case AttrInfo(_, _, _, _, _) => AttrInfoIsListing(r);
    case Identity(_, _, _, _) => IdentityIsListing(r);
  }

  lemma TypeInfoIsListing(r: Resource)
    requires r.TypeInfo?
    ensures Listing(Served(r)) && (Filled(Served(r)) <==> Lists(r))
  {
    var o, details := Named(r.id, "EntityTypeInfo"), r.details;
    NamedIsListing(r.id, "EntityTypeInfo");
    WithText(o, "typeName", r.name);
    o := o["typeName" := Text(r.name)];
    WithMember(o, "entityCount", Integer(r.count));
    o := o["entityCount" := Integer(r.count)];
    DetailsArePlain(details);
    WithMember(o, "attributeDetails", Array(seq(|details|, i requires 0 <= i < |details| => ServedDetail(details[i]))));
  }

  lemma AttrInfoIsListing(r: Resource)
    requires r.AttrInfo?
    ensures Listing(Served(r)) && (Filled(Served(r)) <==> Lists(r))
  {
    var o := Named(r.id, "Attribute");
    NamedIsListing(r.id, "Attribute");
    WithText(o, "attributeName", r.name);
    o := o["attributeName" := Text(r.name)];
    WithMember(o, "attributeCount", Integer(r.count));
    o := o["attributeCount" := Integer(r.count)];
    WithNames(o, "attributeTypes", r.kinds);
    WithNames(o["attributeTypes" := NameList(r.kinds)], "typeNames", r.types);
  }

  lemma IdentityIsListing(r: Resource)
    requires r.Identity?
    ensures Listing(Served(r)) && !Filled(Served(r))
  {
    var o := Named(r.id, "ContextSourceIdentity");
    NamedIsListing(r.id, "ContextSourceIdentity");
    WithText(o, "contextSourceAlias", r.alias);
    o := o["contextSourceAlias" := Text(r.alias)];
    WithText(o, "contextSourceUptime", r.uptime);
    WithText(o["contextSourceUptime" := Text(r.uptime)], "contextSourceTimeAt", r.at);
  }

  /** A discovery resource passes as it is if and only if the version is 1.3 or later or it lists nothing. */
  lemma DiscoveryUntouched(r: Resource, ver: Version)
    ensures AmendPayload(Object(Served(r)), ver) == Object(Served(r)) <==> !Earlier(ver, Version(1, 3)) || !Lists(r)
  {
    ServedIsListing(r);
    ListingUntouched(Served(r), ver);
  }

  function ServedPage(rs: seq<Resource>): Json {
    Array(seq(|rs|, i requires 0 <= i < |rs| => Object(Served(rs[i]))))
  }

  /** So does the page of them that `details=true` asks for. */
  lemma PageUntouched(rs: seq<Resource>, ver: Version)
    ensures AmendPayload(ServedPage(rs), ver) == ServedPage(rs)
       <==> !Earlier(ver, Version(1, 3)) || forall i :: 0 <= i < |rs| ==> !Lists(rs[i])
  {
    var a, b := ServedPage(rs).items, AmendPayload(ServedPage(rs), ver).items;
    forall i | 0 <= i < |rs|
      ensures b[i] == a[i] <==> !Earlier(ver, Version(1, 3)) || !Lists(rs[i])
    {
      DiscoveryUntouched(rs[i], ver);
    }
    assert b == a <==> forall i :: 0 <= i < |rs| ==> b[i] == a[i];
  }

  /** A client of a version before 1.3 is told of one Entity Type, by its bare name, whatever there are. */
  lemma TypeListCut(id: string, types: seq<string>, ver: Version)
    requires Earlier(ver, Version(1, 3)) && types != []
    ensures AmendPayload(Object(Served(TypeList(id, types))), ver) == Object(Named(id, "EntityTypeList")["typeList" := Text(types[0])])
  {
    var o := Served(TypeList(id, types));
    ServedIsListing(TypeList(id, types));
    FirstOfScalars(NameList(types).items, ver);
    assert o.Keys == {"id", "type", "typeList"};
    assert AmendMember("typeList", o["typeList"], ver) == Text(types[0]);
    assert AmendMember("id", o["id"], ver) == o["id"] && AmendMember("type", o["type"], ver) == o["type"];
  }

  predicate Scalar(v: Json) {
    !v.Object? && !v.Array?
  }

  lemma FirstOfScalars(items: seq<Json>, ver: Version)
    requires Earlier(ver, Version(1, 3)) && items != [] && forall i :: 0 <= i < |items| ==> Scalar(items[i])
    ensures AmendAttr(Array(items), ver) == items[0]
  {
    assert Scalar(items[0]) && Default(items) == 0;
  }

  /** The list of two types, asked for in 1.0. */
  lemma TypeListExample()
    ensures var doc := Object(Served(TypeList("urn:ngsi-ld:EntityTypeList:1", ["A", "B"])));
            AmendPayload(doc, Version(1, 0)) != doc
  {
    DiscoveryUntouched(TypeList("urn:ngsi-ld:EntityTypeList:1", ["A", "B"]), Version(1, 0));
  }

  // ---------- the simplified representation ----------

  /** An Entity in the simplified representation has values where a normalized one has Attributes, and the amendment
      does not tell them apart: a value that is a list is cut to one element. */
  lemma SimplifiedCut(o: Members, k: string, items: seq<Json>, ver: Version)
    requires Earlier(ver, Version(1, 3)) && IsEntity(o) && k in o && !IsMeta(k) && o[k] == Array(items)
    requires items != [] && forall i :: 0 <= i < |items| ==> Scalar(items[i])
    ensures Get(AmendPayload(Object(o), ver), k) == Some(items[0])
  {
    FirstOfScalars(items, ver);
  }
}
