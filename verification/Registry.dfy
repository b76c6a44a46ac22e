/** Which registrations match which (clause 5.12), the exclusive rule (4.3.6.3) and the entity conflicts of 5.9.2.4
    (crates/antares-api/src/registry.rs, crates/antares-api/src/csource.rs). */
module Registry {
  import opened Json

  /** Regular expressions and entity type selections, as one request sees them. */
  datatype Env = Env(compiles: string -> bool, find: (string, string) -> bool, selects: (string, seq<string>) -> bool)

  /** `CsrSpec`, the members a registration check fills. */
  datatype Spec = Spec(types: Option<seq<string>>, ids: Option<seq<string>>, idPattern: Option<string>, attrs: Option<seq<string>>)

  // ---------- reading a registration ----------

  function Or(a: Option<seq<Json>>): seq<Json> {
    if a.Some? then a.value else []
  }

  function Infos(doc: Members): seq<Json> {
    Or(GetArray(Object(doc), "information"))
  }

  function Entities(info: Json): seq<Json> {
    Or(GetArray(info, "entities"))
  }

  /** The Attribute names an information element lists. */
  function AttrNames(info: Json): seq<string> {
    Texts(Or(GetArray(info, "propertyNames"))) + Texts(Or(GetArray(info, "relationshipNames")))
  }

  /** `ei_types` */
  function EiTypes(ei: Json): seq<string> {
    match Get(ei, "type")
    case Some(Text(s)) => [s]
    case Some(Array(a)) => Texts(a)
    case _ => []
  }

  function Ids(es: seq<Json>): seq<string> {
    if es == [] then []
    else
      var p := Ids(es[..|es| - 1]);
      match GetText(es[|es| - 1], "id")
      case Some(id) => p + [id]
      case None => p
  }

  function Types(es: seq<Json>): seq<string> {
    if es == [] then [] else Types(es[..|es| - 1]) + EiTypes(es[|es| - 1])
  }

  function FirstPattern(es: seq<Json>): Option<string> {
    if es == [] then None
    else match GetText(es[0], "idPattern")
         case Some(p) => Some(p)
         case None => FirstPattern(es[1..])
  }

  lemma {:induction false} IdsHold(es: seq<Json>, id: string)
    ensures id in Ids(es) <==> exists k :: 0 <= k < |es| && GetText(es[k], "id") == Some(id)
  {
    if es != [] {
      var before := es[..|es| - 1];
      IdsHold(before, id);
      assert forall k :: 0 <= k < |before| ==> before[k] == es[k];
      if id in Ids(before) {
        var k :| 0 <= k < |before| && GetText(before[k], "id") == Some(id);
        assert GetText(es[k], "id") == Some(id);
      } else if GetText(es[|es| - 1], "id") == Some(id) {
        assert id in Ids(es);
      }
    }
  }

  // ---------- matching ----------

  predicate Meets(a: seq<string>, b: seq<string>) {
    exists x :: x in a && x in b
  }

  /** Some selection of the specification accepts the declared types. */
  predicate Selected(env: Env, types: seq<string>, declared: seq<string>) {
    exists t :: t in types && (t in declared || env.selects(t, declared))
  }

  /** `entity_info_matches` */
  predicate EntityInfoMatches(env: Env, spec: Spec, ei: Json) {
    if spec.types.Some? && EiTypes(ei) != [] && !Selected(env, spec.types.value, EiTypes(ei)) then false
    else
      var id, pattern := GetText(ei, "id"), GetText(ei, "idPattern");
      || (id.None? && pattern.None?)
      || (spec.ids.Some? &&
           ((id.Some? && id.value in spec.ids.value)
            || (pattern.Some? && env.compiles(pattern.value) && exists i :: i in spec.ids.value && env.find(pattern.value, i))))
      || (spec.idPattern.Some? &&
           ((id.Some? && env.compiles(spec.idPattern.value) && env.find(spec.idPattern.value, id.value)) || pattern.Some?))
      || (spec.ids.None? && spec.idPattern.None?)
  }

  /** `attrs_match_info` */
  predicate AttrsMatchInfo(attrs: Option<seq<string>>, info: Json) {
    || attrs.None? || attrs.value == []
    || (GetArray(info, "propertyNames").None? && GetArray(info, "relationshipNames").None?)
    || Meets(attrs.value, AttrNames(info))
  }

  predicate EntityMatchesAt(env: Env, spec: Spec, info: Json, k: nat)
    requires k < |Entities(info)|
  {
    EntityInfoMatches(env, spec, Entities(info)[k])
  }

  /** One element of `matching_infos`. */
  predicate InfoMatches(env: Env, spec: Spec, info: Json) {
    && (GetArray(info, "entities").Some? ==> exists k :: 0 <= k < |Entities(info)| && EntityMatchesAt(env, spec, info, k))
    && AttrsMatchInfo(spec.attrs, info)
  }

  predicate InfoMatchesAt(env: Env, spec: Spec, infos: seq<Json>, j: nat)
    requires j < |infos|
  {
    InfoMatches(env, spec, infos[j])
  }

  /** `csr_matches`, of a registration with these information elements. */
  predicate CsrMatches(env: Env, spec: Spec, infos: seq<Json>) {
    exists j :: 0 <= j < |infos| && InfoMatchesAt(env, spec, infos, j)
  }

  function NonEmpty(s: seq<string>): Option<seq<string>> {
    if s == [] then None else Some(s)
  }

  /** The specification `check_proxied_overlap` builds from one information element. */
  function SpecOf(info: Json): Spec {
    var es := Entities(info);
    Spec(NonEmpty(Types(es)), NonEmpty(Ids(es)), FirstPattern(es), NonEmpty(AttrNames(info)))
  }

  predicate OverlapsAt(env: Env, infos: seq<Json>, others: seq<Json>, i: nat)
    requires i < |infos|
  {
    CsrMatches(env, SpecOf(infos[i]), others)
  }

  predicate InfosOverlap(env: Env, infos: seq<Json>, others: seq<Json>) {
    exists i :: 0 <= i < |infos| && OverlapsAt(env, infos, others, i)
  }

  /** The stored registration matches some information element of the new one. */
  predicate Overlaps(env: Env, doc: Members, other: Members) {
    InfosOverlap(env, Infos(doc), Infos(other))
  }

  function Mode(doc: Members): string {
    match GetText(Object(doc), "mode")
    case Some(m) => m
    case None => "inclusive"
  }

  predicate Proxied(mode: string) {
    mode == "exclusive" || mode == "redirect"
  }

  /** Which stored modes the check of a new registration looks at. */
  predicate Guarded(mode: string, other: string) {
    if mode == "exclusive" then Proxied(other) else mode == "redirect" && other == "exclusive"
  }

  /** The visit of `check_proxied_overlap`: does this stored registration stand in the way? */
  predicate Blocks(env: Env, doc: Members, self: Option<string>, other: Members, expired: bool) {
    && GetText(Object(other), "id") != self
    && !expired
    && Guarded(Mode(doc), Mode(other))
    && Overlaps(env, doc, other)
  }

  // ---------- what stands in the way, by name ----------

  /** The `mode` member; a registration without one is inclusive. */
  ghost predicate IsMode(doc: Members, mode: string) {
    At(doc, "mode") == Some(Text(mode))
  }

  /** Clause 4.3.6.3: another live registration that overlaps, an exclusive or redirect one under a new exclusive, an
      exclusive one under a new redirect. */
  ghost predicate InTheWay(env: Env, doc: Members, self: Option<string>, other: Members, expired: bool) {
    && GetText(Object(other), "id") != self && !expired
    && ((IsMode(doc, "exclusive") && (IsMode(other, "exclusive") || IsMode(other, "redirect"))) || (IsMode(doc, "redirect") && IsMode(other, "exclusive")))
    && Overlaps(env, doc, other)
  }

  lemma ModeByName(doc: Members)
    ensures Mode(doc) == "exclusive" <==> IsMode(doc, "exclusive")
    ensures Mode(doc) == "redirect" <==> IsMode(doc, "redirect")
    ensures Proxied(Mode(doc)) <==> IsMode(doc, "exclusive") || IsMode(doc, "redirect")
  {
  }

  lemma GuardedByName(mode: string, other: string)
    ensures Guarded(mode, other) <==>
              (mode == "exclusive" && (other == "exclusive" || other == "redirect")) || (mode == "redirect" && other == "exclusive")
  {
  }

  lemma {:induction false} BlocksByName(env: Env, doc: Members, self: Option<string>, other: Members, expired: bool)
    ensures Blocks(env, doc, self, other, expired) <==> InTheWay(env, doc, self, other, expired)
  {
    ModeByName(doc);
    ModeByName(other);
    GuardedByName(Mode(doc), Mode(other));
  }

  // ---------- the shape of a registration ----------

  predicate IsText(v: Json) {
    v.Text?
  }

  predicate NormalNames(info: Json, k: string) {
    match Get(info, k)
    case None => true
    case Some(Array(a)) => a != [] && forall i :: 0 <= i < |a| ==> IsText(a[i])
    case _ => false
  }

  predicate NormalEntity(ei: Json) {
    (Get(ei, "id").Some? ==> Get(ei, "id").value.Text?) && (Get(ei, "idPattern").Some? ==> Get(ei, "idPattern").value.Text?)
  }

  predicate NormalEntities(info: Json) {
    match Get(info, "entities")
    case None => true
    case Some(Array(a)) => a != [] && forall k :: 0 <= k < |a| ==> NormalEntity(a[k])
    case _ => false
  }

  /** What `norm_registration_info` lets through. */
  predicate NormalInfo(info: Json) {
    info.Object? && NormalEntities(info) && NormalNames(info, "propertyNames") && NormalNames(info, "relationshipNames")
  }

  predicate Normal(doc: Members) {
    forall i :: 0 <= i < |Infos(doc)| ==> NormalInfo(Infos(doc)[i])
  }

  predicate NamesOneEntity(ei: Json) {
    GetText(ei, "id").Some? && Get(ei, "idPattern").None?
  }

  predicate ExclusiveInfo(info: Json) {
    && (Or(GetArray(info, "propertyNames")) != [] || Or(GetArray(info, "relationshipNames")) != [])
    && GetArray(info, "entities").Some?
    && forall k :: 0 <= k < |Entities(info)| ==> NamesOneEntity(Entities(info)[k])
  }

  /** `validate_exclusive` */
  predicate ValidExclusive(doc: Members) {
    Mode(doc) == "exclusive" ==> forall i :: 0 <= i < |Infos(doc)| ==> ExclusiveInfo(Infos(doc)[i])
  }

  // ---------- two exclusive registrations ----------

  predicate ExclusiveAt(infos: seq<Json>, i: nat)
    requires i < |infos|
  {
    NormalInfo(infos[i]) && ExclusiveInfo(infos[i])
  }

  /** The information of an exclusive registration, normalized and validated. */
  predicate Exclusives(infos: seq<Json>) {
    forall i :: 0 <= i < |infos| ==> ExclusiveAt(infos, i)
  }

  lemma ValidatedIsExclusive(doc: Members)
    requires Mode(doc) == "exclusive" && ValidExclusive(doc) && Normal(doc)
    ensures Exclusives(Infos(doc))
  {
  }

  /** The declared types do not keep the two apart. */
  predicate TypesMeet(env: Env, info: Json, ei: Json) {
    EiTypes(ei) == [] || Types(Entities(info)) == [] || Selected(env, Types(Entities(info)), EiTypes(ei))
  }

  /** A shared Entity id and a shared Attribute, and types that meet there. */
  predicate Clash(env: Env, info: Json, other: Json, ei: Json) {
    && GetText(ei, "id").Some? && GetText(ei, "id").value in Ids(Entities(info))
    && TypesMeet(env, info, ei)
    && Meets(AttrNames(info), AttrNames(other))
  }

  predicate ClashAt(env: Env, info: Json, other: Json, k: nat) {
    k < |Entities(other)| && Clash(env, info, other, Entities(other)[k])
  }

  ghost predicate InfosClash(env: Env, info: Json, other: Json) {
    exists k: nat :: ClashAt(env, info, other, k)
  }

  ghost predicate PairClashes(env: Env, infos: seq<Json>, i: nat, others: seq<Json>, j: nat) {
    i < |infos| && j < |others| && InfosClash(env, infos[i], others[j])
  }

  ghost predicate Clashes(env: Env, infos: seq<Json>, others: seq<Json>) {
    exists i: nat, j: nat :: PairClashes(env, infos, i, others, j)
  }

  lemma ExclusiveLists(info: Json)
    requires NormalInfo(info) && ExclusiveInfo(info)
    ensures AttrNames(info) != [] && Ids(Entities(info)) != [] && FirstPattern(Entities(info)) == None
  {
    var es := Entities(info);
    assert NamesOneEntity(es[0]);
    IdsHold(es, GetText(es[0], "id").value);
    NoPattern(es);
    if Or(GetArray(info, "propertyNames")) != [] {
      ListedNames(info, "propertyNames");
    } else {
      ListedNames(info, "relationshipNames");
    }
  }

  lemma ListedNames(info: Json, k: string)
    requires NormalNames(info, k) && Or(GetArray(info, k)) != []
    ensures Texts(Or(GetArray(info, k))) != []
  {
    var a := Or(GetArray(info, k));
    assert IsText(a[0]);
    TextsHold(a, a[0].text);
  }

  lemma {:induction false} NoPattern(es: seq<Json>)
    requires forall k :: 0 <= k < |es| ==> NamesOneEntity(es[k])
    ensures FirstPattern(es) == None
  {
    if es != [] {
      assert NamesOneEntity(es[0]);
      NoPattern(es[1..]);
    }
  }

  lemma EntityClash(env: Env, info: Json, other: Json, k: nat)
    requires NormalInfo(info) && ExclusiveInfo(info) && ExclusiveInfo(other) && k < |Entities(other)|
    ensures EntityMatchesAt(env, SpecOf(info), other, k)
        <==> GetText(Entities(other)[k], "id").Some? && GetText(Entities(other)[k], "id").value in Ids(Entities(info))
             && TypesMeet(env, info, Entities(other)[k])
  {
    ExclusiveLists(info);
    assert NamesOneEntity(Entities(other)[k]);
  }

  lemma InfoClash(env: Env, info: Json, other: Json)
    requires NormalInfo(info) && ExclusiveInfo(info) && NormalInfo(other) && ExclusiveInfo(other)
    ensures InfoMatches(env, SpecOf(info), other) <==> InfosClash(env, info, other)
  {
    ExclusiveLists(info);
    ExclusiveLists(other);
    var spec := SpecOf(info);
    assert AttrsMatchInfo(spec.attrs, other) <==> Meets(AttrNames(info), AttrNames(other));
    if InfoMatches(env, spec, other) {
      var k :| 0 <= k < |Entities(other)| && EntityMatchesAt(env, spec, other, k);
      EntityClash(env, info, other, k);
      assert ClashAt(env, info, other, k);
    }
    if InfosClash(env, info, other) {
      var k: nat :| ClashAt(env, info, other, k);
      EntityClash(env, info, other, k);
      assert EntityMatchesAt(env, spec, other, k);
    }
  }

  /** Two exclusive registrations are found to overlap exactly when some Entity id and Attribute are in
      both and the declared types meet there. */
  lemma {:induction false} ExclusivesMatch(env: Env, infos: seq<Json>, others: seq<Json>)
    requires Exclusives(infos) && Exclusives(others)
    ensures InfosOverlap(env, infos, others) <==> Clashes(env, infos, others)
  {
    if InfosOverlap(env, infos, others) {
      var i :| 0 <= i < |infos| && OverlapsAt(env, infos, others, i);
      var j :| 0 <= j < |others| && InfoMatchesAt(env, SpecOf(infos[i]), others, j);
      assert ExclusiveAt(infos, i) && ExclusiveAt(others, j);
      InfoClash(env, infos[i], others[j]);
      assert PairClashes(env, infos, i, others, j);
    }
    if Clashes(env, infos, others) {
      var i: nat, j: nat :| PairClashes(env, infos, i, others, j);
      assert ExclusiveAt(infos, i) && ExclusiveAt(others, j);
      InfoClash(env, infos[i], others[j]);
      assert InfoMatchesAt(env, SpecOf(infos[i]), others, j);
      assert OverlapsAt(env, infos, others, i);
    }
  }

  /** Clause 4.3.6.3: both name this Entity id and this Attribute. */
  predicate SharesAt(info: Json, other: Json, id: string, a: string) {
    id in Ids(Entities(info)) && a in AttrNames(info) && id in Ids(Entities(other)) && a in AttrNames(other)
  }

  predicate PairShares(infos: seq<Json>, i: nat, others: seq<Json>, j: nat, id: string, a: string) {
    i < |infos| && j < |others| && SharesAt(infos[i], others[j], id, a)
  }

  ghost predicate Shares(infos: seq<Json>, others: seq<Json>, id: string, a: string) {
    exists i: nat, j: nat :: PairShares(infos, i, others, j, id, a)
  }

  predicate UntypedInfo(info: Json) {
    Types(Entities(info)) == []
  }

  /** No declared types, as a registration for a single Entity need not have any. */
  predicate Untyped(infos: seq<Json>) {
    forall i :: 0 <= i < |infos| ==> UntypedInfo(infos[i])
  }

  lemma ClashShares(env: Env, info: Json, other: Json) returns (id: string, a: string)
    requires InfosClash(env, info, other)
    ensures SharesAt(info, other, id, a)
  {
    var k: nat :| ClashAt(env, info, other, k);
    id := GetText(Entities(other)[k], "id").value;
    IdsHold(Entities(other), id);
    a :| a in AttrNames(info) && a in AttrNames(other);
  }

  /** A match between exclusives is a shared Entity id and Attribute. */
  lemma {:induction false} MatchIsShared(env: Env, infos: seq<Json>, others: seq<Json>) returns (id: string, a: string)
    requires Exclusives(infos) && Exclusives(others) && InfosOverlap(env, infos, others)
    ensures Shares(infos, others, id, a)
  {
    ExclusivesMatch(env, infos, others);
    var i: nat, j: nat :| PairClashes(env, infos, i, others, j);
    id, a := ClashShares(env, infos[i], others[j]);
    assert PairShares(infos, i, others, j, id, a);
  }

  /** The converse, for a check made by a registration without declared types. */
  lemma {:induction false} SharedIsMatch(env: Env, infos: seq<Json>, others: seq<Json>, id: string, a: string)
    requires Exclusives(infos) && Exclusives(others) && Untyped(infos) && Shares(infos, others, id, a)
    ensures InfosOverlap(env, infos, others)
  {
    ExclusivesMatch(env, infos, others);
    var i: nat, j: nat :| PairShares(infos, i, others, j, id, a);
    var info, oinfo := infos[i], others[j];
    IdsHold(Entities(oinfo), id);
    var k :| 0 <= k < |Entities(oinfo)| && GetText(Entities(oinfo)[k], "id") == Some(id);
    assert UntypedInfo(info);
    assert ClashAt(env, info, oinfo, k);
    assert PairClashes(env, infos, i, others, j);
  }

  function OneEntity(id: string, t: string): Json {
    Object(map["id" := Text(id), "type" := Text(t)])
  }

  function OneInfo(id: string, t: string, a: string): Json {
    Object(map["entities" := Array([OneEntity(id, t)]), "propertyNames" := Array([Text(a)])])
  }

  lemma InfoReads(id: string, t: string, a: string)
    ensures var info, ei := OneInfo(id, t, a), OneEntity(id, t);
            && Entities(info) == [ei] && Ids([ei]) == [id] && Types([ei]) == [t] && EiTypes(ei) == [t] && AttrNames(info) == [a]
            && NormalInfo(info) && ExclusiveInfo(info)
  {
    var ei := OneEntity(id, t);
    assert [ei][..0] == [] && [Text(a)][..0] == [];
    assert Ids([ei]) == Ids([]) + [id];
    assert Types([ei]) == Types([]) + [t];
    assert Texts([Text(a)]) == Texts([]) + [a];
  }

  /** The rule of 4.3.6.3 is not met where the declared types differ: two exclusive registrations for one Entity id and
      one Attribute do not match. */
  lemma TypesKeepApart(env: Env, id: string, t: string, u: string, a: string)
    requires t != u && !env.selects(t, [u])
    ensures var infos, others := [OneInfo(id, t, a)], [OneInfo(id, u, a)];
            Exclusives(infos) && Exclusives(others) && Shares(infos, others, id, a) && !InfosOverlap(env, infos, others)
  {
    var infos, others := [OneInfo(id, t, a)], [OneInfo(id, u, a)];
    InfoReads(id, t, a);
    InfoReads(id, u, a);
    assert PairShares(infos, 0, others, 0, id, a);
    ExclusivesMatch(env, infos, others);
    forall i: nat, j: nat
      ensures !PairClashes(env, infos, i, others, j)
    {
      if i == 0 && j == 0 { InfosApart(env, id, t, u, a); }
    }
  }

  lemma {:induction false} InfosApart(env: Env, id: string, t: string, u: string, a: string)
    requires t != u && !env.selects(t, [u])
    ensures !InfosClash(env, OneInfo(id, t, a), OneInfo(id, u, a))
  {
    InfoReads(id, t, a);
    InfoReads(id, u, a);
    forall k: nat
      ensures !ClashAt(env, OneInfo(id, t, a), OneInfo(id, u, a), k)
    {
      if k == 0 { assert !Selected(env, [t], [u]); }
    }
  }

  // ---------- conflicts with stored entities ----------

  /** The id half of a selector. */
  predicate IdWanted(env: Env, ei: Json, eid: string) {
    match GetText(ei, "id")
    case Some(w) => w == eid
    case None =>
      match GetText(ei, "idPattern")
      case Some(p) => env.compiles(p) ==> env.find(p, eid)
      case None => true
  }

  predicate Wanted(env: Env, ei: Json, existing: Json) {
    var eid := GetText(existing, "id");
    && IdWanted(env, ei, if eid.Some? then eid.value else "")
    && (EiTypes(ei) != [] ==>
          GetArray(existing, "type").Some? && Meets(Texts(GetArray(existing, "type").value), EiTypes(ei)))
  }

  /** What the mode makes a conflict: any matching Entity, or one that already has a listed Attribute. */
  predicate Takes(mode: string, info: Json, existing: Json) {
    mode == "exclusive" ==> exists a :: a in AttrNames(info) && Get(existing, a).Some?
  }

  /** `hit` */
  predicate Hit(env: Env, mode: string, info: Json, existing: Json) {
    exists k :: 0 <= k < |Entities(info)| && Wanted(env, Entities(info)[k], existing) && Takes(mode, info, existing)
  }

  /** Every document carries the id it is stored under. */
  ghost predicate Identified(docs: Docs) {
    forall id :: id in docs ==> GetText(docs[id], "id") == Some(id)
  }

  predicate Keyed(info: Json) {
    forall k :: 0 <= k < |Entities(info)| ==> NamesOneEntity(Entities(info)[k])
  }

  /** A selector of the element takes this Entity: its id, or its pattern where it names none and the pattern compiles;
      and one of its types, where it declares any. */
  ghost predicate TakesEntity(env: Env, ei: Json, existing: Json) {
    var eid := if GetText(existing, "id").Some? then GetText(existing, "id").value else "";
    && (GetText(ei, "id").Some? ==> GetText(ei, "id").value == eid)
    && (GetText(ei, "id").None? && GetText(ei, "idPattern").Some? && env.compiles(GetText(ei, "idPattern").value) ==>
          env.find(GetText(ei, "idPattern").value, eid))
    && (EiTypes(ei) != [] ==> exists t :: t in EiTypes(ei) && TypedAs(existing, t))
  }

  ghost predicate TypedAs(existing: Json, t: string) {
    GetArray(existing, "type").Some? && Text(t) in GetArray(existing, "type").value
  }

  /** Clause 5.9.2.4: a selector takes the Entity, and under an exclusive registration the Entity has a listed
      Attribute already. */
  ghost predicate Conflicts(env: Env, mode: string, info: Json, existing: Json) {
    && (exists ei :: ei in Entities(info) && TakesEntity(env, ei, existing))
    && (mode == "exclusive" ==> exists a :: a in AttrNames(info) && Get(existing, a).Some?)
  }

  lemma {:induction false} WantedByName(env: Env, ei: Json, existing: Json)
    ensures Wanted(env, ei, existing) <==> TakesEntity(env, ei, existing)
  {
    if GetArray(existing, "type").Some? {
      var a := GetArray(existing, "type").value;
      forall t
        ensures t in Texts(a) <==> TypedAs(existing, t)
      {
        TextsHold(a, t);
      }
    }
  }

  lemma {:induction false} HitByName(env: Env, mode: string, info: Json, existing: Json)
    ensures Hit(env, mode, info, existing) <==> Conflicts(env, mode, info, existing)
  {
    forall ei
      ensures Wanted(env, ei, existing) <==> TakesEntity(env, ei, existing)
    {
      WantedByName(env, ei, existing);
    }
    if Conflicts(env, mode, info, existing) {
      var ei :| ei in Entities(info) && TakesEntity(env, ei, existing);
      var k :| 0 <= k < |Entities(info)| && Entities(info)[k] == ei;
      assert Wanted(env, Entities(info)[k], existing);
    }
  }

  ghost predicate HitAt(env: Env, mode: string, info: Json, docs: Docs, id: string) {
    id in docs && Conflicts(env, mode, info, docs[id])
  }

  /** Where every selector names an id, reading those Entities finds a conflict exactly when reading all would. */
  lemma KeyedFindsAll(env: Env, mode: string, info: Json, docs: Docs)
    requires Identified(docs) && Keyed(info)
    ensures (exists id :: id in Ids(Entities(info)) && HitAt(env, mode, info, docs, id))
       <==> (exists id :: HitAt(env, mode, info, docs, id))
  {
    forall id | HitAt(env, mode, info, docs, id)
      ensures id in Ids(Entities(info))
    {
      HitIsNamed(env, mode, info, docs, id);
    }
  }

  lemma HitIsNamed(env: Env, mode: string, info: Json, docs: Docs, id: string)
    requires Identified(docs) && Keyed(info) && HitAt(env, mode, info, docs, id)
    ensures id in Ids(Entities(info))
  {
    var ei :| ei in Entities(info) && TakesEntity(env, ei, docs[id]);
    var k :| 0 <= k < |Entities(info)| && Entities(info)[k] == ei;
    assert NamesOneEntity(Entities(info)[k]);
    IdsHold(Entities(info), id);
  }
}
