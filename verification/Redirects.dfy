/** The exclusive rule between a redirect and an exclusive registration (crates/antares-api/src/csource.rs, registry.rs). */
module Redirects {
  import opened Json
  import opened Registry

  // ---------- the clause's reading of an information element ----------

  /** An Entity selector takes an Entity id: it names it, its pattern finds it, or it restricts no ids. */
  predicate Selects(env: Env, ei: Json, id: string) {
    var own, pattern := GetText(ei, "id"), GetText(ei, "idPattern");
    || (own.None? && pattern.None?) || own == Some(id)
    || (pattern.Some? && env.compiles(pattern.value) && env.find(pattern.value, id))
  }

  predicate SelectsAt(env: Env, info: Json, id: string, k: nat) {
    k < |Entities(info)| && Selects(env, Entities(info)[k], id)
  }

  /** The information element is about this Entity. */
  ghost predicate Covers(env: Env, info: Json, id: string) {
    GetArray(info, "entities").None? || exists k: nat :: SelectsAt(env, info, id, k)
  }

  /** It is about this Attribute: it lists it, or lists none. */
  predicate Lists(info: Json, a: string) {
    AttrNames(info) == [] || a in AttrNames(info)
  }

  /** Both are about an Attribute that the exclusive one lists. */
  predicate AttrsMeet(redirect: Json, exclusive: Json) {
    AttrNames(redirect) == [] || Meets(AttrNames(redirect), AttrNames(exclusive))
  }

  lemma UnlistedNames(info: Json)
    requires NormalInfo(info)
    ensures AttrNames(info) == [] <==> GetArray(info, "propertyNames").None? && GetArray(info, "relationshipNames").None?
  {
    if GetArray(info, "propertyNames").Some? { ListedNames(info, "propertyNames"); }
    if GetArray(info, "relationshipNames").Some? { ListedNames(info, "relationshipNames"); }
  }

  // ---------- an exclusive after a redirect ----------

  /** An id of the exclusive element that a selector of the redirect takes, where the declared types meet. */
  predicate TakesAt(env: Env, info: Json, other: Json, id: string, k: nat) {
    id in Ids(Entities(info)) && SelectsAt(env, other, id, k) && TypesMeet(env, info, Entities(other)[k])
  }

  /** An exclusive element `info` meets a redirect element `other`. */
  ghost predicate MeetsRedirect(env: Env, info: Json, other: Json) {
    && AttrsMeet(other, info)
    && (GetArray(other, "entities").None? || exists id, k: nat :: TakesAt(env, info, other, id, k))
  }

  lemma SelectorTaken(env: Env, info: Json, other: Json, k: nat)
    requires NormalInfo(info) && ExclusiveInfo(info) && k < |Entities(other)|
    ensures EntityMatchesAt(env, SpecOf(info), other, k) <==> exists id :: TakesAt(env, info, other, id, k)
  {
    ExclusiveLists(info);
    var ei, ids := Entities(other)[k], Ids(Entities(info));
    if EntityMatchesAt(env, SpecOf(info), other, k) {
      var own, pattern := GetText(ei, "id"), GetText(ei, "idPattern");
      var id := if own.None? && pattern.None? then ids[0]
                else if own.Some? && own.value in ids then own.value
                else var i :| i in ids && env.find(pattern.value, i); i;
      assert TakesAt(env, info, other, id, k);
    }
  }

  lemma ExclusiveMeets(env: Env, info: Json, other: Json)
    requires NormalInfo(info) && ExclusiveInfo(info) && NormalInfo(other)
    ensures InfoMatches(env, SpecOf(info), other) <==> MeetsRedirect(env, info, other)
  {
    ExclusiveLists(info);
    UnlistedNames(other);
    if InfoMatches(env, SpecOf(info), other) && GetArray(other, "entities").Some? {
      var k :| 0 <= k < |Entities(other)| && EntityMatchesAt(env, SpecOf(info), other, k);
      SelectorTaken(env, info, other, k);
    }
    if MeetsRedirect(env, info, other) && GetArray(other, "entities").Some? {
      var id, k: nat :| TakesAt(env, info, other, id, k);
      SelectorTaken(env, info, other, k);
    }
  }

  predicate NormalAt(infos: seq<Json>, i: nat)
    requires i < |infos|
  {
    NormalInfo(infos[i])
  }

  predicate Normals(infos: seq<Json>) {
    forall i :: 0 <= i < |infos| ==> NormalAt(infos, i)
  }

  ghost predicate PairMeets(env: Env, infos: seq<Json>, i: nat, others: seq<Json>, j: nat) {
    i < |infos| && j < |others| && MeetsRedirect(env, infos[i], others[j])
  }

  ghost predicate AnyMeets(env: Env, infos: seq<Json>, others: seq<Json>) {
    exists i: nat, j: nat :: PairMeets(env, infos, i, others, j)
  }

  /** An exclusive registration is found to overlap a redirect one exactly when some selector of the redirect takes an
      Entity id of the exclusive, where the declared types meet, for an Attribute that both are about. */
  lemma {:induction false} ExclusiveOverRedirect(env: Env, infos: seq<Json>, others: seq<Json>)
    requires Exclusives(infos) && Normals(others)
    ensures InfosOverlap(env, infos, others) <==> AnyMeets(env, infos, others)
  {
    if InfosOverlap(env, infos, others) {
      var i :| 0 <= i < |infos| && OverlapsAt(env, infos, others, i);
      var j :| 0 <= j < |others| && InfoMatchesAt(env, SpecOf(infos[i]), others, j);
      assert ExclusiveAt(infos, i) && NormalAt(others, j);
      ExclusiveMeets(env, infos[i], others[j]);
      assert PairMeets(env, infos, i, others, j);
    }
    if AnyMeets(env, infos, others) {
      var i: nat, j: nat :| PairMeets(env, infos, i, others, j);
      assert ExclusiveAt(infos, i) && NormalAt(others, j);
      ExclusiveMeets(env, infos[i], others[j]);
      assert InfoMatchesAt(env, SpecOf(infos[i]), others, j);
      assert OverlapsAt(env, infos, others, i);
    }
  }

  // ---------- a redirect after an exclusive ----------

  /** The code's reading of an information element that is checked: all its ids, its first pattern, and no
      restriction only where there is neither. */
  predicate Reaches(env: Env, info: Json, id: string) {
    var ids, pattern := Ids(Entities(info)), FirstPattern(Entities(info));
    || id in ids || (pattern.Some? && env.compiles(pattern.value) && env.find(pattern.value, id))
    || (ids == [] && pattern.None?)
  }

  /** A redirect element `info` meets an Entity of an exclusive element `other`. */
  predicate ReachesAt(env: Env, info: Json, other: Json, k: nat) {
    && k < |Entities(other)| && GetText(Entities(other)[k], "id").Some?
    && Reaches(env, info, GetText(Entities(other)[k], "id").value) && TypesMeet(env, info, Entities(other)[k])
  }

  ghost predicate MeetsExclusive(env: Env, info: Json, other: Json) {
    AttrsMeet(info, other) && exists k: nat :: ReachesAt(env, info, other, k)
  }

  lemma EntityReached(env: Env, info: Json, other: Json, k: nat)
    requires ExclusiveInfo(other) && k < |Entities(other)|
    ensures EntityMatchesAt(env, SpecOf(info), other, k) <==> ReachesAt(env, info, other, k)
  {
    assert NamesOneEntity(Entities(other)[k]);
  }

  lemma AttrsRead(info: Json, other: Json)
    requires NormalInfo(other) && ExclusiveInfo(other)
    ensures AttrsMatchInfo(SpecOf(info).attrs, other) <==> AttrsMeet(info, other)
  {
    ExclusiveLists(other);
    UnlistedNames(other);
  }

  lemma EntitiesReached(env: Env, info: Json, other: Json)
    requires ExclusiveInfo(other)
    ensures (exists k :: 0 <= k < |Entities(other)| && EntityMatchesAt(env, SpecOf(info), other, k))
       <==> exists k: nat :: ReachesAt(env, info, other, k)
  {
    if k :| 0 <= k < |Entities(other)| && EntityMatchesAt(env, SpecOf(info), other, k) {
      EntityReached(env, info, other, k);
    }
    if k: nat :| ReachesAt(env, info, other, k) {
      EntityReached(env, info, other, k);
    }
  }

  lemma {:induction false} RedirectMeets(env: Env, info: Json, other: Json)
    requires NormalInfo(other) && ExclusiveInfo(other)
    ensures InfoMatches(env, SpecOf(info), other) <==> MeetsExclusive(env, info, other)
  {
    AttrsRead(info, other);
    EntitiesReached(env, info, other);
  }

  ghost predicate PairReaches(env: Env, infos: seq<Json>, i: nat, others: seq<Json>, j: nat) {
    i < |infos| && j < |others| && MeetsExclusive(env, infos[i], others[j])
  }

  ghost predicate AnyReaches(env: Env, infos: seq<Json>, others: seq<Json>) {
    exists i: nat, j: nat :: PairReaches(env, infos, i, others, j)
  }

  /** A redirect registration is found to overlap an exclusive one exactly when, as the code reads it, it reaches an
      Entity id of the exclusive where the declared types meet, for an Attribute that both are about. */
  lemma {:induction false} RedirectOverExclusive(env: Env, infos: seq<Json>, others: seq<Json>)
    requires Exclusives(others)
    ensures InfosOverlap(env, infos, others) <==> AnyReaches(env, infos, others)
  {
    if InfosOverlap(env, infos, others) {
      var i :| 0 <= i < |infos| && OverlapsAt(env, infos, others, i);
      var j :| 0 <= j < |others| && InfoMatchesAt(env, SpecOf(infos[i]), others, j);
      assert ExclusiveAt(others, j);
      RedirectMeets(env, infos[i], others[j]);
      assert PairReaches(env, infos, i, others, j);
    }
    if AnyReaches(env, infos, others) {
      var i: nat, j: nat :| PairReaches(env, infos, i, others, j);
      assert ExclusiveAt(others, j);
      RedirectMeets(env, infos[i], others[j]);
      assert InfoMatchesAt(env, SpecOf(infos[i]), others, j);
      assert OverlapsAt(env, infos, others, i);
    }
  }

  // ---------- where the code reads what the clause says ----------

  predicate Unrestricted(ei: Json) {
    GetText(ei, "id").None? && GetText(ei, "idPattern").None?
  }

  predicate SimpleAt(es: seq<Json>, k: nat)
    requires k < |es|
  {
    && (GetText(es[k], "idPattern").Some? ==> GetText(es[k], "idPattern") == FirstPattern(es))
    && (Unrestricted(es[k]) ==> Ids(es) == [] && FirstPattern(es) == None)
  }

  /** One pattern at most, and no selector without id and pattern beside one that has any. */
  predicate Simple(info: Json) {
    forall k :: 0 <= k < |Entities(info)| ==> SimpleAt(Entities(info), k)
  }

  lemma {:induction false} FirstPatternIs(es: seq<Json>)
    ensures FirstPattern(es).Some? ==> exists k :: 0 <= k < |es| && GetText(es[k], "idPattern") == FirstPattern(es)
    ensures FirstPattern(es).None? ==> forall k :: 0 <= k < |es| ==> GetText(es[k], "idPattern").None?
  {
    if es != [] {
      FirstPatternIs(es[1..]);
      if GetText(es[0], "idPattern").None? {
        forall k | 0 < k < |es| && FirstPattern(es).None?
          ensures GetText(es[k], "idPattern").None?
        {
          assert es[1..][k - 1] == es[k];
        }
      }
    }
  }

  /** What the code reads is in the clause, */
  lemma ReachedIsCovered(env: Env, info: Json, id: string)
    requires NormalInfo(info) && Reaches(env, info, id)
    ensures Covers(env, info, id)
  {
    var es := Entities(info);
    FirstPatternIs(es);
    IdsHold(es, id);
    if GetArray(info, "entities").Some? {
      var k := if id in Ids(es) then var k :| 0 <= k < |es| && GetText(es[k], "id") == Some(id); k
               else if FirstPattern(es).Some? then var k :| 0 <= k < |es| && GetText(es[k], "idPattern") == FirstPattern(es); k
               else 0;
      if Ids(es) == [] && FirstPattern(es).None? && GetText(es[0], "id").Some? { IdsHold(es, GetText(es[0], "id").value); }
      assert SelectsAt(env, info, id, k);
    }
  }

  /** and all of it, where the element is simple. */
  lemma CoveredIsReached(env: Env, info: Json, id: string)
    requires Simple(info) && Covers(env, info, id)
    ensures Reaches(env, info, id)
  {
    var es := Entities(info);
    if GetArray(info, "entities").Some? {
      var k: nat :| SelectsAt(env, info, id, k);
      assert SimpleAt(es, k);
      IdsHold(es, id);
    }
  }

  /** Where it is not, some Entity of the clause's is not the code's, whatever the ids. */
  lemma NotSimple(info: Json) returns (env: Env, id: string)
    requires NormalInfo(info) && !Simple(info)
    ensures Covers(env, info, id) && !Reaches(env, info, id)
  {
    var es := Entities(info);
    var k :| 0 <= k < |es| && !SimpleAt(es, k);
    id := Fresh(Ids(es));
    var pattern := GetText(es[k], "idPattern");
    env := Env(p => true, (p, i) => pattern == Some(p) && pattern != FirstPattern(es), (t, d) => false);
    FirstPatternIs(es);
    FreshIsFresh(Ids(es));
    assert SelectsAt(env, info, id, k);
  }

  /** An id that a list does not hold. */
  function Fresh(ids: seq<string>): string {
    if ids == [] then "a" else Fresh(ids[1..]) + ids[0]
  }

  lemma {:induction false} FreshIsLonger(ids: seq<string>, i: nat)
    requires i < |ids|
    ensures |Fresh(ids)| > |ids[i]|
  {
    if i > 0 { FreshIsLonger(ids[1..], i - 1); } else { FreshIsNamed(ids[1..]); }
  }

  lemma {:induction false} FreshIsNamed(ids: seq<string>)
    ensures Fresh(ids) != []
  {
    if ids != [] { FreshIsNamed(ids[1..]); }
  }

  lemma FreshIsFresh(ids: seq<string>)
    ensures Fresh(ids) !in ids
  {
    forall i | 0 <= i < |ids|
      ensures ids[i] != Fresh(ids)
    {
      FreshIsLonger(ids, i);
    }
  }

  // ---------- the clause ----------

  /** Clause 4.3.6.3: the redirect element is about this Entity and this Attribute, and the exclusive one names them. */
  ghost predicate SharedBy(env: Env, redirect: Json, exclusive: Json, id: string, a: string) {
    && Covers(env, redirect, id) && Lists(redirect, a)
    && id in Ids(Entities(exclusive)) && a in AttrNames(exclusive)
  }

  ghost predicate PairShared(env: Env, redirects: seq<Json>, i: nat, exclusives: seq<Json>, j: nat, id: string, a: string) {
    i < |redirects| && j < |exclusives| && SharedBy(env, redirects[i], exclusives[j], id, a)
  }

  ghost predicate Shared(env: Env, redirects: seq<Json>, exclusives: seq<Json>, id: string, a: string) {
    exists i: nat, j: nat :: PairShared(env, redirects, i, exclusives, j, id, a)
  }

  predicate IsSimpleAt(infos: seq<Json>, i: nat)
    requires i < |infos|
  {
    Simple(infos[i])
  }

  predicate AllSimple(infos: seq<Json>) {
    forall i :: 0 <= i < |infos| ==> IsSimpleAt(infos, i)
  }

  lemma {:induction false} SharedElement(env: Env, info: Json, other: Json, id: string, a: string)
    requires UntypedInfo(info) && Simple(info) && SharedBy(env, info, other, id, a)
    ensures MeetsExclusive(env, info, other)
  {
    CoveredIsReached(env, info, id);
    IdsHold(Entities(other), id);
    var k :| 0 <= k < |Entities(other)| && GetText(Entities(other)[k], "id") == Some(id);
    assert ReachesAt(env, info, other, k);
  }

  /** A redirect without declared types whose elements are simple overlaps every exclusive it shares an Entity and an
      Attribute with. */
  lemma {:induction false} SharedIsReached(env: Env, infos: seq<Json>, others: seq<Json>, id: string, a: string)
    requires Exclusives(others) && Untyped(infos) && AllSimple(infos) && Shared(env, infos, others, id, a)
    ensures InfosOverlap(env, infos, others)
  {
    var i: nat, j: nat :| PairShared(env, infos, i, others, j, id, a);
    assert IsSimpleAt(infos, i) && UntypedInfo(infos[i]);
    SharedElement(env, infos[i], others[j], id, a);
    assert PairReaches(env, infos, i, others, j);
    RedirectOverExclusive(env, infos, others);
  }

  lemma {:induction false} SharedSelector(env: Env, info: Json, other: Json, id: string, a: string)
    requires UntypedInfo(info) && SharedBy(env, other, info, id, a)
    ensures MeetsRedirect(env, info, other)
  {
    if GetArray(other, "entities").Some? {
      var k: nat :| SelectsAt(env, other, id, k);
      assert TakesAt(env, info, other, id, k);
    }
  }

  /** An exclusive without declared types overlaps every redirect it shares an Entity and an Attribute with. */
  lemma {:induction false} SharedIsMet(env: Env, infos: seq<Json>, others: seq<Json>, id: string, a: string)
    requires Exclusives(infos) && Normals(others) && Untyped(infos) && Shared(env, others, infos, id, a)
    ensures InfosOverlap(env, infos, others)
  {
    var j: nat, i: nat :| PairShared(env, others, j, infos, i, id, a);
    assert UntypedInfo(infos[i]);
    SharedSelector(env, infos[i], others[j], id, a);
    assert PairMeets(env, infos, i, others, j);
    ExclusiveOverRedirect(env, infos, others);
  }

  lemma {:induction false} MeetingShares(env: Env, info: Json, other: Json) returns (id: string, a: string)
    requires NormalInfo(info) && NormalInfo(other) && ExclusiveInfo(other) && MeetsExclusive(env, info, other)
    ensures SharedBy(env, info, other, id, a)
  {
    var k: nat :| ReachesAt(env, info, other, k);
    id := GetText(Entities(other)[k], "id").value;
    ReachedIsCovered(env, info, id);
    IdsHold(Entities(other), id);
    ExclusiveLists(other);
    a := SharedName(AttrNames(info), AttrNames(other));
  }

  lemma SharedName(a: seq<string>, b: seq<string>) returns (x: string)
    requires b != [] && (a == [] || Meets(a, b))
    ensures x in b && (a == [] || x in a)
  {
    if a == [] { x := b[0]; } else { x :| x in a && x in b; }
  }

  /** A redirect that matches an exclusive shares an Entity and an Attribute with it. */
  lemma {:induction false} ReachedIsShared(env: Env, infos: seq<Json>, others: seq<Json>) returns (id: string, a: string)
    requires Normals(infos) && Exclusives(others) && InfosOverlap(env, infos, others)
    ensures Shared(env, infos, others, id, a)
  {
    RedirectOverExclusive(env, infos, others);
    var i: nat, j: nat :| PairReaches(env, infos, i, others, j);
    assert NormalAt(infos, i) && ExclusiveAt(others, j);
    id, a := MeetingShares(env, infos[i], others[j]);
    assert PairShared(env, infos, i, others, j, id, a);
  }
}
