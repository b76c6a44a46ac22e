/** The distributed half of an attribute write: which registration covers what, and the one
    answer of clause 6.3.17 (crates/antares-api/src/attrs.rs, crates/antares-api/src/federation.rs). */
module Combine {
  import opened Json
  import opened EntityAttrs
  import opened Names

  /** A matching registration: whether it accepts the operation, and the Attributes it holds (`None` is all). */
  datatype Reg = Reg(id: string, proxy: bool, attrs: Option<set<string>>, supported: bool)

  predicate Covers(r: Reg, a: string) {
    r.attrs.None? || a in r.attrs.value
  }

  /** One forwarded part; status 0 marks an inclusive registration that was not contacted. */
  datatype Part = Part(status: nat, detail: string, refusal: bool)

  predicate Ok(p: Part) {
    200 <= p.status < 300 && p.status != 207
  }

  datatype LocalOutcome = Skipped | NotFound(detail: string) | Failed(detail: string) | Done

  datatype Answer =
    | NoContent
    | Loop
    | Missing(detail: string)
    | Conflict
    | Passed(status: nat, detail: string)
    | Multi(updated: seq<string>, notUpdated: seq<NotUpdated>)

  // ---------- the split of a fragment ----------

  predicate ProxyCovers(regs: seq<Reg>, a: string) {
    exists i :: 0 <= i < |regs| && regs[i].proxy && Covers(regs[i], a)
  }

  /** `proxies_cover_all` */
  predicate ProxiesCoverAll(regs: seq<Reg>, attrs: set<string>) {
    regs != [] && attrs != {} && forall a :: a in attrs ==> ProxyCovers(regs, a)
  }

  /** `strip_covered_expanded` */
  function StripCovered(frag: Members, regs: seq<Reg>): Members {
    map k | k in frag && (IsFragmentMeta(k) || !ProxyCovers(regs, k)) :: frag[k]
  }

  /** `fed_attr_parts`: one part per registration, in order; `reply` is what the peers answered. */
  method FedAttrParts(regs: seq<Reg>, reply: seq<Part>) returns (parts: seq<Part>)
    requires |reply| == |regs|
    ensures |parts| == |regs|
    ensures forall i :: 0 <= i < |regs| ==>
              parts[i] == if regs[i].supported then reply[i]
                          else if regs[i].proxy then Part(409, "exclusive registration does not accept", true)
                          else Part(0, "not forwarded", false)
  {
    parts := [];
    for i := 0 to |regs|
      invariant |parts| == i
      invariant forall j :: 0 <= j < i ==>
                  parts[j] == if regs[j].supported then reply[j]
                              else if regs[j].proxy then Part(409, "exclusive registration does not accept", true)
                              else Part(0, "not forwarded", false)
    {
      if !regs[i].supported {
        if regs[i].proxy {
          parts := parts + [Part(409, "exclusive registration does not accept", true)];
        } else {
          parts := parts + [Part(0, "not forwarded", false)];
        }
      } else {
        parts := parts + [reply[i]];
      }
    }
  }

  // ---------- what happened to one attribute ----------

  /** The registration holds the Attribute: it lists it, or lists none. */
  ghost predicate Holds(r: Reg, a: string) {
    r.attrs == None || exists s :: r.attrs == Some(s) && a in s
  }

  /** Some exclusive or redirect registration holds the Attribute. */
  ghost predicate HeldOutside(regs: seq<Reg>, a: string) {
    exists r :: r in regs && r.proxy && Holds(r, a)
  }

  /** The peer answered 200 to 299, and not 207. */
  ghost predicate Delivered(p: Part) {
    p.status >= 200 && p.status <= 299 && p.status != 207
  }

  lemma ReadByName(r: Reg, p: Part, a: string)
    ensures Covers(r, a) <==> Holds(r, a)
    ensures Ok(p) <==> Delivered(p)
  {
    if r.attrs.Some? { assert r.attrs == Some(r.attrs.value); }
  }

  lemma HeldByName(regs: seq<Reg>, a: string)
    ensures ProxyCovers(regs, a) <==> HeldOutside(regs, a)
  {
    forall r
      ensures Covers(r, a) <==> Holds(r, a)
    {
      ReadByName(r, Part(0, "", false), a);
    }
    if ProxyCovers(regs, a) {
      var i :| 0 <= i < |regs| && regs[i].proxy && Covers(regs[i], a);
      assert regs[i] in regs;
    }
  }

  /** Registration `i` applied attribute `a`. */
  ghost predicate FedApplied(regs: seq<Reg>, parts: seq<Part>, a: string, i: nat)
    requires |regs| == |parts|
  {
    i < |regs| && Delivered(parts[i]) && Holds(regs[i], a)
  }

  /** Registration `i` was contacted, covers `a` and failed. */
  ghost predicate FedFailed(regs: seq<Reg>, parts: seq<Part>, a: string, i: nat)
    requires |regs| == |parts|
  {
    i < |regs| && parts[i].status != 0 && !Delivered(parts[i]) && Holds(regs[i], a)
  }

  ghost predicate AppliedSomewhere(regs: seq<Reg>, parts: seq<Part>, updated: seq<string>, a: string)
    requires |regs| == |parts|
  {
    a in updated || exists i: nat :: FedApplied(regs, parts, a, i)
  }

  ghost predicate FailedSomewhere(regs: seq<Reg>, parts: seq<Part>, nu: seq<string>, a: string)
    requires |regs| == |parts|
  {
    a in nu || exists i: nat :: FedFailed(regs, parts, a, i)
  }

  ghost predicate AnyOk(parts: seq<Part>) {
    exists i :: 0 <= i < |parts| && Delivered(parts[i])
  }

  /** The local failure, spread over the attributes of the local half. */
  function LocalRefused(localAttrs: seq<string>, local: LocalOutcome): seq<NotUpdated> {
    if local.NotFound? || local.Failed?
    then seq(|localAttrs|, i requires 0 <= i < |localAttrs| => NotUpdated(localAttrs[i], local.detail, None))
    else []
  }

  // ---------- combine_attr_parts ----------

  /** The entry is what registration `i` refused of a touched Attribute it holds. */
  ghost predicate RefusedBy(attrs: seq<string>, regs: seq<Reg>, parts: seq<Part>, x: NotUpdated, i: nat)
    requires |regs| == |parts|
  {
    x.attr in attrs && FedFailed(regs, parts, x.attr, i) && x == NotUpdated(x.attr, parts[i].detail, Some(regs[i].id))
  }

  ghost predicate Refusal(attrs: seq<string>, regs: seq<Reg>, parts: seq<Part>, x: NotUpdated)
    requires |regs| == |parts|
  {
    exists i: nat :: RefusedBy(attrs, regs, parts, x, i)
  }

  /** The loop over registrations and parts. */
  method Gather(attrs: seq<string>, regs: seq<Reg>, parts: seq<Part>, updated0: seq<string>, nu0: seq<NotUpdated>)
    returns (updated: seq<string>, nu: seq<NotUpdated>, anyOk: bool)
    requires |regs| == |parts|
    ensures anyOk <==> AnyOk(parts)
    ensures updated0 <= updated && nu0 <= nu
    ensures forall a :: a in updated <==> a in updated0 || (a in attrs && AppliedSomewhere(regs, parts, updated0, a))
    ensures forall a :: a in AttrsOf(nu) <==> a in AttrsOf(nu0) || (a in attrs && FailedSomewhere(regs, parts, AttrsOf(nu0), a))
    ensures forall x :: x in nu <==> x in nu0 || Refusal(attrs, regs, parts, x)
  {
    updated, nu, anyOk := updated0, nu0, false;
    for i := 0 to |regs|
      invariant anyOk <==> exists j :: 0 <= j < i && Delivered(parts[j])
      invariant updated0 <= updated && nu0 <= nu
      invariant forall a :: a in updated <==> a in updated0 || (a in attrs && exists j: nat :: j < i && FedApplied(regs, parts, a, j))
      invariant forall a :: a in AttrsOf(nu) <==> a in AttrsOf(nu0) || (a in attrs && exists j: nat :: j < i && FedFailed(regs, parts, a, j))
      invariant forall x :: x in nu <==> x in nu0 || exists j: nat :: j < i && RefusedBy(attrs, regs, parts, x, j)
    {
      ghost var u, n := updated, nu;
      forall a
        ensures (Ok(parts[i]) <==> Delivered(parts[i])) && (Covers(regs[i], a) <==> Holds(regs[i], a))
      {
        ReadByName(regs[i], parts[i], a);
      }
      if parts[i].status != 0 {
        var covered := Covered(attrs, regs[i]);
        if Ok(parts[i]) {
          anyOk := true;
          updated := AddMissing(updated, covered);
        } else {
          nu := Refuse(nu, covered, parts[i].detail, regs[i].id);
        }
      }
      assert forall a :: a in updated <==> a in u || (a in attrs && FedApplied(regs, parts, a, i));
      assert forall a :: a in AttrsOf(nu) <==> a in AttrsOf(n) || (a in attrs && FedFailed(regs, parts, a, i));
      assert forall x :: x in nu <==> x in n || RefusedBy(attrs, regs, parts, x, i);
    }
  }

  method Covered(attrs: seq<string>, reg: Reg) returns (r: seq<string>)
    ensures forall a :: a in r <==> a in attrs && Covers(reg, a)
  {
    r := [];
    for i := 0 to |attrs|
      invariant forall a :: a in r <==> a in attrs[..i] && Covers(reg, a)
    {
      if Covers(reg, attrs[i]) { r := r + [attrs[i]]; }
    }
  }

  method AddMissing(updated: seq<string>, covered: seq<string>) returns (r: seq<string>)
    ensures updated <= r
    ensures forall a :: a in r <==> a in updated || a in covered
  {
    r := updated;
    for i := 0 to |covered|
      invariant updated <= r
      invariant forall a :: a in r <==> a in updated || a in covered[..i]
    {
      if covered[i] !in r { r := r + [covered[i]]; }
    }
  }

  method Refuse(nu: seq<NotUpdated>, covered: seq<string>, detail: string, reg: string) returns (r: seq<NotUpdated>)
    ensures nu <= r
    ensures forall a :: a in AttrsOf(r) <==> a in AttrsOf(nu) || a in covered
    ensures forall x :: x in r <==> x in nu || (x.attr in covered && x == NotUpdated(x.attr, detail, Some(reg)))
  {
    r := nu;
    for i := 0 to |covered|
      invariant nu <= r
      invariant forall x :: x in r <==> x in nu || (x.attr in covered[..i] && x == NotUpdated(x.attr, detail, Some(reg)))
      invariant forall a :: a in AttrsOf(r) <==> a in AttrsOf(nu) || a in covered[..i]
    {
      AttrsOfAppend(r, NotUpdated(covered[i], detail, Some(reg)));
      r := r + [NotUpdated(covered[i], detail, Some(reg))];
    }
  }

  /** The inputs of one combination. */
  datatype Halves = Halves(attrs: seq<string>, localAttrs: seq<string>, local: LocalOutcome,
                         updated: seq<string>, notUpdated: seq<NotUpdated>, regs: seq<Reg>, parts: seq<Part>)

  ghost predicate Applied(w: Halves, a: string)
    requires |w.regs| == |w.parts|
  {
    AppliedSomewhere(w.regs, w.parts, w.updated, a)
  }

  /** `a` is refused by the local half or by a contacted registration. */
  ghost predicate RefusedSomewhere(w: Halves, a: string)
    requires |w.regs| == |w.parts|
  {
    a in AttrsOf(w.notUpdated + LocalRefused(w.localAttrs, w.local)) || exists i: nat :: FedFailed(w.regs, w.parts, a, i)
  }

  /** Nothing was applied anywhere, and the local half did not run to its end. */
  ghost predicate Fruitless(w: Halves) {
    w.updated == [] && !AnyOk(w.parts) && !w.local.Done?
  }

  ghost predicate IsLoop(w: Halves)
    requires |w.regs| == |w.parts|
  {
    Fruitless(w) && exists i :: 0 <= i < |w.regs| && w.regs[i].proxy && w.parts[i].status == 508
  }

  ghost predicate IsConflict(w: Halves) {
    Fruitless(w) && exists i :: 0 <= i < |w.parts| && w.parts[i].refusal
  }

  ghost predicate IsPassed(w: Halves)
    requires |w.regs| == |w.parts|
  {
    |w.regs| == 1 && w.regs[0].proxy && !Delivered(w.parts[0]) && w.local.Skipped?
  }

  /** Which of the answers of clause 6.3.17 a write gets. */
  ghost predicate Answered(w: Halves, ans: Answer)
    requires |w.regs| == |w.parts|
  {
    if IsLoop(w) then ans == Loop
    else if Fruitless(w) && w.local.NotFound? then ans == Missing(w.local.detail)
    else if IsConflict(w) then ans == Conflict
    else if IsPassed(w) then ans == Passed(w.parts[0].status, w.parts[0].detail)
    else
      && (ans.NoContent? || ans.Multi?)
      && (ans.NoContent? ==> w.notUpdated == [] && LocalRefused(w.localAttrs, w.local) == []
                             && forall a :: a in w.attrs ==> !RefusedSomewhere(w, a))
      && (ans.Multi? ==>
            && ans.notUpdated != []
            && (forall a :: a in ans.updated <==> a in w.updated || (a in w.attrs && Applied(w, a)))
            && (forall a :: a in AttrsOf(ans.notUpdated) <==>
                  a in AttrsOf(w.notUpdated + LocalRefused(w.localAttrs, w.local)) || (a in w.attrs && RefusedSomewhere(w, a)))
            && (forall x :: x in ans.notUpdated <==> x in w.notUpdated || LocalRefusal(w, x) || Refusal(w.attrs, w.regs, w.parts, x)))
  }

  /** The entry is the local failure, of an Attribute of the local half. */
  ghost predicate LocalRefusal(w: Halves, x: NotUpdated) {
    (w.local.NotFound? || w.local.Failed?) && x.attr in w.localAttrs && x == NotUpdated(x.attr, w.local.detail, None)
  }

  /** `combine_attr_parts` */
  method CombineAttrParts(w: Halves) returns (ans: Answer)
    requires |w.regs| == |w.parts|
    ensures Answered(w, ans)
    ensures ans.NoContent? ==> forall i, a :: Contacted(w, i, a) ==> 200 <= w.parts[i].status <= 299 && w.parts[i].status != 207
    ensures LoneProxyFailed(w) ==>
              ans == if w.updated == [] && w.parts[0].status == 508 then Loop
                     else if w.updated == [] && w.parts[0].refusal then Conflict
                     else Passed(w.parts[0].status, w.parts[0].detail)
    ensures ans.Multi? ==> forall a :: a in w.attrs ==>
              (a in ans.updated <==> a in w.updated || exists i :: Contacted(w, i, a) && 200 <= w.parts[i].status <= 299 && w.parts[i].status != 207)
  {
    ans := Combined(w);
    if ans.Multi? {
      forall a | a in w.attrs
        ensures a in ans.updated <==> a in w.updated || exists i :: Contacted(w, i, a) && 200 <= w.parts[i].status <= 299 && w.parts[i].status != 207
      {
        MultiInStatuses(w, ans, a);
      }
    }
    if ans.NoContent? {
      forall i, a | Contacted(w, i, a)
        ensures 200 <= w.parts[i].status <= 299 && w.parts[i].status != 207
      {
        assert FedFailed(w.regs, w.parts, a, i) || Delivered(w.parts[i]);
        assert !RefusedSomewhere(w, a);
      }
    }
  }

  /** A registration that was contacted holds a touched Attribute. */
  ghost predicate Contacted(w: Halves, i: int, a: string)
    requires |w.regs| == |w.parts|
  {
    0 <= i < |w.regs| && a in w.attrs && Holds(w.regs[i], a) && w.parts[i].status != 0
  }

  /** One exclusive or redirect registration holds everything, and its peer answered outside 200 to 299, or 207. */
  ghost predicate LoneProxyFailed(w: Halves)
    requires |w.regs| == |w.parts|
  {
    |w.regs| == 1 && w.regs[0].proxy && w.local.Skipped? && !(200 <= w.parts[0].status <= 299 && w.parts[0].status != 207)
  }

  lemma MultiInStatuses(w: Halves, ans: Answer, a: string)
    requires |w.regs| == |w.parts| && Answered(w, ans) && ans.Multi? && a in w.attrs
    ensures a in ans.updated <==> a in w.updated || exists i :: Contacted(w, i, a) && 200 <= w.parts[i].status <= 299 && w.parts[i].status != 207
  {
    if Applied(w, a) && a !in w.updated {
      var i: nat :| FedApplied(w.regs, w.parts, a, i);
      assert Contacted(w, i, a);
    }
    if i :| Contacted(w, i, a) && 200 <= w.parts[i].status <= 299 && w.parts[i].status != 207 {
      assert FedApplied(w.regs, w.parts, a, i);
    }
  }

  /** Its steps. */
  method Combined(w: Halves) returns (ans: Answer)
    requires |w.regs| == |w.parts|
    ensures Answered(w, ans)
  {
    var nu0 := w.notUpdated + LocalRefused(w.localAttrs, w.local);
    var updated, nu, anyOk := Gather(w.attrs, w.regs, w.parts, w.updated, nu0);
    EmptyUpdated(w, updated, anyOk);
    if updated == [] && !anyOk && !w.local.Done? &&
       exists i :: 0 <= i < |w.regs| && w.regs[i].proxy && w.parts[i].status == 508 {
      return Loop;
    }
    if w.local.NotFound? && !anyOk && updated == [] {
      return Missing(w.local.detail);
    }
    if updated == [] && !w.local.Done? && !anyOk && exists i :: 0 <= i < |w.parts| && w.parts[i].refusal {
      return Conflict;
    }
    if |w.regs| == 1 { ReadByName(w.regs[0], w.parts[0], ""); }
    if |w.regs| == 1 && w.regs[0].proxy && !Ok(w.parts[0]) && w.local.Skipped? {
      return Passed(w.parts[0].status, w.parts[0].detail);
    }
    if nu == [] {
      forall a | a in w.attrs
        ensures !RefusedSomewhere(w, a)
      {
        assert a !in AttrsOf(nu);
      }
      return NoContent;
    }
    ans := Multi(updated, nu);
    forall x
      ensures x in LocalRefused(w.localAttrs, w.local) <==> LocalRefusal(w, x)
    {
      if LocalRefusal(w, x) {
        var i :| 0 <= i < |w.localAttrs| && w.localAttrs[i] == x.attr;
        assert LocalRefused(w.localAttrs, w.local)[i] == x;
      }
    }
  }

  lemma EmptyUpdated(w: Halves, updated: seq<string>, anyOk: bool)
    requires |w.regs| == |w.parts|
    requires anyOk <==> AnyOk(w.parts)
    requires w.updated <= updated
    requires forall a :: a in updated <==> a in w.updated || (a in w.attrs && AppliedSomewhere(w.regs, w.parts, w.updated, a))
    ensures (updated == [] && !anyOk && !w.local.Done?) <==> Fruitless(w)
  {
    if updated != [] {
      var a := updated[0];
      assert a in updated;
      if a !in w.updated {
        var i: nat :| FedApplied(w.regs, w.parts, a, i);
        assert Delivered(w.parts[i]);
      }
    }
  }

  /** Each touched attribute is in the local half, whose result names it, or covered by a registration that was contacted. */
  ghost predicate Accounted(w: Halves)
    requires |w.regs| == |w.parts|
  {
    forall a :: a in w.attrs ==>
      || (a in w.localAttrs && (w.local.NotFound? || w.local.Failed? || (w.local.Done? && (a in w.updated || a in AttrsOf(w.notUpdated)))))
      || exists i :: 0 <= i < |w.regs| && w.parts[i].status != 0 && Holds(w.regs[i], a)
  }

  lemma NamesJoin(a: seq<NotUpdated>, b: seq<NotUpdated>)
    ensures AttrsOf(a + b) == AttrsOf(a) + AttrsOf(b)
  {
  }

  lemma LocalRefusedNames(localAttrs: seq<string>, local: LocalOutcome)
    requires local.NotFound? || local.Failed?
    ensures AttrsOf(LocalRefused(localAttrs, local)) == localAttrs
  {
  }

  /** An attribute that was accounted for was applied or refused. */
  lemma AppliedOrRefused(w: Halves, a: string)
    requires |w.regs| == |w.parts| && Accounted(w) && a in w.attrs
    ensures Applied(w, a) || RefusedSomewhere(w, a)
  {
    NamesJoin(w.notUpdated, LocalRefused(w.localAttrs, w.local));
    if w.local.NotFound? || w.local.Failed? { LocalRefusedNames(w.localAttrs, w.local); }
    if exists i :: 0 <= i < |w.regs| && w.parts[i].status != 0 && Holds(w.regs[i], a) {
      var i: nat :| i < |w.regs| && w.parts[i].status != 0 && Holds(w.regs[i], a);
      assert FedApplied(w.regs, w.parts, a, i) || FedFailed(w.regs, w.parts, a, i);
    }
  }

  /** A 204 means that every touched attribute was applied somewhere and refused nowhere. */
  lemma NoContentMeansApplied(w: Halves, ans: Answer, a: string)
    requires |w.regs| == |w.parts| && Accounted(w) && Answered(w, ans) && a in w.attrs
    requires ans.NoContent?
    ensures Applied(w, a) && !RefusedSomewhere(w, a)
  {
    AppliedOrRefused(w, a);
  }

  /** A 207 lists every touched attribute, and lists as updated exactly the ones applied somewhere. */
  lemma MultiListsAll(w: Halves, ans: Answer, a: string)
    requires |w.regs| == |w.parts| && Accounted(w) && Answered(w, ans) && a in w.attrs
    requires ans.Multi?
    ensures a in ans.updated <==> Applied(w, a)
    ensures a in AttrsOf(ans.notUpdated) <==> RefusedSomewhere(w, a)
    ensures a in ans.updated || a in AttrsOf(ans.notUpdated)
  {
    AppliedOrRefused(w, a);
  }

  // ---------- the whole distributed write ----------

  /** Attribute `a` was taken by the local half. */
  ghost predicate LocallyTaken(entity: Option<Members>, frag: Members, regs: seq<Reg>, ts: string, mode: Mode, matches: bool, a: string) {
    && entity.Some? && matches && NamesAttr(frag, a) && !HeldOutside(regs, a)
    && Taken(mode, At(entity.value, a), Stamp(frag[a], ts))
  }

  lemma LocalHalf(frag: Members, regs: seq<Reg>, a: string)
    requires a in FragAttrs(frag)
    ensures a in FragAttrs(StripCovered(frag, regs)) <==> !HeldOutside(regs, a)
    ensures ProxiesCoverAll(regs, FragAttrs(frag)) ==> a !in FragAttrs(StripCovered(frag, regs))
  {
    HeldByName(regs, a);
  }

  /** Everything the fragment names is held by exclusive or redirect registrations. */
  ghost predicate AllHeldOutside(regs: seq<Reg>, frag: Members) {
    (exists a :: NamesAttr(frag, a)) && forall a :: NamesAttr(frag, a) ==> HeldOutside(regs, a)
  }

  lemma AllHeldByName(regs: seq<Reg>, frag: Members)
    ensures ProxiesCoverAll(regs, FragAttrs(frag)) <==> AllHeldOutside(regs, frag)
  {
    forall a
      ensures (a in FragAttrs(frag) <==> NamesAttr(frag, a)) && (ProxyCovers(regs, a) <==> HeldOutside(regs, a))
    {
      NamesByName(frag, a);
      HeldByName(regs, a);
    }
    if AllHeldOutside(regs, frag) {
      var a :| NamesAttr(frag, a);
      assert a in FragAttrs(frag) && ProxyCovers(regs, a);
    }
  }

  /** `write_attrs` with registrations: the local half, the forwards, and their one answer. */
  method DistributedWrite(entity: Option<Members>, frag: Members, regs: seq<Reg>, reply: seq<Part>, ts: string, mode: Mode, matches: bool)
    returns (ans: Answer, stored: Option<Members>, parts: seq<Part>)
    requires |reply| == |regs| && forall i :: 0 <= i < |reply| ==> reply[i].status != 0
    ensures |parts| == |regs|
    ensures ans.NoContent? ==> forall a :: NamesAttr(frag, a) ==>
              LocallyTaken(entity, frag, regs, ts, mode, matches, a) || exists i: nat :: FedApplied(regs, parts, a, i)
    ensures ans.Multi? ==> forall a :: NamesAttr(frag, a) ==>
              && (a in ans.updated || a in AttrsOf(ans.notUpdated))
              && (a in ans.updated <==>
                    LocallyTaken(entity, frag, regs, ts, mode, matches, a) || exists i: nat :: FedApplied(regs, parts, a, i))
    ensures stored.Some? <==> entity.Some?
    ensures entity.Some? ==> forall a :: NamesAttr(frag, a) && HeldOutside(regs, a) ==> At(stored.value, a) == At(entity.value, a)
    ensures AllHeldOutside(regs, frag) ==> stored == entity && !ans.Missing?
    ensures AllHeldOutside(regs, frag) && |regs| == 1 && !(200 <= parts[0].status <= 299 && parts[0].status != 207) ==>
              ans == if parts[0].status == 508 then Loop else if parts[0].refusal then Conflict else Passed(parts[0].status, parts[0].detail)
    ensures !AllHeldOutside(regs, frag) && (entity.None? || !matches) && (forall i :: 0 <= i < |parts| ==> !Delivered(parts[i])) ==>
              ans.Loop? || ans.Missing?
  {
    ghost var w;
    ans, stored, parts, w := WriteHalves(entity, frag, regs, reply, ts, mode, matches);
    forall a | NamesAttr(frag, a)
      ensures ans.NoContent? ==> Applied(w, a)
      ensures ans.Multi? ==> (a in ans.updated || a in AttrsOf(ans.notUpdated)) && (a in ans.updated <==> Applied(w, a))
    {
      if ans.NoContent? { NoContentMeansApplied(w, ans, a); }
      if ans.Multi? { MultiListsAll(w, ans, a); }
    }
    ProxiesAlone(frag, regs);
  }

  /** The two halves, and what was put together of them. */
  method WriteHalves(entity: Option<Members>, frag: Members, regs: seq<Reg>, reply: seq<Part>, ts: string, mode: Mode, matches: bool)
    returns (ans: Answer, stored: Option<Members>, parts: seq<Part>, ghost w: Halves)
    requires |reply| == |regs| && forall i :: 0 <= i < |reply| ==> reply[i].status != 0
    ensures |parts| == |regs| && w.regs == regs && w.parts == parts && Answered(w, ans) && Accounted(w)
    ensures forall a :: a in w.attrs <==> NamesAttr(frag, a)
    ensures forall a :: NamesAttr(frag, a) ==> (a in w.updated <==> LocallyTaken(entity, frag, regs, ts, mode, matches, a))
    ensures w.local.Skipped? <==> AllHeldOutside(regs, frag)
    ensures w.local.Skipped? ==> w.updated == [] && stored == entity
    ensures !w.local.Skipped? && (entity.None? || !matches) ==> w.local.NotFound? && w.updated == []
    ensures LoneProxyFailed(w) ==>
              ans == if w.updated == [] && parts[0].status == 508 then Loop
                     else if w.updated == [] && parts[0].refusal then Conflict
                     else Passed(parts[0].status, parts[0].detail)
    ensures stored.Some? <==> entity.Some?
    ensures entity.Some? ==> forall a :: NamesAttr(frag, a) && HeldOutside(regs, a) ==> At(stored.value, a) == At(entity.value, a)
  {
    AllHeldByName(regs, frag);
    var attrs := SortKeys(FragAttrs(frag));
    var local := StripCovered(frag, regs);
    var localAttrs := SortKeys(FragAttrs(local));
    parts := FedAttrParts(regs, reply);
    var outcome, updated, nu;
    outcome, updated, nu, stored := LocalWrite(entity, local, ts, mode, matches, ProxiesCoverAll(regs, FragAttrs(frag)));
    w := Halves(attrs, localAttrs, outcome, updated, nu, regs, parts);
    ans := CombineAttrParts(Halves(attrs, localAttrs, outcome, updated, nu, regs, parts));
    WriteAccounted(entity, frag, local, ts, mode, matches, reply, w);
    ProxiesAlone(frag, regs);
    forall a
      ensures a in attrs <==> NamesAttr(frag, a)
      ensures NamesAttr(frag, a) ==> (a in updated <==> LocallyTaken(entity, frag, regs, ts, mode, matches, a))
    {
      assert a in attrs <==> a in Elements(attrs);
      NamesByName(frag, a);
      if NamesAttr(frag, a) { LocalHalf(frag, regs, a); }
    }
  }

  /** A lone registration that holds everything the fragment names is exclusive or redirect. */
  lemma ProxiesAlone(frag: Members, regs: seq<Reg>)
    ensures AllHeldOutside(regs, frag) && |regs| == 1 ==> regs[0].proxy
    ensures forall a :: NamesAttr(frag, a) && HeldOutside(regs, a) ==> a !in FragAttrs(StripCovered(frag, regs)) && !IsFragmentMeta(a)
  {
    forall a | NamesAttr(frag, a) && HeldOutside(regs, a)
      ensures a !in FragAttrs(StripCovered(frag, regs)) && !IsFragmentMeta(a)
    {
      NamesByName(frag, a);
      LocalHalf(frag, regs, a);
    }
    if AllHeldOutside(regs, frag) && |regs| == 1 {
      var a :| NamesAttr(frag, a);
      assert HeldOutside(regs, a);
    }
  }

  /** The local half: skipped when proxies hold every attribute, else the store's `mutate`. */
  method LocalWrite(entity: Option<Members>, local: Members, ts: string, mode: Mode, matches: bool, covered: bool)
    returns (outcome: LocalOutcome, updated: seq<string>, nu: seq<NotUpdated>, stored: Option<Members>)
    ensures covered <==> outcome.Skipped?
    ensures !covered ==> (outcome.Done? <==> entity.Some? && matches)
    ensures outcome.NotFound? || outcome.Skipped? || outcome.Done?
    ensures outcome.Done? ==> forall a :: a in FragAttrs(local) ==>
              && (a in updated || a in AttrsOf(nu))
              && (a in updated <==> Taken(mode, At(entity.value, a), Stamp(local[a], ts)))
    ensures !outcome.Done? ==> updated == [] && nu == [] && stored == entity
    ensures outcome.Done? ==> forall a :: a in updated ==> a in FragAttrs(local) || a == "type" || a == "scope"
    ensures stored.Some? <==> entity.Some?
    ensures entity.Some? ==> forall a :: a !in FragAttrs(local) && !IsFragmentMeta(a) ==> At(stored.value, a) == At(entity.value, a)
  {
    outcome, updated, nu, stored := Skipped, [], [], entity;
    if !covered {
      if entity.None? {
        return NotFound("entity not found"), [], [], entity;
      }
      var r := WriteAttrs(entity.value, local, ts, mode, matches);
      if r.Unmatched? {
        return NotFound("entity does not match the type selector"), [], [], entity;
      }
      outcome, nu := LocalOutcome.Done, r.notUpdated;
      if r.Written? {
        updated, stored := r.updated, Some(r.doc);
      }
      ListedUpdated(entity.value, local, ts, mode, updated, nu);
      forall a | a !in FragAttrs(local) && !IsFragmentMeta(a)
        ensures At(stored.value, a) == At(entity.value, a)
      {
        if r.Written? { assert WroteAt(entity.value, local, ts, mode, r.doc, a); }
      }
    }
  }

  lemma ListedUpdated(before: Members, frag: Members, ts: string, mode: Mode, updated: seq<string>, nu: seq<NotUpdated>)
    requires Listed(before, frag, ts, mode, updated, nu)
    ensures forall a :: a in FragAttrs(frag) ==>
              && (a in updated || a in AttrsOf(nu))
              && (a in updated <==> Taken(mode, At(before, a), Stamp(frag[a], ts)))
    ensures forall a :: a in updated ==> a in FragAttrs(frag) || a == "type" || a == "scope"
  {
    forall a | a in FragAttrs(frag)
      ensures a in updated || a in AttrsOf(nu)
      ensures a in updated <==> Taken(mode, At(before, a), Stamp(frag[a], ts))
    {
      assert ListedAt(before, frag, ts, mode, updated, nu, a);
    }
    forall a | a in updated
      ensures a in FragAttrs(frag) || a == "type" || a == "scope"
    {
      assert a in multiset(updated) + multiset(AttrsOf(nu));
    }
  }

  lemma WriteAccounted(entity: Option<Members>, frag: Members, local: Members, ts: string, mode: Mode, matches: bool, reply: seq<Part>, w: Halves)
    requires |w.regs| == |w.parts| == |reply| && forall i :: 0 <= i < |reply| ==> reply[i].status != 0
    requires forall i :: 0 <= i < |w.regs| && (w.regs[i].supported || w.regs[i].proxy) ==> w.parts[i].status != 0
    requires local == StripCovered(frag, w.regs)
    requires Elements(w.attrs) == FragAttrs(frag) && Elements(w.localAttrs) == FragAttrs(local)
    requires w.local.Skipped? <==> ProxiesCoverAll(w.regs, FragAttrs(frag))
    requires w.local.Done? ==> forall a :: a in FragAttrs(local) ==> a in w.updated || a in AttrsOf(w.notUpdated)
    ensures Accounted(w)
  {
    forall a | a in w.attrs
      ensures a in FragAttrs(local) ==> a in w.localAttrs
      ensures a in FragAttrs(frag)
    {
      assert a in Elements(w.attrs);
      assert a in Elements(w.localAttrs) ==> a in w.localAttrs;
    }
    forall a | a in w.attrs
      ensures (a in w.localAttrs && (w.local.NotFound? || w.local.Failed? || (w.local.Done? && (a in w.updated || a in AttrsOf(w.notUpdated)))))
        || exists i :: 0 <= i < |w.regs| && w.parts[i].status != 0 && Holds(w.regs[i], a)
    {
      LocalHalf(frag, w.regs, a);
      if ProxyCovers(w.regs, a) {
        var i :| 0 <= i < |w.regs| && w.regs[i].proxy && Covers(w.regs[i], a);
        assert w.parts[i].status != 0;
      }
    }
  }
}
