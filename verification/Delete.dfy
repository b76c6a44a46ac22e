/** Batch delete: one bulk delete, forwards, and the id-by-id account of both
    (crates/antares-api/src/batch.rs; clauses 5.5.11.4 and 5.6.10.4 of ETSI GS CIM 009). */
module Delete {
  import opened Json
  import opened Batch
  import opened Remote

  /** A matching registration: its operations, its mode, the ids it can hold, and what its peer answers. */
  datatype Target = Target(ops: set<string>, proxy: bool, matches: string -> bool, status: nat, body: Json, peer: nat -> nat)

  /** An entry of E. */
  datatype Fault = NotAString | Passed(failure: Failure) | NotFound(id: string)

  function NotStrings(a: seq<Json>): seq<Fault> {
    if a == [] then []
    else
      var p := NotStrings(a[..|a| - 1]);
      if a[|a| - 1].Text? then p else p + [NotAString]
  }

  function Matching(ids: seq<string>, matches: string -> bool): seq<string> {
    if ids == [] then []
    else
      var p := Matching(ids[..|ids| - 1], matches);
      if matches(ids[|ids| - 1]) then p + [ids[|ids| - 1]] else p
  }

  /** Per-id forwarded deletes. */
  function EachDeleted(ids: seq<string>, peer: nat -> nat): Tried {
    if ids == [] then Tried([], [])
    else
      var n := |ids| - 1;
      Record(EachDeleted(ids[..n], peer), ids[n], OneOutcome(ids[n], peer(n), false))
  }

  /** What one registration adds. */
  function Contribution(ids: seq<string>, r: Target): Tried {
    var sent := Matching(ids, r.matches);
    if sent == [] then Tried([], [])
    else if "deleteBatch" in r.ops then Tried(BulkOk(r.status, r.body, sent, false), BulkErr(r.status, r.body, sent))
    else if "deleteEntity" in r.ops then EachDeleted(sent, r.peer)
    else Tried([], if r.proxy then AllRefused(sent) else [])
  }

  function Forwards(ids: seq<string>, regs: seq<Target>): Tried {
    if regs == [] then Tried([], [])
    else
      var p, c := Forwards(ids, regs[..|regs| - 1]), Contribution(ids, regs[|regs| - 1]);
      Tried(p.ok + c.ok, p.err + c.err)
  }

  /** The occurrences the local store did not delete, in order. */
  function Misses(ids: seq<string>, docs: set<string>): seq<string> {
    if ids == [] then []
    else
      var before, id := ids[..|ids| - 1], ids[|ids| - 1];
      if id in docs && id !in before then Misses(before, docs) else Misses(before, docs) + [id]
  }

  /** ResourceNotFound for every missed occurrence no forward spoke of. */
  function Unfound(misses: seq<string>, t: Tried): seq<Fault> {
    if misses == [] then []
    else
      var p := Unfound(misses[..|misses| - 1], t);
      var id := misses[|misses| - 1];
      if Spoken(t, id) then p else p + [NotFound(id)]
  }

  function RelayedAll(err: seq<Failure>): seq<Fault> {
    seq(|err|, i requires 0 <= i < |err| => Passed(err[i]))
  }

  // ---------- the loops ----------

  /** The loop over the array and the deleted-flags. */
  method Sift(a: seq<Json>, flags: seq<bool>, ghost docs: set<string>)
    returns (deleted: set<string>, misses: seq<string>, faults: seq<Fault>)
    requires |flags| == |Texts(a)|
    requires forall i :: 0 <= i < |flags| ==> flags[i] == (Texts(a)[i] in docs && Texts(a)[i] !in Texts(a)[..i])
    ensures forall x :: x in deleted <==> x in Texts(a) && x in docs
    ensures misses == Misses(Texts(a), docs)
    ensures faults == NotStrings(a)
  {
    deleted, misses, faults := {}, [], [];
    var next := 0;
    for i := 0 to |a|
      invariant next == |Texts(a[..i])|
      invariant forall x :: x in deleted <==> x in Texts(a[..i]) && x in docs
      invariant misses == Misses(Texts(a[..i]), docs)
      invariant faults == NotStrings(a[..i])
    {
      TextsNext(a, i);
      if a[i].Text? {
        if flags[next] {
          deleted := deleted + {a[i].text};
        } else {
          misses := misses + [a[i].text];
        }
        next := next + 1;
      } else {
        faults := faults + [NotAString];
      }
    }
    assert a[..|a|] == a;
  }

  lemma {:induction false} TextsNext(a: seq<Json>, i: nat)
    requires i < |a|
    ensures NotStrings(a[..i + 1]) == if a[i].Text? then NotStrings(a[..i]) else NotStrings(a[..i]) + [NotAString]
    ensures a[i].Text? ==>
              var n := |Texts(a[..i])|;
              n < |Texts(a)| && Texts(a)[n] == a[i].text && Texts(a)[..n] == Texts(a[..i])
    ensures Texts(a[..i + 1]) == if a[i].Text? then Texts(a[..i]) + [a[i].text] else Texts(a[..i])
  {
    assert a[..i + 1][..i] == a[..i];
    TextsPrefix(a, i + 1);
  }

  lemma {:induction false} TextsPrefix(a: seq<Json>, n: nat)
    requires n <= |a|
    ensures Texts(a[..n]) <= Texts(a)
    decreases |a| - n
  {
    if n < |a| {
      TextsPrefix(a, n + 1);
      assert a[..n + 1][..n] == a[..n];
    } else {
      assert a[..n] == a;
    }
  }

  method ForwardDeletes(ids: seq<string>, regs: seq<Target>) returns (t: Tried)
    ensures t == Forwards(ids, regs)
  {
    t := Tried([], []);
    for i := 0 to |regs|
      invariant t == Forwards(ids, regs[..i])
    {
      assert regs[..i + 1][..i] == regs[..i];
      var r := regs[i];
      var sent := Matching(ids, r.matches);
      if sent != [] {
        if "deleteBatch" in r.ops {
          var ok, err := MergeRemoteBatch(r.status, r.body, sent, false, t.ok, t.err);
          t := Tried(ok, err);
        } else if "deleteEntity" in r.ops {
          var each := ForwardEachDelete(sent, r.peer);
          t := Tried(t.ok + each.ok, t.err + each.err);
        } else if r.proxy {
          t := Tried(t.ok, t.err + AllRefused(sent));
        }
      }
    }
    assert regs[..|regs|] == regs;
  }

  method ForwardEachDelete(ids: seq<string>, peer: nat -> nat) returns (t: Tried)
    ensures t == EachDeleted(ids, peer)
  {
    t := Tried([], []);
    for i := 0 to |ids|
      invariant t == EachDeleted(ids[..i], peer)
    {
      assert ids[..i + 1][..i] == ids[..i];
      var status := peer(i);
      if 200 <= status < 300 && status != 207 {
        t := Tried(t.ok + [Applied(ids[i], false)], t.err);
      } else {
        t := Tried(t.ok, t.err + [ErrRemote(ids[i], status)]);
      }
    }
    assert ids[..|ids|] == ids;
  }

  /** Local deletions in input order, each id once. */
  method LocalSuccess(ids: seq<string>, deleted: set<string>) returns (success: seq<string>)
    ensures NoRepeats(success)
    ensures forall x :: x in success <==> x in ids && x in deleted
  {
    success := [];
    for i := 0 to |ids|
      invariant NoRepeats(success)
      invariant forall x :: x in success <==> x in ids[..i] && x in deleted
    {
      if ids[i] in deleted && ids[i] !in success { success := success + [ids[i]]; }
    }
  }

  method PushUnfound(misses: seq<string>, t: Tried, errors: seq<Fault>) returns (r: seq<Fault>)
    ensures r == errors + Unfound(misses, t)
  {
    r := errors;
    for i := 0 to |misses|
      invariant r == errors + Unfound(misses[..i], t)
    {
      assert misses[..i + 1][..i] == misses[..i];
      if misses[i] !in OkIds(t.ok) && misses[i] !in ErrIds(t.err) {
        r := r + [NotFound(misses[i])];
      }
    }
    assert misses[..|misses|] == misses;
  }

  /** The account a batch delete gives. */
  ghost predicate Accounted(a: seq<Json>, docs: set<string>, t: Tried, success: seq<string>, errors: seq<Fault>) {
    && NoRepeats(success)
    && (forall id :: id in success <==> (id in Texts(a) && id in docs) || id in OkIds(t.ok))
    && errors == NotStrings(a) + RelayedAll(t.err) + Unfound(Misses(Texts(a), docs), t)
  }

  /** `batch_delete`: what it removes and what it reports. */
  method BatchDelete(store: Store, a: seq<Json>, regs: seq<Target>) returns (success: seq<string>, errors: seq<Fault>)
    modifies store
    ensures store.docs == old(store.docs) - (set x | x in Texts(a))
    ensures Accounted(a, old(store.docs).Keys, Forwards(Texts(a), regs), success, errors)
  {
    ghost var docs := store.docs.Keys;
    var ids := Texts(a);
    var flags := store.BatchDelete(ids);
    var deleted, misses, faults := Sift(a, flags, docs);
    var t := ForwardDeletes(ids, regs);
    var local := LocalSuccess(ids, deleted);
    var none, any;
    success, none, any := Absorb(t.ok, local, [], false);
    errors := PushUnfound(misses, t, faults + RelayedAll(t.err));
  }

  // ---------- what the account means ----------

  predicate Reported(errors: seq<Fault>, id: string) {
    NotFound(id) in errors || exists i :: 0 <= i < |errors| && errors[i].Passed? && errors[i].failure.id == id
  }

  function Times(errors: seq<Fault>, f: Fault): nat {
    multiset(errors)[f]
  }

  lemma {:induction false} MissesCount(ids: seq<string>, docs: set<string>, id: string)
    ensures multiset(Misses(ids, docs))[id] == multiset(ids)[id] - if id in ids && id in docs then 1 else 0
  {
    if ids != [] {
      var before, x := ids[..|ids| - 1], ids[|ids| - 1];
      assert ids == before + [x];
      MissesCount(before, docs, id);
      assert id in before <==> multiset(before)[id] > 0;
    }
  }

  lemma {:induction false} UnfoundCount(misses: seq<string>, t: Tried, id: string)
    ensures Times(Unfound(misses, t), NotFound(id)) == if Spoken(t, id) then 0 else multiset(misses)[id]
  {
    if misses != [] {
      var before := misses[..|misses| - 1];
      assert misses == before + [misses[|misses| - 1]];
      UnfoundCount(before, t, id);
    }
  }

  lemma {:induction false} NoNotFound(a: seq<Json>, id: string)
    ensures Times(NotStrings(a), NotFound(id)) == 0
  {
    if a != [] { NoNotFound(a[..|a| - 1], id); }
  }

  lemma {:induction false} NoneRelayed(err: seq<Failure>, id: string)
    ensures Times(RelayedAll(err), NotFound(id)) == 0
  {
    if err != [] {
      var before := err[..|err| - 1];
      NoneRelayed(before, id);
      assert RelayedAll(err) == RelayedAll(before) + [Passed(err[|err| - 1])];
    }
  }

  /** Exactly the occurrences beyond the one that was stored are not found, unless a forward spoke of the id. */
  lemma {:induction false} NotFoundCount(a: seq<Json>, docs: set<string>, t: Tried, success: seq<string>, errors: seq<Fault>, id: string)
    requires Accounted(a, docs, t, success, errors)
    ensures Times(errors, NotFound(id))
         == if Spoken(t, id) then 0
            else multiset(Texts(a))[id] - if id in Texts(a) && id in docs then 1 else 0
  {
    NoNotFound(a, id);
    NoneRelayed(t.err, id);
    UnfoundCount(Misses(Texts(a), docs), t, id);
    MissesCount(Texts(a), docs, id);
  }

  /** Every id of a batch delete ends in S or in E. */
  lemma EveryIdEnds(a: seq<Json>, docs: set<string>, t: Tried, success: seq<string>, errors: seq<Fault>, id: string)
    requires Accounted(a, docs, t, success, errors) && id in Texts(a)
    ensures id in success || Reported(errors, id)
  {
    NotFoundCount(a, docs, t, success, errors, id);
    if id in ErrIds(t.err) {
      var i :| 0 <= i < |t.err| && t.err[i].id == id;
      assert RelayedAll(t.err)[i] == Passed(t.err[i]);
      assert errors[|NotStrings(a)| + i] == Passed(t.err[i]);
    } else if id !in success {
      assert id in multiset(Texts(a));
      assert NotFound(id) in multiset(errors);
    }
  }

  /** The second occurrence of an id fails even where the first was deleted, unless a forward spoke of it. */
  lemma RepeatFails(a: seq<Json>, docs: set<string>, t: Tried, success: seq<string>, errors: seq<Fault>, id: string)
    requires Accounted(a, docs, t, success, errors) && !Spoken(t, id) && multiset(Texts(a))[id] >= 2
    ensures NotFound(id) in errors && (id in success <==> id in docs)
  {
    NotFoundCount(a, docs, t, success, errors, id);
    assert NotFound(id) in multiset(errors);
    assert id in multiset(Texts(a));
  }

  /** A 204 means that every entry named an Entity, held here or deleted by a forward. */
  lemma {:induction false} CleanDelete(a: seq<Json>, docs: set<string>, t: Tried, success: seq<string>, errors: seq<Fault>)
    requires Accounted(a, docs, t, success, errors) && errors == []
    ensures forall i :: 0 <= i < |a| ==> a[i].Text?
    ensures forall id :: id in Texts(a) ==> id in success && (id in docs || id in OkIds(t.ok))
  {
    assert NotStrings(a) == [] && RelayedAll(t.err) == [];
    AllStrings(a);
    forall id | id in Texts(a)
      ensures id in success && (id in docs || id in OkIds(t.ok))
    {
      EveryIdEnds(a, docs, t, success, errors, id);
    }
  }

  lemma {:induction false} AllStrings(a: seq<Json>)
    requires NotStrings(a) == []
    ensures forall i :: 0 <= i < |a| ==> a[i].Text?
  {
    if a != [] { AllStrings(a[..|a| - 1]); }
  }

  lemma {:induction false} MatchingAreIds(ids: seq<string>, matches: string -> bool)
    ensures forall x :: x in Matching(ids, matches) <==> x in ids && matches(x)
  {
    if ids != [] {
      MatchingAreIds(ids[..|ids| - 1], matches);
      assert ids == ids[..|ids| - 1] + [ids[|ids| - 1]];
    }
  }

  lemma {:induction false} EachDeletedOnce(ids: seq<string>, peer: nat -> nat)
    ensures EachOnce(ids, EachDeleted(ids, peer).ok, EachDeleted(ids, peer).err)
  {
    if ids == [] {
      assert OkIds([]) == [] && ErrIds([]) == [];
    } else {
      var n := |ids| - 1;
      EachDeletedOnce(ids[..n], peer);
      EachOnceRecord(ids[..n], EachDeleted(ids[..n], peer), ids[n], OneOutcome(ids[n], peer(n), false));
      assert ids == ids[..n] + [ids[n]];
    }
  }

  /** The reply to a bulk delete carries per-id lists. */
  ghost predicate Itemized(r: Target) {
    (200 <= r.status <= 206 && r.body.Array?) || Partial(r.status, r.body)
  }

  /** A registration settles only the ids it was sent, each of them once unless its peer answers with lists; it settles
      none only where it is inclusive and supports neither operation. */
  lemma {:induction false} ContributionSettles(ids: seq<string>, r: Target)
    ensures var t, sent := Contribution(ids, r), Matching(ids, r.matches);
            && OnlySent(sent, t.ok, t.err)
            && if "deleteBatch" in r.ops then !Itemized(r) ==> EachOnce(sent, t.ok, t.err)
               else if "deleteEntity" in r.ops || r.proxy then EachOnce(sent, t.ok, t.err)
               else t.ok == [] && t.err == []
  {
    var t, sent := Contribution(ids, r), Matching(ids, r.matches);
    if sent == [] {
      assert OkIds([]) == [] && ErrIds([]) == [];
    } else if "deleteBatch" in r.ops {
      BulkAccounts(r.status, r.body, sent, false);
    } else if "deleteEntity" in r.ops {
      EachDeletedOnce(sent, r.peer);
      EachOnceOnlySent(sent, t.ok, t.err);
    } else if r.proxy {
      assert OkIds(t.ok) == [] && ErrIds(t.err) == sent;
    }
  }

  /** S names only ids of the array: no peer can add another. */
  lemma {:induction false} ForwardsOnlyIds(ids: seq<string>, regs: seq<Target>)
    ensures OnlySent(ids, Forwards(ids, regs).ok, Forwards(ids, regs).err)
  {
    if regs != [] {
      var r := regs[|regs| - 1];
      ForwardsOnlyIds(ids, regs[..|regs| - 1]);
      ContributionSettles(ids, r);
      MatchingAreIds(ids, r.matches);
    }
  }
}
