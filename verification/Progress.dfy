/** A registration write that nothing stands in the way of can come to its end (crates/antares-api/src/csource.rs). */
module Progress {
  import opened Names
  import opened Json
  import opened P = Protocol
  import opened S = Sweeps
  import W = Walk

  // ---------- pages ----------

  lemma {:induction false} Sorted(keys: set<string>) returns (r: seq<string>)
    ensures Ascending(r) && Elements(r) == keys
    decreases keys
  {
    if keys == {} {
      r := [];
    } else {
      var x :| x in keys;
      var t := Sorted(keys - {x});
      assert x !in Elements(t);
      r := Insert(x, t);
    }
  }

  /** There is always a next page. */
  lemma NextPage(keys: set<string>, after: Option<string>) returns (ids: seq<string>)
    ensures W.IsPage(keys, after, W.SCAN_PAGE, ids)
  {
    var ahead := set k | k in keys && W.Past(after, k);
    var all := Sorted(ahead);
    ids := if |all| <= W.SCAN_PAGE then all else all[..W.SCAN_PAGE];
    forall i | 0 <= i < |ids|
      ensures ids[i] in keys && W.Past(after, ids[i])
    {
      assert all[i] in Elements(all);
    }
    forall k | k in keys && W.Past(after, k)
      ensures W.OnPage(ids, W.SCAN_PAGE, k)
    {
      assert k in Elements(all);
      var i :| 0 <= i < |all| && all[i] == k;
      if i < |ids| { assert ids[i] == k; }
    }
  }

  // ---------- the walk of a write ----------

  /** `c` holds the lock and has come to `pc`; the rest is as in `s`. */
  function Under(s: State, c: nat, pc: PC): State {
    Set(s, c, pc).(lock := Some(c))
  }

  lemma UnderOnward(w: World, s: State, c: nat, a: PC, b: PC)
    requires Reachable(w, Under(s, c, a)) && Guarded(w, Under(s, c, a), c, Set(Under(s, c, a), c, b))
    ensures Reachable(w, Under(s, c, b))
  {
    GuardedOnward(w, Under(s, c, a), c, Set(Under(s, c, a), c, b));
    assert Set(Under(s, c, a), c, b) == Under(s, c, b);
  }

  predicate NoneBlocks(w: World, s: State, req: Request, doc: Members) {
    forall id :: id in s.rows ==> PassesAt(w, s, req, doc, id)
  }

  predicate PassesAt(w: World, s: State, req: Request, doc: Members, id: string)
    requires id in s.rows
  {
    !Blocked(w, req, doc, s.rows[id].doc, s.clock)
  }

  /** The visits of a page come to its end. */
  lemma {:induction false} VisitsPass(w: World, s: State, c: nat, req: Request, doc: Members, rest: seq<Found>, at: Option<string>, short: bool)
    requires Reachable(w, Under(s, c, Visiting(req, doc, rest, at, short)))
    requires forall i :: 0 <= i < |rest| ==> !Blocked(w, req, doc, rest[i].doc, s.clock)
    ensures Reachable(w, Under(s, c, Visiting(req, doc, [], if rest == [] then at else Some(rest[|rest| - 1].id), short)))
    decreases rest
  {
    if rest != [] {
      var next := Visiting(req, doc, rest[1..], Some(rest[0].id), short);
      UnderOnward(w, s, c, Visiting(req, doc, rest, at, short), next);
      VisitsPass(w, s, c, req, doc, rest[1..], Some(rest[0].id), short);
    }
  }

  lemma PageOnward(w: World, s: State, c: nat, req: Request, doc: Members, after: Option<string>, ids: seq<string>)
    requires Reachable(w, Under(s, c, Fetching(req, doc, after))) && NoneBlocks(w, s, req, doc)
    requires W.IsPage(s.rows.Keys, after, W.SCAN_PAGE, ids)
    ensures var at := if ids == [] then after else Some(ids[|ids| - 1]);
            Reachable(w, Under(s, c, if |ids| < W.SCAN_PAGE then Writing(req, Some(doc)) else Fetching(req, doc, at)))
  {
    var x, short := Under(s, c, Fetching(req, doc, after)), |ids| < W.SCAN_PAGE;
    var rest := FoundAll(x.rows, ids);
    assert PageRead(x, after, rest, short);
    UnderOnward(w, s, c, Fetching(req, doc, after), Visiting(req, doc, rest, after, short));
    forall i | 0 <= i < |rest|
      ensures !Blocked(w, req, doc, rest[i].doc, s.clock)
    {
      assert PassesAt(w, s, req, doc, ids[i]);
    }
    VisitsPass(w, s, c, req, doc, rest, after, short);
    var at := if rest == [] then after else Some(rest[|rest| - 1].id);
    UnderOnward(w, s, c, Visiting(req, doc, [], at, short), if short then Writing(req, Some(doc)) else Fetching(req, doc, at));
  }

  /** The walk comes to the write, page by page. */
  lemma {:induction false} WalkPasses(w: World, s: State, c: nat, req: Request, doc: Members, after: Option<string>)
    requires Reachable(w, Under(s, c, Fetching(req, doc, after))) && NoneBlocks(w, s, req, doc)
    ensures Reachable(w, Under(s, c, Writing(req, Some(doc))))
    decreases |W.Ahead(s.rows.Keys, after)|
  {
    var ids := NextPage(s.rows.Keys, after);
    PageOnward(w, s, c, req, doc, after, ids);
    if |ids| == W.SCAN_PAGE {
      W.AheadShrinks(s.rows.Keys, after, ids);
      WalkPasses(w, s, c, req, doc, Some(ids[|ids| - 1]));
    }
  }

  // ---------- a write ----------

  /** A request with nothing in its way: what it checks is not guarded, or no stored registration blocks it. */
  predicate IsFree(w: World, s: State, req: Request, doc: Members) {
    w.proxied(doc) ==> NoneBlocks(w, s, req, doc)
  }

  lemma ComesToCheck(w: World, s: State, c: nat, req: Request, doc: Members)
    requires Reachable(w, s) && s.lock == None && Pc(s, c) == Idle && NormOk(w, req)
    requires if req.update then req.id in s.rows && !Expired(w, s.rows[req.id].doc, s.clock)
                              && doc == Merge(s.rows[req.id].doc, req.frag) && w.valid(doc)
             else req.id !in s.rows && doc == req.frag
    ensures Reachable(w, Under(s, c, Checking(req, doc)))
  {
    var a := Set(s, c, Waiting(req));
    assert Free(w, s, c, a);
    FreeOnward(w, s, c, a);
    assert Guarded(w, a, c, Under(a, c, Reading(req)));
    GuardedOnward(w, a, c, Under(a, c, Reading(req)));
    assert Under(a, c, Reading(req)) == Under(s, c, Reading(req));
    UnderOnward(w, s, c, Reading(req), Checking(req, doc));
  }

  lemma ComesToWrite(w: World, s: State, c: nat, req: Request, doc: Members)
    requires Reachable(w, Under(s, c, Checking(req, doc))) && IsFree(w, s, req, doc)
    ensures Reachable(w, Under(s, c, Writing(req, Some(doc))))
  {
    if w.proxied(doc) {
      UnderOnward(w, s, c, Checking(req, doc), Fetching(req, doc, None));
      WalkPasses(w, s, c, req, doc, None);
    } else {
      UnderOnward(w, s, c, Checking(req, doc), Writing(req, Some(doc)));
    }
  }

  lemma Completes(w: World, s: State, c: nat, req: Request, doc: Members) returns (t: State)
    requires Reachable(w, s) && s.lock == None && Pc(s, c) == Idle && NormOk(w, req) && IsFree(w, s, req, doc)
    requires if req.update then req.id in s.rows && !Expired(w, s.rows[req.id].doc, s.clock)
                              && doc == Merge(s.rows[req.id].doc, req.frag) && w.valid(doc)
             else req.id !in s.rows && doc == req.frag
    ensures Reachable(w, t) && t.lock == None && t.clock == s.clock && req.id in t.rows && t.rows - {req.id} == s.rows - {req.id}
    ensures t.rows[req.id].doc == if req.update then WithStamp(doc, req.ts) else AsCreated(doc, w.show(s.clock))
    ensures t.rows[req.id].ctx == req.ctx
  {
    ComesToCheck(w, s, c, req, doc);
    ComesToWrite(w, s, c, req, doc);
    var x := Under(s, c, Writing(req, Some(doc)));
    t := Finish(Write(w, x, req, Some(doc)), c);
    GuardedOnward(w, x, c, t);
  }

  /** A delete removes its registration, whoever holds the lock. */
  lemma Deletes(w: World, s: State, c: nat, id: string) returns (t: State)
    requires Reachable(w, s) && Pc(s, c) == Idle && s.lock != Some(c)
    ensures Reachable(w, t) && t.rows == s.rows - {id} && t.lock == s.lock && t.clock == s.clock
  {
    var a := Set(s, c, DelReading(id));
    assert Free(w, s, c, a);
    FreeOnward(w, s, c, a);
    var expired := id in s.rows && Expired(w, s.rows[id].doc, s.clock);
    var b := Set(a, c, if expired then DelPurging(id) else Deleting(id));
    assert Free(w, a, c, b);
    FreeOnward(w, a, c, b);
    var d := if expired then Set(Remove(b, id), c, Deleting(id)) else b;
    if expired {
      assert Free(w, b, c, d);
      FreeOnward(w, b, c, d);
    }
    t := Finish(Remove(d, id), c);
    assert Free(w, d, c, t);
    FreeOnward(w, d, c, t);
  }
}
