/** The forwarded half of a batch, and what ends in the S and E arrays
    (crates/antares-api/src/batch.rs; clauses 5.6.7.4 to 5.6.10.4 and 5.6.20.4 of ETSI GS CIM 009). */
module Remote {
  import opened Json
  import opened Rounds
  import opened Batch

  /** An id a peer answered for, and whether it says it created the Entity. */
  datatype Applied = Applied(id: string, created: bool)

  /** A BatchEntityError: the Entity, the error type, the remote status. */
  datatype Failure = Failure(id: string, kind: string, status: nat)

  /** `err_remote` */
  function ErrRemote(id: string, status: nat): Failure {
    Failure(id, match status
                case 400 => "BadRequestData"
                case 404 => "ResourceNotFound"
                case 409 => "AlreadyExists"
                case 422 => "OperationNotSupported"
                case _ => "InternalError", status)
  }

  function Refusal(id: string): Failure {
    Failure(id, "Conflict", 409)
  }

  // ---------- counting outcomes ----------

  function OkIds(ok: seq<Applied>): seq<string> {
    seq(|ok|, i requires 0 <= i < |ok| => ok[i].id)
  }

  function ErrIds(err: seq<Failure>): seq<string> {
    seq(|err|, i requires 0 <= i < |err| => err[i].id)
  }

  /** Every id of `sent` has as many outcomes as it was sent times, and no other id has any. */
  ghost predicate EachOnce(sent: seq<string>, ok: seq<Applied>, err: seq<Failure>) {
    multiset(OkIds(ok)) + multiset(ErrIds(err)) == multiset(sent)
  }

  /** No outcome for an id that was not sent. */
  ghost predicate OnlySent(sent: seq<string>, ok: seq<Applied>, err: seq<Failure>) {
    (forall i :: 0 <= i < |ok| ==> ok[i].id in sent) && forall i :: 0 <= i < |err| ==> err[i].id in sent
  }

  lemma EachOnceOnlySent(sent: seq<string>, ok: seq<Applied>, err: seq<Failure>)
    requires EachOnce(sent, ok, err)
    ensures OnlySent(sent, ok, err)
  {
    forall i | 0 <= i < |ok|
      ensures ok[i].id in sent
    {
      assert OkIds(ok)[i] in multiset(OkIds(ok));
      assert ok[i].id in multiset(sent);
    }
    forall i | 0 <= i < |err|
      ensures err[i].id in sent
    {
      assert ErrIds(err)[i] in multiset(ErrIds(err));
      assert err[i].id in multiset(sent);
    }
  }

  // ---------- one forwarded bulk operation ----------

  /** The sent ids an array names, in the array's order. */
  function Named(a: seq<Json>, sent: seq<string>): seq<string> {
    if a == [] then []
    else
      var p := Named(a[..|a| - 1], sent);
      match a[|a| - 1]
      case Text(s) => if s in sent then p + [s] else p
      case _ => p
  }

  function Decimal(s: string): Option<nat> {
    if s == [] || !('0' <= s[|s| - 1] <= '9') then None
    else if |s| == 1 then Some(s[0] as int - '0' as int)
    else match Decimal(s[..|s| - 1])
         case None => None
         case Some(n) => Some(10 * n + (s[|s| - 1] as int - '0' as int))
  }

  /** `as_u64`, then the cast to 16 bits. */
  function AsStatus(v: Option<Json>, otherwise: nat): nat {
    match v
    case Some(Number(t)) =>
      (match Decimal(t)
       case Some(n) => if n < 0x1_0000_0000_0000_0000 then n % 0x1_0000 else otherwise
       case None => otherwise)
    case _ => otherwise
  }

  function Sub(v: Option<Json>, k: string): Option<Json> {
    match v
    case Some(o) => Get(o, k)
    case None => None
  }

  /** The error a source reports for one of the sent ids. */
  function Complaint(e: Json, sent: seq<string>, status: nat): Option<Failure> {
    match GetText(e, "entityId")
    case Some(id) => if id in sent then Some(ErrRemote(id, AsStatus(Sub(Get(e, "error"), "status"), status))) else None
    case None => None
  }

  function Complaints(a: seq<Json>, sent: seq<string>, status: nat): seq<Failure> {
    if a == [] then []
    else
      var p := Complaints(a[..|a| - 1], sent, status);
      match Complaint(a[|a| - 1], sent, status)
      case Some(f) => p + [f]
      case None => p
  }

  function AllOk(ids: seq<string>, created: bool): seq<Applied> {
    seq(|ids|, i requires 0 <= i < |ids| => Applied(ids[i], created))
  }

  function AllErr(ids: seq<string>, status: nat): seq<Failure> {
    seq(|ids|, i requires 0 <= i < |ids| => ErrRemote(ids[i], status))
  }

  function Items(v: Option<Json>): seq<Json> {
    match v
    case Some(Array(a)) => a
    case _ => []
  }

  predicate Partial(status: nat, body: Json) {
    status == 207 && body.Object?
  }

  /** What a reply to a bulk forward says applied. */
  function BulkOk(status: nat, body: Json, sent: seq<string>, created: bool): seq<Applied> {
    if 200 <= status <= 206 then AllOk(if body.Array? then Named(body.items, sent) else sent, created)
    else if Partial(status, body) then AllOk(Named(Items(Get(body, "success")), sent), created)
    else []
  }

  function BulkErr(status: nat, body: Json, sent: seq<string>): seq<Failure> {
    if 200 <= status <= 206 then []
    else if Partial(status, body) then Complaints(Items(Get(body, "errors")), sent, status)
    else AllErr(sent, status)
  }

  method PushNamed(a: seq<Json>, sent: seq<string>, created: bool, ok: seq<Applied>) returns (r: seq<Applied>)
    ensures r == ok + AllOk(Named(a, sent), created)
  {
    r := ok;
    for i := 0 to |a|
      invariant r == ok + AllOk(Named(a[..i], sent), created)
    {
      assert a[..i + 1][..i] == a[..i];
      match a[i] {
        case Text(s) =>
          if s in sent {
            r := r + [Applied(s, created)];
            assert AllOk(Named(a[..i], sent) + [s], created) == AllOk(Named(a[..i], sent), created) + [Applied(s, created)];
          }
        case _ =>
      }
    }
    assert a[..|a|] == a;
  }

  method PushComplaints(a: seq<Json>, sent: seq<string>, status: nat, err: seq<Failure>) returns (r: seq<Failure>)
    ensures r == err + Complaints(a, sent, status)
  {
    r := err;
    for i := 0 to |a|
      invariant r == err + Complaints(a[..i], sent, status)
    {
      assert a[..i + 1][..i] == a[..i];
      match Complaint(a[i], sent, status) {
        case Some(f) => r := r + [f];
        case None =>
      }
    }
    assert a[..|a|] == a;
  }

  /** `merge_remote_batch` */
  method MergeRemoteBatch(status: nat, body: Json, sent: seq<string>, created: bool, ok: seq<Applied>, err: seq<Failure>)
    returns (ok': seq<Applied>, err': seq<Failure>)
    ensures ok' == ok + BulkOk(status, body, sent, created)
    ensures err' == err + BulkErr(status, body, sent)
  {
    ok', err' := ok, err;
    if 200 <= status <= 206 {
      if body.Array? {
        ok' := PushNamed(body.items, sent, created, ok);
      } else {
        ok' := ok + AllOk(sent, created);
      }
    } else if status == 207 && body.Object? {
      ok' := PushNamed(Items(Get(body, "success")), sent, created, ok);
      err' := PushComplaints(Items(Get(body, "errors")), sent, status, err);
    } else {
      err' := err + AllErr(sent, status);
    }
  }

  lemma {:induction false} NamedAreSent(a: seq<Json>, sent: seq<string>)
    ensures forall x :: x in Named(a, sent) <==> x in sent && Text(x) in a
  {
    if a != [] {
      NamedAreSent(a[..|a| - 1], sent);
      assert a == a[..|a| - 1] + [a[|a| - 1]];
    }
  }

  lemma {:induction false} ComplaintsAreSent(a: seq<Json>, sent: seq<string>, status: nat)
    ensures forall i :: 0 <= i < |Complaints(a, sent, status)| ==> Complaints(a, sent, status)[i].id in sent
  {
    if a != [] { ComplaintsAreSent(a[..|a| - 1], sent, status); }
  }

  /** An error of the reply is about this id. */
  ghost predicate Blames(a: seq<Json>, id: string) {
    exists e :: e in a && GetText(e, "entityId") == Some(id)
  }

  lemma {:induction false} SuccessNames(a: seq<Json>, sent: seq<string>)
    ensures OkIds(AllOk(Named(a, sent), true)) == Named(a, sent) && OkIds(AllOk(Named(a, sent), false)) == Named(a, sent)
    ensures forall x :: x in Named(a, sent) <==> x in sent && Text(x) in a
  {
    NamedAreSent(a, sent);
  }

  /** The failure is what an error of the reply says: its id, its status or that of the whole reply, and the type. */
  ghost predicate SaidBy(a: seq<Json>, status: nat, f: Failure) {
    exists e :: e in a && Says(e, status, f)
  }

  ghost predicate Says(e: Json, status: nat, f: Failure) {
    GetText(e, "entityId") == Some(f.id) && f.kind == ErrorType(f.status) && StatusIs(Sub(Get(e, "error"), "status"), status, f.status)
  }

  /** An integer of 64 bits, cut to 16; the given status where there is none. */
  ghost predicate StatusIs(v: Option<Json>, otherwise: nat, status: nat) {
    && (v.None? || !v.value.Number? ==> status == otherwise)
    && forall n: nat :: v == Some(Integer(n)) ==> status == if n < 0x1_0000_0000_0000_0000 then n % 0x1_0000 else otherwise
  }

  lemma {:induction false} DecimalReadsBack(n: nat)
    ensures Decimal(Digits(n)) == Some(n)
  {
    if n >= 10 {
      DecimalReadsBack(n / 10);
      var r := Digits(n);
      assert r[..|r| - 1] == Digits(n / 10);
    }
  }

  lemma StatusByName(v: Option<Json>, otherwise: nat)
    ensures StatusIs(v, otherwise, AsStatus(v, otherwise))
  {
    forall n: nat | v == Some(Integer(n))
      ensures AsStatus(v, otherwise) == if n < 0x1_0000_0000_0000_0000 then n % 0x1_0000 else otherwise
    {
      DecimalReadsBack(n);
    }
  }

  lemma {:induction false} ComplaintsSay(a: seq<Json>, sent: seq<string>, status: nat)
    ensures forall f :: f in Complaints(a, sent, status) ==> SaidBy(a, status, f)
  {
    if a != [] {
      var n := |a| - 1;
      var before, last := a[..n], a[n];
      ComplaintsSay(before, sent, status);
      StatusByName(Sub(Get(last, "error"), "status"), status);
      assert a == before + [last];
      forall f | f in Complaints(a, sent, status)
        ensures SaidBy(a, status, f)
      {
        if f in Complaints(before, sent, status) {
          var e :| e in before && Says(e, status, f);
          assert e in a;
        } else {
          assert last in a && Says(last, status, f);
        }
      }
    }
  }

  lemma {:induction false} ComplaintsBlame(a: seq<Json>, sent: seq<string>, status: nat)
    ensures forall x :: x in ErrIds(Complaints(a, sent, status)) <==> x in sent && Blames(a, x)
  {
    if a != [] {
      var n := |a| - 1;
      var before, last := a[..n], a[n];
      ComplaintsBlame(before, sent, status);
      assert a == before + [last];
      var p, c := Complaints(before, sent, status), Complaint(last, sent, status);
      if c.Some? { assert ErrIds(p + [c.value]) == ErrIds(p) + [c.value.id]; }
      forall x
        ensures Blames(a, x) <==> Blames(before, x) || GetText(last, "entityId") == Some(x)
      {
        assert last in a;
      }
    }
  }

  /** A reply speaks only of what was sent; unless it carries per-id lists, it settles each sent id once. */
  lemma BulkAccounts(status: nat, body: Json, sent: seq<string>, created: bool)
    ensures var ok, err := BulkOk(status, body, sent, created), BulkErr(status, body, sent);
            && OnlySent(sent, ok, err)
            && (!(200 <= status <= 206 && body.Array?) && !Partial(status, body) ==> EachOnce(sent, ok, err))
            && (200 <= status <= 206 && body.Array? ==>
                  err == [] && forall x :: x in OkIds(ok) <==> x in sent && Text(x) in body.items)
  {
    var ok, err := BulkOk(status, body, sent, created), BulkErr(status, body, sent);
    if 200 <= status <= 206 {
      if body.Array? {
        NamedAreSent(body.items, sent);
        assert OkIds(ok) == Named(body.items, sent);
      } else {
        assert OkIds(ok) == sent && ErrIds(err) == [];
        EachOnceOnlySent(sent, ok, err);
      }
    } else if Partial(status, body) {
      var a := Items(Get(body, "success"));
      NamedAreSent(a, sent);
      ComplaintsAreSent(Items(Get(body, "errors")), sent, status);
    } else {
      assert OkIds(ok) == [] && ErrIds(err) == sent;
      EachOnceOnlySent(sent, ok, err);
    }
  }

  /** What a reply to a bulk forward says, by status: 200 to 206 that all was done, or what the array names; a 207 object
      what its two lists name; anything else that nothing was. */
  lemma BulkSays(status: nat, body: Json, sent: seq<string>, created: bool)
    ensures var ok, err := BulkOk(status, body, sent, created), BulkErr(status, body, sent);
            && (200 <= status <= 206 && !body.Array? ==> err == [] && OkIds(ok) == sent)
            && (status == 207 && body.Object? ==>
                  && (forall x :: x in OkIds(ok) <==> x in sent && Text(x) in Items(Get(body, "success")))
                  && (forall x :: x in ErrIds(err) <==> x in sent && Blames(Items(Get(body, "errors")), x))
                  && (forall f :: f in err ==> SaidBy(Items(Get(body, "errors")), status, f)))
            && (!(200 <= status <= 206) && !(status == 207 && body.Object?) ==>
                  ok == [] && ErrIds(err) == sent && forall f :: f in err ==> f.status == status && f.kind == ErrorType(status))
            && (forall a :: a in ok ==> a.created == created)
  {
    SuccessNames(Items(Get(body, "success")), sent);
    ComplaintsBlame(Items(Get(body, "errors")), sent, status);
    ComplaintsSay(Items(Get(body, "errors")), sent, status);
    var ok, err := BulkOk(status, body, sent, created), BulkErr(status, body, sent);
    if 200 <= status <= 206 && !body.Array? { assert OkIds(ok) == sent; }
    if status == 207 && body.Object? { assert OkIds(ok) == Named(Items(Get(body, "success")), sent); }
    if !(200 <= status <= 206) && !(status == 207 && body.Object?) { assert ErrIds(err) == sent; }
  }

  // ---------- the ladder of single-Entity forwards ----------

  datatype Call = CreateEntity | ReplaceEntity | UpdateEntity | MergeEntity | AppendAttrs

  function BulkOp(mode: Mode): string {
    match mode
    case Create => "createBatch"
    case Upsert(_) => "upsertBatch"
    case Update(_) => "updateBatch"
    case Merge => "mergeBatch"
  }

  function OpOf(c: Call): string {
    match c
    case CreateEntity => "createEntity"
    case ReplaceEntity => "replaceEntity"
    case UpdateEntity => "updateEntity"
    case MergeEntity => "mergeEntity"
    case AppendAttrs => "appendAttrs"
  }

  /** The operation that updates an Entity the peer already holds. */
  function Over(mode: Mode): Call {
    match mode
    case Create => CreateEntity
    case Upsert(update) => if update then UpdateEntity else ReplaceEntity
    case Update(noOverwrite) => if noOverwrite then AppendAttrs else UpdateEntity
    case Merge => MergeEntity
  }

  /** The first single-Entity operation tried, if the registration supports one. */
  function First(mode: Mode, ops: set<string>): Option<Call> {
    if mode.Upsert? && "createEntity" in ops then Some(CreateEntity)
    else if OpOf(Over(mode)) in ops then Some(Over(mode))
    else None
  }

  datatype End = Ok(created: bool) | Err(failure: Failure)

  /** `one_outcome` */
  function OneOutcome(id: string, status: nat, created: bool): (end: End)
    ensures end.Err? ==> end.failure.id == id
  {
    if 200 <= status < 300 && status != 207 then Ok(created && status == 201) else Err(ErrRemote(id, status))
  }

  /** What a peer would answer to each call for the nth Entity. */
  type Peer = (nat, Call) -> nat

  /** How the nth Entity ends. */
  function Ended(mode: Mode, ops: set<string>, call: Call, id: string, peer: Peer, n: nat): (end: End)
    ensures end.Err? ==> end.failure.id == id
    ensures end == Ok(true) ==> peer(n, CreateEntity) == 201
  {
    if mode.Upsert? && call.CreateEntity? && peer(n, call) == 409 then
      if OpOf(Over(mode)) in ops then OneOutcome(id, peer(n, Over(mode)), false)
      else Err(ErrRemote(id, 422))
    else OneOutcome(id, peer(n, call), call.CreateEntity?)
  }

  /** The outcomes of a registration's Entities, in order. */
  datatype Tried = Tried(ok: seq<Applied>, err: seq<Failure>)

  function Record(t: Tried, id: string, end: End): Tried {
    match end
    case Ok(created) => Tried(t.ok + [Applied(id, created)], t.err)
    case Err(f) => Tried(t.ok, t.err + [f])
  }

  lemma EachOnceRecord(sent: seq<string>, t: Tried, id: string, end: End)
    requires EachOnce(sent, t.ok, t.err) && (end.Err? ==> end.failure.id == id)
    ensures EachOnce(sent + [id], Record(t, id, end).ok, Record(t, id, end).err)
  {
    match end
    case Ok(created) => assert OkIds(t.ok + [Applied(id, created)]) == OkIds(t.ok) + [id];
    case Err(f) => assert ErrIds(t.err + [f]) == ErrIds(t.err) + [id];
  }

  function Settle(mode: Mode, ops: set<string>, call: Call, ids: seq<string>, peer: Peer): Tried {
    if ids == [] then Tried([], [])
    else
      var n := |ids| - 1;
      Record(Settle(mode, ops, call, ids[..n], peer), ids[n], Ended(mode, ops, call, ids[n], peer, n))
  }

  /** Each Entity ends once. */
  lemma {:induction false} SettleAccounts(mode: Mode, ops: set<string>, call: Call, ids: seq<string>, peer: Peer)
    ensures var t := Settle(mode, ops, call, ids, peer); EachOnce(ids, t.ok, t.err)
  {
    if ids != [] {
      var n := |ids| - 1;
      SettleAccounts(mode, ops, call, ids[..n], peer);
      assert ids == ids[..n] + [ids[n]];
      EachOnceRecord(ids[..n], Settle(mode, ops, call, ids[..n], peer), ids[n], Ended(mode, ops, call, ids[n], peer, n));
    } else {
      assert OkIds([]) == [] && ErrIds([]) == [];
    }
  }

  /** An Entity is reported created only if the peer answered 201 to its creation. */
  lemma {:induction false} SettleCreated(mode: Mode, ops: set<string>, call: Call, ids: seq<string>, peer: Peer)
    ensures forall id :: Applied(id, true) in Settle(mode, ops, call, ids, peer).ok ==> CreatedByPeer(ids, peer, id)
  {
    if ids != [] {
      var n := |ids| - 1;
      var before := ids[..n];
      SettleCreated(mode, ops, call, before, peer);
      var p := Settle(mode, ops, call, before, peer).ok;
      forall id | Applied(id, true) in Settle(mode, ops, call, ids, peer).ok
        ensures CreatedByPeer(ids, peer, id)
      {
        if Applied(id, true) in p {
          assert CreatedByPeer(before, peer, id);
          var k: nat :| k < n && before[k] == id && peer(k, CreateEntity) == 201;
          assert ids[k] == id;
        } else {
          assert ids[n] == id && peer(n, CreateEntity) == 201;
        }
      }
    }
  }

  predicate CreatedByPeer(ids: seq<string>, peer: Peer, id: string) {
    exists n: nat :: n < |ids| && ids[n] == id && peer(n, CreateEntity) == 201
  }

  /** The loop over the Entities of one registration. */
  method ForwardEach(mode: Mode, ops: set<string>, call: Call, ids: seq<string>, peer: Peer) returns (t: Tried)
    ensures t == Settle(mode, ops, call, ids, peer)
    ensures First(mode, ops) == Some(call) ==> SettledByName(mode, ops, ids, peer, t)
  {
    if First(mode, ops) == Some(call) { SettleByName(mode, ops, ids, peer); }
    t := Tried([], []);
    for i := 0 to |ids|
      invariant t == Settle(mode, ops, call, ids[..i], peer)
    {
      assert ids[..i + 1][..i] == ids[..i];
      var id := ids[i];
      var status := peer(i, call);
      if mode.Upsert? && call == CreateEntity && status == 409 {
        if OpOf(Over(mode)) in ops {
          t := Record(t, id, OneOutcome(id, peer(i, Over(mode)), false));
        } else {
          t := Record(t, id, Err(ErrRemote(id, 422)));
        }
      } else {
        t := Record(t, id, OneOutcome(id, status, call == CreateEntity));
      }
    }
    assert ids[..|ids|] == ids;
  }

  // ---------- the ladder, name by name ----------

  /** How the nth Entity ends: tried with one call, and after a 409 to a creation with the update the mode asks for. */
  ghost function LadderEnd(mode: Mode, ops: set<string>, id: string, peer: Peer, n: nat): End {
    match mode
    case Create => Answered(id, peer(n, CreateEntity), peer(n, CreateEntity) == 201)
    case Upsert(update) =>
      if "createEntity" !in ops then Answered(id, if update then peer(n, UpdateEntity) else peer(n, ReplaceEntity), false)
      else if peer(n, CreateEntity) != 409 then Answered(id, peer(n, CreateEntity), peer(n, CreateEntity) == 201)
      else if update then (if "updateEntity" in ops then Answered(id, peer(n, UpdateEntity), false) else Err(Failure(id, "OperationNotSupported", 422)))
      else if "replaceEntity" in ops then Answered(id, peer(n, ReplaceEntity), false) else Err(Failure(id, "OperationNotSupported", 422))
    case Update(noOverwrite) => Answered(id, if noOverwrite then peer(n, AppendAttrs) else peer(n, UpdateEntity), false)
    case Merge => Answered(id, peer(n, MergeEntity), false)
  }

  /** A peer's status: 200 to 299 but 207 is success, anything else the error of that status. */
  ghost function Answered(id: string, status: nat, created: bool): End {
    if 200 <= status <= 299 && status != 207 then Ok(created) else Err(Failure(id, ErrorType(status), status))
  }

  ghost function ErrorType(status: nat): string {
    if status == 400 then "BadRequestData" else if status == 404 then "ResourceNotFound" else if status == 409 then "AlreadyExists"
    else if status == 422 then "OperationNotSupported" else "InternalError"
  }

  /** The ladder is tried where the registration supports its first call. */
  ghost predicate Climbs(mode: Mode, ops: set<string>) {
    match mode
    case Create => "createEntity" in ops
    case Upsert(update) => "createEntity" in ops || if update then "updateEntity" in ops else "replaceEntity" in ops
    case Update(noOverwrite) => if noOverwrite then "appendAttrs" in ops else "updateEntity" in ops
    case Merge => "mergeEntity" in ops
  }

  ghost predicate SettledByName(mode: Mode, ops: set<string>, ids: seq<string>, peer: Peer, t: Tried) {
    if ids == [] then t == Tried([], [])
    else
      var n: nat := |ids| - 1;
      exists p :: SettledByName(mode, ops, ids[..n], peer, p) && Adds(p, ids[n], LadderEnd(mode, ops, ids[n], peer, n), t)
  }

  ghost predicate Adds(p: Tried, id: string, end: End, t: Tried) {
    match end
    case Ok(created) => t.ok == p.ok + [Applied(id, created)] && t.err == p.err
    case Err(f) => t.ok == p.ok && t.err == p.err + [f]
  }

  lemma LadderByName(mode: Mode, ops: set<string>, id: string, peer: Peer, n: nat)
    ensures First(mode, ops).Some? <==> Climbs(mode, ops)
    ensures First(mode, ops).Some? ==> Ended(mode, ops, First(mode, ops).value, id, peer, n) == LadderEnd(mode, ops, id, peer, n)
  {
  }

  /** The loops of the single-Entity ladder end each Entity as the ladder says, in order. */
  lemma {:induction false} SettleByName(mode: Mode, ops: set<string>, ids: seq<string>, peer: Peer)
    requires First(mode, ops).Some?
    ensures SettledByName(mode, ops, ids, peer, Settle(mode, ops, First(mode, ops).value, ids, peer))
  {
    if ids != [] {
      var n: nat := |ids| - 1;
      SettleByName(mode, ops, ids[..n], peer);
      LadderByName(mode, ops, ids[n], peer, n);
      assert Adds(Settle(mode, ops, First(mode, ops).value, ids[..n], peer), ids[n], LadderEnd(mode, ops, ids[n], peer, n),
                  Settle(mode, ops, First(mode, ops).value, ids, peer));
    }
  }

  // ---------- one registration ----------

  /** A matching registration: its operations, whether it is exclusive or redirect, the ids of the
      Entities reduced to its scope (none for an Entity without a string id), and what its peer answers. */
  datatype Reg = Reg(ops: set<string>, proxy: bool, scoped: seq<Option<string>>, status: nat, body: Json, peer: Peer)

  /** The ids sent in a bulk forward. */
  function SentIds(scoped: seq<Option<string>>): seq<string> {
    if scoped == [] then []
    else
      var p := SentIds(scoped[..|scoped| - 1]);
      match scoped[|scoped| - 1]
      case Some(id) => p + [id]
      case None => p
  }

  /** The ids single forwards are reported under. */
  function ReportedIds(scoped: seq<Option<string>>): seq<string> {
    seq(|scoped|, i requires 0 <= i < |scoped| => if scoped[i].Some? then scoped[i].value else "")
  }

  function AllRefused(ids: seq<string>): seq<Failure> {
    seq(|ids|, i requires 0 <= i < |ids| => Refusal(ids[i]))
  }

  /** What one registration adds. */
  function Contribution(mode: Mode, reg: Reg): Tried {
    var sent := SentIds(reg.scoped);
    if reg.scoped == [] then Tried([], [])
    else if BulkOp(mode) in reg.ops then
      var created := mode.Create? || (mode.Upsert? && reg.status == 201);
      Tried(BulkOk(reg.status, reg.body, sent, created), BulkErr(reg.status, reg.body, sent))
    else match First(mode, reg.ops)
         case Some(call) => Settle(mode, reg.ops, call, ReportedIds(reg.scoped), reg.peer)
         case None => Tried([], if reg.proxy then AllRefused(sent) else [])
  }

  ghost predicate Listed(reg: Reg) {
    (200 <= reg.status <= 206 && reg.body.Array?) || Partial(reg.status, reg.body)
  }

  /** A bulk forward sends every id there is, in order. */
  ghost predicate SendsEach(scoped: seq<Option<string>>, ids: seq<string>) {
    if scoped == [] then ids == []
    else if scoped[0].None? then SendsEach(scoped[1..], ids)
    else ids != [] && ids[0] == scoped[0].value && SendsEach(scoped[1..], ids[1..])
  }

  lemma {:induction false} SentAppend(scoped: seq<Option<string>>, ids: seq<string>, x: Option<string>)
    requires SendsEach(scoped, ids)
    ensures SendsEach(scoped + [x], if x.Some? then ids + [x.value] else ids)
    decreases scoped
  {
    if scoped == [] {
      assert [x][1..] == [];
    } else {
      assert (scoped + [x])[1..] == scoped[1..] + [x];
      if scoped[0].None? {
        SentAppend(scoped[1..], ids, x);
      } else {
        SentAppend(scoped[1..], ids[1..], x);
        assert x.Some? ==> (ids + [x.value])[1..] == ids[1..] + [x.value];
      }
    }
  }

  lemma {:induction false} SentByName(scoped: seq<Option<string>>)
    ensures SendsEach(scoped, SentIds(scoped))
  {
    if scoped != [] {
      var n := |scoped| - 1;
      SentByName(scoped[..n]);
      SentAppend(scoped[..n], SentIds(scoped[..n]), scoped[n]);
      assert scoped == scoped[..n] + [scoped[n]];
    }
  }

  lemma {:induction false} SentAreReported(scoped: seq<Option<string>>)
    ensures forall x :: x in SentIds(scoped) ==> x in ReportedIds(scoped)
  {
    if scoped != [] {
      var n := |scoped| - 1;
      SentAreReported(scoped[..n]);
      forall x | x in SentIds(scoped)
        ensures x in ReportedIds(scoped)
      {
        if x in SentIds(scoped[..n]) {
          var i :| 0 <= i < n && ReportedIds(scoped[..n])[i] == x;
          assert ReportedIds(scoped)[i] == x;
        } else {
          assert ReportedIds(scoped)[n] == x;
        }
      }
    }
  }

  /** The registration supports the bulk operation of the mode (clause 4.20). */
  ghost predicate TakesBulk(mode: Mode, ops: set<string>) {
    match mode
    case Create => "createBatch" in ops
    case Upsert(_) => "upsertBatch" in ops
    case Update(_) => "updateBatch" in ops
    case Merge => "mergeBatch" in ops
  }

  /** The bulk forward of a create, or of an upsert answered with 201, reports its Entities as created. */
  ghost predicate BulkCreates(mode: Mode, status: nat) {
    mode.Create? || (mode.Upsert? && status == 201)
  }

  /** A registration adds outcomes for the Entities forwarded to it and for no other; unless its peer
      answers a bulk forward with lists, each Entity gets one outcome; and none gets any only where an
      inclusive registration supports none of the operations. */
  lemma {:induction false} ContributionAccounts(mode: Mode, reg: Reg)
    ensures var t, sent, all := Contribution(mode, reg), SentIds(reg.scoped), ReportedIds(reg.scoped);
            && OnlySent(all, t.ok, t.err)
            && if TakesBulk(mode, reg.ops) then
                 (!Listed(reg) ==> EachOnce(sent, t.ok, t.err)) && forall a :: a in t.ok ==> (a.created <==> BulkCreates(mode, reg.status))
               else if Climbs(mode, reg.ops) then EachOnce(all, t.ok, t.err) && SettledByName(mode, reg.ops, all, reg.peer, t)
               else if reg.proxy then EachOnce(sent, t.ok, t.err) && t.ok == [] && t.err == AllRefused(sent)
                                      && forall f :: f in t.err ==> f.kind == "Conflict" && f.status == 409
               else t == Tried([], [])
  {
    var t, sent, all := Contribution(mode, reg), SentIds(reg.scoped), ReportedIds(reg.scoped);
    SentAreReported(reg.scoped);
    LadderByName(mode, reg.ops, "", reg.peer, 0);
    assert BulkOp(mode) in reg.ops <==> TakesBulk(mode, reg.ops);
    if reg.scoped == [] {
      assert sent == [] && all == [] && OkIds([]) == [] && ErrIds([]) == [];
    } else if BulkOp(mode) in reg.ops {
      BulkAccounts(reg.status, reg.body, sent, BulkCreates(mode, reg.status));
      BulkSays(reg.status, reg.body, sent, BulkCreates(mode, reg.status));
    } else if First(mode, reg.ops).Some? {
      SettleAccounts(mode, reg.ops, First(mode, reg.ops).value, all, reg.peer);
      SettleByName(mode, reg.ops, all, reg.peer);
      EachOnceOnlySent(all, t.ok, t.err);
    } else if reg.proxy {
      RefusedAll(sent);
    }
  }

  lemma {:induction false} RefusedAll(sent: seq<string>)
    ensures EachOnce(sent, [], AllRefused(sent)) && forall f :: f in AllRefused(sent) ==> f.kind == "Conflict" && f.status == 409
  {
    assert OkIds([]) == [] && ErrIds(AllRefused(sent)) == sent;
    EachOnceOnlySent(sent, [], AllRefused(sent));
  }

  /** The body of the loop over registrations. */
  method ForwardTo(mode: Mode, reg: Reg, ok: seq<Applied>, err: seq<Failure>) returns (ok': seq<Applied>, err': seq<Failure>)
    ensures ok' == ok + Contribution(mode, reg).ok && err' == err + Contribution(mode, reg).err
  {
    ok', err' := ok, err;
    if reg.scoped == [] { return; }
    var sent := SentIds(reg.scoped);
    if BulkOp(mode) in reg.ops {
      ok', err' := MergeRemoteBatch(reg.status, reg.body, sent, mode == Create || (mode.Upsert? && reg.status == 201), ok, err);
      return;
    }
    match First(mode, reg.ops) {
      case Some(call) =>
        var t := ForwardEach(mode, reg.ops, call, ReportedIds(reg.scoped), reg.peer);
        ok', err' := ok + t.ok, err + t.err;
      case None =>
        if reg.proxy { err' := err + AllRefused(sent); }
    }
  }

  function Forwarded(mode: Mode, regs: seq<Reg>): Tried {
    if regs == [] then Tried([], [])
    else
      var p, c := Forwarded(mode, regs[..|regs| - 1]), Contribution(mode, regs[|regs| - 1]);
      Tried(p.ok + c.ok, p.err + c.err)
  }

  /** A forward left an outcome for this id. */
  predicate Spoken(t: Tried, id: string) {
    id in OkIds(t.ok) || id in ErrIds(t.err)
  }

  lemma SpokenOfBoth(p: Tried, c: Tried, id: string)
    requires Spoken(Tried(p.ok + c.ok, p.err + c.err), id)
    ensures Spoken(p, id) || Spoken(c, id)
  {
    assert OkIds(p.ok + c.ok) == OkIds(p.ok) + OkIds(c.ok);
    assert ErrIds(p.err + c.err) == ErrIds(p.err) + ErrIds(c.err);
  }

  lemma ContributionSpeaks(mode: Mode, reg: Reg, id: string)
    requires Spoken(Contribution(mode, reg), id)
    ensures id in ReportedIds(reg.scoped)
  {
    ContributionAccounts(mode, reg);
  }

  predicate SentTo(regs: seq<Reg>, id: string) {
    exists r :: 0 <= r < |regs| && id in ReportedIds(regs[r].scoped)
  }

  /** No forward adds an outcome for an Entity that was not forwarded. */
  lemma {:induction false} ForwardedAccounts(mode: Mode, regs: seq<Reg>, id: string)
    requires Spoken(Forwarded(mode, regs), id)
    ensures SentTo(regs, id)
  {
    if regs != [] {
      var n := |regs| - 1;
      var before := regs[..n];
      SpokenOfBoth(Forwarded(mode, before), Contribution(mode, regs[n]), id);
      if Spoken(Forwarded(mode, before), id) {
        ForwardedAccounts(mode, before, id);
        var r :| 0 <= r < n && id in ReportedIds(before[r].scoped);
        assert regs[r] == before[r];
      } else {
        ContributionSpeaks(mode, regs[n], id);
      }
    }
  }

  method ForwardAll(mode: Mode, regs: seq<Reg>) returns (t: Tried)
    ensures t == Forwarded(mode, regs)
  {
    var ok, err := [], [];
    for i := 0 to |regs|
      invariant Tried(ok, err) == Forwarded(mode, regs[..i])
    {
      assert regs[..i + 1][..i] == regs[..i];
      ok, err := ForwardTo(mode, regs[i], ok, err);
    }
    assert regs[..|regs|] == regs;
    t := Tried(ok, err);
  }

  // ---------- both halves ----------

  /** An entry of E: this broker's own, or one that a forward left. */
  datatype Fault = Own(entry: Entry) | Relayed(failure: Failure)

  function OwnFaults(log: seq<Entry>): seq<Fault> {
    seq(|log|, i requires 0 <= i < |log| => Own(log[i]))
  }

  function RelayedFaults(err: seq<Failure>): seq<Fault> {
    seq(|err|, i requires 0 <= i < |err| => Relayed(err[i]))
  }

  predicate CreatedRemotely(ok: seq<Applied>, id: string) {
    exists i :: 0 <= i < |ok| && ok[i].id == id && ok[i].created
  }

  predicate AppliedRemotely(ok: seq<Applied>, id: string) {
    id in OkIds(ok)
  }

  /** Merging the forwarded outcomes into S and the created ids. */
  method Absorb(ok: seq<Applied>, success: seq<string>, created: seq<string>, anyCreated: bool)
    returns (success': seq<string>, created': seq<string>, any': bool)
    requires NoRepeats(success) && (anyCreated <==> created != [])
    ensures NoRepeats(success') && success <= success' && (any' <==> created' != [])
    ensures forall id :: id in success' <==> id in success || AppliedRemotely(ok, id)
    ensures forall id :: id in created' <==> id in created || CreatedRemotely(ok, id)
  {
    success', created', any' := success, created, anyCreated;
    for i := 0 to |ok|
      invariant NoRepeats(success') && success <= success' && (any' <==> created' != [])
      invariant forall id :: id in success' <==> id in success || AppliedRemotely(ok[..i], id)
      invariant forall id :: id in created' <==> id in created || CreatedRemotely(ok[..i], id)
    {
      assert ok[..i + 1] == ok[..i] + [ok[i]];
      AppliedNext(ok[..i], ok[i]);
      if ok[i].created {
        any' := true;
        created' := created' + [ok[i].id];
      }
      if ok[i].id !in success' { success' := success' + [ok[i].id]; }
    }
    assert ok[..|ok|] == ok;
  }

  lemma AppliedNext(ok: seq<Applied>, a: Applied)
    ensures forall id :: AppliedRemotely(ok + [a], id) <==> AppliedRemotely(ok, id) || id == a.id
    ensures forall id :: CreatedRemotely(ok + [a], id) <==> CreatedRemotely(ok, id) || (id == a.id && a.created)
  {
    var more := ok + [a];
    assert more[|ok|] == a;
    assert OkIds(more) == OkIds(ok) + [a.id];
    forall id
      ensures AppliedRemotely(more, id) <==> AppliedRemotely(ok, id) || id == a.id
      ensures CreatedRemotely(more, id) <==> CreatedRemotely(ok, id) || (id == a.id && a.created)
    {
      if CreatedRemotely(ok, id) {
        var i :| 0 <= i < |ok| && ok[i].id == id && ok[i].created;
        assert more[i] == ok[i];
      }
    }
  }

  /** E holds the preparation's errors, then every local failure, then every forwarded one. */
  ghost predicate FaultsOf(prep: seq<Entry>, log: seq<Entry>, err: seq<Failure>, errors: seq<Fault>) {
    exists own: seq<Entry> :: errors == OwnFaults(prep + own) + RelayedFaults(err) && forall id :: ErrorsAt(log, own, id)
  }

  /** The answer of a write with a local and a forwarded half. */
  ghost predicate AnswersBoth(mode: Mode, prep: seq<Entry>, log: seq<Entry>, remote: Tried, reply: Reply<Fault>) {
    && (reply.Reply207? <==> prep != [] || remote.err != [] || exists id :: FailedIn(log, id))
    && (reply.Reply207? ==>
          && NoRepeats(reply.success)
          && (forall id :: id in reply.success <==> SucceededIn(log, id) || AppliedRemotely(remote.ok, id))
          && FaultsOf(prep, log, remote.err, reply.errors))
    && (reply.Reply201? && mode.Create? ==>
          && NoRepeats(reply.ids)
          && forall id :: id in reply.ids <==> SucceededIn(log, id) || AppliedRemotely(remote.ok, id))
    && (reply.Reply201? && !mode.Create? ==>
          && mode.Upsert? && reply.ids != []
          && forall id :: id in reply.ids <==> CreatedIn(log, id) || CreatedRemotely(remote.ok, id))
    && (reply.Reply204? ==>
          && !mode.Create?
          && (mode.Upsert? ==> forall id :: !CreatedIn(log, id) && !CreatedRemotely(remote.ok, id)))
  }

  lemma BothById(mode: Mode, prep: seq<Entry>, a: seq<Entry>, b: seq<Entry>, remote: Tried, reply: Reply<Fault>)
    requires forall id :: SameResults(a, b, id)
    requires AnswersBoth(mode, prep, a, remote, reply)
    ensures AnswersBoth(mode, prep, b, remote, reply)
  {
    forall id
      ensures SucceededIn(a, id) <==> SucceededIn(b, id)
      ensures CreatedIn(a, id) <==> CreatedIn(b, id)
      ensures FailedIn(a, id) <==> FailedIn(b, id)
    {
      assert SameResults(a, b, id);
      ById(a, id);
      ById(b, id);
    }
    if reply.Reply207? {
      var own: seq<Entry> :| reply.errors == OwnFaults(prep + own) + RelayedFaults(remote.err) && forall id :: ErrorsAt(a, own, id);
      forall id
        ensures ErrorsAt(b, own, id)
      {
        assert SameResults(a, b, id) && ErrorsAt(a, own, id);
      }
    }
  }

  lemma LocalFaults(prep: seq<Entry>, log: seq<Entry>, errors: seq<Entry>, err: seq<Failure>)
    requires errors == prep + Failures(log)
    ensures FaultsOf(prep, log, err, OwnFaults(errors) + RelayedFaults(err))
    ensures OwnFaults(errors) + RelayedFaults(err) == [] <==> prep == [] && err == [] && forall id :: !FailedIn(log, id)
  {
    NoFailures(log);
    forall id
      ensures ErrorsAt(log, Failures(log), id)
    {
      FailuresById(log, id);
    }
  }

  /** A batch write over both halves: the local store is that of the array executed one entry after the
      other, and S and E account for every local and every forwarded outcome. */
  method DistributedWrite(store: Store, env: Env, mode: Mode, items: seq<Item>, prep: seq<Entry>, createTs: string,
                          clock: nat -> string, regs: seq<Reg>)
    returns (reply: Reply<Fault>)
    modifies store
    ensures var o := Run(RuleOf(env, mode), old(store.docs), Entries(mode, items, createTs, clock));
            store.docs == o.docs && AnswersBoth(mode, prep, o.log, Forwarded(mode, regs), reply)
  {
    ghost var start := store.docs;
    var tally := new Tally(prep);
    WriteLocal(store, tally, env, mode, items, createTs, clock);
    var remote := ForwardAll(mode, regs);
    var success, created, any := Absorb(remote.ok, tally.success, tally.created, tally.anyCreated);
    var errors := OwnFaults(tally.errors) + RelayedFaults(remote.err);
    reply := Respond(mode, success, errors, created, any);
    LocalFaults(prep, tally.log, tally.errors, remote.err);
    if created != [] { assert created[0] in created; }
    BothById(mode, prep, tally.log, Run(RuleOf(env, mode), start, Entries(mode, items, createTs, clock)).log, remote, reply);
  }
}
