/** Registration writes under the per-tenant lock, with deletes, the expiry sweep, the bookkeeping of forwards
    and the clock beside them (crates/antares-api/src/csource.rs). */
module Protocol {
  import opened Names
  import opened Json
  import W = Walk

  // Each client is a program counter; every step is one store call or one visit of a page already read.
  // What a document says is left to a World; module Exclusion gives the broker's own.

  /** What the protocol asks of a document: its shape after normalization, the rules of its mode, whether its mode
      is exclusive or redirect, whether, in a context, it matches another that its mode is guarded against;
      DateTime text as an instant, and an instant as DateTime text. */
  datatype World = World(shaped: Members -> bool, valid: Members -> bool, proxied: Members -> bool,
                         matches: (string, Members, Members) -> bool,
                         instant: string -> nat, show: nat -> string)

  /** `reg_expired`: strictly before now. */
  predicate Expired(w: World, doc: Members, now: nat) {
    match GetText(Object(doc), "expiresAt")
    case Some(e) => w.instant(e) < now
    case None => false
  }

  // ---------- documents ----------

  /** The post-merge document an update checks: null removes a member, `id` is never touched. */
  function Merge(prev: Members, frag: Members): Members {
    map k | k in prev.Keys + frag.Keys && (if k in frag && k != "id" then !frag[k].Null? else k in prev)
      :: if k in frag && k != "id" then frag[k] else prev[k]
  }

  function WithStamp(doc: Members, ts: string): Members {
    doc["modifiedAt" := Text(ts)]
  }

  function AsCreated(doc: Members, ts: string): Members {
    WithStamp(doc["createdAt" := Text(ts)], ts)
  }

  ghost predicate MergedAt(prev: Members, frag: Members, r: Members, done: set<string>, k: string) {
    if k in done && k in frag && k != "id" then (k in r <==> !frag[k].Null?) && (k in r ==> r[k] == frag[k])
    else (k in r <==> k in prev) && (k in r ==> r[k] == prev[k])
  }

  /** The loop over a fragment's members, in `update_registration` and in `apply_doc_fragment`. */
  method MergeInto(prev: Members, frag: Members) returns (r: Members)
    ensures r == Merge(prev, frag)
  {
    r := prev;
    var rest := frag.Keys;
    while rest != {}
      invariant rest <= frag.Keys
      invariant forall k :: MergedAt(prev, frag, r, frag.Keys - rest, k)
      decreases rest
    {
      var k :| k in rest;
      ghost var r0, done0 := r, frag.Keys - rest;
      rest := rest - {k};
      if k != "id" {
        r := if frag[k].Null? then r - {k} else r[k := frag[k]];
      }
      ghost var done := frag.Keys - rest;
      forall j
        ensures MergedAt(prev, frag, r, done, j)
      {
        assert MergedAt(prev, frag, r0, done0, j);
      }
    }
    MergeEnds(prev, frag, r);
  }

  lemma MergeEnds(prev: Members, frag: Members, r: Members)
    requires forall k :: MergedAt(prev, frag, r, frag.Keys - {}, k)
    ensures r == Merge(prev, frag)
  {
    forall k
      ensures AgreeAt(r, Merge(prev, frag), k)
    {
      assert MergedAt(prev, frag, r, frag.Keys - {}, k);
    }
    SameMembers(r, Merge(prev, frag));
  }

  /** `apply_doc_fragment`: the merge the checks saw, and the stamp. */
  method ApplyDocFragment(target: Members, frag: Members, ts: string) returns (r: Members)
    ensures r == WithStamp(Merge(target, frag), ts)
  {
    r := MergeInto(target, frag);
    r := r["modifiedAt" := Text(ts)];
  }

  // ---------- the bookkeeping of forwards ----------

  /** The members a forward books: normalization keeps them out of every request. */
  const BOOKED: set<string> := { "timesSent", "timesFailed", "lastSuccess", "lastFailure", "status" }

  /** A document without what forwards book on it. */
  function Core(doc: Members): Members {
    doc - BOOKED
  }

  /** What forwards have booked on a document. */
  function Books(doc: Members): Members {
    doc - (doc.Keys - BOOKED)
  }

  /** The closure of `record_forward`: one more attempt, and how it ended. */
  method RecordForward(doc: Members, now: string, ok: bool) returns (r: Members)
    ensures r == Booked(doc, now, ok) && Attempted(doc, now, ok, r)
  {
    r := doc["timesSent" := Integer(Counter(At(doc, "timesSent")) + 1)];
    if ok {
      r := r["lastSuccess" := Text(now)];
      r := r["status" := Text("ok")];
    } else {
      r := RecordFailure(r, now);
    }
    BookedKeeps(doc, now, ok);
  }

  method RecordFailure(sent: Members, now: string) returns (r: Members)
    ensures r == FailureOf(sent, Counter(At(sent, "timesFailed")) + 1, now)
  {
    r := sent["timesFailed" := Integer(Counter(At(sent, "timesFailed")) + 1)];
    r := r["lastFailure" := Text(now)];
    r := r["status" := Text("failed")];
  }

  function FailureOf(doc: Members, failed: int, now: string): Members {
    doc["timesFailed" := Integer(failed)]["lastFailure" := Text(now)]["status" := Text("failed")]
  }

  function Booked(doc: Members, now: string, ok: bool): Members {
    var sent := doc["timesSent" := Integer(Counter(At(doc, "timesSent")) + 1)];
    if ok then sent["lastSuccess" := Text(now)]["status" := Text("ok")]
    else FailureOf(sent, Counter(At(doc, "timesFailed")) + 1, now)
  }

  /** Every other member is left alone, one attempt more is counted, and one failure more if it was one. */
  ghost predicate Attempted(doc: Members, now: string, ok: bool, r: Members) {
    && (forall k :: k in BOOKED || AgreeAt(r, doc, k))
    && Counter(At(r, "timesSent")) == Counter(At(doc, "timesSent")) + 1
    && At(r, "status") == Some(Text(if ok then "ok" else "failed"))
    && At(r, if ok then "lastSuccess" else "lastFailure") == Some(Text(now))
    && AgreeAt(r, doc, if ok then "lastFailure" else "lastSuccess")
    && Counter(At(r, "timesFailed")) == Counter(At(doc, "timesFailed")) + if ok then 0 else 1
  }

  lemma BookedKeeps(doc: Members, now: string, ok: bool)
    ensures Attempted(doc, now, ok, Booked(doc, now, ok))
  {
    var sent, failed := Counter(At(doc, "timesSent")), Counter(At(doc, "timesFailed"));
    CounterReadsBack(sent + 1);
    CounterReadsBack(failed + 1);
    SuccessAt(doc, Integer(sent + 1), now);
    FailureAt(doc, Integer(sent + 1), Integer(failed + 1), now);
  }

  lemma SuccessAt(doc: Members, sent: Json, now: string)
    ensures var r := doc["timesSent" := sent]["lastSuccess" := Text(now)]["status" := Text("ok")];
            && (forall k :: k in BOOKED || AgreeAt(r, doc, k)) && AgreeAt(r, doc, "lastFailure") && AgreeAt(r, doc, "timesFailed")
            && At(r, "timesSent") == Some(sent) && At(r, "status") == Some(Text("ok")) && At(r, "lastSuccess") == Some(Text(now))
  {
  }

  lemma FailureAt(doc: Members, sent: Json, failed: Json, now: string)
    ensures var r := doc["timesSent" := sent]["timesFailed" := failed]["lastFailure" := Text(now)]["status" := Text("failed")];
            && (forall k :: k in BOOKED || AgreeAt(r, doc, k)) && AgreeAt(r, doc, "lastSuccess")
            && At(r, "timesSent") == Some(sent) && At(r, "timesFailed") == Some(failed)
            && At(r, "status") == Some(Text("failed")) && At(r, "lastFailure") == Some(Text(now))
  {
  }

  lemma BookedCore(doc: Members, now: string, ok: bool)
    ensures Core(Booked(doc, now, ok)) == Core(doc)
  {
    var r := Booked(doc, now, ok);
    BookedKeeps(doc, now, ok);
    forall k
      ensures AgreeAt(Core(r), Core(doc), k)
    {
      assert k in BOOKED || AgreeAt(r, doc, k);
    }
    SameMembers(Core(r), Core(doc));
  }

  /** A document is its core and its books. */
  lemma CoreAndBooks(a: Members, b: Members)
    requires Core(a) == Core(b) && Books(a) == Books(b)
    ensures a == b
  {
    forall k
      ensures AgreeAt(a, b, k)
    {
      assert (k in a && k !in BOOKED <==> k in Core(a)) && (k in b && k !in BOOKED <==> k in Core(b));
      assert (k in a && k in BOOKED <==> k in Books(a)) && (k in b && k in BOOKED <==> k in Books(b));
      assert k in Core(a) ==> a[k] == Core(b)[k];
      assert k in Books(a) ==> a[k] == Books(b)[k];
    }
    SameMembers(a, b);
  }

  /** A fragment that carries no books merges into the core alone. */
  lemma MergeParts(prev: Members, frag: Members)
    requires Core(frag) == frag
    ensures Core(Merge(prev, frag)) == Merge(Core(prev), frag) && Books(Merge(prev, frag)) == Books(prev)
  {
    var m := Merge(prev, frag);
    forall k
      ensures AgreeAt(Core(m), Merge(Core(prev), frag), k) && AgreeAt(Books(m), Books(prev), k)
    {
      assert k in BOOKED ==> k !in Core(frag);
    }
    SameMembers(Core(m), Merge(Core(prev), frag));
    SameMembers(Books(m), Books(prev));
  }

  // ---------- the laws of a world ----------

  /** Going from one document to the other changes nothing that a check reads. */
  ghost predicate StampLaw(w: World, doc: Members, d: Members) {
    && (w.shaped(d) <==> w.shaped(doc)) && (w.valid(d) <==> w.valid(doc)) && (w.proxied(d) <==> w.proxied(doc))
    && forall ctx, other :: MatchLaw(w, ctx, doc, d, other)
  }

  ghost predicate MatchLaw(w: World, ctx: string, doc: Members, d: Members, other: Members) {
    (w.matches(ctx, d, other) <==> w.matches(ctx, doc, other)) && (w.matches(ctx, other, d) <==> w.matches(ctx, other, doc))
  }

  /** A merge of normalized documents is normalized. */
  ghost predicate MergeLaw(w: World, prev: Members, frag: Members) {
    w.shaped(prev) && w.shaped(frag) ==> w.shaped(Merge(prev, frag))
  }

  /** Only a document in a proxied mode is guarded against others. */
  ghost predicate GuardLaw(w: World, ctx: string, doc: Members, other: Members) {
    w.matches(ctx, doc, other) ==> w.proxied(doc)
  }

  ghost predicate Lawful(w: World) {
    && (forall doc, ts :: StampLaw(w, doc, WithStamp(doc, ts)))
    && (forall doc, ts :: StampLaw(w, doc, AsCreated(doc, ts)))
    && (forall prev, frag :: MergeLaw(w, prev, frag))
    && (forall ctx, doc, other :: GuardLaw(w, ctx, doc, other))
    && (forall doc :: StampLaw(w, doc, Core(doc)))
  }

  /** What forwards book decides nothing. */
  lemma CoreReads(w: World, a: Members, b: Members)
    requires Lawful(w) && Core(a) == Core(b)
    ensures StampLaw(w, a, b) && GetText(Object(a), "id") == GetText(Object(b), "id")
    ensures forall now :: Expired(w, a, now) <==> Expired(w, b, now)
  {
    assert StampLaw(w, a, Core(a)) && StampLaw(w, b, Core(b));
    assert AgreeAt(Core(a), Core(b), "id") && AgreeAt(Core(a), Core(b), "expiresAt");
    forall ctx, other
      ensures MatchLaw(w, ctx, a, b, other)
    {
      assert MatchLaw(w, ctx, a, Core(a), other) && MatchLaw(w, ctx, b, Core(b), other);
    }
  }

  // ---------- the system ----------

  /** A create (`frag` is the whole document) or an update, as normalization left it. */
  datatype Request = Request(update: bool, id: string, frag: Members, ctx: string, ts: string)

  /** A stored registration, the context it was checked in, and which write put it there. */
  datatype Row = Row(doc: Members, ctx: string, written: nat)

  /** A document of a page that has been read. */
  datatype Found = Found(id: string, doc: Members)

  datatype PC =
    | Idle
    | Waiting(req: Request)
    | Reading(req: Request)
    | Purging(req: Request)
    | Checking(req: Request, doc: Members)
    | Fetching(req: Request, doc: Members, after: Option<string>)
    | Visiting(req: Request, doc: Members, rest: seq<Found>, at: Option<string>, short: bool)
    | Writing(req: Request, write: Option<Members>)
    | DelReading(id: string)
    | DelPurging(id: string)
    | Deleting(id: string)
    | SweepFetching(after: Option<string>, dead: seq<string>)
    | SweepVisiting(rest: seq<Found>, at: Option<string>, short: bool, dead: seq<string>)
    | Sweeping(dead: seq<string>)

  type Rows = map<string, Row>

  datatype State = State(rows: Rows, writes: nat, lock: Option<nat>, clock: nat, pcs: map<nat, PC>)

  function Pc(s: State, c: nat): PC {
    if c in s.pcs then s.pcs[c] else Idle
  }

  function Set(s: State, c: nat, pc: PC): State {
    s.(pcs := s.pcs[c := pc])
  }

  /** The client answers, or goes away: its guard is dropped. */
  function Finish(s: State, c: nat): State {
    Set(s, c, Idle).(lock := if s.lock == Some(c) then None else s.lock)
  }

  function Remove(s: State, id: string): State {
    s.(rows := s.rows - {id})
  }

  /** `record_forward`: the store's mutate, which inserts nothing. */
  function Book(s: State, id: string, now: string, ok: bool): State {
    if id !in s.rows then s
    else s.(rows := s.rows[id := s.rows[id].(doc := Booked(s.rows[id].doc, now, ok))])
  }

  /** The registration an update may overlap: itself. */
  function Self(req: Request): Option<string> {
    if req.update then Some(req.id) else None
  }

  /** What normalization guarantees of a request. */
  predicate NormOk(w: World, req: Request) {
    w.shaped(req.frag) && Core(req.frag) == req.frag && (!req.update ==> GetText(Object(req.frag), "id") == Some(req.id) && w.valid(req.frag))
  }

  function FoundAll(rows: Rows, ids: seq<string>): seq<Found>
    requires forall i :: 0 <= i < |ids| ==> ids[i] in rows
  {
    seq(|ids|, i requires 0 <= i < |ids| => Found(ids[i], rows[ids[i]].doc))
  }

  /** The visit of `check_proxied_overlap`: not itself, not expired, guarded against and matching. */
  predicate Blocked(w: World, req: Request, doc: Members, other: Members, now: nat) {
    GetText(Object(other), "id") != Self(req) && !Expired(w, other, now) && w.matches(req.ctx, doc, other)
  }

  /** `take_live_registration` and, for an update, the merge and its validation. */
  function Read(w: World, s: State, c: nat, req: Request): State {
    if req.id !in s.rows then Set(s, c, if req.update then Writing(req, None) else Checking(req, req.frag))
    else
      var doc := s.rows[req.id].doc;
      if Expired(w, doc, s.clock) then Set(s, c, Purging(req))
      else if !req.update then Set(s, c, Checking(req, req.frag))
      else if w.valid(Merge(doc, req.frag)) then Set(s, c, Checking(req, Merge(doc, req.frag)))
      else Finish(s, c)
  }

  /** The store's create (insert if absent) or mutate (rewrite if present). */
  function Write(w: World, s: State, req: Request, write: Option<Members>): State {
    if req.update then
      if req.id !in s.rows then s
      else s.(rows := s.rows[req.id := Row(WithStamp(Merge(s.rows[req.id].doc, req.frag), req.ts), req.ctx, s.writes)], writes := s.writes + 1)
    else if req.id in s.rows || write.None? then s
    else s.(rows := s.rows[req.id := Row(AsCreated(write.value, w.show(s.clock)), req.ctx, s.writes)], writes := s.writes + 1)
  }

  /** A page read: the documents of one id-ordered page. */
  ghost predicate PageRead(s: State, after: Option<string>, rest: seq<Found>, short: bool) {
    exists ids :: W.IsPage(s.rows.Keys, after, W.SCAN_PAGE, ids) && rest == FoundAll(s.rows, ids) && short == (|ids| < W.SCAN_PAGE)
  }

  /** One step of a write that holds, or waits for, the lock. */
  ghost predicate Guarded(w: World, s: State, c: nat, s': State) {
    match Pc(s, c)
    case Waiting(req) => s.lock.None? && s' == Set(s, c, Reading(req)).(lock := Some(c))
    case Reading(req) => s' == Read(w, s, c, req)
    case Purging(req) => s' == Set(Remove(s, req.id), c, if req.update then Writing(req, None) else Checking(req, req.frag))
    case Checking(req, doc) =>
      if !w.proxied(doc) then s' == Set(s, c, Writing(req, Some(doc)))
      else s' == Finish(s, c) || s' == Set(s, c, Fetching(req, doc, None))
    case Fetching(req, doc, after) =>
      exists rest, short :: PageRead(s, after, rest, short) && s' == Set(s, c, Visiting(req, doc, rest, after, short))
    case Visiting(req, doc, rest, at, short) =>
      if rest == [] then s' == Set(s, c, if short then Writing(req, Some(doc)) else Fetching(req, doc, at))
      else if Blocked(w, req, doc, rest[0].doc, s.clock) then s' == Finish(s, c)
      else s' == Set(s, c, Visiting(req, doc, rest[1..], Some(rest[0].id), short))
    case Writing(req, write) => s' == Finish(Write(w, s, req, write), c)
    case _ => false
  }

  /** One step of a request that arrives, of a delete, or of the sweep: none takes the lock. */
  ghost predicate Free(w: World, s: State, c: nat, s': State) {
    match Pc(s, c)
    case Idle =>
      || (exists req :: NormOk(w, req) && s' == Set(s, c, Waiting(req)))
      || (exists id :: s' == Set(s, c, DelReading(id)))
      || s' == Set(s, c, SweepFetching(None, []))
    case DelReading(id) =>
      s' == Set(s, c, if id in s.rows && Expired(w, s.rows[id].doc, s.clock) then DelPurging(id) else Deleting(id))
    case DelPurging(id) => s' == Set(Remove(s, id), c, Deleting(id))
    case Deleting(id) => s' == Finish(Remove(s, id), c)
    case SweepFetching(after, dead) =>
      exists rest, short :: PageRead(s, after, rest, short) && s' == Set(s, c, SweepVisiting(rest, after, short, dead))
    case SweepVisiting(rest, at, short, dead) =>
      if rest == [] then s' == Set(s, c, if short then Sweeping(dead) else SweepFetching(at, dead))
      else s' == Set(s, c, SweepVisiting(rest[1..], Some(rest[0].id), short,
                                         if Expired(w, rest[0].doc, s.clock) then dead + [rest[0].id] else dead))
    case Sweeping(dead) =>
      if dead == [] then s' == Finish(s, c) else s' == Set(Remove(s, dead[0]), c, Sweeping(dead[1..]))
    case _ => false
  }

  ghost predicate Tick(s: State, s': State) {
    s'.clock >= s.clock && s' == s.(clock := s'.clock)
  }

  /** A forward to `id` is booked, by whoever sent it: the lock is not asked for. */
  ghost predicate Forwarded(s: State, s': State, id: string) {
    id in s.rows && exists now, ok :: s' == Book(s, id, now, ok)
  }

  /** Some client takes a step or gives up, a forward is booked, or time passes. */
  ghost predicate Next(w: World, s: State, s': State) {
    Tick(s, s') || (exists id :: Forwarded(s, s', id)) || exists c :: Guarded(w, s, c, s') || Free(w, s, c, s') || s' == Finish(s, c)
  }

  predicate Init(s: State) {
    s.rows == map[] && s.lock == None && s.pcs == map[]
  }

  ghost predicate NextAt(w: World, ss: seq<State>, i: nat)
    requires i + 1 < |ss|
  {
    Next(w, ss[i], ss[i + 1])
  }

  ghost predicate IsRun(w: World, ss: seq<State>) {
    ss != [] && Init(ss[0]) && forall i: nat :: i + 1 < |ss| ==> NextAt(w, ss, i)
  }

  // ---------- the invariant ----------

  predicate RowOk(w: World, id: string, row: Row) {
    GetText(Object(row.doc), "id") == Some(id) && w.shaped(row.doc) && w.valid(row.doc)
  }

  /** The registration written last does not match the earlier one, where both are alive and the modes are guarded. */
  predicate Apart(w: World, a: Row, b: Row, now: nat) {
    && a.written != b.written
    && (a.written < b.written && !Expired(w, a.doc, now) && !Expired(w, b.doc, now) ==> !w.matches(b.ctx, b.doc, a.doc))
  }

  ghost predicate RowAt(w: World, s: State, id: string) {
    id in s.rows ==> RowOk(w, id, s.rows[id]) && s.rows[id].written < s.writes
  }

  ghost predicate ApartAt(w: World, s: State, a: string, b: string) {
    a in s.rows && b in s.rows && a != b ==> Apart(w, s.rows[a], s.rows[b], s.clock)
  }

  predicate Holds(pc: PC) {
    pc.Reading? || pc.Purging? || pc.Checking? || pc.Fetching? || pc.Visiting? || pc.Writing?
  }

  /** The document a write carries is the request's, merged with what is stored but for its books. */
  predicate DocOk(w: World, s: State, req: Request, doc: Members) {
    && NormOk(w, req) && GetText(Object(doc), "id") == Some(req.id)
    && w.shaped(doc) && w.valid(doc)
    && if req.update then req.id in s.rows ==> Core(Merge(s.rows[req.id].doc, req.frag)) == Core(doc) else doc == req.frag
  }

  predicate ExpiredAt(w: World, s: State, id: string) {
    id in s.rows ==> Expired(w, s.rows[id].doc, s.clock)
  }

  /** A stored registration does not stand in the way of the write. */
  predicate ClearAt(w: World, s: State, req: Request, doc: Members, id: string) {
    id in s.rows && Some(id) != Self(req) ==> !Blocked(w, req, doc, s.rows[id].doc, s.clock)
  }

  ghost predicate Clear(w: World, s: State, req: Request, doc: Members) {
    forall id :: ClearAt(w, s, req, doc, id)
  }

  ghost predicate ClearUpTo(w: World, s: State, req: Request, doc: Members, at: Option<string>) {
    forall id :: W.Past(at, id) || ClearAt(w, s, req, doc, id)
  }

  predicate IsFound(f: Found, id: string, doc: Members) {
    f.id == id && Core(f.doc) == Core(doc)
  }

  predicate Pending(rest: seq<Found>, id: string, doc: Members) {
    exists i :: 0 <= i < |rest| && IsFound(rest[i], id, doc)
  }

  /** What is past the cursor is still to be visited, as it is stored but for its books, or on a later page. */
  predicate AheadAt(s: State, rest: seq<Found>, at: Option<string>, short: bool, id: string) {
    id in s.rows && W.Past(at, id) ==>
      Pending(rest, id, s.rows[id].doc) || (!short && (rest == [] || Before(rest[|rest| - 1].id, id)))
  }

  ghost predicate Ahead(s: State, rest: seq<Found>, at: Option<string>, short: bool) {
    && (forall i, j :: 0 <= i < j < |rest| ==> Before(rest[i].id, rest[j].id))
    && (forall i :: 0 <= i < |rest| ==> W.Past(at, rest[i].id))
    && (forall id :: AheadAt(s, rest, at, short, id))
  }

  ghost predicate PcOk(w: World, s: State, pc: PC) {
    match pc
    case Waiting(req) => NormOk(w, req)
    case Reading(req) => NormOk(w, req)
    case Purging(req) => NormOk(w, req) && ExpiredAt(w, s, req.id)
    case Checking(req, doc) => DocOk(w, s, req, doc)
    case Fetching(req, doc, after) => DocOk(w, s, req, doc) && ClearUpTo(w, s, req, doc, after)
    case Visiting(req, doc, rest, at, short) =>
      DocOk(w, s, req, doc) && ClearUpTo(w, s, req, doc, at) && Ahead(s, rest, at, short)
    case Writing(req, None) => NormOk(w, req) && req.update && req.id !in s.rows
    case Writing(req, Some(doc)) => DocOk(w, s, req, doc) && (w.proxied(doc) ==> Clear(w, s, req, doc))
    case _ => true
  }

  ghost predicate ClientOk(w: World, s: State, c: nat) {
    PcOk(w, s, Pc(s, c)) && (Holds(Pc(s, c)) ==> s.lock == Some(c))
  }

  ghost predicate Inv(w: World, s: State) {
    && (forall id :: RowAt(w, s, id))
    && (forall a, b :: ApartAt(w, s, a, b))
    && (forall c :: ClientOk(w, s, c))
  }

  // ---------- what the others may do ----------

  /** Rows may go, none changes but for its books, time passes. */
  ghost predicate Shrunk(s: State, s': State) {
    && s.clock <= s'.clock && s.writes <= s'.writes
    && forall id :: KeptAt(s, s', id)
  }

  ghost predicate KeptAt(s: State, s': State, id: string) {
    id in s'.rows ==> id in s.rows && SameRow(s.rows[id], s'.rows[id])
  }

  predicate SameRow(a: Row, b: Row) {
    Core(a.doc) == Core(b.doc) && a.ctx == b.ctx && a.written == b.written
  }

  lemma BlockedStays(w: World, req: Request, doc: Members, a: Members, b: Members, now: nat)
    requires Lawful(w) && Core(a) == Core(b)
    ensures Blocked(w, req, doc, a, now) <==> Blocked(w, req, doc, b, now)
  {
    CoreReads(w, a, b);
    assert MatchLaw(w, req.ctx, a, b, doc);
  }

  lemma ApartStays(w: World, a: Row, b: Row, a': Row, b': Row, now: nat)
    requires Lawful(w) && SameRow(a, a') && SameRow(b, b') && Apart(w, a, b, now)
    ensures Apart(w, a', b', now)
  {
    CoreReads(w, a.doc, a'.doc);
    CoreReads(w, b.doc, b'.doc);
    assert MatchLaw(w, b.ctx, a.doc, a'.doc, b'.doc) && MatchLaw(w, b.ctx, b.doc, b'.doc, a.doc);
  }

  lemma ClearStays(w: World, s: State, s': State, req: Request, doc: Members, id: string)
    requires Lawful(w) && Shrunk(s, s') && ClearAt(w, s, req, doc, id)
    ensures ClearAt(w, s', req, doc, id)
  {
    assert KeptAt(s, s', id);
    if id in s'.rows { BlockedStays(w, req, doc, s.rows[id].doc, s'.rows[id].doc, s.clock); }
  }

  lemma AheadStays(s: State, s': State, rest: seq<Found>, at: Option<string>, short: bool)
    requires Shrunk(s, s') && Ahead(s, rest, at, short)
    ensures Ahead(s', rest, at, short)
  {
    forall id
      ensures AheadAt(s', rest, at, short, id)
    {
      assert AheadAt(s, rest, at, short, id) && KeptAt(s, s', id);
      if id in s'.rows && Pending(rest, id, s.rows[id].doc) {
        var i :| 0 <= i < |rest| && IsFound(rest[i], id, s.rows[id].doc);
        assert IsFound(rest[i], id, s'.rows[id].doc);
      }
    }
  }

  lemma ClearUpToStays(w: World, s: State, s': State, req: Request, doc: Members, at: Option<string>)
    requires Lawful(w) && Shrunk(s, s') && ClearUpTo(w, s, req, doc, at)
    ensures ClearUpTo(w, s', req, doc, at)
  {
    forall id
      ensures W.Past(at, id) || ClearAt(w, s', req, doc, id)
    {
      if !W.Past(at, id) { ClearStays(w, s, s', req, doc, id); }
    }
  }

  lemma ExpiredStays(w: World, s: State, s': State, id: string)
    requires Lawful(w) && Shrunk(s, s') && ExpiredAt(w, s, id)
    ensures ExpiredAt(w, s', id)
  {
    assert KeptAt(s, s', id);
    if id in s'.rows { CoreReads(w, s.rows[id].doc, s'.rows[id].doc); }
  }

  lemma DocStays(w: World, s: State, s': State, req: Request, doc: Members)
    requires Shrunk(s, s') && DocOk(w, s, req, doc)
    ensures DocOk(w, s', req, doc)
  {
    assert KeptAt(s, s', req.id);
    if req.update && req.id in s'.rows {
      MergeParts(s.rows[req.id].doc, req.frag);
      MergeParts(s'.rows[req.id].doc, req.frag);
    }
  }

  /** What a client relies on survives every deletion, every booking and every tick. */
  lemma PcStays(w: World, s: State, s': State, pc: PC)
    requires Lawful(w) && Shrunk(s, s') && PcOk(w, s, pc)
    ensures PcOk(w, s', pc)
  {
    match pc {
      case Purging(req) => ExpiredStays(w, s, s', req.id);
      case Checking(req, doc) => DocStays(w, s, s', req, doc);
      case Fetching(req, doc, after) =>
        DocStays(w, s, s', req, doc);
        ClearUpToStays(w, s, s', req, doc, after);
      case Visiting(req, doc, rest, at, short) =>
        DocStays(w, s, s', req, doc);
        ClearUpToStays(w, s, s', req, doc, at);
        AheadStays(s, s', rest, at, short);
      case Writing(req, write) =>
        assert KeptAt(s, s', req.id);
        if write.Some? { DocStays(w, s, s', req, write.value); }
        if write.Some? && w.proxied(write.value) {
          forall id
            ensures ClearAt(w, s', req, write.value, id)
          {
            assert ClearAt(w, s, req, write.value, id);
            ClearStays(w, s, s', req, write.value, id);
          }
        }
      case _ =>
    }
  }

  lemma RowsStay(w: World, s: State, s': State)
    requires Lawful(w) && Shrunk(s, s') && (forall id :: RowAt(w, s, id)) && (forall a, b :: ApartAt(w, s, a, b))
    ensures (forall id :: RowAt(w, s', id)) && (forall a, b :: ApartAt(w, s', a, b))
  {
    forall id
      ensures RowAt(w, s', id)
    {
      assert RowAt(w, s, id) && KeptAt(s, s', id);
      if id in s'.rows { CoreReads(w, s.rows[id].doc, s'.rows[id].doc); }
    }
    forall a, b
      ensures ApartAt(w, s', a, b)
    {
      assert ApartAt(w, s, a, b) && KeptAt(s, s', a) && KeptAt(s, s', b);
      if a in s'.rows && b in s'.rows && a != b {
        ApartStays(w, s.rows[a], s.rows[b], s'.rows[a], s'.rows[b], s.clock);
      }
    }
  }

  /** Only `c` moved, and if the lock changed hands it was `c`'s or free. */
  ghost predicate OnlyMoved(s: State, s': State, c: nat) {
    && (forall d: nat :: d != c ==> Pc(s', d) == Pc(s, d))
    && (s'.lock == s.lock || s.lock == None || s.lock == Some(c))
  }

  /** A step that writes nothing keeps the invariant, if it leaves its own client well. */
  lemma QuietStep(w: World, s: State, s': State, c: nat)
    requires Lawful(w) && Inv(w, s) && Shrunk(s, s') && OnlyMoved(s, s', c) && ClientOk(w, s', c)
    ensures Inv(w, s')
  {
    RowsStay(w, s, s');
    forall d: nat
      ensures ClientOk(w, s', d)
    {
      if d != c {
        assert ClientOk(w, s, d);
        PcStays(w, s, s', Pc(s, d));
      }
    }
  }

  // ---------- the steps of a write ----------

  lemma PageAhead(s: State, after: Option<string>, rest: seq<Found>, short: bool)
    requires PageRead(s, after, rest, short)
    ensures Ahead(s, rest, after, short)
  {
    var ids :| W.IsPage(s.rows.Keys, after, W.SCAN_PAGE, ids) && rest == FoundAll(s.rows, ids) && short == (|ids| < W.SCAN_PAGE);
    forall id
      ensures AheadAt(s, rest, after, short, id)
    {
      if id in s.rows && W.Past(after, id) { OnPageAhead(s, after, ids, rest, short, id); }
    }
  }

  lemma OnPageAhead(s: State, after: Option<string>, ids: seq<string>, rest: seq<Found>, short: bool, id: string)
    requires W.IsPage(s.rows.Keys, after, W.SCAN_PAGE, ids) && rest == FoundAll(s.rows, ids) && short == (|ids| < W.SCAN_PAGE)
    requires id in s.rows && W.Past(after, id)
    ensures AheadAt(s, rest, after, short, id)
  {
    assert W.OnPage(ids, W.SCAN_PAGE, id);
    if id in ids {
      var i :| 0 <= i < |ids| && ids[i] == id;
      assert IsFound(rest[i], id, s.rows[id].doc);
    }
  }

  /** A visit that passes extends what is clear up to the document visited. */
  lemma VisitOk(w: World, s: State, req: Request, doc: Members, rest: seq<Found>, at: Option<string>, short: bool)
    requires Lawful(w) && rest != [] && ClearUpTo(w, s, req, doc, at) && Ahead(s, rest, at, short)
    requires !Blocked(w, req, doc, rest[0].doc, s.clock)
    ensures ClearUpTo(w, s, req, doc, Some(rest[0].id)) && Ahead(s, rest[1..], Some(rest[0].id), short)
  {
    var x := rest[0].id;
    forall id
      ensures W.Past(Some(x), id) || ClearAt(w, s, req, doc, id)
    {
      assert W.Past(at, id) || ClearAt(w, s, req, doc, id);
      if id in s.rows && W.Past(at, id) && !Before(x, id) {
        VisitedHere(s, rest, at, short, id);
        BlockedStays(w, req, doc, rest[0].doc, s.rows[id].doc, s.clock);
      }
    }
    forall id
      ensures AheadAt(s, rest[1..], Some(x), short, id)
    {
      AheadMoves(s, rest, at, short, id);
    }
  }

  lemma VisitedHere(s: State, rest: seq<Found>, at: Option<string>, short: bool, id: string)
    requires rest != [] && Ahead(s, rest, at, short) && id in s.rows && W.Past(at, id) && !Before(rest[0].id, id)
    ensures IsFound(rest[0], id, s.rows[id].doc)
  {
    assert AheadAt(s, rest, at, short, id);
    var last := |rest| - 1;
    if Pending(rest, id, s.rows[id].doc) {
      var i :| 0 <= i < |rest| && IsFound(rest[i], id, s.rows[id].doc);
      assert i == 0;
    } else if last > 0 {
      BeforeTransitive(rest[0].id, rest[last].id, id);
    }
  }

  lemma AheadMoves(s: State, rest: seq<Found>, at: Option<string>, short: bool, id: string)
    requires rest != [] && Ahead(s, rest, at, short)
    ensures AheadAt(s, rest[1..], Some(rest[0].id), short, id)
  {
    if id in s.rows && Before(rest[0].id, id) {
      if at.Some? { BeforeTransitive(at.value, rest[0].id, id); }
      assert AheadAt(s, rest, at, short, id);
      BeforeIrreflexive(id);
      if Pending(rest, id, s.rows[id].doc) {
        var i :| 0 <= i < |rest| && IsFound(rest[i], id, s.rows[id].doc);
        assert IsFound(rest[1..][i - 1], id, s.rows[id].doc);
      }
    }
  }

  /** The walk at its end: nothing stored stands in the way. */
  lemma WalkEnds(w: World, s: State, req: Request, doc: Members, at: Option<string>)
    requires ClearUpTo(w, s, req, doc, at) && Ahead(s, [], at, true)
    ensures Clear(w, s, req, doc)
  {
    forall id
      ensures ClearAt(w, s, req, doc, id)
    {
      assert W.Past(at, id) || ClearAt(w, s, req, doc, id);
      assert AheadAt(s, [], at, true, id);
    }
  }

  /** What a program counter relies on is in the rows and the clock. */
  lemma PcRows(w: World, s: State, s': State, pc: PC)
    requires Lawful(w) && s'.rows == s.rows && s'.clock == s.clock && s'.writes == s.writes && PcOk(w, s, pc)
    ensures PcOk(w, s', pc)
  {
    PcStays(w, s, s', pc);
  }

  /** The step of `c` wrote nothing and leaves `c` well. */
  ghost predicate Quiet(w: World, s: State, s': State, c: nat) {
    Shrunk(s, s') && OnlyMoved(s, s', c) && ClientOk(w, s', c)
  }

  lemma MoveTo(w: World, s: State, c: nat, pc: PC)
    requires Lawful(w) && PcOk(w, s, pc) && (Holds(pc) ==> s.lock == Some(c))
    ensures Quiet(w, s, Set(s, c, pc), c)
  {
    PcRows(w, s, Set(s, c, pc), pc);
  }

  lemma RemoveTo(w: World, s: State, c: nat, id: string, pc: PC)
    requires Lawful(w) && PcOk(w, Remove(s, id), pc) && (Holds(pc) ==> s.lock == Some(c))
    ensures Quiet(w, s, Set(Remove(s, id), c, pc), c)
  {
    PcRows(w, Remove(s, id), Set(Remove(s, id), c, pc), pc);
  }

  lemma FinishOk(w: World, s: State, c: nat)
    ensures Quiet(w, s, Finish(s, c), c)
  {
  }

  lemma LockOk(w: World, s: State, c: nat, req: Request)
    requires NormOk(w, req) && s.lock.None?
    ensures Quiet(w, s, Set(s, c, Reading(req)).(lock := Some(c)), c)
  {
  }

  lemma PurgeOk(w: World, s: State, c: nat, req: Request)
    requires Lawful(w) && NormOk(w, req) && s.lock == Some(c)
    ensures Quiet(w, s, Set(Remove(s, req.id), c, if req.update then Writing(req, None) else Checking(req, req.frag)), c)
  {
    RemoveTo(w, s, c, req.id, if req.update then Writing(req, None) else Checking(req, req.frag));
  }

  lemma CheckOk(w: World, s: State, c: nat, req: Request, doc: Members)
    requires Lawful(w) && DocOk(w, s, req, doc) && s.lock == Some(c)
    ensures if w.proxied(doc) then Quiet(w, s, Set(s, c, Fetching(req, doc, None)), c)
            else Quiet(w, s, Set(s, c, Writing(req, Some(doc))), c)
  {
    MoveTo(w, s, c, if w.proxied(doc) then Fetching(req, doc, None) else Writing(req, Some(doc)));
  }

  lemma FetchOk(w: World, s: State, c: nat, req: Request, doc: Members, after: Option<string>, rest: seq<Found>, short: bool)
    requires Lawful(w) && DocOk(w, s, req, doc) && ClearUpTo(w, s, req, doc, after) && s.lock == Some(c)
    requires PageRead(s, after, rest, short)
    ensures Quiet(w, s, Set(s, c, Visiting(req, doc, rest, after, short)), c)
  {
    PageAhead(s, after, rest, short);
    MoveTo(w, s, c, Visiting(req, doc, rest, after, short));
  }

  lemma PageEndOk(w: World, s: State, c: nat, req: Request, doc: Members, at: Option<string>, short: bool)
    requires Lawful(w) && DocOk(w, s, req, doc) && ClearUpTo(w, s, req, doc, at) && Ahead(s, [], at, short) && s.lock == Some(c)
    ensures Quiet(w, s, Set(s, c, if short then Writing(req, Some(doc)) else Fetching(req, doc, at)), c)
  {
    if short { WalkEnds(w, s, req, doc, at); }
    MoveTo(w, s, c, if short then Writing(req, Some(doc)) else Fetching(req, doc, at));
  }

  lemma PassOk(w: World, s: State, c: nat, req: Request, doc: Members, rest: seq<Found>, at: Option<string>, short: bool)
    requires Lawful(w) && DocOk(w, s, req, doc) && ClearUpTo(w, s, req, doc, at) && Ahead(s, rest, at, short) && s.lock == Some(c)
    requires rest != [] && !Blocked(w, req, doc, rest[0].doc, s.clock)
    ensures Quiet(w, s, Set(s, c, Visiting(req, doc, rest[1..], Some(rest[0].id), short)), c)
  {
    VisitOk(w, s, req, doc, rest, at, short);
    MoveTo(w, s, c, Visiting(req, doc, rest[1..], Some(rest[0].id), short));
  }

  lemma ReadOk(w: World, s: State, c: nat, req: Request)
    requires Lawful(w) && NormOk(w, req) && RowAt(w, s, req.id) && s.lock == Some(c)
    ensures Quiet(w, s, Read(w, s, c, req), c)
  {
    if req.id !in s.rows {
      MoveTo(w, s, c, if req.update then Writing(req, None) else Checking(req, req.frag));
    } else {
      var doc := s.rows[req.id].doc;
      assert MergeLaw(w, doc, req.frag);
      FinishOk(w, s, c);
      if Expired(w, doc, s.clock) { MoveTo(w, s, c, Purging(req)); }
      if !req.update {
        MoveTo(w, s, c, Checking(req, req.frag));
      } else if w.valid(Merge(doc, req.frag)) {
        MoveTo(w, s, c, Checking(req, Merge(doc, req.frag)));
      }
    }
  }

  /** A step under the lock, other than the write, leaves its client well. */
  lemma GuardedOk(w: World, s: State, c: nat, s': State)
    requires Lawful(w) && Inv(w, s) && Guarded(w, s, c, s') && !Pc(s, c).Writing?
    ensures Quiet(w, s, s', c)
  {
    assert ClientOk(w, s, c);
    FinishOk(w, s, c);
    match Pc(s, c) {
      case Waiting(req) => LockOk(w, s, c, req);
      case Reading(req) =>
        assert RowAt(w, s, req.id);
        ReadOk(w, s, c, req);
      case Purging(req) => PurgeOk(w, s, c, req);
      case Checking(req, doc) => CheckOk(w, s, c, req, doc);
      case Fetching(req, doc, after) =>
        var rest, short :| PageRead(s, after, rest, short) && s' == Set(s, c, Visiting(req, doc, rest, after, short));
        FetchOk(w, s, c, req, doc, after, rest, short);
      case Visiting(req, doc, rest, at, short) =>
        if rest == [] {
          PageEndOk(w, s, c, req, doc, at, short);
        } else if !Blocked(w, req, doc, rest[0].doc, s.clock) {
          PassOk(w, s, c, req, doc, rest, at, short);
        }
    }
  }

  /** Deletes and sweeps only remove rows; nothing they do relies on the store. */
  lemma FreeOk(w: World, s: State, c: nat, s': State)
    requires Lawful(w) && Free(w, s, c, s')
    ensures Quiet(w, s, s', c)
  {
    match Pc(s, c) {
      case Idle => ArrivalOk(w, s, c, s');
      case DelReading(id) =>
        MoveTo(w, s, c, DelPurging(id));
        MoveTo(w, s, c, Deleting(id));
      case DelPurging(id) => RemoveTo(w, s, c, id, Deleting(id));
      case Deleting(id) => FinishOk(w, Remove(s, id), c);
      case _ => SweepOk(w, s, c, s');
    }
  }

  lemma ArrivalOk(w: World, s: State, c: nat, s': State)
    requires Lawful(w) && Free(w, s, c, s') && Pc(s, c).Idle?
    ensures Quiet(w, s, s', c)
  {
    if req :| NormOk(w, req) && s' == Set(s, c, Waiting(req)) {
      MoveTo(w, s, c, Waiting(req));
    } else if id :| s' == Set(s, c, DelReading(id)) {
      MoveTo(w, s, c, DelReading(id));
    } else {
      MoveTo(w, s, c, SweepFetching(None, []));
    }
  }

  lemma SweepOk(w: World, s: State, c: nat, s': State)
    requires Lawful(w) && Free(w, s, c, s') && (Pc(s, c).SweepFetching? || Pc(s, c).SweepVisiting? || Pc(s, c).Sweeping?)
    ensures Quiet(w, s, s', c)
  {
    match Pc(s, c) {
      case SweepFetching(after, dead) =>
        var rest, short :| PageRead(s, after, rest, short) && s' == Set(s, c, SweepVisiting(rest, after, short, dead));
        MoveTo(w, s, c, SweepVisiting(rest, after, short, dead));
      case SweepVisiting(rest, at, short, dead) => MoveTo(w, s, c, Pc(s', c));
      case Sweeping(dead) =>
        if dead == [] {
          FinishOk(w, s, c);
        } else {
          RemoveTo(w, s, c, dead[0], Sweeping(dead[1..]));
        }
    }
  }

  // ---------- the write ----------

  /** What forwards have booked on a stored registration. */
  function Held(s: State, id: string): Members {
    if id in s.rows then Books(s.rows[id].doc) else map[]
  }

  /** The row a write leaves: the document that was checked, under its stamps and the books held at that moment. */
  function Written(w: World, s: State, req: Request, doc: Members): Row {
    Row(if req.update then WithStamp(Core(doc) + Held(s, req.id), req.ts) else AsCreated(doc, w.show(s.clock)), req.ctx, s.writes)
  }

  lemma HeldIsMerged(w: World, s: State, req: Request, doc: Members)
    requires DocOk(w, s, req, doc) && req.update && req.id in s.rows
    ensures Merge(s.rows[req.id].doc, req.frag) == Core(doc) + Held(s, req.id)
  {
    MergeParts(s.rows[req.id].doc, req.frag);
    CoreAndBooks(Merge(s.rows[req.id].doc, req.frag), Core(doc) + Held(s, req.id));
  }

  /** A write that changes the store puts there the document that was checked, with its stamps, under the
      request's own id: a create only where nothing was, an update only where something is. */
  lemma WriteIsChecked(w: World, s: State, req: Request, write: Option<Members>)
    requires PcOk(w, s, Writing(req, write))
    ensures Write(w, s, req, write) == s
         || (write.Some? && (req.update <==> req.id in s.rows)
             && Write(w, s, req, write) == s.(rows := s.rows[req.id := Written(w, s, req, write.value)], writes := s.writes + 1))
    ensures write.None? ==> Write(w, s, req, write) == s
  {
    if write.Some? && req.update && req.id in s.rows { HeldIsMerged(w, s, req, write.value); }
  }

  lemma WrittenOk(w: World, s: State, req: Request, doc: Members)
    requires Lawful(w) && DocOk(w, s, req, doc)
    ensures RowOk(w, req.id, Written(w, s, req, doc)) && StampLaw(w, doc, Written(w, s, req, doc).doc)
  {
    var d, row := if req.update then Core(doc) + Held(s, req.id) else doc, Written(w, s, req, doc);
    CoreReads(w, doc, d);
    assert StampLaw(w, d, WithStamp(d, req.ts)) && StampLaw(w, d, AsCreated(d, w.show(s.clock)));
    forall ctx, other
      ensures MatchLaw(w, ctx, doc, row.doc, other)
    {
      assert MatchLaw(w, ctx, doc, d, other) && MatchLaw(w, ctx, d, row.doc, other);
    }
  }

  /** The new row is apart from every other row. */
  lemma WrittenApart(w: World, s: State, req: Request, doc: Members, id: string)
    requires Lawful(w) && DocOk(w, s, req, doc) && (w.proxied(doc) ==> ClearAt(w, s, req, doc, id))
    requires id in s.rows && id != req.id && RowAt(w, s, id)
    ensures Apart(w, s.rows[id], Written(w, s, req, doc), s.clock) && Apart(w, Written(w, s, req, doc), s.rows[id], s.clock)
  {
    var row := Written(w, s, req, doc);
    WrittenOk(w, s, req, doc);
    assert MatchLaw(w, req.ctx, doc, row.doc, s.rows[id].doc) && GuardLaw(w, req.ctx, doc, s.rows[id].doc);
  }

  lemma WriteKeepsRows(w: World, s: State, req: Request, doc: Members, s': State)
    requires Lawful(w) && (forall id :: RowAt(w, s, id)) && (forall a, b :: ApartAt(w, s, a, b))
    requires DocOk(w, s, req, doc) && (w.proxied(doc) ==> Clear(w, s, req, doc))
    requires s'.rows == s.rows[req.id := Written(w, s, req, doc)] && s'.writes == s.writes + 1 && s'.clock == s.clock
    ensures (forall id :: RowAt(w, s', id)) && (forall a, b :: ApartAt(w, s', a, b))
  {
    WrittenOk(w, s, req, doc);
    forall id
      ensures RowAt(w, s', id)
    {
      assert RowAt(w, s, id);
    }
    forall a, b
      ensures ApartAt(w, s', a, b)
    {
      assert ApartAt(w, s, a, b) && RowAt(w, s, a) && RowAt(w, s, b);
      assert w.proxied(doc) ==> ClearAt(w, s, req, doc, a) && ClearAt(w, s, req, doc, b);
      if a in s.rows && b == req.id && a != b { WrittenApart(w, s, req, doc, a); }
      if b in s.rows && a == req.id && a != b { WrittenApart(w, s, req, doc, b); }
    }
  }

  lemma WriteStepOk(w: World, s: State, c: nat, s': State)
    requires Lawful(w) && Inv(w, s) && Guarded(w, s, c, s') && Pc(s, c).Writing?
    ensures Inv(w, s')
  {
    var req, write := Pc(s, c).req, Pc(s, c).write;
    assert ClientOk(w, s, c);
    WriteIsChecked(w, s, req, write);
    if Write(w, s, req, write) == s {
      FinishOk(w, s, c);
      QuietStep(w, s, s', c);
    } else {
      WriteKeepsRows(w, s, req, write.value, s');
      forall d: nat
        ensures ClientOk(w, s', d)
      {
        assert ClientOk(w, s, d);
      }
    }
  }

  // ---------- runs ----------

  lemma NextKeeps(w: World, s: State, s': State)
    requires Lawful(w) && Inv(w, s) && Next(w, s, s')
    ensures Inv(w, s')
  {
    if Tick(s, s') {
      StillOk(w, s, s');
    } else if id :| Forwarded(s, s', id) {
      BookOk(w, s, s', id);
    } else {
      var c :| Guarded(w, s, c, s') || Free(w, s, c, s') || s' == Finish(s, c);
      if Guarded(w, s, c, s') && Pc(s, c).Writing? {
        WriteStepOk(w, s, c, s');
      } else {
        if Guarded(w, s, c, s') {
          GuardedOk(w, s, c, s');
        } else if Free(w, s, c, s') {
          FreeOk(w, s, c, s');
        } else {
          FinishOk(w, s, c);
        }
        QuietStep(w, s, s', c);
      }
    }
  }

  /** A step that moves no client. */
  lemma StillOk(w: World, s: State, s': State)
    requires Lawful(w) && Inv(w, s) && Shrunk(s, s') && s'.pcs == s.pcs && s'.lock == s.lock
    ensures Inv(w, s')
  {
    RowsStay(w, s, s');
    forall d: nat
      ensures ClientOk(w, s', d)
    {
      assert ClientOk(w, s, d);
      PcStays(w, s, s', Pc(s, d));
    }
  }

  lemma BookOk(w: World, s: State, s': State, id: string)
    requires Lawful(w) && Inv(w, s) && Forwarded(s, s', id)
    ensures Inv(w, s')
  {
    var now, ok :| s' == Book(s, id, now, ok);
    BookedCore(s.rows[id].doc, now, ok);
    StillOk(w, s, s');
  }

  /** Every state of every interleaving keeps the invariant. */
  lemma {:induction false} RunKeeps(w: World, ss: seq<State>, i: nat)
    requires Lawful(w) && IsRun(w, ss) && i < |ss|
    ensures Inv(w, ss[i])
  {
    if i > 0 {
      RunKeeps(w, ss, i - 1);
      assert NextAt(w, ss, i - 1);
      NextKeeps(w, ss[i - 1], ss[i]);
    }
  }

  predicate Live(w: World, s: State, id: string) {
    id in s.rows && !Expired(w, s.rows[id].doc, s.clock)
  }

  /** Of two live registrations, the one written last is not one that matches the other in a guarded mode. */
  lemma LaterDoesNotMatch(w: World, ss: seq<State>, i: nat, a: string, b: string)
    requires Lawful(w) && IsRun(w, ss) && i < |ss| && a != b && Live(w, ss[i], a) && Live(w, ss[i], b)
    ensures var x, y := ss[i].rows[a], ss[i].rows[b];
            x.written != y.written && (x.written < y.written ==> !w.matches(y.ctx, y.doc, x.doc))
  {
    RunKeeps(w, ss, i);
    assert ApartAt(w, ss[i], a, b);
  }

  lemma WrittenParts(w: World, s: State, req: Request, doc: Members)
    requires req.update && req.id in s.rows
    ensures Core(Written(w, s, req, doc).doc) == Core(WithStamp(doc, req.ts))
    ensures Books(Written(w, s, req, doc).doc) == Books(s.rows[req.id].doc)
  {
    var d, held := Written(w, s, req, doc).doc, s.rows[req.id].doc;
    forall k
      ensures AgreeAt(Core(d), Core(WithStamp(doc, req.ts)), k) && AgreeAt(Books(d), Books(held), k)
    {
      assert k in Books(held) <==> k in held && k in BOOKED;
    }
    SameMembers(Core(d), Core(WithStamp(doc, req.ts)));
    SameMembers(Books(d), Books(held));
  }

  /** A write that found no live registration changes nothing. One that changes the store leaves, whatever other
      clients do meanwhile, the document its checks accepted and its stamps, on every member that forwards do not
      book; those stand as they are at the write. */
  lemma UpdateWritesChecked(w: World, ss: seq<State>, i: nat, c: nat, s': State)
    requires Lawful(w) && IsRun(w, ss) && i < |ss| && Pc(ss[i], c).Writing? && Guarded(w, ss[i], c, s')
    ensures var req, write, rows := Pc(ss[i], c).req, Pc(ss[i], c).write, ss[i].rows;
            && (write.None? ==> s'.rows == rows)
            && (s'.rows != rows ==> write.Some? && req.id in s'.rows && s'.rows - {req.id} == rows - {req.id})
            && (s'.rows != rows && req.update ==>
                  && req.id in rows && Books(s'.rows[req.id].doc) == Books(rows[req.id].doc)
                  && Core(s'.rows[req.id].doc) == Core(WithStamp(write.value, req.ts)))
            && (s'.rows != rows && !req.update ==>
                  req.id !in rows && s'.rows[req.id].doc == AsCreated(write.value, w.show(ss[i].clock)))
  {
    RunKeeps(w, ss, i);
    assert ClientOk(w, ss[i], c);
    var req, write := Pc(ss[i], c).req, Pc(ss[i], c).write;
    WriteIsChecked(w, ss[i], req, write);
    if Write(w, ss[i], req, write) != ss[i] && req.update { WrittenParts(w, ss[i], req, write.value); }
  }
}
