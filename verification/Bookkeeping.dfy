/** Forwards booked while a registration is updated (record_forward beside crates/antares-api/src/csource.rs). */
module Bookkeeping {
  import opened Json
  import opened P = Protocol
  import R = Registry
  import E = Exclusion

  // ---------- one write ----------

  /** An update stores the very document it checked exactly when the registration's books are those it read. */
  lemma ExactlyTheBooks(w: World, s: State, req: Request, doc: Members)
    requires DocOk(w, s, req, doc) && req.update && req.id in s.rows
    ensures Write(w, s, req, Some(doc)).rows[req.id].doc == WithStamp(doc, req.ts) <==> Books(s.rows[req.id].doc) == Books(doc)
  {
    var d := Written(w, s, req, doc).doc;
    HeldIsMerged(w, s, req, doc);
    WrittenParts(w, s, req, doc);
    StampIsNoBook(doc, req.ts);
    if Books(s.rows[req.id].doc) == Books(doc) { CoreAndBooks(d, WithStamp(doc, req.ts)); }
  }

  lemma StampIsNoBook(doc: Members, ts: string)
    ensures Books(WithStamp(doc, ts)) == Books(doc)
  {
    var d := WithStamp(doc, ts);
    forall k
      ensures AgreeAt(Books(d), Books(doc), k)
    {
      assert k in Books(d) <==> k in d && k in BOOKED;
    }
    SameMembers(Books(d), Books(doc));
  }

  // ---------- from the read to the write ----------

  /** The update that carries `doc` is on its way, or has found nothing to write. */
  predicate Carries(pc: PC, req: Request, doc: Members) {
    match pc
    case Checking(q, d) => q == req && d == doc
    case Fetching(q, d, _) => q == req && d == doc
    case Visiting(q, d, _, _, _) => q == req && d == doc
    case Writing(q, write) => q == req && (write == Some(doc) || write == None)
    case Purging(q) => q == req
    case _ => false
  }

  /** A step of `c` itself: it moves on, or goes away. */
  ghost predicate Steps(w: World, s: State, c: nat, s': State) {
    Guarded(w, s, c, s') || Free(w, s, c, s') || s' == Finish(s, c)
  }

  lemma OthersStand(w: World, s: State, d: nat, s': State, c: nat)
    requires Steps(w, s, d, s') && d != c
    ensures Pc(s', c) == Pc(s, c)
  {
    if Guarded(w, s, d, s') {
      GuardedAlone(w, s, d, s', c);
    } else if Free(w, s, d, s') {
      FreeAlone(w, s, d, s', c);
    }
  }

  lemma GuardedAlone(w: World, s: State, d: nat, s': State, c: nat)
    requires Guarded(w, s, d, s') && d != c
    ensures Pc(s', c) == Pc(s, c)
  {
    match Pc(s, d) {
      case Reading(req) => assert s' == Read(w, s, d, req);
      case Visiting(_, _, _, _, _) =>
      case _ =>
    }
  }

  lemma FreeAlone(w: World, s: State, d: nat, s': State, c: nat)
    requires Free(w, s, d, s') && d != c
    ensures Pc(s', c) == Pc(s, c)
  {
  }

  lemma MovesItself(w: World, s: State, s': State, c: nat)
    requires Next(w, s, s')
    ensures Pc(s', c) == Pc(s, c) || Steps(w, s, c, s')
  {
    if !Tick(s, s') && !(exists id :: Forwarded(s, s', id)) {
      var d :| Guarded(w, s, d, s') || Free(w, s, d, s') || s' == Finish(s, d);
      assert Steps(w, s, d, s');
      if d != c { OthersStand(w, s, d, s', c); }
    }
  }

  lemma CarriesOn(w: World, s: State, s': State, c: nat, req: Request, doc: Members)
    requires Next(w, s, s') && req.update && Carries(Pc(s, c), req, doc) && Holds(Pc(s', c))
    ensures Carries(Pc(s', c), req, doc)
  {
    MovesItself(w, s, s', c);
    if Guarded(w, s, c, s') { GuardedCarries(w, s, s', c, req, doc); }
  }

  lemma GuardedCarries(w: World, s: State, s': State, c: nat, req: Request, doc: Members)
    requires Guarded(w, s, c, s') && req.update && Carries(Pc(s, c), req, doc) && Holds(Pc(s', c))
    ensures Carries(Pc(s', c), req, doc)
  {
    match Pc(s, c) {
      case Fetching(_, _, after) =>
        var rest, short :| PageRead(s, after, rest, short) && s' == Set(s, c, Visiting(req, doc, rest, after, short));
      case _ =>
    }
  }

  lemma ReadCarries(w: World, s: State, s': State, c: nat, req: Request)
    requires Next(w, s, s') && req.update && Pc(s, c) == Reading(req) && Pc(s', c) != Pc(s, c) && Holds(Pc(s', c))
    ensures Pc(s', c) == Purging(req) || Pc(s', c) == Writing(req, None)
         || (req.id in s.rows && Pc(s', c) == Checking(req, Merge(s.rows[req.id].doc, req.frag)))
  {
    MovesItself(w, s, s', c);
  }

  /** The attempts booked on a registration. */
  function Sent(s: State, id: string): int
    requires id in s.rows
  {
    Counter(At(s.rows[id].doc, "timesSent"))
  }

  /** Besides a write, a client only removes. */
  lemma StepLeaves(w: World, s: State, d: nat, s': State, id: string)
    requires Steps(w, s, d, s') && !(Pc(s, d).Writing? && Guarded(w, s, d, s')) && id in s'.rows
    ensures id in s.rows && s'.rows[id] == s.rows[id]
  {
  }

  /** While a client stays under the lock without writing, only a forward changes a registration. */
  lemma OnlyForwards(w: World, s: State, s': State, c: nat, id: string)
    requires Inv(w, s) && Next(w, s, s') && Holds(Pc(s, c)) && Holds(Pc(s', c)) && id in s'.rows
    ensures id in s.rows
    ensures if Forwarded(s, s', id) then Sent(s', id) == Sent(s, id) + 1 else s'.rows[id] == s.rows[id]
  {
    assert ClientOk(w, s, c);
    if Forwarded(s, s', id) {
      var now, ok :| s' == Book(s, id, now, ok);
      BookedKeeps(s.rows[id].doc, now, ok);
    } else if !Tick(s, s') && !(exists other :: Forwarded(s, s', other)) {
      var d :| Guarded(w, s, d, s') || Free(w, s, d, s') || s' == Finish(s, d);
      assert Steps(w, s, d, s') && ClientOk(w, s, d);
      StepLeaves(w, s, d, s', id);
    }
  }

  ghost predicate ForwardedAt(ss: seq<State>, m: nat, id: string)
    requires m + 1 < |ss|
  {
    Forwarded(ss[m], ss[m + 1], id)
  }

  predicate HoldsAt(ss: seq<State>, c: nat, m: nat)
    requires m < |ss|
  {
    Holds(Pc(ss[m], c))
  }

  /** `c` reads the registration in the step from `j` and has kept the lock up to `i`. */
  ghost predicate Underway(w: World, ss: seq<State>, j: nat, i: nat, c: nat, req: Request) {
    && Lawful(w) && IsRun(w, ss) && j < i < |ss| && req.update
    && Pc(ss[j], c) == Reading(req) && Pc(ss[j + 1], c) != Pc(ss[j], c)
    && forall m: nat :: j <= m <= i ==> HoldsAt(ss, c, m)
  }

  /** The document that an update makes of the stored one. */
  function Made(s: State, req: Request): Members {
    if req.id in s.rows then Merge(s.rows[req.id].doc, req.frag) else map[]
  }

  lemma FirstStep(w: World, ss: seq<State>, j: nat, c: nat, req: Request)
    requires IsRun(w, ss) && j + 1 < |ss| && req.update
    requires Pc(ss[j], c) == Reading(req) && Pc(ss[j + 1], c) != Pc(ss[j], c) && Holds(Pc(ss[j + 1], c))
    ensures Carries(Pc(ss[j + 1], c), req, Made(ss[j], req))
  {
    assert NextAt(w, ss, j);
    ReadCarries(w, ss[j], ss[j + 1], c, req);
  }

  lemma LaterStep(w: World, ss: seq<State>, m: nat, c: nat, req: Request, doc: Members)
    requires IsRun(w, ss) && m + 1 < |ss| && req.update && Carries(Pc(ss[m], c), req, doc) && Holds(Pc(ss[m + 1], c))
    ensures Carries(Pc(ss[m + 1], c), req, doc)
  {
    assert NextAt(w, ss, m);
    CarriesOn(w, ss[m], ss[m + 1], c, req, doc);
  }

  lemma {:induction false} Carried(w: World, ss: seq<State>, j: nat, i: nat, c: nat, req: Request)
    requires Underway(w, ss, j, i, c, req)
    ensures Carries(Pc(ss[i], c), req, Made(ss[j], req))
    decreases i
  {
    assert HoldsAt(ss, c, i);
    if i == j + 1 {
      FirstStep(w, ss, j, c, req);
    } else {
      Carried(w, ss, j, i - 1, c, req);
      LaterStep(w, ss, i - 1, c, req, Made(ss[j], req));
    }
  }

  lemma SentStep(w: World, ss: seq<State>, m: nat, c: nat, id: string)
    requires Lawful(w) && IsRun(w, ss) && m + 1 < |ss| && id in ss[m + 1].rows && HoldsAt(ss, c, m) && HoldsAt(ss, c, m + 1)
    ensures id in ss[m].rows
    ensures if ForwardedAt(ss, m, id) then Sent(ss[m + 1], id) == Sent(ss[m], id) + 1 else ss[m + 1].rows[id] == ss[m].rows[id]
  {
    RunKeeps(w, ss, m);
    assert NextAt(w, ss, m);
    OnlyForwards(w, ss[m], ss[m + 1], c, id);
  }

  ghost predicate ForwardedIn(ss: seq<State>, j: nat, i: nat, id: string)
    requires i < |ss|
  {
    exists m: nat :: j <= m < i && ForwardedAt(ss, m, id)
  }

  lemma {:induction false} SentGrows(w: World, ss: seq<State>, j: nat, i: nat, c: nat, id: string)
    requires Lawful(w) && IsRun(w, ss) && j <= i < |ss| && id in ss[i].rows
    requires forall m: nat :: j <= m <= i ==> HoldsAt(ss, c, m)
    ensures id in ss[j].rows
    ensures if ForwardedIn(ss, j, i, id) then Sent(ss[i], id) > Sent(ss[j], id) else ss[i].rows[id] == ss[j].rows[id]
    decreases i
  {
    if j < i {
      assert HoldsAt(ss, c, i - 1) && HoldsAt(ss, c, i);
      SentStep(w, ss, i - 1, c, id);
      SentGrows(w, ss, j, i - 1, c, id);
      ForwardedNow(ss, j, i - 1, id);
    }
  }

  lemma ForwardedNow(ss: seq<State>, j: nat, i: nat, id: string)
    requires j <= i && i + 1 < |ss|
    ensures ForwardedIn(ss, j, i + 1, id) <==> ForwardedIn(ss, j, i, id) || ForwardedAt(ss, i, id)
  {
    if ForwardedIn(ss, j, i + 1, id) {
      var m: nat :| j <= m < i + 1 && ForwardedAt(ss, m, id);
      assert m == i || ForwardedIn(ss, j, i, id);
    }
  }

  /** Where an update's write stores the very document its checks accepted: exactly where no forward to the
      registration was booked between the update's read and its write. */
  lemma ExactUnlessForwarded(w: World, ss: seq<State>, j: nat, i: nat, c: nat, req: Request, doc: Members, s': State)
    requires Underway(w, ss, j, i, c, req) && Pc(ss[i], c) == Writing(req, Some(doc))
    requires Guarded(w, ss[i], c, s') && req.id in ss[i].rows
    ensures req.id in s'.rows
    ensures s'.rows[req.id].doc == WithStamp(doc, req.ts) <==> !ForwardedIn(ss, j, i, req.id)
  {
    RunKeeps(w, ss, i);
    assert ClientOk(w, ss[i], c);
    Carried(w, ss, j, i, c, req);
    SentGrows(w, ss, j, i, c, req.id);
    var was, now := ss[j].rows[req.id].doc, ss[i].rows[req.id].doc;
    MergeParts(was, req.frag);
    ExactlyTheBooks(w, ss[i], req, doc);
    if Books(now) == Books(was) {
      assert At(Books(now), "timesSent") == At(now, "timesSent") && At(Books(was), "timesSent") == At(was, "timesSent");
    }
  }

  // ---------- a run on which they differ ----------

  function Alone(rows: Rows, writes: nat, held: bool, pc: PC): State {
    State(rows, writes, if held then Some(0) else None, 0, map[0 := pc])
  }

  /** A run that has come to `s`. */
  ghost predicate Reached(w: World, ss: seq<State>, s: State) {
    IsRun(w, ss) && ss[|ss| - 1] == s
  }

  lemma Extend(w: World, ss: seq<State>, s: State, s': State)
    requires Reached(w, ss, s) && Next(w, s, s')
    ensures Reached(w, ss + [s'], s')
  {
    var r := ss + [s'];
    forall i: nat | i + 1 < |r|
      ensures NextAt(w, r, i)
    {
      if i + 1 < |ss| { assert NextAt(w, ss, i); }
    }
  }

  lemma Arrives(w: World, ss: seq<State>, rows: Rows, writes: nat, req: Request, s': State)
    requires Reached(w, ss, State(rows, writes, None, 0, map[])) || Reached(w, ss, Alone(rows, writes, false, Idle))
    requires NormOk(w, req) && s' == Alone(rows, writes, false, Waiting(req))
    ensures Reached(w, ss + [s'], s')
  {
    var s := ss[|ss| - 1];
    assert Free(w, s, 0, s');
    Extend(w, ss, s, s');
  }

  lemma Locks(w: World, ss: seq<State>, rows: Rows, writes: nat, req: Request, s': State)
    requires Reached(w, ss, Alone(rows, writes, false, Waiting(req))) && s' == Alone(rows, writes, true, Reading(req))
    ensures Reached(w, ss + [s'], s')
  {
    assert Guarded(w, ss[|ss| - 1], 0, s');
    Extend(w, ss, ss[|ss| - 1], s');
  }

  lemma ReadsLive(w: World, ss: seq<State>, rows: Rows, writes: nat, req: Request, doc: Members, s': State)
    requires Reached(w, ss, Alone(rows, writes, true, Reading(req))) && s' == Alone(rows, writes, true, Checking(req, doc))
    requires if req.update then req.id in rows && !Expired(w, rows[req.id].doc, 0) && doc == Merge(rows[req.id].doc, req.frag) && w.valid(doc)
             else req.id !in rows && doc == req.frag
    ensures Reached(w, ss + [s'], s')
  {
    assert Guarded(w, ss[|ss| - 1], 0, s');
    Extend(w, ss, ss[|ss| - 1], s');
  }

  lemma Passes(w: World, ss: seq<State>, rows: Rows, writes: nat, req: Request, doc: Members, s': State)
    requires Reached(w, ss, Alone(rows, writes, true, Checking(req, doc))) && s' == Alone(rows, writes, true, Writing(req, Some(doc)))
    requires !w.proxied(doc)
    ensures Reached(w, ss + [s'], s')
  {
    assert Guarded(w, ss[|ss| - 1], 0, s');
    Extend(w, ss, ss[|ss| - 1], s');
  }

  /** A lone client brings its request to the write. */
  lemma ComesToWrite(w: World, ss: seq<State>, rows: Rows, writes: nat, req: Request, doc: Members) returns (r: seq<State>)
    requires Reached(w, ss, State(rows, writes, None, 0, map[])) || Reached(w, ss, Alone(rows, writes, false, Idle))
    requires NormOk(w, req) && !w.proxied(doc)
    requires if req.update then req.id in rows && !Expired(w, rows[req.id].doc, 0) && doc == Merge(rows[req.id].doc, req.frag) && w.valid(doc)
             else req.id !in rows && doc == req.frag
    ensures Reached(w, r, Alone(rows, writes, true, Writing(req, Some(doc))))
  {
    r := ss + [Alone(rows, writes, false, Waiting(req))];
    Arrives(w, ss, rows, writes, req, Alone(rows, writes, false, Waiting(req)));
    Locks(w, r, rows, writes, req, Alone(rows, writes, true, Reading(req)));
    r := r + [Alone(rows, writes, true, Reading(req))];
    ReadsLive(w, r, rows, writes, req, doc, Alone(rows, writes, true, Checking(req, doc)));
    r := r + [Alone(rows, writes, true, Checking(req, doc))];
    Passes(w, r, rows, writes, req, doc, Alone(rows, writes, true, Writing(req, Some(doc))));
    r := r + [Alone(rows, writes, true, Writing(req, Some(doc)))];
  }

  lemma Creates(w: World, ss: seq<State>, req: Request, rows: Rows) returns (r: seq<State>)
    requires Reached(w, ss, Alone(map[], 0, true, Writing(req, Some(req.frag)))) && !req.update
    requires rows == map[req.id := Row(AsCreated(req.frag, w.show(0)), req.ctx, 0)]
    ensures Reached(w, r, Alone(rows, 1, false, Idle))
  {
    assert Guarded(w, ss[|ss| - 1], 0, Alone(rows, 1, false, Idle));
    Extend(w, ss, ss[|ss| - 1], Alone(rows, 1, false, Idle));
    r := ss + [Alone(rows, 1, false, Idle)];
  }

  /** An update that is about to write, a forward booked, and the write. */
  lemma BooksThenWrites(w: World, ss: seq<State>, rows: Rows, req: Request, doc: Members, now: string)
    requires Reached(w, ss, Alone(rows, 1, true, Writing(req, Some(doc)))) && req.update && req.id in rows
    requires Counter(At(doc, "timesSent")) == Counter(At(rows[req.id].doc, "timesSent")) && Core(req.frag) == req.frag
    ensures exists t, s' :: Reached(w, ss + [t], t) && Guarded(w, t, 0, s') && Differs(t, s', req, doc)
  {
    var t := Book(Alone(rows, 1, true, Writing(req, Some(doc))), req.id, now, true);
    assert Forwarded(ss[|ss| - 1], t, req.id);
    Extend(w, ss, ss[|ss| - 1], t);
    var s' := Finish(Write(w, t, req, Some(doc)), 0);
    assert Guarded(w, t, 0, s');
    BookedKeeps(rows[req.id].doc, now, true);
    assert "timesSent" !in Core(req.frag);
    var stored := s'.rows[req.id].doc;
    assert stored == WithStamp(Merge(Booked(rows[req.id].doc, now, true), req.frag), req.ts);
    assert At(stored, "timesSent") == At(Booked(rows[req.id].doc, now, true), "timesSent");
    assert At(WithStamp(doc, req.ts), "timesSent") == At(doc, "timesSent");
    assert Differs(t, s', req, doc);
  }

  /** The step writes, and not the document that was checked. */
  predicate Differs(s: State, s': State, req: Request, doc: Members) {
    && Pc(s, 0) == Writing(req, Some(doc)) && req.update
    && req.id in s.rows && req.id in s'.rows
    && s'.rows[req.id].doc != WithStamp(doc, req.ts)
  }

  /** A lone client creates a registration and brings an update of it to the write; a forward is booked. */
  lemma Interleaved(w: World, create: Request, patch: Request, created: Members, checked: Members)
    requires NormOk(w, create) && !create.update && NormOk(w, patch) && patch.update && patch.id == create.id
    requires created == AsCreated(create.frag, w.show(0)) && checked == Merge(created, patch.frag)
    requires !Expired(w, created, 0) && w.valid(checked) && !w.proxied(create.frag) && !w.proxied(checked)
    ensures exists ss, t, s' :: Reached(w, ss, t) && Guarded(w, t, 0, s') && Differs(t, s', patch, checked)
  {
    var s0, rows := State(map[], 0, None, 0, map[]), map[create.id := Row(created, create.ctx, 0)];
    assert Reached(w, [s0], s0);
    var ss := ComesToWrite(w, [s0], map[], 0, create, create.frag);
    ss := Creates(w, ss, create, rows);
    ss := ComesToWrite(w, ss, rows, 1, patch, checked);
    assert "timesSent" !in Core(patch.frag);
    BooksThenWrites(w, ss, rows, patch, checked, w.show(0));
    var t, s' :| Reached(w, ss + [t], t) && Guarded(w, t, 0, s') && Differs(t, s', patch, checked);
  }

  const POSTED: Members :=
    map["id" := Text("r"), "endpoint" := Text("http://a"),
        "information" := Array([Object(map["entities" := Array([Object(map["type" := Text("T")])])])])]

  const PATCHED: Members := map["endpoint" := Text("http://b")]

  lemma PostedIsNormal()
    ensures R.Normal(POSTED) && R.Mode(POSTED) == "inclusive" && Core(POSTED) == POSTED
    ensures GetText(Object(POSTED), "id") == Some("r") && "expiresAt" !in POSTED
    ensures R.Normal(PATCHED) && Core(PATCHED) == PATCHED && "mode" !in PATCHED
  {
    var info := Object(map["entities" := Array([Object(map["type" := Text("T")])])]);
    assert R.Infos(POSTED) == [info] && R.NormalInfo(info);
    assert R.Infos(PATCHED) == [];
  }

  /** The broker lets this happen: a registration is created, an update reads and checks it, a forward to it is
      booked, and the update stores a count of forwards that its checks never saw. */
  lemma ForwardedBetween(env: string -> R.Env, instant: string -> nat, show: nat -> string)
    ensures var w, patch := E.Broker(env, instant, show), Request(true, "r", PATCHED, "c", "t1");
            exists ss, t, s', doc :: Reached(w, ss, t) && Guarded(w, t, 0, s') && Differs(t, s', patch, doc)
  {
    var w, created := E.Broker(env, instant, show), AsCreated(POSTED, show(0));
    var checked := Merge(created, PATCHED);
    PostedIsNormal();
    assert R.Mode(created) == R.Mode(POSTED) == R.Mode(checked);
    Interleaved(w, Request(false, "r", POSTED, "c", "t0"), Request(true, "r", PATCHED, "c", "t1"), created, checked);
  }
}
