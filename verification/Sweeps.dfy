/** What the sweep and the purges take beside the registration writes (crates/antares-api/src/csource.rs). */
module Sweeps {
  import opened Json
  import opened P = Protocol
  import opened B = Bookkeeping
  import W = Walk
  import R = Registry
  import E = Exclusion

  // ---------- a collector and the others ----------

  /** The sweep, or a delete that may find its registration expired. */
  predicate Collects(pc: PC) {
    pc.SweepFetching? || pc.SweepVisiting? || pc.Sweeping? || pc.DelReading? || pc.DelPurging?
  }

  /** About to remove `id` as expired. */
  predicate Takes(pc: PC, id: string) {
    (pc.Sweeping? && pc.dead != [] && pc.dead[0] == id) || pc == DelPurging(id)
  }

  /** Has yet to read `id`, and has not marked it. */
  predicate Unread(pc: PC, id: string) {
    (pc.SweepFetching? && id !in pc.dead) || pc == DelReading(id)
  }

  /** Written since `writes` counted `base`, or expired. */
  predicate Spent(w: World, s: State, id: string, base: nat) {
    id in s.rows ==> s.rows[id].written >= base || Expired(w, s.rows[id].doc, s.clock)
  }

  /** Written since, or as it was read. */
  predicate AsRead(s: State, id: string, doc: Members, base: nat) {
    id in s.rows ==> s.rows[id].written >= base || Core(s.rows[id].doc) == Core(doc)
  }

  predicate RestAsRead(s: State, rest: seq<Found>, id: string, base: nat) {
    forall i :: 0 <= i < |rest| && rest[i].id == id ==> AsRead(s, id, rest[i].doc, base)
  }

  /** What a collector has marked is spent, what it has read is as it was read. */
  predicate Marked(w: World, s: State, pc: PC, id: string, base: nat) {
    match pc
    case SweepFetching(_, dead) => id in dead ==> Spent(w, s, id, base)
    case SweepVisiting(rest, _, _, dead) => (id in dead ==> Spent(w, s, id, base)) && RestAsRead(s, rest, id, base)
    case Sweeping(dead) => id in dead ==> Spent(w, s, id, base)
    case DelPurging(d) => d == id ==> Spent(w, s, id, base)
    case _ => true
  }

  /** Time passes, and a row is removed, booked on, or written. */
  predicate LaterAt(s: State, s': State, id: string) {
    id in s'.rows ==> s'.rows[id].written >= s.writes || (id in s.rows && SameRow(s.rows[id], s'.rows[id]))
  }

  lemma BookedLater(s: State, s': State, other: string, id: string)
    requires Forwarded(s, s', other)
    ensures LaterAt(s, s', id) && s'.clock == s.clock && s'.writes == s.writes
  {
    var now, ok :| s' == Book(s, other, now, ok);
    BookedCore(s.rows[other].doc, now, ok);
  }

  lemma StepLater(w: World, s: State, c: nat, s': State, id: string)
    requires Steps(w, s, c, s')
    ensures LaterAt(s, s', id) && s'.clock == s.clock && s'.writes >= s.writes
  {
    if Pc(s, c).Writing? && Guarded(w, s, c, s') {
    } else if id in s'.rows {
      StepLeaves(w, s, c, s', id);
    }
  }

  lemma NextLater(w: World, s: State, s': State, id: string)
    requires Next(w, s, s')
    ensures LaterAt(s, s', id) && s.clock <= s'.clock && s.writes <= s'.writes
  {
    if Tick(s, s') {
    } else if other :| Forwarded(s, s', other) {
      BookedLater(s, s', other, id);
    } else {
      var c :| Guarded(w, s, c, s') || Free(w, s, c, s') || s' == Finish(s, c);
      StepLater(w, s, c, s', id);
    }
  }

  lemma SpentStays(w: World, s: State, s': State, id: string, base: nat)
    requires Lawful(w) && LaterAt(s, s', id) && s.clock <= s'.clock && base <= s.writes && Spent(w, s, id, base)
    ensures Spent(w, s', id, base)
  {
    if id in s.rows && id in s'.rows && SameRow(s.rows[id], s'.rows[id]) { CoreReads(w, s.rows[id].doc, s'.rows[id].doc); }
  }

  lemma MarkedStays(w: World, s: State, s': State, pc: PC, id: string, base: nat)
    requires Lawful(w) && LaterAt(s, s', id) && s.clock <= s'.clock && base <= s.writes && Marked(w, s, pc, id, base)
    ensures Marked(w, s', pc, id, base)
  {
    if Spent(w, s, id, base) { SpentStays(w, s, s', id, base); }
  }

  // ---------- a collector's own steps ----------

  /** A document found expired is spent. */
  lemma VisitMarks(w: World, s: State, id: string, doc: Members, base: nat)
    requires Lawful(w) && AsRead(s, id, doc, base) && Expired(w, doc, s.clock)
    ensures Spent(w, s, id, base)
  {
    if id in s.rows && s.rows[id].written < base { CoreReads(w, s.rows[id].doc, doc); }
  }

  lemma PageAsRead(s: State, after: Option<string>, rest: seq<Found>, short: bool, id: string, base: nat)
    requires PageRead(s, after, rest, short)
    ensures RestAsRead(s, rest, id, base)
  {
    var ids :| W.IsPage(s.rows.Keys, after, W.SCAN_PAGE, ids) && rest == FoundAll(s.rows, ids) && short == (|ids| < W.SCAN_PAGE);
  }

  lemma SweepMarks(w: World, s: State, c: nat, s': State, id: string, base: nat)
    requires Lawful(w) && Free(w, s, c, s') && Marked(w, s, Pc(s, c), id, base)
    requires Pc(s, c).SweepFetching? || Pc(s, c).SweepVisiting? || Pc(s, c).Sweeping?
    ensures Marked(w, s', Pc(s', c), id, base)
  {
    match Pc(s, c) {
      case SweepFetching(after, dead) =>
        var rest, short :| PageRead(s, after, rest, short) && s' == Set(s, c, SweepVisiting(rest, after, short, dead));
        PageAsRead(s, after, rest, short, id, base);
      case SweepVisiting(rest, at, short, dead) =>
        if rest != [] {
          assert forall i :: 0 <= i < |rest[1..]| ==> rest[1..][i] == rest[i + 1];
          if rest[0].id == id && Expired(w, rest[0].doc, s.clock) { VisitMarks(w, s, id, rest[0].doc, base); }
        }
      case Sweeping(dead) =>
    }
  }

  lemma OwnMarks(w: World, s: State, c: nat, s': State, id: string, base: nat)
    requires Lawful(w) && Steps(w, s, c, s') && Marked(w, s, Pc(s, c), id, base)
    requires Collects(Pc(s, c)) && Collects(Pc(s', c))
    ensures Marked(w, s', Pc(s', c), id, base)
  {
    if Free(w, s, c, s') && !Pc(s, c).DelReading? && !Pc(s, c).DelPurging? { SweepMarks(w, s, c, s', id, base); }
  }

  lemma NextMarks(w: World, s: State, s': State, c: nat, id: string, base: nat)
    requires Lawful(w) && Next(w, s, s') && base <= s.writes && Marked(w, s, Pc(s, c), id, base)
    requires Collects(Pc(s, c)) && Collects(Pc(s', c))
    ensures Marked(w, s', Pc(s', c), id, base)
  {
    MovesItself(w, s, s', c);
    if Pc(s', c) == Pc(s, c) {
      NextLater(w, s, s', id);
      MarkedStays(w, s, s', Pc(s, c), id, base);
    } else {
      OwnMarks(w, s, c, s', id, base);
    }
  }

  // ---------- runs ----------

  predicate CollectsAt(ss: seq<State>, c: nat, m: nat)
    requires m < |ss|
  {
    Collects(Pc(ss[m], c))
  }

  lemma MarkStep(w: World, ss: seq<State>, m: nat, c: nat, id: string, base: nat)
    requires Lawful(w) && IsRun(w, ss) && m + 1 < |ss| && CollectsAt(ss, c, m) && CollectsAt(ss, c, m + 1)
    requires base <= ss[m].writes && Marked(w, ss[m], Pc(ss[m], c), id, base)
    ensures ss[m].writes <= ss[m + 1].writes && Marked(w, ss[m + 1], Pc(ss[m + 1], c), id, base)
  {
    assert NextAt(w, ss, m);
    NextLater(w, ss[m], ss[m + 1], id);
    NextMarks(w, ss[m], ss[m + 1], c, id, base);
  }

  lemma {:induction false} MarksHold(w: World, ss: seq<State>, p: nat, i: nat, c: nat, id: string)
    requires Lawful(w) && IsRun(w, ss) && p <= i < |ss| && Unread(Pc(ss[p], c), id)
    requires forall m: nat :: p <= m <= i ==> CollectsAt(ss, c, m)
    ensures ss[p].writes <= ss[i].writes && Marked(w, ss[i], Pc(ss[i], c), id, ss[p].writes)
    decreases i
  {
    if p < i {
      assert CollectsAt(ss, c, i - 1) && CollectsAt(ss, c, i);
      MarksHold(w, ss, p, i - 1, c, id);
      MarkStep(w, ss, i - 1, c, id, ss[p].writes);
    }
  }

  /** What the sweep, or a delete's purge, takes is a live registration exactly when one has been written under its id
      since the collector had yet to read it, and has not expired. */
  lemma TakesLiveExactlyWhen(w: World, ss: seq<State>, p: nat, i: nat, c: nat, id: string)
    requires Lawful(w) && IsRun(w, ss) && p <= i < |ss| && Unread(Pc(ss[p], c), id) && Takes(Pc(ss[i], c), id)
    requires forall m: nat :: p <= m <= i ==> CollectsAt(ss, c, m)
    ensures Live(w, ss[i], id) <==>
              id in ss[i].rows && ss[i].rows[id].written >= ss[p].writes && !Expired(w, ss[i].rows[id].doc, ss[i].clock)
  {
    MarksHold(w, ss, p, i, c, id);
  }

  /** A purge under the lock never takes a live registration. */
  lemma LockedPurgeTakesNone(w: World, ss: seq<State>, i: nat, c: nat)
    requires Lawful(w) && IsRun(w, ss) && i < |ss| && Pc(ss[i], c).Purging?
    ensures !Live(w, ss[i], Pc(ss[i], c).req.id)
  {
    RunKeeps(w, ss, i);
    assert ClientOk(w, ss[i], c);
  }

  // ---------- a run on which the sweep takes a live registration ----------

  ghost predicate Reachable(w: World, s: State) {
    exists ss :: Reached(w, ss, s)
  }

  lemma Onward(w: World, s: State, s': State)
    requires Reachable(w, s) && Next(w, s, s')
    ensures Reachable(w, s')
  {
    var ss :| Reached(w, ss, s);
    Extend(w, ss, s, s');
  }

  lemma GuardedOnward(w: World, s: State, c: nat, s': State)
    requires Reachable(w, s) && Guarded(w, s, c, s')
    ensures Reachable(w, s')
  {
    Onward(w, s, s');
  }

  lemma FreeOnward(w: World, s: State, c: nat, s': State)
    requires Reachable(w, s) && Free(w, s, c, s')
    ensures Reachable(w, s')
  {
    Onward(w, s, s');
  }

  /** Two clients, of which the first may hold the lock. */
  function Two(rows: Rows, writes: nat, held: bool, clock: nat, pc0: PC, pc1: PC): State {
    State(rows, writes, if held then Some(0) else None, clock, map[0 := pc0, 1 := pc1])
  }

  lemma OnePage(s: State, id: string)
    requires s.rows.Keys == {id}
    ensures PageRead(s, None, [Found(id, s.rows[id].doc)], true)
  {
    assert W.IsPage(s.rows.Keys, None, W.SCAN_PAGE, [id]);
    assert FoundAll(s.rows, [id]) == [Found(id, s.rows[id].doc)];
  }

  lemma SweepStarts(w: World, s: State, rows: Rows, now: nat, a: State)
    requires s == State(rows, 1, None, now, map[0 := Idle]) && a == Two(rows, 1, false, now, Idle, SweepFetching(None, []))
    ensures Free(w, s, 1, a)
  {
    assert a == Set(s, 1, SweepFetching(None, []));
  }

  lemma SweepReads(w: World, rows: Rows, now: nat, id: string, a: State, b: State)
    requires rows.Keys == {id} && a == Two(rows, 1, false, now, Idle, SweepFetching(None, []))
    requires b == Two(rows, 1, false, now, Idle, SweepVisiting([Found(id, rows[id].doc)], None, true, []))
    ensures Free(w, a, 1, b)
  {
    OnePage(a, id);
    assert b == Set(a, 1, SweepVisiting([Found(id, rows[id].doc)], None, true, []));
  }

  lemma SweepFinds(w: World, rows: Rows, now: nat, f: Found, b: State, c: State)
    requires Expired(w, f.doc, now) && b == Two(rows, 1, false, now, Idle, SweepVisiting([f], None, true, []))
    requires c == Two(rows, 1, false, now, Idle, SweepVisiting([], Some(f.id), true, [f.id]))
    ensures Free(w, b, 1, c)
  {
    assert [f][1..] == [] && [] + [f.id] == [f.id];
    assert c == Set(b, 1, SweepVisiting([], Some(f.id), true, [f.id]));
  }

  lemma SweepEnds(w: World, rows: Rows, now: nat, id: string, c: State, t: State)
    requires c == Two(rows, 1, false, now, Idle, SweepVisiting([], Some(id), true, [id]))
    requires t == Two(rows, 1, false, now, Idle, Sweeping([id]))
    ensures Free(w, c, 1, t)
  {
    assert t == Set(c, 1, Sweeping([id]));
  }

  /** The second client sweeps a tenant of one registration up to the removal. */
  lemma SweepsUp(w: World, s: State, rows: Rows, id: string, now: nat, t: State)
    requires Reachable(w, s) && s == State(rows, 1, None, now, map[0 := Idle])
    requires rows.Keys == {id} && Expired(w, rows[id].doc, now)
    requires t == Two(rows, 1, false, now, Idle, Sweeping([id]))
    ensures Reachable(w, t)
  {
    var found := Found(id, rows[id].doc);
    var a := Two(rows, 1, false, now, Idle, SweepFetching(None, []));
    var b := Two(rows, 1, false, now, Idle, SweepVisiting([found], None, true, []));
    var c := Two(rows, 1, false, now, Idle, SweepVisiting([], Some(id), true, [id]));
    SweepStarts(w, s, rows, now, a);
    SweepReads(w, rows, now, id, a, b);
    SweepFinds(w, rows, now, found, b, c);
    SweepEnds(w, rows, now, id, c, t);
    FourOnward(w, s, a, b, c, t);
  }

  lemma FourOnward(w: World, s: State, a: State, b: State, c: State, t: State)
    requires Reachable(w, s) && Free(w, s, 1, a) && Free(w, a, 1, b) && Free(w, b, 1, c) && Free(w, c, 1, t)
    ensures Reachable(w, t)
  {
    FreeOnward(w, s, 1, a);
    FreeOnward(w, a, 1, b);
    FreeOnward(w, b, 1, c);
    FreeOnward(w, c, 1, t);
  }

  /** Meanwhile the first one asks for a registration under that id, */
  lemma AsksAgain(w: World, rows: Rows, req: Request, now: nat, pc: PC)
    requires Reachable(w, Two(rows, 1, false, now, Idle, pc)) && NormOk(w, req)
    ensures Reachable(w, Two(rows, 1, false, now, Waiting(req), pc))
  {
    var s, a := Two(rows, 1, false, now, Idle, pc), Two(rows, 1, false, now, Waiting(req), pc);
    assert a == Set(s, 0, Waiting(req));
    FreeOnward(w, s, 0, a);
  }

  lemma LocksAgain(w: World, rows: Rows, req: Request, now: nat, pc: PC)
    requires Reachable(w, Two(rows, 1, false, now, Waiting(req), pc))
    ensures Reachable(w, Two(rows, 1, true, now, Reading(req), pc))
  {
    var a, b := Two(rows, 1, false, now, Waiting(req), pc), Two(rows, 1, true, now, Reading(req), pc);
    assert b == Set(a, 0, Reading(req)).(lock := Some(0));
    GuardedOnward(w, a, 0, b);
  }

  /** which frees the id, */
  lemma PurgesAgain(w: World, rows: Rows, req: Request, now: nat, pc: PC)
    requires Reachable(w, Two(rows, 1, true, now, Reading(req), pc)) && !req.update
    requires rows.Keys == {req.id} && Expired(w, rows[req.id].doc, now)
    ensures Reachable(w, Two(map[], 1, true, now, Checking(req, req.frag), pc))
  {
    var b, c, d := Two(rows, 1, true, now, Reading(req), pc), Two(rows, 1, true, now, Purging(req), pc), Two(map[], 1, true, now, Checking(req, req.frag), pc);
    assert c == Set(b, 0, Purging(req));
    GuardedOnward(w, b, 0, c);
    assert rows - {req.id} == map[];
    assert d == Set(Remove(c, req.id), 0, Checking(req, req.frag));
    GuardedOnward(w, c, 0, d);
  }

  /** and puts it there. */
  lemma WritesAgain(w: World, req: Request, now: nat, pc: PC)
    requires Reachable(w, Two(map[], 1, true, now, Checking(req, req.frag), pc)) && !req.update && !w.proxied(req.frag)
    ensures Reachable(w, Two(map[req.id := Row(AsCreated(req.frag, w.show(now)), req.ctx, 1)], 2, false, now, Idle, pc))
  {
    var d, e := Two(map[], 1, true, now, Checking(req, req.frag), pc), Two(map[], 1, true, now, Writing(req, Some(req.frag)), pc);
    var t := Two(map[req.id := Row(AsCreated(req.frag, w.show(now)), req.ctx, 1)], 2, false, now, Idle, pc);
    assert e == Set(d, 0, Writing(req, Some(req.frag)));
    GuardedOnward(w, d, 0, e);
    assert t == Finish(Write(w, e, req, Some(req.frag)), 0);
    GuardedOnward(w, e, 0, t);
  }

  /** A registration expires and a sweep marks it; before the removal its id is taken again; the sweep removes what it
      never read. */
  lemma SweepTakesLive(w: World, create: Request, again: Request, now: nat) returns (s: State, s': State)
    requires NormOk(w, create) && NormOk(w, again) && !create.update && !again.update && again.id == create.id
    requires !w.proxied(create.frag) && !w.proxied(again.frag)
    requires Expired(w, AsCreated(create.frag, w.show(0)), now) && !Expired(w, AsCreated(again.frag, w.show(now)), now)
    ensures Reachable(w, s) && Takes(Pc(s, 1), create.id) && Live(w, s, create.id)
    ensures Free(w, s, 1, s') && create.id !in s'.rows
  {
    var s0, rows := State(map[], 0, None, 0, map[]), map[create.id := Row(AsCreated(create.frag, w.show(0)), create.ctx, 0)];
    assert Reached(w, [s0], s0);
    var ss := ComesToWrite(w, [s0], map[], 0, create, create.frag);
    ss := Creates(w, ss, create, rows);
    var made, late := Alone(rows, 1, false, Idle), State(rows, 1, None, now, map[0 := Idle]);
    assert Reachable(w, made) && Tick(made, late);
    Onward(w, made, late);
    SweepsUp(w, late, rows, create.id, now, Two(rows, 1, false, now, Idle, Sweeping([create.id])));
    s := Two(map[again.id := Row(AsCreated(again.frag, w.show(now)), again.ctx, 1)], 2, false, now, Idle, Sweeping([create.id]));
    AsksAgain(w, rows, again, now, Sweeping([create.id]));
    LocksAgain(w, rows, again, now, Sweeping([create.id]));
    PurgesAgain(w, rows, again, now, Sweeping([create.id]));
    WritesAgain(w, again, now, Sweeping([create.id]));
    s' := Set(Remove(s, create.id), 1, Sweeping([create.id][1..]));
  }

  const EXPIRING: Members := POSTED["expiresAt" := Text("e")]

  lemma ExpiringIsNormal()
    ensures R.Normal(EXPIRING) && R.Mode(EXPIRING) == "inclusive" && Core(EXPIRING) == EXPIRING
    ensures GetText(Object(EXPIRING), "id") == Some("r") && GetText(Object(EXPIRING), "expiresAt") == Some("e")
  {
    PostedIsNormal();
    assert R.Infos(EXPIRING) == R.Infos(POSTED);
    assert "expiresAt" !in BOOKED;
  }

  /** The broker lets this happen, for registrations that only name a type. */
  lemma SweepTakesLiveExample(env: string -> R.Env, instant: string -> nat, show: nat -> string) returns (s: State, s': State)
    ensures var w := E.Broker(env, instant, show);
            Reachable(w, s) && Takes(Pc(s, 1), "r") && Live(w, s, "r") && Free(w, s, 1, s') && "r" !in s'.rows
  {
    var w := E.Broker(env, instant, show);
    PostedIsNormal();
    ExpiringIsNormal();
    s, s' := SweepTakesLive(w, Request(false, "r", EXPIRING, "c", "t0"), Request(false, "r", POSTED, "c", "t1"), instant("e") + 1);
  }
}
