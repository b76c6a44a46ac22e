/** The exclusive rule of clause 4.3.6.3 over every run of the broker's own registration protocol. */
module Exclusion {
  import opened Json
  import R = Registry
  import P = Protocol
  import D = Redirects

  predicate Matches(env: string -> R.Env, ctx: string, doc: Members, other: Members) {
    R.Guarded(R.Mode(doc), R.Mode(other)) && R.Overlaps(env(ctx), doc, other)
  }

  /** The broker: normalized information, `validate_exclusive`, the guarded modes and `csr_matches`. */
  function Broker(env: string -> R.Env, instant: string -> nat, show: nat -> string): P.World {
    P.World(R.Normal, R.ValidExclusive, (doc: Members) => R.Proxied(R.Mode(doc)),
            (ctx: string, doc: Members, other: Members) => Matches(env, ctx, doc, other), instant, show)
  }

  /** What the checks read of a registration. */
  predicate SameView(a: Members, b: Members) {
    R.Infos(a) == R.Infos(b) && R.Mode(a) == R.Mode(b)
  }

  lemma SameStamps(w: P.World, env: string -> R.Env, doc: Members, d: Members)
    requires w == Broker(env, w.instant, w.show) && SameView(doc, d)
    ensures P.StampLaw(w, doc, d)
  {
    forall ctx, other
      ensures P.MatchLaw(w, ctx, doc, d, other)
    {
    }
  }

  lemma StampsAreUnread(doc: Members, ts: string)
    ensures SameView(doc, P.WithStamp(doc, ts)) && SameView(doc, P.AsCreated(doc, ts))
  {
  }

  lemma MergeIsNormal(prev: Members, frag: Members)
    requires R.Normal(prev) && R.Normal(frag)
    ensures R.Normal(P.Merge(prev, frag))
  {
    var m := P.Merge(prev, frag);
    assert R.Infos(m) == R.Infos(frag) || R.Infos(m) == R.Infos(prev) || R.Infos(m) == [];
  }

  lemma BooksAreUnread(doc: Members)
    ensures SameView(doc, P.Core(doc))
  {
    assert AgreeAt(doc, P.Core(doc), "information") && AgreeAt(doc, P.Core(doc), "mode");
  }

  /** The broker's checks read nothing that the stamps or a forward change, and merging keeps what normalization gives. */
  lemma BrokerIsLawful(env: string -> R.Env, instant: string -> nat, show: nat -> string)
    ensures P.Lawful(Broker(env, instant, show))
  {
    var w := Broker(env, instant, show);
    forall doc, ts
      ensures P.StampLaw(w, doc, P.WithStamp(doc, ts)) && P.StampLaw(w, doc, P.AsCreated(doc, ts))
    {
      StampsAreUnread(doc, ts);
      SameStamps(w, env, doc, P.WithStamp(doc, ts));
      SameStamps(w, env, doc, P.AsCreated(doc, ts));
    }
    forall doc
      ensures P.StampLaw(w, doc, P.Core(doc))
    {
      BooksAreUnread(doc);
      SameStamps(w, env, doc, P.Core(doc));
    }
    forall prev, frag
      ensures P.MergeLaw(w, prev, frag)
    {
      if R.Normal(prev) && R.Normal(frag) { MergeIsNormal(prev, frag); }
    }
    forall ctx, doc, other
      ensures P.GuardLaw(w, ctx, doc, other)
    {
    }
  }

  /** The visit of the paged check and the test of the protocol are the same: another registration than the one that is
      updated, whose `expiresAt` has not passed, and that stands in the way. */
  lemma VisitIsBlocked(env: string -> R.Env, instant: string -> nat, show: nat -> string, req: P.Request, doc: Members, other: Members, now: nat)
    ensures var w, self := Broker(env, instant, show), if req.update then Some(req.id) else None;
            && (P.Blocked(w, req, doc, other, now) <==> R.InTheWay(env(req.ctx), doc, self, other, HasPassed(instant, other, now)))
            && (P.Blocked(w, req, doc, other, now) <==> R.Blocks(env(req.ctx), doc, self, other, HasPassed(instant, other, now)))
  {
    R.BlocksByName(env(req.ctx), doc, if req.update then Some(req.id) else None, other, HasPassed(instant, other, now));
    ExpiredByName(Broker(env, instant, show), other, now);
  }

  /** Strictly before now. */
  ghost predicate HasPassed(instant: string -> nat, doc: Members, now: nat) {
    exists e :: At(doc, "expiresAt") == Some(Text(e)) && instant(e) < now
  }

  lemma ExpiredByName(w: P.World, doc: Members, now: nat)
    ensures P.Expired(w, doc, now) <==> HasPassed(w.instant, doc, now)
  {
    if P.Expired(w, doc, now) { assert At(doc, "expiresAt") == Some(Text(GetText(Object(doc), "expiresAt").value)); }
  }

  /** An update is never in its own way. */
  lemma NotInItsOwnWay(env: string -> R.Env, instant: string -> nat, show: nat -> string, ss: seq<P.State>, i: nat, req: P.Request, doc: Members)
    requires P.IsRun(Broker(env, instant, show), ss) && i < |ss| && req.update && req.id in ss[i].rows
    ensures !P.Blocked(Broker(env, instant, show), req, doc, ss[i].rows[req.id].doc, ss[i].clock)
  {
    BrokerIsLawful(env, instant, show);
    P.RunKeeps(Broker(env, instant, show), ss, i);
    assert P.RowAt(Broker(env, instant, show), ss[i], req.id);
  }

  /** Of two live registrations in guarded modes, the one written last does not match the other. */
  lemma LaterDoesNotOverlap(env: string -> R.Env, instant: string -> nat, show: nat -> string,
                            ss: seq<P.State>, i: nat, a: string, b: string)
    requires P.IsRun(Broker(env, instant, show), ss) && i < |ss| && a != b
    requires P.Live(Broker(env, instant, show), ss[i], a) && P.Live(Broker(env, instant, show), ss[i], b)
    requires ss[i].rows[a].written < ss[i].rows[b].written
    requires R.Guarded(R.Mode(ss[i].rows[b].doc), R.Mode(ss[i].rows[a].doc))
    ensures !R.Overlaps(env(ss[i].rows[b].ctx), ss[i].rows[b].doc, ss[i].rows[a].doc)
  {
    BrokerIsLawful(env, instant, show);
    P.LaterDoesNotMatch(Broker(env, instant, show), ss, i, a, b);
  }

  /** Clause 4.3.6.3: two live exclusive registrations never share an Entity id and an Attribute where the declared
      types meet; they share none at all if the later one declares no types. */
  lemma ExclusivesApart(env: string -> R.Env, instant: string -> nat, show: nat -> string,
                        ss: seq<P.State>, i: nat, a: string, b: string)
    requires P.IsRun(Broker(env, instant, show), ss) && i < |ss| && a != b
    requires P.Live(Broker(env, instant, show), ss[i], a) && P.Live(Broker(env, instant, show), ss[i], b)
    requires R.Mode(ss[i].rows[a].doc) == "exclusive" && R.Mode(ss[i].rows[b].doc) == "exclusive"
    requires ss[i].rows[a].written < ss[i].rows[b].written
    ensures var x, y := R.Infos(ss[i].rows[a].doc), R.Infos(ss[i].rows[b].doc);
            && !R.Clashes(env(ss[i].rows[b].ctx), y, x)
            && (R.Untyped(y) ==> forall id, attr :: !R.Shares(y, x, id, attr))
  {
    var w, x, y := Broker(env, instant, show), ss[i].rows[a], ss[i].rows[b];
    BrokerIsLawful(env, instant, show);
    P.RunKeeps(w, ss, i);
    assert P.RowAt(w, ss[i], a) && P.RowAt(w, ss[i], b);
    LaterDoesNotOverlap(env, instant, show, ss, i, a, b);
    R.ValidatedIsExclusive(x.doc);
    R.ValidatedIsExclusive(y.doc);
    ApartOrTyped(env(y.ctx), R.Infos(y.doc), R.Infos(x.doc));
  }

  /** Clause 4.3.6.3: a redirect written after an exclusive, both live, reaches none of its Entities where the declared
      types meet and both are about an Attribute; it is about none at all if it declares no types and is simple. */
  lemma RedirectAfterExclusive(env: string -> R.Env, instant: string -> nat, show: nat -> string,
                               ss: seq<P.State>, i: nat, a: string, b: string)
    requires P.IsRun(Broker(env, instant, show), ss) && i < |ss| && a != b
    requires P.Live(Broker(env, instant, show), ss[i], a) && P.Live(Broker(env, instant, show), ss[i], b)
    requires R.Mode(ss[i].rows[a].doc) == "exclusive" && R.Mode(ss[i].rows[b].doc) == "redirect"
    requires ss[i].rows[a].written < ss[i].rows[b].written
    ensures var w, x, y := env(ss[i].rows[b].ctx), R.Infos(ss[i].rows[a].doc), R.Infos(ss[i].rows[b].doc);
            && !D.AnyReaches(w, y, x)
            && (R.Untyped(y) && D.AllSimple(y) ==> forall id, attr :: !D.Shared(w, y, x, id, attr))
  {
    var x, y := ss[i].rows[a], ss[i].rows[b];
    LaterDoesNotOverlap(env, instant, show, ss, i, a, b);
    RowIsShaped(env, instant, show, ss, i, a);
    R.ValidatedIsExclusive(x.doc);
    RedirectApart(env(y.ctx), R.Infos(y.doc), R.Infos(x.doc));
  }

  /** The same for an exclusive written after a redirect: no selector of the redirect takes one of its Entities. */
  lemma ExclusiveAfterRedirect(env: string -> R.Env, instant: string -> nat, show: nat -> string,
                               ss: seq<P.State>, i: nat, a: string, b: string)
    requires P.IsRun(Broker(env, instant, show), ss) && i < |ss| && a != b
    requires P.Live(Broker(env, instant, show), ss[i], a) && P.Live(Broker(env, instant, show), ss[i], b)
    requires R.Mode(ss[i].rows[a].doc) == "redirect" && R.Mode(ss[i].rows[b].doc) == "exclusive"
    requires ss[i].rows[a].written < ss[i].rows[b].written
    ensures var w, x, y := env(ss[i].rows[b].ctx), R.Infos(ss[i].rows[a].doc), R.Infos(ss[i].rows[b].doc);
            && !D.AnyMeets(w, y, x)
            && (R.Untyped(y) ==> forall id, attr :: !D.Shared(w, x, y, id, attr))
  {
    var x, y := ss[i].rows[a], ss[i].rows[b];
    LaterDoesNotOverlap(env, instant, show, ss, i, a, b);
    RowIsShaped(env, instant, show, ss, i, a);
    RowIsShaped(env, instant, show, ss, i, b);
    R.ValidatedIsExclusive(y.doc);
    NormalsOf(x.doc);
    ExclusiveApart(env(y.ctx), R.Infos(y.doc), R.Infos(x.doc));
  }

  lemma RowIsShaped(env: string -> R.Env, instant: string -> nat, show: nat -> string, ss: seq<P.State>, i: nat, a: string)
    requires P.IsRun(Broker(env, instant, show), ss) && i < |ss| && a in ss[i].rows
    ensures R.Normal(ss[i].rows[a].doc) && R.ValidExclusive(ss[i].rows[a].doc)
  {
    BrokerIsLawful(env, instant, show);
    P.RunKeeps(Broker(env, instant, show), ss, i);
    assert P.RowAt(Broker(env, instant, show), ss[i], a);
  }

  lemma NormalsOf(doc: Members)
    requires R.Normal(doc)
    ensures D.Normals(R.Infos(doc))
  {
  }

  lemma RedirectApart(env: R.Env, infos: seq<Json>, others: seq<Json>)
    requires R.Exclusives(others) && !R.InfosOverlap(env, infos, others)
    ensures !D.AnyReaches(env, infos, others)
    ensures R.Untyped(infos) && D.AllSimple(infos) ==> forall id, attr :: !D.Shared(env, infos, others, id, attr)
  {
    D.RedirectOverExclusive(env, infos, others);
    if R.Untyped(infos) && D.AllSimple(infos) {
      forall id, attr
        ensures !D.Shared(env, infos, others, id, attr)
      {
        if D.Shared(env, infos, others, id, attr) { D.SharedIsReached(env, infos, others, id, attr); }
      }
    }
  }

  lemma ExclusiveApart(env: R.Env, infos: seq<Json>, others: seq<Json>)
    requires R.Exclusives(infos) && D.Normals(others) && !R.InfosOverlap(env, infos, others)
    ensures !D.AnyMeets(env, infos, others)
    ensures R.Untyped(infos) ==> forall id, attr :: !D.Shared(env, others, infos, id, attr)
  {
    D.ExclusiveOverRedirect(env, infos, others);
    if R.Untyped(infos) {
      forall id, attr
        ensures !D.Shared(env, others, infos, id, attr)
      {
        if D.Shared(env, others, infos, id, attr) { D.SharedIsMet(env, infos, others, id, attr); }
      }
    }
  }

  lemma ApartOrTyped(env: R.Env, infos: seq<Json>, others: seq<Json>)
    requires R.Exclusives(infos) && R.Exclusives(others) && !R.InfosOverlap(env, infos, others)
    ensures !R.Clashes(env, infos, others)
    ensures R.Untyped(infos) ==> forall id, attr :: !R.Shares(infos, others, id, attr)
  {
    R.ExclusivesMatch(env, infos, others);
    if R.Untyped(infos) {
      forall id, attr
        ensures !R.Shares(infos, others, id, attr)
      {
        if R.Shares(infos, others, id, attr) { R.SharedIsMatch(env, infos, others, id, attr); }
      }
    }
  }
}
