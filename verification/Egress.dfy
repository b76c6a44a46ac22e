/** The outbound circuit breakers: two bounded maps shared by every tenant (crates/antares-api/src/egress.rs). */
module Egress {
  import opened Json
  import opened Names

  const MAX_TRACKED := 4096
  const TRIP_AFTER := 5

  /** Milliseconds. */
  const COOLDOWN := 30_000

  /** The unit separator; TenantId refuses it. */
  const SEP := '\U{1f}'

  datatype Breaker = Breaker(failures: nat, trippedAt: Option<nat>, touchedAt: Option<nat>)

  // ---------- keys ----------

  predicate IsTenant(t: string) {
    SEP !in t
  }

  /** `tenant\u{1f}rest` */
  function Key(tenant: string, rest: string): string {
    tenant + [SEP] + rest
  }

  /** `key.split('\u{1f}').next()` */
  function Head(key: string): string {
    if key == [] || key[0] == SEP then [] else [key[0]] + Head(key[1..])
  }

  /** The prefix `evict_oldest` searches by. */
  function Prefix(key: string): string {
    Head(key) + [SEP]
  }

  lemma {:induction false} HeadOfKey(tenant: string, rest: string)
    requires IsTenant(tenant)
    ensures Head(Key(tenant, rest)) == tenant
  {
    var key := Key(tenant, rest);
    if tenant == [] {
      assert key[0] == SEP;
    } else {
      assert key[1..] == Key(tenant[1..], rest);
      HeadOfKey(tenant[1..], rest);
    }
  }

  lemma {:induction false} HeadOfLonger(p: string, q: string)
    requires SEP !in p && p + [SEP] <= q
    ensures Head(q) == p
  {
    if p != [] {
      assert q[0] == p[0];
      assert (p + [SEP])[1..] == p[1..] + [SEP];
      assert forall i :: 0 <= i < |p| ==> q[1..][i] == q[i + 1];
      HeadOfLonger(p[1..], q[1..]);
    } else {
      assert q[0] == SEP;
    }
  }

  /** A key starts with another key's prefix exactly when both belong to one tenant. */
  lemma PrefixIsTenant(t: string, rest: string, u: string, other: string)
    requires IsTenant(t) && IsTenant(u)
    ensures Prefix(Key(t, rest)) == t + [SEP]
    ensures Key(t, rest) == t + ['\U{1f}'] + rest
    ensures t + [SEP] <= Key(u, other) <==> t == u
  {
    HeadOfKey(t, rest);
    HeadOfKey(u, other);
    if t + [SEP] <= Key(u, other) { HeadOfLonger(t, Key(u, other)); }
  }

  // ---------- eviction ----------

  /** `Option<Instant>` as Rust orders it: `None` first. */
  predicate NoLater(a: Option<nat>, b: Option<nat>) {
    a.None? || (b.Some? && a.value <= b.value)
  }

  /** The stamp of an entry. */
  type Stamp<!V> = V -> Option<nat>

  /** Keys that start with the prefix, or those that do not. */
  function Side<V>(m: map<string, V>, prefix: string, mine: bool): set<string> {
    set k | k in m && (prefix <= k) == mine
  }

  predicate Oldest<V>(m: map<string, V>, side: set<string>, stamp: Stamp<V>, k: string)
    requires side <= m.Keys
  {
    k in side && forall j :: j in side ==> NoLater(stamp(m[k]), stamp(m[j]))
  }

  /** The entry an eviction drops: an oldest one of the arriving key's own prefix, or of the rest if there is none. */
  ghost predicate Victim<V>(m: map<string, V>, prefix: string, stamp: Stamp<V>, v: string) {
    var own := Side(m, prefix, true);
    Oldest(m, if own != {} then own else Side(m, prefix, false), stamp, v)
  }

  /** The map an arriving key finds: unchanged below the ceiling, one victim fewer at it. */
  ghost predicate Evicted<V>(m: map<string, V>, prefix: string, stamp: Stamp<V>, m': map<string, V>) {
    if |m| < MAX_TRACKED then m' == m
    else exists v :: Victim(m, prefix, stamp, v) && m' == m - {v}
  }

  lemma {:induction false} OldestExists<V>(m: map<string, V>, side: set<string>, stamp: Stamp<V>)
    requires side <= m.Keys && side != {}
    ensures exists k :: Oldest(m, side, stamp, k)
    decreases side
  {
    var k :| k in side;
    var rest := side - {k};
    if rest == {} {
      assert side == {k};
      assert Oldest(m, side, stamp, k);
    } else {
      OldestExists(m, rest, stamp);
      var j :| Oldest(m, rest, stamp, j);
      assert Oldest(m, side, stamp, if NoLater(stamp(m[k]), stamp(m[j])) then k else j);
    }
  }

  /** `min_by_key` over one side; hash maps are iterated in any order, so any oldest entry may come out. */
  method Least<V>(m: map<string, V>, side: set<string>, stamp: Stamp<V>) returns (r: Option<string>)
    requires side <= m.Keys
    ensures r.None? <==> side == {}
    ensures r.Some? ==> Oldest(m, side, stamp, r.value)
  {
    if side == {} { return None; }
    OldestExists(m, side, stamp);
    var k :| k in side && Oldest(m, side, stamp, k);
    return Some(k);
  }

  lemma SidesCover<V>(m: map<string, V>, prefix: string)
    ensures m.Keys == Side(m, prefix, true) + Side(m, prefix, false)
  {
  }

  /** An entry of the arriving key's own tenant, or of all if that has none, and no such entry is older; one without an
      instant is older than any. */
  ghost predicate GoesFirst<V>(m: map<string, V>, prefix: string, stamp: Stamp<V>, v: string)
    requires v in m
  {
    && (prefix <= v || forall k :: k in m ==> !(prefix <= k))
    && forall k :: k in m && (prefix <= v ==> prefix <= k) ==>
         stamp(m[v]) == None || (stamp(m[k]).Some? && stamp(m[v]).value <= stamp(m[k]).value)
  }

  lemma VictimGoesFirst<V>(m: map<string, V>, prefix: string, stamp: Stamp<V>, v: string)
    requires Victim(m, prefix, stamp, v)
    ensures v in m && GoesFirst(m, prefix, stamp, v)
  {
    var own := Side(m, prefix, true);
    forall k | k in m
      ensures prefix <= k ==> k in own
      ensures !(prefix <= k) ==> k in Side(m, prefix, false)
    {
    }
  }

  /** `evict_oldest` */
  method EvictOldest<V>(m: map<string, V>, key: string, stamp: Stamp<V>) returns (r: map<string, V>)
    requires |m| <= MAX_TRACKED
    ensures Evicted(m, Prefix(key), stamp, r) && |r| < MAX_TRACKED
    ensures if |m| < 4096 then r == m else exists v :: v in m && r == m - {v} && GoesFirst(m, Prefix(key), stamp, v)
  {
    var prefix := Prefix(key);
    r := m;
    while |r| >= MAX_TRACKED
      invariant r == m || (|m| >= MAX_TRACKED > |r| && Evicted(m, prefix, stamp, r))
      invariant r == m || exists v :: v in m && r == m - {v} && GoesFirst(m, prefix, stamp, v)
      decreases |r|
    {
      var own := Least(r, Side(r, prefix, true), stamp);
      var victim := own;
      if own.None? { victim := Least(r, Side(r, prefix, false), stamp); }
      if victim.None? {
        SidesCover(r, prefix);
        assert false;
      }
      assert Victim(m, prefix, stamp, victim.value);
      VictimGoesFirst(m, prefix, stamp, victim.value);
      r := r - {victim.value};
    }
  }

  // ---------- calls ----------

  datatype Call = IsOpen(tenant: string, url: string) | Success(tenant: string, url: string) | Failure(tenant: string, url: string)

  /** The peer a URL names: scheme, host and port. */
  type Dest = string -> string

  function KeyOf(dest: Dest, c: Call): string {
    Key(c.tenant, dest(c.url))
  }

  function Touched(b: Breaker): Option<nat> {
    b.touchedAt
  }

  /** An entry after one more failure. */
  function Bump(b: Option<Breaker>, now: nat): Breaker {
    var failures := (if b.Some? then b.value.failures else 0) + 1;
    var tripped := if b.Some? then b.value.trippedAt else None;
    Breaker(failures, if failures >= TRIP_AFTER then Some(now) else tripped, Some(now))
  }

  predicate Expired(b: Breaker, now: nat) {
    b.trippedAt.Some? && now >= b.trippedAt.value + COOLDOWN
  }

  type Breakers = map<string, Breaker>

  /** One call: the map before and after it, and the answer (`false` where there is none). */
  ghost predicate Step(dest: Dest, m: Breakers, c: Call, now: nat, m': Breakers, answer: bool) {
    var k := KeyOf(dest, c);
    match c
    case IsOpen(_, _) =>
      if k in m && Expired(m[k], now) then m' == m[k := m[k].(trippedAt := Some(now))] && !answer
      else m' == m && answer == (k in m && m[k].trippedAt.Some?)
    case Success(_, _) => m' == m - {k} && !answer
    case Failure(_, _) =>
      && !answer
      && if k in m then m' == m[k := Bump(Some(m[k]), now)]
         else exists e: Breakers :: Evicted(m, Prefix(k), Touched, e) && m' == e[k := Bump(None, now)]
  }

  /** Breakers and registration cooldowns. */
  class Egress {
    var breakers: map<string, Breaker>
    var regFailures: map<string, nat>
    const dest: Dest

    predicate Valid()
      reads this
    {
      |breakers| <= MAX_TRACKED && |regFailures| <= MAX_TRACKED
    }

    constructor (dest: Dest)
      ensures Valid() && breakers == map[] && regFailures == map[] && this.dest == dest
    {
      breakers, regFailures := map[], map[];
      this.dest := dest;
    }

    /** Is this destination tripped for this tenant? One probe is let through per cooldown. */
    method IsOpen(tenant: string, url: string, now: nat) returns (answer: bool)
      requires Valid()
      modifies this`breakers
      ensures Valid() && Step(dest, old(breakers), Call.IsOpen(tenant, url), now, breakers, answer)
    {
      var k := Key(tenant, dest(url));
      if k !in breakers { return false; }
      match breakers[k].trippedAt {
        case Some(t) =>
          if now >= t + COOLDOWN {
            breakers := breakers[k := breakers[k].(trippedAt := Some(now))];
            return false;
          }
          return true;
        case None => return false;
      }
    }

    method RecordSuccess(tenant: string, url: string, ghost now: nat)
      requires Valid()
      modifies this`breakers
      ensures Valid() && Step(dest, old(breakers), Success(tenant, url), now, breakers, false)
    {
      var k := Key(tenant, dest(url));
      if k !in breakers { assert breakers - {k} == breakers; }
      breakers := breakers - {k};
    }

    method RecordFailure(tenant: string, url: string, now: nat)
      requires Valid()
      modifies this`breakers
      ensures Valid() && Step(dest, old(breakers), Failure(tenant, url), now, breakers, false)
      ensures var k := Key(tenant, dest(url));
              k in breakers && breakers[k].touchedAt == Some(now) && (breakers[k].failures >= 5 ==> breakers[k].trippedAt == Some(now))
    {
      var k := Key(tenant, dest(url));
      var m := breakers;
      if k !in m { m := EvictOldest(m, k, Touched); }
      var b := if k in m then m[k] else Breaker(0, None, None);
      b := b.(failures := b.failures + 1);
      b := b.(touchedAt := Some(now));
      if b.failures >= TRIP_AFTER { b := b.(trippedAt := Some(now)); }
      breakers := m[k := b];
    }

    /** A failed forward stamps the registration's window, a successful one clears it. */
    method RegRecord(key: string, ok: bool, now: nat)
      requires Valid()
      modifies this`regFailures
      ensures Valid() && RegStep(old(regFailures), key, ok, now, regFailures)
      ensures !ok && key !in old(regFailures) && |old(regFailures)| >= 4096 ==>
                exists v :: v in old(regFailures) && regFailures == (old(regFailures) - {v})[key := now]
                         && OldestWindow(old(regFailures), Prefix(key), v)
    {
      if ok {
        if key !in regFailures { assert regFailures - {key} == regFailures; }
        regFailures := regFailures - {key};
      } else {
        var m := regFailures;
        if key !in m {
          m := EvictOldest<nat>(m, key, AtInstant);
          GoesFirstWindow(regFailures, Prefix(key));
        }
        regFailures := m[key := now];
      }
    }

    method RegInCooldown(key: string, cooldown: nat, now: nat) returns (r: bool)
      requires Valid()
      ensures r <==> InCooldown(regFailures, key, cooldown, now)
    {
      r := key in regFailures && now < regFailures[key] + cooldown;
    }
  }

  /** A window of the arriving key's own tenant, or of all if that has none, and none of them opened earlier. */
  ghost predicate OldestWindow(m: map<string, nat>, prefix: string, v: string)
    requires v in m
  {
    && (prefix <= v || forall k :: k in m ==> !(prefix <= k))
    && forall k :: k in m && (prefix <= v ==> prefix <= k) ==> m[v] <= m[k]
  }

  lemma GoesFirstWindow(m: map<string, nat>, prefix: string)
    ensures forall v :: v in m && GoesFirst<nat>(m, prefix, AtInstant, v) ==> OldestWindow(m, prefix, v)
  {
  }

  /** `reg_in_cooldown`: the entry's window is still open. */
  predicate InCooldown(m: map<string, nat>, key: string, cooldown: nat, now: nat) {
    key in m && now < m[key] + cooldown
  }

  function AtInstant(t: nat): Option<nat> {
    Some(t)
  }

  ghost predicate RegStep(m: map<string, nat>, key: string, ok: bool, now: nat, m': map<string, nat>) {
    if ok then m' == m - {key}
    else if key in m then m' == m[key := now]
    else exists e: map<string, nat> :: Evicted<nat>(m, Prefix(key), AtInstant, e) && m' == e[key := now]
  }

  // ---------- what one tenant's calls cost the others ----------

  ghost predicate Inserted<V(!new)>(m: map<string, V>, k: string, stamp: Stamp<V>, m': map<string, V>) {
    k in m' && exists e: map<string, V> :: Evicted(m, Prefix(k), stamp, e) && m' == e[k := m'[k]]
  }

  /** Any call on key `k`, on either map: its entry rewritten, removed, or inserted after an eviction. */
  ghost predicate Moved<V(!new)>(m: map<string, V>, k: string, stamp: Stamp<V>, m': map<string, V>) {
    || (k in m && k in m' && m' == m[k := m'[k]])
    || m' == m - {k}
    || (k !in m && Inserted(m, k, stamp, m'))
  }

  lemma StepMoves(dest: Dest, m: Breakers, c: Call, now: nat, m': Breakers, answer: bool)
    requires Step(dest, m, c, now, m', answer)
    ensures Moved(m, KeyOf(dest, c), Touched, m')
  {
    var k := KeyOf(dest, c);
    match c {
      case IsOpen(_, _) =>
        if k in m { assert m' == m[k := m'[k]]; } else { assert m' == m - {k}; }
      case Success(_, _) =>
      case Failure(_, _) =>
        if k !in m {
          var e: Breakers :| Evicted(m, Prefix(k), Touched, e) && m' == e[k := Bump(None, now)];
          assert m' == e[k := m'[k]];
        }
    }
  }

  lemma RegStepMoves(m: map<string, nat>, key: string, ok: bool, now: nat, m': map<string, nat>)
    requires RegStep(m, key, ok, now, m')
    ensures Moved<nat>(m, key, AtInstant, m')
  {
    if !ok && key !in m {
      var e: map<string, nat> :| Evicted<nat>(m, Prefix(key), AtInstant, e) && m' == e[key := now];
      assert m' == e[key := m'[key]];
    }
  }

  /** The entries of every other tenant. */
  function Rest<V>(m: map<string, V>, prefix: string): map<string, V> {
    map k | k in m && !(prefix <= k) :: m[k]
  }

  lemma RestSize<V>(m: map<string, V>, prefix: string)
    ensures |Rest(m, prefix)| <= |m|
    ensures Side(m, prefix, true) != {} ==> |Rest(m, prefix)| < |m|
    ensures Side(m, prefix, true) == {} ==> Rest(m, prefix) == m
  {
    var r := Rest(m, prefix).Keys;
    assert r <= m.Keys && |r| == |Rest(m, prefix)| && |m.Keys| == |m|;
    SubsetSize(r, m.Keys);
    if Side(m, prefix, true) != {} {
      var k :| k in Side(m, prefix, true);
      SubsetSize(r, m.Keys - {k});
    } else {
      forall k | k in m
        ensures !(prefix <= k)
      {
        assert k !in Side(m, prefix, true);
      }
    }
  }

  /** What one call does to the other tenants' entries: nothing, or it drops the oldest of a map they fill. */
  ghost predicate Cost<V(!new)>(m: map<string, V>, prefix: string, stamp: Stamp<V>, m': map<string, V>) {
    || Rest(m', prefix) == Rest(m, prefix)
    || (|Rest(m, prefix)| == MAX_TRACKED
        && exists v :: Oldest(m, m.Keys, stamp, v) && Rest(m', prefix) == Rest(m, prefix) - {v} && v in Rest(m, prefix))
  }

  lemma RestKeeps<V>(m: map<string, V>, k: string, v: V, prefix: string)
    requires prefix <= k
    ensures Rest(m[k := v], prefix) == Rest(m, prefix) && Rest(m - {k}, prefix) == Rest(m, prefix)
  {
  }

  lemma CallCost<V(!new)>(m: map<string, V>, k: string, stamp: Stamp<V>, m': map<string, V>)
    requires |m| <= MAX_TRACKED && Moved(m, k, stamp, m') && Prefix(k) <= k
    ensures |m'| <= MAX_TRACKED && Cost(m, Prefix(k), stamp, m')
  {
    if m' == m - {k} {
      RemovalCost(m, k, Prefix(k));
    } else if k in m {
      RestKeeps(m, k, m'[k], Prefix(k));
    } else {
      InsertionCost(m, k, stamp, m');
    }
  }

  lemma RemovalCost<V>(m: map<string, V>, k: string, prefix: string)
    requires prefix <= k
    ensures |m - {k}| <= |m| && Rest(m - {k}, prefix) == Rest(m, prefix)
  {
    if k in m {
    } else {
      assert m - {k} == m;
    }
  }

  lemma InsertionCost<V(!new)>(m: map<string, V>, k: string, stamp: Stamp<V>, m': map<string, V>)
    requires |m| <= MAX_TRACKED && Inserted(m, k, stamp, m') && Prefix(k) <= k
    ensures |m'| <= MAX_TRACKED && Cost(m, Prefix(k), stamp, m')
  {
    var prefix := Prefix(k);
    var e: map<string, V> :| Evicted(m, prefix, stamp, e) && m' == e[k := m'[k]];
    RestKeeps(e, k, m'[k], prefix);
    if |m| >= MAX_TRACKED { EvictionCost(m, prefix, stamp, e); }
  }

  lemma EvictionCost<V(!new)>(m: map<string, V>, prefix: string, stamp: Stamp<V>, e: map<string, V>)
    requires |m| == MAX_TRACKED && Evicted(m, prefix, stamp, e)
    ensures |e| == MAX_TRACKED - 1 && Cost(m, prefix, stamp, e)
  {
    var v :| Victim(m, prefix, stamp, v) && e == m - {v};
    RestSize(m, prefix);
    if Side(m, prefix, true) != {} {
      assert Rest(e, prefix) == Rest(m, prefix);
    } else {
      assert Side(m, prefix, false) == m.Keys;
      assert Rest(e, prefix) == Rest(m, prefix) - {v};
    }
  }

  /** A run of calls on keys of one prefix. */
  ghost predicate MovedAt<V(!new)>(ms: seq<map<string, V>>, ks: seq<string>, prefix: string, stamp: Stamp<V>, i: nat)
    requires |ms| == |ks| + 1 && i < |ks|
  {
    Prefix(ks[i]) == prefix && prefix <= ks[i] && Moved(ms[i], ks[i], stamp, ms[i + 1])
  }

  ghost predicate OneTenant<V(!new)>(ms: seq<map<string, V>>, ks: seq<string>, prefix: string, stamp: Stamp<V>) {
    |ms| == |ks| + 1 && forall i: nat :: i < |ks| ==> MovedAt(ms, ks, prefix, stamp, i)
  }

  lemma OneTenantPrefix<V(!new)>(ms: seq<map<string, V>>, ks: seq<string>, prefix: string, stamp: Stamp<V>, n: nat)
    requires OneTenant(ms, ks, prefix, stamp) && n <= |ks|
    ensures OneTenant(ms[..n + 1], ks[..n], prefix, stamp)
  {
    var ms', ks' := ms[..n + 1], ks[..n];
    forall i: nat | i < n
      ensures MovedAt(ms', ks', prefix, stamp, i)
    {
      assert MovedAt(ms, ks, prefix, stamp, i);
    }
  }

  /** The map stays at or below its ceiling, and a whole run of one tenant's calls costs the other
      tenants one entry at most: none unless they filled the map alone. */
  lemma {:induction false} OneTenantCost<V(!new)>(ms: seq<map<string, V>>, ks: seq<string>, prefix: string, stamp: Stamp<V>)
    requires OneTenant(ms, ks, prefix, stamp) && |ms[0]| <= 4096
    ensures |ms[|ks|]| <= 4096
    ensures Rest(ms[|ks|], prefix) == Rest(ms[0], prefix)
         || (|Rest(ms[0], prefix)| == 4096
             && exists v :: v in Rest(ms[0], prefix) && Rest(ms[|ks|], prefix) == Rest(ms[0], prefix) - {v})
  {
    if ks != [] {
      var n := |ks| - 1;
      OneTenantPrefix(ms, ks, prefix, stamp, n);
      OneTenantCost(ms[..n + 1], ks[..n], prefix, stamp);
      assert MovedAt(ms, ks, prefix, stamp, n);
      CallCost(ms[n], ks[n], stamp, ms[n + 1]);
      var first, r := Rest(ms[0], prefix), Rest(ms[n], prefix);
      if r != first {
        var v :| v in first && r == first - {v};
      }
    }
  }

  /** A tenant that already holds an entry costs the others nothing. */
  lemma HolderCostsNothing<V(!new)>(ms: seq<map<string, V>>, ks: seq<string>, prefix: string, stamp: Stamp<V>)
    requires OneTenant(ms, ks, prefix, stamp) && |ms[0]| <= 4096 && Side(ms[0], prefix, true) != {}
    ensures Rest(ms[|ks|], prefix) == Rest(ms[0], prefix)
  {
    OneTenantCost(ms, ks, prefix, stamp);
    RestSize(ms[0], prefix);
  }

  /** Of the entries of tenants other than `t`, none but `v` has changed. */
  ghost predicate OthersKept<V(!new)>(m: map<string, V>, m': map<string, V>, t: string, v: string) {
    forall u, rest :: IsTenant(u) && u != t && Key(u, rest) != v ==> At(m', Key(u, rest)) == At(m, Key(u, rest))
  }

  ghost predicate AllOthersKept<V(!new)>(m: map<string, V>, m': map<string, V>, t: string) {
    forall u, rest :: IsTenant(u) && u != t ==> At(m', Key(u, rest)) == At(m, Key(u, rest))
  }

  ghost predicate HoldsAny<V>(m: map<string, V>, t: string) {
    exists rest :: Key(t, rest) in m
  }

  ghost predicate KeyMoved<V(!new)>(ms: seq<map<string, V>>, rests: seq<string>, t: string, stamp: Stamp<V>, i: nat)
    requires |ms| == |rests| + 1 && i < |rests|
  {
    Moved(ms[i], Key(t, rests[i]), stamp, ms[i + 1])
  }

  lemma RestAt<V>(m: map<string, V>, t: string, u: string, rest: string)
    requires IsTenant(t) && IsTenant(u) && u != t
    ensures At(Rest(m, t + [SEP]), Key(u, rest)) == At(m, Key(u, rest))
  {
    PrefixIsTenant(t, rest, u, rest);
  }

  /** The cost of a run over one tenant's keys, tenant by tenant. */
  lemma KeysCost<V(!new)>(ms: seq<map<string, V>>, rests: seq<string>, t: string, stamp: Stamp<V>)
    requires |ms| == |rests| + 1 && |ms[0]| <= 4096 && IsTenant(t)
    requires forall i: nat :: i < |rests| ==> KeyMoved(ms, rests, t, stamp, i)
    ensures |ms[|rests|]| <= 4096 && exists v :: OthersKept(ms[0], ms[|rests|], t, v)
    ensures HoldsAny(ms[0], t) ==> AllOthersKept(ms[0], ms[|rests|], t)
  {
    var prefix, n := t + [SEP], |rests|;
    var ks := seq(n, i requires 0 <= i < n => Key(t, rests[i]));
    forall i: nat | i < n
      ensures MovedAt(ms, ks, prefix, stamp, i)
    {
      assert KeyMoved(ms, rests, t, stamp, i);
      PrefixIsTenant(t, rests[i], t, rests[i]);
    }
    OneTenantCost(ms, ks, prefix, stamp);
    var a, b := Rest(ms[0], prefix), Rest(ms[n], prefix);
    var v: string := if b == a then "" else var v :| v in a && b == a - {v}; v;
    forall u, rest | IsTenant(u) && u != t
      ensures Key(u, rest) != v || b == a ==> At(ms[n], Key(u, rest)) == At(ms[0], Key(u, rest))
    {
      RestAt(ms[0], t, u, rest);
      RestAt(ms[n], t, u, rest);
    }
    assert OthersKept(ms[0], ms[n], t, v);
    if rest :| Key(t, rest) in ms[0] {
      PrefixIsTenant(t, rest, t, rest);
      assert Key(t, rest) in Side(ms[0], prefix, true);
      HolderCostsNothing(ms, ks, prefix, stamp);
    }
  }

  // ---------- runs of the cooldowns ----------

  /** A forward of a registration that ended. */
  datatype Forward = Forward(tenant: string, reg: string, ok: bool, now: nat)

  ghost predicate ForwardAt(ms: seq<map<string, nat>>, fs: seq<Forward>, i: nat)
    requires |ms| == |fs| + 1 && i < |fs|
  {
    RegStep(ms[i], Key(fs[i].tenant, fs[i].reg), fs[i].ok, fs[i].now, ms[i + 1])
  }

  ghost predicate IsRegRun(ms: seq<map<string, nat>>, fs: seq<Forward>) {
    |ms| == |fs| + 1 && forall i: nat :: i < |fs| ==> ForwardAt(ms, fs, i)
  }

  /** A run of one tenant's forwards leaves every other tenant's cooldowns alone, but for one at most. */
  lemma RegTenantCost(ms: seq<map<string, nat>>, fs: seq<Forward>, t: string)
    requires IsRegRun(ms, fs) && |ms[0]| <= 4096 && IsTenant(t)
    requires forall i :: 0 <= i < |fs| ==> fs[i].tenant == t
    ensures |ms[|fs|]| <= 4096 && exists v :: OthersKept(ms[0], ms[|fs|], t, v)
    ensures HoldsAny(ms[0], t) ==> AllOthersKept(ms[0], ms[|fs|], t)
  {
    var rests := seq(|fs|, i requires 0 <= i < |fs| => fs[i].reg);
    forall i: nat | i < |fs|
      ensures KeyMoved<nat>(ms, rests, t, AtInstant, i)
    {
      assert ForwardAt(ms, fs, i);
      RegStepMoves(ms[i], Key(t, fs[i].reg), fs[i].ok, fs[i].now, ms[i + 1]);
    }
    KeysCost<nat>(ms, rests, t, AtInstant);
  }

  predicate IsLast(fs: seq<Forward>, k: string, i: nat) {
    && i < |fs| && Key(fs[i].tenant, fs[i].reg) == k
    && forall j :: i < j < |fs| ==> Key(fs[j].tenant, fs[j].reg) != k
  }

  /** The last forward under `k` failed, at `t`. */
  ghost predicate LastFailedAt(fs: seq<Forward>, k: string, t: nat) {
    exists i: nat :: IsLast(fs, k, i) && !fs[i].ok && fs[i].now == t
  }

  lemma LastFailedNext(fs: seq<Forward>, f: Forward, k: string, t: nat)
    ensures LastFailedAt(fs + [f], k, t) <==> if Key(f.tenant, f.reg) == k then !f.ok && f.now == t else LastFailedAt(fs, k, t)
  {
    var fs' := fs + [f];
    if Key(f.tenant, f.reg) == k {
      assert IsLast(fs', k, |fs|);
    } else {
      forall i: nat
        ensures IsLast(fs', k, i) <==> IsLast(fs, k, i)
      {
        assert IsLast(fs', k, i) ==> i != |fs|;
        assert IsLast(fs', k, i) ==> forall j :: i < j < |fs| ==> fs'[j] == fs[j];
      }
    }
  }

  /** No eviction drops the entry of `k`. */
  ghost predicate RegKept(ms: seq<map<string, nat>>, fs: seq<Forward>, k: string)
    requires |ms| == |fs| + 1
  {
    forall i: nat :: i < |fs| ==> RegKeptAt(ms, fs, k, i)
  }

  ghost predicate RegKeptAt(ms: seq<map<string, nat>>, fs: seq<Forward>, k: string, i: nat)
    requires |ms| == |fs| + 1 && i < |fs|
  {
    k in ms[i] && Key(fs[i].tenant, fs[i].reg) != k ==> k in ms[i + 1]
  }

  ghost predicate OnlyFailed(m: map<string, nat>, fs: seq<Forward>, k: string) {
    forall t: nat :: At(m, k) == Some(t) ==> LastFailedAt(fs, k, t)
  }

  ghost predicate IfFailed(m: map<string, nat>, fs: seq<Forward>, k: string) {
    forall t: nat :: LastFailedAt(fs, k, t) ==> At(m, k) == Some(t)
  }

  /** One step: an entry is the stamp of the last forward, which failed. */
  lemma StampNext(fs: seq<Forward>, k: string, m: map<string, nat>, f: Forward, m': map<string, nat>)
    requires OnlyFailed(m, fs, k) && RegStep(m, Key(f.tenant, f.reg), f.ok, f.now, m')
    ensures OnlyFailed(m', fs + [f], k)
    ensures IfFailed(m, fs, k) && (k in m && Key(f.tenant, f.reg) != k ==> k in m') ==> IfFailed(m', fs + [f], k)
  {
    forall t: nat
      ensures LastFailedAt(fs + [f], k, t) <==> if Key(f.tenant, f.reg) == k then !f.ok && f.now == t else LastFailedAt(fs, k, t)
    {
      LastFailedNext(fs, f, k, t);
    }
  }

  lemma {:induction false} StampIsLast(ms: seq<map<string, nat>>, fs: seq<Forward>, k: string)
    requires IsRegRun(ms, fs) && k !in ms[0]
    ensures OnlyFailed(ms[|fs|], fs, k) && (RegKept(ms, fs, k) ==> IfFailed(ms[|fs|], fs, k))
  {
    if fs != [] {
      var n := |fs| - 1;
      var ms', fs' := ms[..n + 1], fs[..n];
      forall i: nat | i < n
        ensures ForwardAt(ms', fs', i) && (RegKept(ms, fs, k) ==> RegKeptAt(ms', fs', k, i))
      {
        assert ForwardAt(ms, fs, i) && (RegKept(ms, fs, k) ==> RegKeptAt(ms, fs, k, i));
      }
      StampIsLast(ms', fs', k);
      assert ForwardAt(ms, fs, n) && (RegKept(ms, fs, k) ==> RegKeptAt(ms, fs, k, n));
      StampNext(fs', k, ms[n], fs[n], ms[n + 1]);
      assert fs == fs' + [fs[n]];
    }
  }

  /** A registration in cooldown has last failed, less than its window ago; and one that has, and whose entry no
      eviction dropped, is in cooldown. */
  lemma CooldownExactlyWhen(ms: seq<map<string, nat>>, fs: seq<Forward>, k: string, cooldown: nat, now: nat)
    requires IsRegRun(ms, fs) && k !in ms[0]
    ensures InCooldown(ms[|fs|], k, cooldown, now) ==> exists t: nat :: LastFailedAt(fs, k, t) && now < t + cooldown
    ensures RegKept(ms, fs, k) ==>
              (InCooldown(ms[|fs|], k, cooldown, now) <==> exists t: nat :: LastFailedAt(fs, k, t) && now < t + cooldown)
  {
    StampIsLast(ms, fs, k);
    var m := ms[|fs|];
    if k in m { assert At(m, k) == Some(m[k]); }
  }

  // ---------- runs of the breakers ----------

  datatype Event = Event(call: Call, now: nat, answer: bool)

  ghost predicate StepAt(dest: Dest, ms: seq<Breakers>, es: seq<Event>, i: nat)
    requires |ms| == |es| + 1 && i < |es|
  {
    Step(dest, ms[i], es[i].call, es[i].now, ms[i + 1], es[i].answer)
  }

  ghost predicate IsRun(dest: Dest, ms: seq<Breakers>, es: seq<Event>) {
    |ms| == |es| + 1 && forall i: nat :: i < |es| ==> StepAt(dest, ms, es, i)
  }

  lemma RunPrefix(dest: Dest, ms: seq<Breakers>, es: seq<Event>, n: nat)
    requires IsRun(dest, ms, es) && n <= |es|
    ensures IsRun(dest, ms[..n + 1], es[..n])
  {
    var ms', es' := ms[..n + 1], es[..n];
    forall i: nat | i < n
      ensures StepAt(dest, ms', es', i)
    {
      assert StepAt(dest, ms, es, i);
    }
  }

  /** For tenants: a run of one tenant's calls leaves every other tenant's breakers alone, but for one at most. */
  lemma TenantCost(dest: Dest, ms: seq<Breakers>, es: seq<Event>, t: string)
    requires IsRun(dest, ms, es) && |ms[0]| <= 4096 && IsTenant(t)
    requires forall i :: 0 <= i < |es| ==> es[i].call.tenant == t
    ensures |ms[|es|]| <= 4096 && exists v :: OthersKept(ms[0], ms[|es|], t, v)
    ensures HoldsAny(ms[0], t) ==> AllOthersKept(ms[0], ms[|es|], t)
  {
    var rests := seq(|es|, i requires 0 <= i < |es| => dest(es[i].call.url));
    forall i: nat | i < |es|
      ensures KeyMoved(ms, rests, t, Touched, i)
    {
      assert StepAt(dest, ms, es, i);
      StepMoves(dest, ms[i], es[i].call, es[i].now, ms[i + 1], es[i].answer);
    }
    KeysCost(ms, rests, t, Touched);
  }

  // ---------- isolation below the ceiling ----------

  /** The call needs no eviction. */
  ghost predicate Roomy(dest: Dest, m: Breakers, c: Call) {
    c.Failure? && KeyOf(dest, c) !in m ==> |m| < 4096
  }

  /** What a tenant holds. */
  function Own(m: Breakers, t: string): Breakers {
    map k | k in m && t + [SEP] <= k :: m[k]
  }

  lemma OwnSize(m: Breakers, t: string)
    ensures |Own(m, t)| <= |m|
  {
    SubsetSize(Own(m, t).Keys, m.Keys);
    assert |Own(m, t).Keys| == |Own(m, t)| && |m.Keys| == |m|;
  }

  lemma OwnKeeps(m: Breakers, t: string, k: string, b: Breaker)
    requires t + [SEP] <= k
    ensures Own(m[k := b], t) == Own(m, t)[k := b] && Own(m - {k}, t) == Own(m, t) - {k}
    ensures At(Own(m, t), k) == At(m, k)
  {
  }

  /** A tenant's own call sees and changes its own entries only. */
  lemma OwnStep(dest: Dest, m: Breakers, c: Call, now: nat, m': Breakers, answer: bool)
    requires Step(dest, m, c, now, m', answer) && Roomy(dest, m, c) && IsTenant(c.tenant)
    ensures Step(dest, Own(m, c.tenant), c, now, Own(m', c.tenant), answer)
  {
    var t, k := c.tenant, KeyOf(dest, c);
    PrefixIsTenant(t, dest(c.url), t, dest(c.url));
    OwnSize(m, t);
    var own := Own(m, t);
    OwnKeeps(m, t, k, Bump(At(m, k), now));
    if k in m { OwnKeeps(m, t, k, m[k].(trippedAt := Some(now))); }
    if c.Failure? && k !in m { assert Evicted(own, Prefix(k), Touched, own); }
  }

  /** Another tenant's call leaves them as they are. */
  lemma OtherStep(dest: Dest, m: Breakers, c: Call, now: nat, m': Breakers, answer: bool, t: string)
    requires Step(dest, m, c, now, m', answer) && Roomy(dest, m, c) && IsTenant(c.tenant) && IsTenant(t) && c.tenant != t
    ensures Own(m', t) == Own(m, t)
  {
    PrefixIsTenant(t, dest(c.url), c.tenant, dest(c.url));
  }

  /** The calls of one tenant, in order. */
  function Only(es: seq<Event>, t: string): seq<Event> {
    if es == [] then []
    else
      var p := Only(es[..|es| - 1], t);
      if es[|es| - 1].call.tenant == t then p + [es[|es| - 1]] else p
  }

  ghost predicate RoomyAt(dest: Dest, ms: seq<Breakers>, es: seq<Event>, i: nat)
    requires |ms| == |es| + 1 && i < |es|
  {
    Roomy(dest, ms[i], es[i].call) && IsTenant(es[i].call.tenant)
  }

  ghost predicate NeverFull(dest: Dest, ms: seq<Breakers>, es: seq<Event>)
    requires |ms| == |es| + 1
  {
    forall i: nat :: i < |es| ==> RoomyAt(dest, ms, es, i)
  }

  lemma NeverFullPrefix(dest: Dest, ms: seq<Breakers>, es: seq<Event>, n: nat)
    requires |ms| == |es| + 1 && NeverFull(dest, ms, es) && n <= |es|
    ensures NeverFull(dest, ms[..n + 1], es[..n])
  {
    var ms', es' := ms[..n + 1], es[..n];
    forall i: nat | i < n
      ensures RoomyAt(dest, ms', es', i)
    {
      assert RoomyAt(dest, ms, es, i);
    }
  }

  lemma RunAppend(dest: Dest, ms: seq<Breakers>, es: seq<Event>, m: Breakers, e: Event)
    requires IsRun(dest, ms, es) && Step(dest, ms[|es|], e.call, e.now, m, e.answer)
    ensures IsRun(dest, ms + [m], es + [e])
  {
    var ms', es' := ms + [m], es + [e];
    forall i: nat | i < |es'|
      ensures StepAt(dest, ms', es', i)
    {
      if i < |es| { assert StepAt(dest, ms, es, i); }
    }
  }

  /** While no eviction is needed, a tenant's calls alone, on its own entries, are a run with the same answers. */
  lemma {:induction false} ProjectedRun(dest: Dest, ms: seq<Breakers>, es: seq<Event>, t: string) returns (ps: seq<Breakers>)
    requires IsRun(dest, ms, es) && NeverFull(dest, ms, es) && IsTenant(t)
    ensures IsRun(dest, ps, Only(es, t))
    ensures ps[0] == Own(ms[0], t) && ps[|Only(es, t)|] == Own(ms[|es|], t)
  {
    if es == [] {
      ps := [Own(ms[0], t)];
    } else {
      var n := |es| - 1;
      RunPrefix(dest, ms, es, n);
      NeverFullPrefix(dest, ms, es, n);
      ps := ProjectedRun(dest, ms[..n + 1], es[..n], t);
      assert StepAt(dest, ms, es, n) && RoomyAt(dest, ms, es, n);
      if es[n].call.tenant == t {
        OwnStep(dest, ms[n], es[n].call, es[n].now, ms[n + 1], es[n].answer);
        RunAppend(dest, ps, Only(es[..n], t), Own(ms[n + 1], t), es[n]);
        ps := ps + [Own(ms[n + 1], t)];
      } else {
        OtherStep(dest, ms[n], es[n].call, es[n].now, ms[n + 1], es[n].answer, t);
      }
    }
  }

  predicate SameCalls(es: seq<Event>, fs: seq<Event>) {
    |es| == |fs| && forall i :: 0 <= i < |es| ==> es[i].call == fs[i].call && es[i].now == fs[i].now
  }

  /** Without evictions the answers are determined: two runs of the same calls from the same map agree. */
  lemma {:induction false} Determined(dest: Dest, ms: seq<Breakers>, es: seq<Event>, ps: seq<Breakers>, fs: seq<Event>)
    requires IsRun(dest, ms, es) && NeverFull(dest, ms, es) && IsRun(dest, ps, fs)
    requires SameCalls(es, fs) && ms[0] == ps[0]
    ensures es == fs && ms[|es|] == ps[|fs|]
  {
    if es != [] {
      var n := |es| - 1;
      RunPrefix(dest, ms, es, n);
      NeverFullPrefix(dest, ms, es, n);
      RunPrefix(dest, ps, fs, n);
      Determined(dest, ms[..n + 1], es[..n], ps[..n + 1], fs[..n]);
      assert StepAt(dest, ms, es, n) && RoomyAt(dest, ms, es, n) && StepAt(dest, ps, fs, n);
      assert es[n] == fs[n];
      assert es == es[..n] + [es[n]] && fs == fs[..n] + [fs[n]];
    }
  }

  /** What other tenants do makes no difference to a tenant's answers until the ceiling is reached:
      its calls on its own entries, run by themselves, are answered as they were. */
  lemma Isolated(dest: Dest, ms: seq<Breakers>, es: seq<Event>, t: string, ps: seq<Breakers>, fs: seq<Event>)
    requires IsRun(dest, ms, es) && NeverFull(dest, ms, es) && IsTenant(t)
    requires IsRun(dest, ps, fs) && NeverFull(dest, ps, fs) && ps[0] == Own(ms[0], t) && SameCalls(Only(es, t), fs)
    ensures fs == Only(es, t) && ps[|fs|] == Own(ms[|es|], t)
  {
    var qs := ProjectedRun(dest, ms, es, t);
    Determined(dest, ps, fs, qs, Only(es, t));
  }

  // ---------- one destination over time ----------

  /** An `is_open` that lets a probe of a tripped destination through. */
  predicate Probe(dest: Dest, m: Breakers, e: Event, k: string) {
    e.call.IsOpen? && KeyOf(dest, e.call) == k && k in m && m[k].trippedAt.Some? && !e.answer
  }

  ghost predicate HeldSince(ms: seq<Breakers>, k: string, from: nat, to: nat) {
    forall n: nat :: from < n <= to && n < |ms| ==> k in ms[n]
  }

  ghost predicate ClockRuns(es: seq<Event>) {
    forall i, j :: 0 <= i <= j < |es| ==> es[i].now <= es[j].now
  }

  predicate TrippedBy(m: Breakers, k: string, since: nat) {
    k in m && m[k].trippedAt.Some? && m[k].trippedAt.value >= since
  }

  lemma {:induction false} TrippedUntil(dest: Dest, ms: seq<Breakers>, es: seq<Event>, k: string, i: nat, n: nat)
    requires IsRun(dest, ms, es) && ClockRuns(es) && i < n <= |es|
    requires Probe(dest, ms[i], es[i], k) && HeldSince(ms, k, i, n)
    ensures TrippedBy(ms[n], k, es[i].now)
    decreases n
  {
    if n == i + 1 {
      assert StepAt(dest, ms, es, i);
    } else {
      TrippedUntil(dest, ms, es, k, i, n - 1);
      assert StepAt(dest, ms, es, n - 1);
    }
  }

  /** Two probes let through with no success and no eviction in between are a cooldown apart. */
  lemma ProbesApart(dest: Dest, ms: seq<Breakers>, es: seq<Event>, k: string, i: nat, j: nat)
    requires IsRun(dest, ms, es) && ClockRuns(es) && i < j < |es|
    requires Probe(dest, ms[i], es[i], k) && Probe(dest, ms[j], es[j], k) && HeldSince(ms, k, i, j)
    ensures es[j].now >= es[i].now + 30_000
  {
    TrippedUntil(dest, ms, es, k, i, j);
    assert StepAt(dest, ms, es, j);
  }

  /** Failures of a destination since its last success. */
  function Fails(dest: Dest, es: seq<Event>, k: string): nat {
    if es == [] then 0
    else
      var p, last := Fails(dest, es[..|es| - 1], k), es[|es| - 1].call;
      if KeyOf(dest, last) != k || last.IsOpen? then p
      else if last.Failure? then p + 1
      else 0
  }

  /** When the destination last failed or was last probed after that. */
  function LastTrial(dest: Dest, es: seq<Event>, k: string): nat {
    if es == [] then 0
    else
      var p, last := LastTrial(dest, es[..|es| - 1], k), es[|es| - 1];
      if KeyOf(dest, last.call) != k then p
      else if last.call.Failure? || (last.call.IsOpen? && !last.answer) then last.now
      else p
  }

  ghost predicate KeptAt(dest: Dest, ms: seq<Breakers>, es: seq<Event>, k: string, i: nat)
    requires |ms| == |es| + 1 && i < |es|
  {
    k in ms[i] && KeyOf(dest, es[i].call) != k ==> k in ms[i + 1]
  }

  /** No eviction drops the entry of `k`. */
  ghost predicate Kept(dest: Dest, ms: seq<Breakers>, es: seq<Event>, k: string)
    requires |ms| == |es| + 1
  {
    forall i: nat :: i < |es| ==> KeptAt(dest, ms, es, k, i)
  }

  /** An entry says what its destination's history is. */
  ghost predicate Recalls(dest: Dest, es: seq<Event>, k: string, m: Breakers) {
    var n := Fails(dest, es, k);
    && (k in m <==> n > 0)
    && (k in m ==>
          && m[k].failures == n
          && m[k].trippedAt == if n >= TRIP_AFTER then Some(LastTrial(dest, es, k)) else None)
  }

  lemma RecallsNext(dest: Dest, es: seq<Event>, k: string, m: Breakers, e: Event, m': Breakers)
    requires Recalls(dest, es, k, m) && Step(dest, m, e.call, e.now, m', e.answer)
    requires k in m && KeyOf(dest, e.call) != k ==> k in m'
    ensures Recalls(dest, es + [e], k, m')
  {
    assert (es + [e])[..|es|] == es;
    if KeyOf(dest, e.call) != k {
      assert k in m' <==> k in m;
      assert k in m ==> m'[k] == m[k];
    }
  }

  lemma {:induction false} HistoryRecalled(dest: Dest, ms: seq<Breakers>, es: seq<Event>, k: string)
    requires IsRun(dest, ms, es) && k !in ms[0] && Kept(dest, ms, es, k)
    ensures Recalls(dest, es, k, ms[|es|])
  {
    if es != [] {
      var n := |es| - 1;
      RunPrefix(dest, ms, es, n);
      var ms', es' := ms[..n + 1], es[..n];
      forall i: nat | i < n
        ensures KeptAt(dest, ms', es', k, i)
      {
        assert KeptAt(dest, ms, es, k, i);
      }
      HistoryRecalled(dest, ms', es', k);
      assert StepAt(dest, ms, es, n) && KeptAt(dest, ms, es, k, n);
      RecallsNext(dest, es[..n], k, ms[n], es[n], ms[n + 1]);
      assert es == es[..n] + [es[n]];
    }
  }

  /** A destination is held open exactly when it failed five times since its last success and its last
      failure or probe is less than a cooldown ago. */
  lemma {:induction false} OpenExactlyWhen(dest: Dest, ms: seq<Breakers>, es: seq<Event>, e: Event, m: Breakers)
    requires IsRun(dest, ms, es) && KeyOf(dest, e.call) !in ms[0] && Kept(dest, ms, es, KeyOf(dest, e.call))
    requires e.call.IsOpen? && Step(dest, ms[|es|], e.call, e.now, m, e.answer)
    ensures var k := KeyOf(dest, e.call);
            e.answer <==> Fails(dest, es, k) >= 5 && e.now < LastTrial(dest, es, k) + 30_000
  {
    HistoryRecalled(dest, ms, es, KeyOf(dest, e.call));
  }
}
