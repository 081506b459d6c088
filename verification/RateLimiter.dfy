/** The sliding-window rate limiter: a map from client key to the timestamps that client was
    admitted at, with lazy expiry, pruning above a high-water mark and eviction at a hard cap. */
module RateLimiter {

  const WINDOW: real := 60.0
  const EXEMPT_PATHS: set<string> := {"/healthz", "/api/health", "/livez", "/readyz", "/metrics"}
  const TENANT_PREFIX := "tenant:"

  datatype Config = Config(perMin: int, perMinAuth: int, highWater: int, hardCap: int)

  /** `Fault` is the IndexError raised when a limit below 1 meets an empty bucket. */
  datatype Verdict = Pass | TooMany(retryAfter: int) | Fault

  type Buckets = map<string, seq<real>>

  function LimitOf(cfg: Config, key: string): int {
    if TENANT_PREFIX <= key then cfg.perMinAuth else cfg.perMin
  }

  function BucketOf(m: Buckets, key: string): seq<real> {
    if key in m then m[key] else []
  }

  /** Drops the leading timestamps older than the cutoff, and only those. */
  function Expire(b: seq<real>, cutoff: real): seq<real> {
    if b != [] && b[0] < cutoff then Expire(b[1..], cutoff) else b
  }

  predicate Stale(b: seq<real>, cutoff: real) {
    b == [] || b[|b| - 1] < cutoff
  }

  /** The buckets that survive the high-water pruning of a request made at `now`. */
  function Live(cfg: Config, m: Buckets, now: real): Buckets {
    if |m| > cfg.highWater then map k | k in m && !Stale(m[k], now - WINDOW) :: m[k] else m
  }

  function Activity(b: seq<real>): real {
    if b == [] then 0.0 else b[|b| - 1]
  }

  predicate CapHit(cfg: Config, m: Buckets, key: string) {
    |m| >= cfg.hardCap && key !in m
  }

  /** How many buckets an eviction leaves: nine tenths of the cap, rounded down. */
  function Keep(hardCap: int): nat {
    if hardCap <= 0 then 0 else hardCap * 9 / 10
  }

  /** `n` is `m` without its least recently active keys, however ties fall. */
  ghost predicate Evicts(m: Buckets, n: Buckets, keep: nat) {
    && |n| == keep
    && n.Keys <= m.Keys
    && (forall k | k in n :: n[k] == m[k])
    && (forall v, s | v in m.Keys - n.Keys && s in n :: Activity(m[v]) <= Activity(m[s]))
  }

  /** The verdict on a request at `now` by a client whose unexpired timestamps are `b`. */
  function Judge(limit: int, b: seq<real>, now: real): Verdict {
    if |b| < limit then Pass
    else if b == [] then Fault
    else
      var wait := (WINDOW - (now - b[0])).Floor;
      TooMany(if wait < 1 then 1 else wait)
  }

  /** One limited request; `mid` is the map once pruning and eviction are over. */
  ghost predicate Next(cfg: Config, m: Buckets, key: string, now: real, mid: Buckets, v: Verdict, after: Buckets) {
    var live := Live(cfg, m, now);
    var b := Expire(BucketOf(mid, key), now - WINDOW);
    && (if CapHit(cfg, live, key) then Evicts(live, mid, Keep(cfg.hardCap)) else mid == live)
    && v == Judge(LimitOf(cfg, key), b, now)
    && after == mid[key := if v.Pass? then b + [now] else b]
  }

  predicate Limited(cfg: Config, path: string) {
    path !in EXEMPT_PATHS && cfg.perMin > 0
  }

  // ---------- the order of the map ----------

  /** What is left of the insertion order `o` when only `keys` stay in the map. */
  function Kept(o: seq<string>, keys: set<string>): seq<string> {
    if o == [] then [] else
      var n := |o| - 1;
      Kept(o[..n], keys) + if o[n] in keys then [o[n]] else []
  }

  predicate Precedes(o: seq<string>, a: string, b: string) {
    exists i, j | 0 <= i < j < |o| :: o[i] == a && o[j] == b
  }

  /** `v` is evicted before `s`: less recently active, or equally and inserted earlier. */
  predicate Yields(m: Buckets, o: seq<string>, v: string, s: string)
    requires v in m && s in m
  {
    Activity(m[v]) < Activity(m[s]) || (Activity(m[v]) == Activity(m[s]) && Precedes(o, v, s))
  }

  /** Every key that is gone had to yield to every key of `keys`. */
  ghost predicate LeastGone(m: Buckets, o: seq<string>, keys: set<string>) {
    forall v, s | v in m.Keys - keys && s in m.Keys && s in keys :: Yields(m, o, v, s)
  }

  function Drop(m: Buckets, key: string): Buckets { map k | k in m && k != key :: m[k] }

  lemma DropKeys(m: Buckets, key: string)
    ensures Drop(m, key).Keys == m.Keys - {key} && (key in m ==> |Drop(m, key)| == |m| - 1)
  {
    assert Drop(m, key).Keys == m.Keys - {key};
  }

  ghost predicate Lists(o: seq<string>, keys: set<string>) {
    (forall k :: k in o <==> k in keys) && forall i, j :: 0 <= i < j < |o| ==> o[i] != o[j]
  }

  /** The same request, seen in the order of the map: `o` before it, `p` after it. The keys an eviction
      takes are settled by activity and, between equals, by insertion order. */
  ghost predicate Ordered(cfg: Config, m: Buckets, o: seq<string>, key: string, now: real, mid: Buckets, p: seq<string>) {
    var live := Live(cfg, m, now);
    && LeastGone(live, Kept(o, live.Keys), mid.Keys)
    && p == Kept(o, mid.Keys) + if key in mid then [] else [key]
  }

  lemma {:induction false} KeptLists(o: seq<string>, keys: set<string>, all: set<string>)
    requires Lists(o, all)
    ensures Lists(Kept(o, keys), keys * all)
  {
    if o != [] {
      var n := |o| - 1;
      assert o == o[..n] + [o[n]];
      assert Lists(o[..n], all - {o[n]});
      KeptLists(o[..n], keys, all - {o[n]});
      var init := Kept(o[..n], keys);
      assert Kept(o, keys) == if o[n] in keys then init + [o[n]] else init;
      assert forall i :: 0 <= i < |init| ==> init[i] in init;
    }
  }

  lemma {:induction false} KeptTwice(o: seq<string>, keys: set<string>, fewer: set<string>)
    requires fewer <= keys
    ensures Kept(Kept(o, keys), fewer) == Kept(o, fewer)
  {
    if o != [] {
      var n := |o| - 1;
      var init := Kept(o[..n], keys);
      KeptTwice(o[..n], keys, fewer);
      assert Kept(o, keys) == if o[n] in keys then init + [o[n]] else init;
      assert (init + [o[n]])[..|init|] == init;
    }
  }

  lemma {:induction false} KeptAll(o: seq<string>, keys: set<string>)
    requires forall k :: k in o ==> k in keys
    ensures Kept(o, keys) == o
  {
    if o != [] {
      var n := |o| - 1;
      assert o == o[..n] + [o[n]];
      KeptAll(o[..n], keys);
    }
  }

  lemma {:induction false} KeptPrecedes(o: seq<string>, keys: set<string>, a: string, b: string)
    ensures forall k :: k in Kept(o, keys) ==> k in o
    ensures Precedes(Kept(o, keys), a, b) ==> Precedes(o, a, b)
  {
    if o != [] {
      var n := |o| - 1;
      var init := Kept(o[..n], keys);
      assert o == o[..n] + [o[n]];
      KeptPrecedes(o[..n], keys, a, b);
      if Precedes(Kept(o, keys), a, b) {
        var i, j :| 0 <= i < j < |Kept(o, keys)| && Kept(o, keys)[i] == a && Kept(o, keys)[j] == b;
        if j < |init| {
          assert Precedes(init, a, b);
          var k, l :| 0 <= k < l < n && o[..n][k] == a && o[..n][l] == b;
          assert o[k] == a && o[l] == b;
        } else {
          assert a in o[..n];
          var k :| 0 <= k < n && o[..n][k] == a;
          assert o[k] == a && o[n] == b;
        }
      }
    }
  }

  /** One more victim: if it yields to all that remain, the least are gone still. */
  lemma LeastGoneStep(m: Buckets, o: seq<string>, keys: set<string>, now: Buckets, victim: string)
    requires keys <= m.Keys && LeastGone(m, o, keys) && victim in keys && now.Keys == keys
    requires forall k | k in now :: now[k] == m[k]
    requires forall k | k in now && k != victim :: Yields(now, Kept(o, keys), victim, k)
    ensures LeastGone(m, o, keys - {victim})
  {
    forall v, s | v in m.Keys - (keys - {victim}) && s in m.Keys && s in keys - {victim} ensures Yields(m, o, v, s) {
      KeptPrecedes(o, keys, v, s);
    }
  }

  /** `n` with order `p` is what is left of `m` with order `o` when some keys have been popped. */
  ghost predicate Popped(m: Buckets, o: seq<string>, n: Buckets, p: seq<string>) {
    n.Keys <= m.Keys && (forall k | k in n :: n[k] == m[k]) && p == Kept(o, n.Keys)
  }

  lemma PopMore(m: Buckets, o: seq<string>, n: Buckets, p: seq<string>, key: string)
    requires Popped(m, o, n, p)
    ensures Popped(m, o, Drop(n, key), Kept(p, Drop(n, key).Keys))
  {
    DropKeys(n, key);
    KeptTwice(o, n.Keys, Drop(n, key).Keys);
  }

  /** Part of the way through an eviction from `m`, of order `o`. */
  ghost predicate Evicting(m: Buckets, o: seq<string>, n: Buckets, p: seq<string>) {
    Popped(m, o, n, p) && LeastGone(m, o, n.Keys)
  }

  lemma EvictMore(m: Buckets, o: seq<string>, n: Buckets, p: seq<string>, victim: string)
    requires Evicting(m, o, n, p) && victim in n
    requires forall k | k in n && k != victim :: Yields(n, p, victim, k)
    ensures Evicting(m, o, Drop(n, victim), Kept(p, Drop(n, victim).Keys))
  {
    DropKeys(n, victim);
    PopMore(m, o, n, p, victim);
    LeastGoneStep(m, o, n.Keys, n, victim);
  }

  /** Part of the way through pruning: `stale` are the keys yet to go. */
  ghost predicate Pruning(m: Buckets, n: Buckets, stale: set<string>, cutoff: real) {
    stale <= n.Keys <= m.Keys && forall k | k in m :: k in n.Keys - stale <==> !Stale(m[k], cutoff)
  }

  lemma PruneStart(m: Buckets, stale: set<string>, cutoff: real)
    requires stale == set k | k in m && Stale(m[k], cutoff)
    ensures Pruning(m, m, stale, cutoff)
  {}

  lemma PruneDone(m: Buckets, o: seq<string>, n: Buckets, p: seq<string>, cutoff: real)
    requires Popped(m, o, n, p) && Pruning(m, n, {}, cutoff)
    ensures n == map k | k in m && !Stale(m[k], cutoff) :: m[k]
  {
    assert n.Keys == n.Keys - {};
  }

  lemma PruneMore(m: Buckets, n: Buckets, stale: set<string>, cutoff: real, key: string)
    requires Pruning(m, n, stale, cutoff) && key in stale
    ensures Pruning(m, Drop(n, key), stale - {key}, cutoff)
  {
    DropKeys(n, key);
  }

  lemma EvictingDone(m: Buckets, o: seq<string>, n: Buckets, order: seq<string>)
    requires Evicting(m, o, n, order)
    ensures Evicts(m, n, |n|)
  {
    forall v, s | v in m.Keys - n.Keys && s in n ensures Activity(m[v]) <= Activity(m[s]) {
      assert Yields(m, o, v, s);
    }
  }

  /** `order` is the order in which the keys of `buckets` were inserted. */
  class Limiter {
    const cfg: Config
    var buckets: Buckets
    var order: seq<string>

    ghost predicate Valid()
      reads this
    {
      Lists(order, buckets.Keys)
    }

    constructor (cfg: Config)
      ensures this.cfg == cfg && buckets == map[] && Valid()
    {
      this.cfg := cfg;
      buckets, order := map[], [];
    }

    /** Removes a key from the map. */
    method Pop(key: string)
      requires Valid()
      modifies this
      ensures Valid() && buckets == Drop(old(buckets), key) && order == Kept(old(order), buckets.Keys)
    {
      DropKeys(buckets, key);
      KeptLists(order, Drop(buckets, key).Keys, buckets.Keys);
      assert Drop(buckets, key).Keys * buckets.Keys == Drop(buckets, key).Keys;
      buckets := map k | k in buckets && k != key :: buckets[k];
      order := Kept(order, buckets.Keys);
    }

    method PruneStale(cutoff: real)
      requires Valid()
      modifies this
      ensures Valid() && buckets == (map k | k in old(buckets) && !Stale(old(buckets)[k], cutoff) :: old(buckets)[k])
      ensures order == Kept(old(order), buckets.Keys)
    {
      var stale := set k | k in buckets && Stale(buckets[k], cutoff);
      KeptAll(order, buckets.Keys);
      PruneStart(buckets, stale, cutoff);
      while stale != {}
        invariant Valid() && Popped(old(buckets), old(order), buckets, order)
        invariant Pruning(old(buckets), buckets, stale, cutoff)
        decreases stale
      {
        var k :| k in stale;
        PopMore(old(buckets), old(order), buckets, order, k);
        PruneMore(old(buckets), buckets, stale, cutoff, k);
        stale := stale - {k};
        Pop(k);
      }
      PruneDone(old(buckets), old(order), buckets, order, cutoff);
    }

    /** The first key, in insertion order, that no other key is less recently active than. */
    method LeastActive() returns (least: string)
      requires Valid() && buckets != map[]
      ensures least in buckets
      ensures forall k | k in buckets && k != least :: Yields(buckets, order, least, k)
    {
      var k0 :| k0 in buckets;
      assert k0 in order;
      var at := 0;
      for i := 1 to |order|
        invariant 0 <= at < i
        invariant forall j | 0 <= j < |order| :: order[j] in buckets
        invariant forall j | 0 <= j < i && j != at :: Beats(at, j)
      {
        ghost var was := at;
        if Activity(buckets[order[i]]) < Activity(buckets[order[at]]) {
          at := i;
        }
        forall j | 0 <= j <= i && j != at ensures Beats(at, j) { assert j < i && j != was ==> Beats(was, j); }
      }
      least := order[at];
      forall k | k in buckets && k != least ensures Yields(buckets, order, least, k) {
        assert k in order;
        var j :| 0 <= j < |order| && order[j] == k;
        assert Beats(at, j);
      }
    }

    predicate Beats(a: nat, j: nat)
      reads this
      requires a < |order| && j < |order| && order[a] in buckets && order[j] in buckets
    {
      var x, y := Activity(buckets[order[a]]), Activity(buckets[order[j]]);
      x < y || (x == y && a < j)
    }

    method EvictLeastActive(count: nat)
      requires Valid() && count <= |buckets|
      modifies this
      ensures Valid() && Evicts(old(buckets), buckets, |old(buckets)| - count)
      ensures LeastGone(old(buckets), old(order), buckets.Keys) && order == Kept(old(order), buckets.Keys)
    {
      KeptAll(order, buckets.Keys);
      for i := 0 to count
        invariant Valid() && Evicting(old(buckets), old(order), buckets, order)
        invariant |buckets| == |old(buckets)| - i
      {
        var victim := LeastActive();
        EvictMore(old(buckets), old(order), buckets, order, victim);
        DropKeys(buckets, victim);
        Pop(victim);
      }
      EvictingDone(old(buckets), old(order), buckets, order);
    }

    /** From `setdefault` on: expire the client's bucket, judge it, record an admission. */
    method ServeBucket(key: string, now: real) returns (v: Verdict)
      requires Valid()
      modifies this
      ensures var b := Expire(BucketOf(old(buckets), key), now - WINDOW);
              && v == Judge(LimitOf(cfg, key), b, now)
              && buckets == old(buckets)[key := if v.Pass? then b + [now] else b]
      ensures Valid() && order == if key in old(buckets) then old(order) else old(order) + [key]
    {
      var cutoff := now - WINDOW;
      ghost var mid := buckets;
      if key !in buckets {
        order := order + [key];
      }
      var bucket := if key in buckets then buckets[key] else [];
      while bucket != [] && bucket[0] < cutoff
        invariant Expire(bucket, cutoff) == Expire(BucketOf(mid, key), cutoff)
        decreases |bucket|
      {
        bucket := bucket[1..];
      }
      buckets := buckets[key := bucket];
      var limit := if TENANT_PREFIX <= key then cfg.perMinAuth else cfg.perMin;
      if |bucket| >= limit {
        if bucket == [] {
          return Fault;
        }
        var wait := (WINDOW - (now - bucket[0])).Floor;
        return TooMany(if wait < 1 then 1 else wait);
      }
      buckets := buckets[key := bucket + [now]];
      v := Pass;
    }

    /** Prunes above the high-water mark. */
    method PruneIfLarge(now: real)
      requires Valid()
      modifies this
      ensures Valid() && buckets == Live(cfg, old(buckets), now) && order == Kept(old(order), buckets.Keys)
    {
      KeptAll(order, buckets.Keys);
      if |buckets| > cfg.highWater {
        PruneStale(now - WINDOW);
      }
    }

    /** Evicts at the hard cap. */
    method EvictIfFull(key: string)
      requires Valid()
      modifies this
      ensures Valid() && LeastGone(old(buckets), old(order), buckets.Keys) && order == Kept(old(order), buckets.Keys)
      ensures if CapHit(cfg, old(buckets), key) then Evicts(old(buckets), buckets, Keep(cfg.hardCap))
              else buckets == old(buckets)
    {
      KeptAll(order, buckets.Keys);
      if |buckets| >= cfg.hardCap && key !in buckets {
        EvictLeastActive(|buckets| - Keep(cfg.hardCap));
      }
    }

    /** Prunes and, at the hard cap, evicts. Which keys an eviction takes is settled by activity and,
        between equals, by insertion order. */
    method MakeRoom(key: string, now: real)
      requires Valid()
      modifies this
      ensures Valid() && Makes(old(buckets), old(order), key, now)
    {
      PruneIfLarge(now);
      ghost var live := buckets;
      EvictIfFull(key);
      KeptTwice(old(order), live.Keys, buckets.Keys) by { assert buckets.Keys <= live.Keys; }
    }

    ghost predicate Makes(m: Buckets, o: seq<string>, key: string, now: real)
      reads this
    {
      var live := Live(cfg, m, now);
      && (if CapHit(cfg, live, key) then Evicts(live, buckets, Keep(cfg.hardCap)) else buckets == live)
      && LeastGone(live, Kept(o, live.Keys), buckets.Keys) && order == Kept(o, buckets.Keys)
    }

    method RateLimitResponse(path: string, key: string, now: real) returns (v: Verdict)
      requires Valid()
      modifies this
      ensures Valid()
      ensures !Limited(cfg, path) ==> v == Pass && buckets == old(buckets) && order == old(order)
      ensures Limited(cfg, path) ==> exists mid ::
                && Next(cfg, old(buckets), key, now, mid, v, buckets)
                && Ordered(cfg, old(buckets), old(order), key, now, mid, order)
    {
      if path in EXEMPT_PATHS || cfg.perMin <= 0 {
        return Pass;
      }
      MakeRoom(key, now);
      ghost var mid := buckets;
      v := ServeBucket(key, now);
      assert Next(cfg, old(buckets), key, now, mid, v, buckets);
    }
  }
}
