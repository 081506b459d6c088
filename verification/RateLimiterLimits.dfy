/** How far the promises of the limiter reach: exactly which populations of clients and which lateness of
    stamps they stand, with a run past each limit. */
module RateLimiterLimits {
  import Common
  import opened RateLimiter
  import opened RateLimiterRuns
  import opened RateLimiterTheorems
  import opened RateLimiterRetry

  // ---------- building runs ----------

  lemma StepStays(cfg: Config, es: seq<Event>, e: Event, i: nat)
    requires i < |es| && StepAt(cfg, es, i)
    ensures StepAt(cfg, es + [e], i)
  {
    assert (es + [e])[i] == es[i] && Before(es + [e], i) == Before(es, i) && OrderBefore(es + [e], i) == OrderBefore(es, i);
  }

  lemma AdmittedSnoc(es: seq<Event>, e: Event, k: string)
    ensures AdmittedOf(k, es + [e]) == AdmittedOf(k, es) + if e.key == k && e.verdict.Pass? then [e.now] else []
  {
    assert (es + [e])[..|es|] == es;
  }

  lemma EvictionsSnoc(cfg: Config, es: seq<Event>, e: Event, k: string, lo: real)
    ensures EvictionsWithin(cfg, k, es + [e], lo) == EvictionsWithin(cfg, k, es, lo) +
              Common.Bit(k in Live(cfg, Before(es, |es|), e.now) && k !in e.mid && lo <= e.now <= lo + WINDOW)
  {
    assert (es + [e])[..|es|] == es && Before(es + [e], |es|) == Before(es, |es|);
  }

  lemma Extend(cfg: Config, es: seq<Event>, e: Event)
    requires Run(cfg, es) && cfg.perMin > 0
    requires Next(cfg, Before(es, |es|), e.key, e.now, e.mid, e.verdict, e.after)
    requires Ordered(cfg, Before(es, |es|), OrderBefore(es, |es|), e.key, e.now, e.mid, e.order)
    ensures Run(cfg, es + [e]) && Before(es + [e], |es| + 1) == e.after && OrderBefore(es + [e], |es| + 1) == e.order
  {
    var next := es + [e];
    assert next[|es|] == e && Before(next, |es|) == Before(es, |es|) && OrderBefore(next, |es|) == OrderBefore(es, |es|);
    assert StepAt(cfg, next, |es|);
    forall i | 0 <= i < |es| ensures StepAt(cfg, next, i) {
      assert StepAt(cfg, es, i);
      StepStays(cfg, es, e, i);
    }
  }

  lemma AllFresh(cfg: Config, m: Buckets, now: real)
    requires forall k | k in m :: !Stale(m[k], now - WINDOW)
    ensures Live(cfg, m, now) == m
  {}

  // ---------- the order of an eviction ----------

  lemma {:induction false} ListsSize(o: seq<string>, keys: set<string>)
    requires Lists(o, keys)
    ensures |keys| == |o|
  {
    if o != [] {
      var n := |o| - 1;
      assert o == o[..n] + [o[n]];
      assert Lists(o[..n], keys - {o[n]});
      ListsSize(o[..n], keys - {o[n]});
    } else {
      assert keys == {};
    }
  }

  lemma {:induction false} KeptConcat(a: seq<string>, b: seq<string>, keys: set<string>)
    ensures Kept(a + b, keys) == Kept(a, keys) + Kept(b, keys)
  {
    if b == [] {
      assert a + b == a;
    } else {
      var n := |b| - 1;
      KeptConcat(a, b[..n], keys);
      assert (a + b)[..|a| + n] == a + b[..n];
    }
  }

  lemma {:induction false} KeptNone(o: seq<string>, keys: set<string>)
    requires forall k :: k in o ==> k !in keys
    ensures Kept(o, keys) == []
  {
    if o != [] {
      var n := |o| - 1;
      assert o == o[..n] + [o[n]];
      KeptNone(o[..n], keys);
    }
  }

  function Restrict(m: Buckets, ks: seq<string>): Buckets { map k | k in m && k in ks :: m[k] }

  ghost predicate OldestFirst(m: Buckets, o: seq<string>) {
    Lists(o, m.Keys) && forall i, j :: 0 <= i < j < |o| ==> o[i] in m && o[j] in m && Activity(m[o[i]]) <= Activity(m[o[j]])
  }

  lemma ListedApart(gone: seq<string>, tail: seq<string>, keys: set<string>)
    requires Lists(gone + tail, keys)
    ensures forall k :: k in keys <==> k in gone || k in tail
    ensures forall k :: k in gone ==> k !in tail
    ensures forall i, j :: 0 <= i < j < |tail| ==> tail[i] != tail[j]
  {
    var o := gone + tail;
    assert forall k :: k in o <==> k in gone || k in tail;
    forall i, j | 0 <= i < |gone| && 0 <= j < |tail| ensures gone[i] != tail[j] {
      assert o[i] == gone[i] && o[|gone| + j] == tail[j];
    }
    forall i, j | 0 <= i < j < |tail| ensures tail[i] != tail[j] {
      assert o[|gone| + i] == tail[i] && o[|gone| + j] == tail[j];
    }
  }

  lemma RestrictKeys(m: Buckets, gone: seq<string>, tail: seq<string>)
    requires Lists(gone + tail, m.Keys)
    ensures Lists(tail, Restrict(m, tail).Keys) && |Restrict(m, tail)| == |tail| && |m| == |gone| + |tail|
  {
    ListedApart(gone, tail, m.Keys);
    ListsSize(tail, Restrict(m, tail).Keys);
    ListsSize(gone + tail, m.Keys);
  }

  lemma TailYields(m: Buckets, gone: seq<string>, tail: seq<string>, v: string, s: string)
    requires OldestFirst(m, gone + tail) && v in gone && s in tail
    ensures v in m && s in m && Yields(m, gone + tail, v, s) && Activity(m[v]) <= Activity(m[s])
  {
    var o := gone + tail;
    var i :| 0 <= i < |gone| && gone[i] == v;
    var j :| 0 <= j < |tail| && tail[j] == s;
    assert o[i] == v && o[|gone| + j] == s;
  }

  /** Where activity follows insertion order, an eviction keeps the tail of that order. */
  lemma TailStays(m: Buckets, gone: seq<string>, tail: seq<string>)
    requires OldestFirst(m, gone + tail)
    ensures Evicts(m, Restrict(m, tail), |tail|) && LeastGone(m, gone + tail, Restrict(m, tail).Keys)
  {
    ListedApart(gone, tail, m.Keys);
    RestrictKeys(m, gone, tail);
    forall v, s | v in m.Keys - Restrict(m, tail).Keys && s in Restrict(m, tail).Keys
      ensures Yields(m, gone + tail, v, s) && Activity(m[v]) <= Activity(m[s])
    {
      TailYields(m, gone, tail, v, s);
    }
  }

  lemma TailKept(m: Buckets, gone: seq<string>, tail: seq<string>)
    requires Lists(gone + tail, m.Keys)
    ensures Kept(gone + tail, Restrict(m, tail).Keys) == tail
  {
    ListedApart(gone, tail, m.Keys);
    KeptConcat(gone, tail, Restrict(m, tail).Keys);
    KeptNone(gone, Restrict(m, tail).Keys);
    KeptAll(tail, Restrict(m, tail).Keys);
  }

  // ---------- how many clients ----------

  /** A run in clock order by clients of `clients` only. */
  ghost predicate RunOver(cfg: Config, clients: set<string>, es: seq<Event>) {
    Run(cfg, es) && ClockOrdered(es) && forall i :: 0 <= i < |es| ==> es[i].key in clients
  }

  /** Whatever these clients do, none is admitted more often than its limit in any closed window. */
  ghost predicate KeepsLimits(cfg: Config, clients: set<string>) {
    forall es, k, lo :: RunOver(cfg, clients, es) && k in clients ==>
      |Within(AdmittedOf(k, es), lo, WINDOW)| <= LimitOf(cfg, k)
  }

  lemma {:induction false} KeysAreClients(cfg: Config, clients: set<string>, es: seq<Event>, i: nat)
    requires RunOver(cfg, clients, es) && i <= |es|
    ensures Before(es, i).Keys <= clients
  {
    if i > 0 {
      KeysAreClients(cfg, clients, es, i - 1);
      assert StepAt(cfg, es, i - 1);
    }
  }

  /** With no more clients than the cap holds, it never evicts: whoever is new still finds room. */
  lemma FewAreNeverEvicted(cfg: Config, clients: set<string>, es: seq<Event>, k: string)
    requires |clients| <= Capacity(cfg) && RunOver(cfg, clients, es)
    ensures NeverEvicted(cfg, es, k)
  {
    forall i | 0 <= i < |es| ensures !EvictedAt(cfg, es, k, i) {
      var live, key := Live(cfg, Before(es, i), es[i].now), es[i].key;
      assert StepAt(cfg, es, i);
      KeysAreClients(cfg, clients, es, i);
      if CapHit(cfg, live, key) {
        Common.SubsetSize(live.Keys + {key}, clients);
        assert |live.Keys + {key}| == |live| + 1;
      }
    }
  }

  function Zeros(n: nat): seq<real> { seq(n, _ => 0.0) }

  function Ones(ks: seq<string>): Buckets { map k | k in ks :: [1.0] }

  ghost predicate DistinctKeys(ks: seq<string>) {
    forall i, j :: 0 <= i < j < |ks| ==> ks[i] != ks[j]
  }

  /** A run over `clients` that ends in buckets `m`, inserted in order `o`, at time `t`. */
  ghost predicate Reaches(cfg: Config, clients: set<string>, es: seq<Event>, m: Buckets, o: seq<string>, t: real) {
    && cfg.perMin > 0 && RunOver(cfg, clients, es) && Before(es, |es|) == m && OrderBefore(es, |es|) == o
    && forall i :: 0 <= i < |es| ==> es[i].now <= t
  }

  /** A request that is admitted when `mid` is what pruning and eviction have left. */
  ghost predicate Admitted(cfg: Config, m: Buckets, o: seq<string>, key: string, now: real, mid: Buckets,
                           after: Buckets, p: seq<string>) {
    Next(cfg, m, key, now, mid, Pass, after) && Ordered(cfg, m, o, key, now, mid, p)
  }

  /** One more request, admitted. */
  lemma Admits(cfg: Config, clients: set<string>, es: seq<Event>, m: Buckets, o: seq<string>, t: real, key: string,
               now: real, mid: Buckets, after: Buckets, p: seq<string>) returns (next: seq<Event>)
    requires Reaches(cfg, clients, es, m, o, t) && t <= now && key in clients
    requires Admitted(cfg, m, o, key, now, mid, after, p)
    ensures Reaches(cfg, clients, next, after, p, now)
    ensures forall k :: AdmittedOf(k, next) == AdmittedOf(k, es) + if key == k then [now] else []
    ensures forall k :: EvictionsWithin(cfg, k, next, 0.0) == EvictionsWithin(cfg, k, es, 0.0) +
                          Common.Bit(k in Live(cfg, m, now) && k !in mid && 0.0 <= now <= WINDOW)
  {
    var e := Event(key, now, mid, Pass, after, p);
    next := es + [e];
    Extend(cfg, es, e);
    forall k { AdmittedSnoc(es, e, k); }
    forall k { EvictionsSnoc(cfg, es, e, k, 0.0); }
  }

  /** A client that is in the map already comes again. */
  lemma Again(cfg: Config, v: string, c: nat)
    requires 1 <= c < LimitOf(cfg, v)
    ensures Admitted(cfg, map[v := Zeros(c)], [v], v, 0.0, map[v := Zeros(c)], map[v := Zeros(c + 1)], [v])
    ensures Live(cfg, map[v := Zeros(c)], 0.0) == map[v := Zeros(c)]
  {
    var m: Buckets := map[v := Zeros(c)];
    AllFresh(cfg, m, 0.0);
    KeptAll([v], m.Keys);
    assert Expire(Zeros(c), 0.0 - WINDOW) == Zeros(c);
    assert Zeros(c) + [0.0] == Zeros(c + 1);
    assert m[v := Zeros(c + 1)] == map[v := Zeros(c + 1)] && [v] + [] == [v];
  }

  /** Alone in the map, `v` goes on until it has used up `c` of its limit, all at time 0. */
  lemma {:induction false} GoesOn(cfg: Config, clients: set<string>, es: seq<Event>, v: string, c: nat)
    returns (next: seq<Event>)
    requires v in clients && 1 <= c <= LimitOf(cfg, v) && Reaches(cfg, clients, es, map[v := Zeros(1)], [v], 0.0)
    ensures Reaches(cfg, clients, next, map[v := Zeros(c)], [v], 0.0)
    ensures AdmittedOf(v, next) == AdmittedOf(v, es) + Zeros(c - 1)
    ensures EvictionsWithin(cfg, v, next, 0.0) == EvictionsWithin(cfg, v, es, 0.0)
    decreases c
  {
    if c == 1 {
      next := es;
      assert AdmittedOf(v, es) + Zeros(0) == AdmittedOf(v, es);
    } else {
      var m: Buckets := map[v := Zeros(c - 1)];
      var init := GoesOn(cfg, clients, es, v, c - 1);
      Again(cfg, v, c - 1);
      assert Zeros(c - 2) + [0.0] == Zeros(c - 1);
      next := Admits(cfg, clients, init, m, [v], 0.0, v, 0.0, m, map[v := Zeros(c)], [v]);
    }
  }

  /** A first request ever. */
  lemma Starts(cfg: Config, clients: set<string>, v: string) returns (es: seq<Event>)
    requires v in clients && cfg.perMin > 0 && LimitOf(cfg, v) >= 1
    ensures Reaches(cfg, clients, es, map[v := Zeros(1)], [v], 0.0) && AdmittedOf(v, es) == Zeros(1)
    ensures EvictionsWithin(cfg, v, es, 0.0) == 0
  {
    AllFresh(cfg, map[], 0.0);
    assert Zeros(1) == [] + [0.0] && map[][v := Zeros(1)] == map[v := Zeros(1)] && [] + [v] == [v];
    es := Admits(cfg, clients, [], map[], [], 0.0, v, 0.0, map[], map[v := Zeros(1)], [v]);
  }

  lemma Uses(cfg: Config, clients: set<string>, v: string, c: nat) returns (es: seq<Event>)
    requires v in clients && cfg.perMin > 0 && 1 <= c <= LimitOf(cfg, v)
    ensures Reaches(cfg, clients, es, map[v := Zeros(c)], [v], 0.0) && AdmittedOf(v, es) == Zeros(c)
    ensures EvictionsWithin(cfg, v, es, 0.0) == 0
  {
    var init := Starts(cfg, clients, v);
    assert Zeros(1) + Zeros(c - 1) == Zeros(c);
    es := GoesOn(cfg, clients, init, v, c);
  }

  /** `v` with `c` admissions at time 0, and after it each of `ks` with one at time 1. */
  function Crowded(v: string, c: nat, ks: seq<string>): Buckets { Ones(ks)[v := Zeros(c)] }

  lemma CrowdListed(v: string, c: nat, ks: seq<string>)
    requires DistinctKeys(ks) && v !in ks
    ensures Lists([v] + ks, Crowded(v, c, ks).Keys) && |Crowded(v, c, ks)| == |ks| + 1
  {
    var o, m := [v] + ks, Crowded(v, c, ks);
    assert forall i :: 0 <= i < |ks| ==> ks[i] in ks;
    ListsSize(o, m.Keys);
  }

  lemma CrowdOrder(v: string, c: nat, ks: seq<string>)
    requires c >= 1 && DistinctKeys(ks) && v !in ks
    ensures OldestFirst(Crowded(v, c, ks), [v] + ks) && |Crowded(v, c, ks)| == |ks| + 1
    ensures forall k | k in Crowded(v, c, ks) :: !Stale(Crowded(v, c, ks)[k], 1.0 - WINDOW)
  {
    var o, m := [v] + ks, Crowded(v, c, ks);
    CrowdListed(v, c, ks);
    forall i | 0 <= i < |o| ensures o[i] in m && Activity(m[o[i]]) == if i == 0 then 0.0 else 1.0 {
      if i > 0 { assert o[i] == ks[i - 1]; }
    }
  }

  /** A new client finds room. */
  lemma Joins(cfg: Config, m: Buckets, o: seq<string>, k: string)
    requires Lists(o, m.Keys) && k !in m && |m| < cfg.hardCap && LimitOf(cfg, k) >= 1
    requires forall j | j in m :: !Stale(m[j], 1.0 - WINDOW)
    ensures Admitted(cfg, m, o, k, 1.0, m, m[k := [1.0]], o + [k])
  {
    AllFresh(cfg, m, 1.0);
    KeptAll(o, m.Keys);
    assert [] + [1.0] == [1.0];
  }

  /** A new client finds the map full, and the oldest go. */
  lemma Displaces(cfg: Config, m: Buckets, gone: seq<string>, tail: seq<string>, k: string)
    requires OldestFirst(m, gone + tail) && k !in m && cfg.hardCap <= |gone + tail| && |tail| == Keep(cfg.hardCap)
    requires LimitOf(cfg, k) >= 1 && forall j | j in m :: !Stale(m[j], 1.0 - WINDOW)
    ensures Admitted(cfg, m, gone + tail, k, 1.0, Restrict(m, tail), Restrict(m, tail)[k := [1.0]], tail + [k])
  {
    assert Live(cfg, m, 1.0) == m by { AllFresh(cfg, m, 1.0); }
    assert CapHit(cfg, m, k) by { RestrictKeys(m, gone, tail); }
    assert Next(cfg, m, k, 1.0, Restrict(m, tail), Pass, Restrict(m, tail)[k := [1.0]]) by {
      TailStays(m, gone, tail);
      assert [] + [1.0] == [1.0];
    }
    DisplacesInOrder(cfg, m, gone, tail, k);
  }

  lemma DisplacesInOrder(cfg: Config, m: Buckets, gone: seq<string>, tail: seq<string>, k: string)
    requires OldestFirst(m, gone + tail) && k !in m && Live(cfg, m, 1.0) == m
    ensures Ordered(cfg, m, gone + tail, k, 1.0, Restrict(m, tail), tail + [k])
  {
    TailStays(m, gone, tail);
    TailKept(m, gone, tail);
    KeptAll(gone + tail, m.Keys);
  }

  lemma OnesSnoc(v: string, c: nat, ks: seq<string>)
    requires ks != [] && DistinctKeys(ks) && v !in ks
    ensures var n := |ks| - 1;
            && ks[n] !in Crowded(v, c, ks[..n]) && Crowded(v, c, ks[..n])[ks[n] := [1.0]] == Crowded(v, c, ks)
            && [v] + ks[..n] + [ks[n]] == [v] + ks
  {
    assert ks == ks[..|ks| - 1] + [ks[|ks| - 1]];
  }

  /** Others come once each at time 1, and the map holds them all. */
  lemma {:induction false} Crowd(cfg: Config, clients: set<string>, v: string, c: nat, ks: seq<string>)
    returns (es: seq<Event>)
    requires v in clients && cfg.perMin > 0 && 1 <= c <= LimitOf(cfg, v)
    requires DistinctKeys(ks) && v !in ks && (ks == [] || |ks| < cfg.hardCap)
    requires forall k | k in ks :: k in clients && LimitOf(cfg, k) >= 1
    ensures Reaches(cfg, clients, es, Crowded(v, c, ks), [v] + ks, 1.0) && AdmittedOf(v, es) == Zeros(c)
  {
    if ks == [] {
      es := Uses(cfg, clients, v, c);
      assert Crowded(v, c, ks) == map[v := Zeros(c)] && [v] + ks == [v];
    } else {
      var init, k := ks[..|ks| - 1], ks[|ks| - 1];
      var before := Crowd(cfg, clients, v, c, init);
      assert Admitted(cfg, Crowded(v, c, init), [v] + init, k, 1.0, Crowded(v, c, init), Crowded(v, c, ks), [v] + ks) by {
        CrowdOrder(v, c, init);
        OnesSnoc(v, c, ks);
        Joins(cfg, Crowded(v, c, init), [v] + init, k);
      }
      es := Admits(cfg, clients, before, Crowded(v, c, init), [v] + init, 1.0, k, 1.0,
                   Crowded(v, c, init), Crowded(v, c, ks), [v] + ks);
    }
  }

  lemma KeepsLess(cfg: Config)
    ensures Keep(cfg.hardCap) < Capacity(cfg)
  {}

  lemma HeldIsOnes(v: string, c: nat, gone: seq<string>, held: seq<string>)
    requires v !in gone + held
    ensures Restrict(Crowded(v, c, gone + held), held) == Ones(held)
  {
    assert forall k :: k in held ==> k in gone + held;
  }

  /** `x` finds the map full: `v` and the oldest of the others go. */
  lemma Full(cfg: Config, v: string, c: nat, gone: seq<string>, held: seq<string>, x: string)
    requires c >= 1 && LimitOf(cfg, x) >= 1 && DistinctKeys(gone + held) && v !in gone + held
    requires |gone + held| == Capacity(cfg) - 1 && x != v && x !in gone + held && |held| == Keep(cfg.hardCap)
    ensures Admitted(cfg, Crowded(v, c, gone + held), [v] + (gone + held), x, 1.0, Ones(held), Ones(held + [x]), held + [x])
  {
    var m, o := Crowded(v, c, gone + held), [v] + (gone + held);
    assert o == ([v] + gone) + held;
    assert Restrict(m, held) == Ones(held) by { HeldIsOnes(v, c, gone, held); }
    assert Ones(held)[x := [1.0]] == Ones(held + [x]) by { OnesAdd(held, x); }
    assert Admitted(cfg, m, o, x, 1.0, Restrict(m, held), Restrict(m, held)[x := [1.0]], held + [x]) by {
      CrowdOrder(v, c, gone + held);
      Displaces(cfg, m, [v] + gone, held, x);
    }
  }

  lemma OnesAdd(ks: seq<string>, x: string)
    ensures Ones(ks)[x := [1.0]] == Ones(ks + [x])
  {}

  lemma Overflows(cfg: Config, clients: set<string>, v: string, c: nat, gone: seq<string>, held: seq<string>, x: string)
    returns (es: seq<Event>)
    requires v in clients && cfg.perMin > 0 && 1 <= c <= LimitOf(cfg, v) && x in clients && LimitOf(cfg, x) >= 1
    requires DistinctKeys(gone + held) && v !in gone + held
    requires |gone + held| == Capacity(cfg) - 1 && x != v && x !in gone + held && |held| == Keep(cfg.hardCap)
    requires forall k | k in gone + held :: k in clients && LimitOf(cfg, k) >= 1
    ensures Reaches(cfg, clients, es, Ones(held + [x]), held + [x], 1.0) && AdmittedOf(v, es) == Zeros(c)
  {
    var ks := gone + held;
    var init := Crowd(cfg, clients, v, c, ks);
    Full(cfg, v, c, gone, held, x);
    es := Admits(cfg, clients, init, Crowded(v, c, ks), [v] + ks, 1.0, x, 1.0, Ones(held), Ones(held + [x]), held + [x]);
  }

  lemma OnesOrder(p: seq<string>)
    requires DistinctKeys(p)
    ensures OldestFirst(Ones(p), p) && |Ones(p)| == |p|
    ensures forall k | k in Ones(p) :: !Stale(Ones(p)[k], 1.0 - WINDOW)
  {
    assert forall i :: 0 <= i < |p| ==> p[i] in p;
    ListsSize(p, Ones(p).Keys);
  }

  /** `v` finds room again, if need be by another eviction. */
  lemma Returns(cfg: Config, p: seq<string>, v: string) returns (mid: Buckets, q: seq<string>)
    requires DistinctKeys(p) && v !in p && LimitOf(cfg, v) >= 1 && Keep(cfg.hardCap) <= |p|
    ensures Admitted(cfg, Ones(p), p, v, 1.0, mid, mid[v := [1.0]], q)
  {
    OnesOrder(p);
    if |p| < cfg.hardCap {
      mid, q := Ones(p), p + [v];
      Joins(cfg, Ones(p), p, v);
    } else {
      var n := |p| - Keep(cfg.hardCap);
      assert p == p[..n] + p[n..];
      mid, q := Restrict(Ones(p), p[n..]), p[n..] + [v];
      Displaces(cfg, Ones(p), p[..n], p[n..], v);
    }
  }

  /** Forgotten, `v` is admitted once more within a second of having used up its limit. */
  lemma ComesBack(cfg: Config, clients: set<string>, v: string, ks: seq<string>, x: string)
    returns (es: seq<Event>)
    requires v in clients && cfg.perMin > 0 && 1 <= LimitOf(cfg, v) && x in clients && LimitOf(cfg, x) >= 1
    requires DistinctKeys(ks) && v !in ks && |ks| == Capacity(cfg) - 1 && x != v && x !in ks
    requires forall k | k in ks :: k in clients && LimitOf(cfg, k) >= 1
    ensures RunOver(cfg, clients, es) && AdmittedOf(v, es) == Zeros(LimitOf(cfg, v)) + [1.0]
  {
    KeepsLess(cfg);
    var n := |ks| - Keep(cfg.hardCap);
    var p := ks[n..] + [x];
    assert ks == ks[..n] + ks[n..];
    assert forall k :: k in p ==> k in ks || k == x;
    var init := Overflows(cfg, clients, v, LimitOf(cfg, v), ks[..n], ks[n..], x);
    var mid, q := Returns(cfg, p, v);
    es := Admits(cfg, clients, init, Ones(p), p, 1.0, v, 1.0, mid, mid[v := [1.0]], q);
  }

  lemma {:induction false} Pick(clients: set<string>, n: nat) returns (ks: seq<string>)
    requires n <= |clients|
    ensures |ks| == n && DistinctKeys(ks) && forall k | k in ks :: k in clients
  {
    ks := [];
    if n > 0 {
      var k :| k in clients;
      var rest := Pick(clients - {k}, n - 1);
      ks := rest + [k];
    }
  }

  lemma {:induction false} AllInWindow(n: nat)
    ensures |Within(Zeros(n) + [1.0], 0.0, WINDOW)| == n + 1
  {
    WithinConcat(Zeros(n), [1.0], 0.0, WINDOW);
    ZerosInWindow(n);
  }

  lemma {:induction false} ZerosInWindow(n: nat)
    ensures Within(Zeros(n), 0.0, WINDOW) == Zeros(n)
  {
    if n > 0 {
      assert Zeros(n)[..n - 1] == Zeros(n - 1);
      ZerosInWindow(n - 1);
    }
  }

  lemma TooManyClients(cfg: Config, clients: set<string>) returns (es: seq<Event>, v: string)
    requires cfg.perMin > 0 && |clients| > Capacity(cfg) && forall k | k in clients :: LimitOf(cfg, k) >= 1
    ensures RunOver(cfg, clients, es) && v in clients
    ensures |Within(AdmittedOf(v, es), 0.0, WINDOW)| == LimitOf(cfg, v) + 1
  {
    var c := Capacity(cfg);
    var ks := Pick(clients, c + 1);
    v := ks[0];
    forall k | k in ks[1..c] ensures k in clients && k != v && k != ks[c] {
      var i :| 0 <= i < c - 1 && ks[1..c][i] == k;
      assert ks[i + 1] == k;
    }
    es := ComesBack(cfg, clients, v, ks[1..c], ks[c]);
    AllInWindow(LimitOf(cfg, v));
  }

  /** With the limiter switched on, the limits hold for a population of clients exactly if the cap has room
      for all of them. */
  lemma LimitsHoldIffClientsFit(cfg: Config, clients: set<string>)
    requires cfg.perMin > 0 && forall k | k in clients :: LimitOf(cfg, k) >= 1
    ensures KeepsLimits(cfg, clients) <==> |clients| <= Capacity(cfg)
  {
    if |clients| <= Capacity(cfg) {
      forall es, k, lo | RunOver(cfg, clients, es) && k in clients
        ensures |Within(AdmittedOf(k, es), lo, WINDOW)| <= LimitOf(cfg, k)
      {
        FewAreNeverEvicted(cfg, clients, es, k);
        NothingForgotten(cfg, es, k);
        NoBurst(cfg, es, k, 0.0, lo, WINDOW);
      }
    } else {
      var es, v := TooManyClients(cfg, clients);
    }
  }

  // ---------- how often an evicted client is let in again ----------

  /** After `n` evictions and a full limit after each: `v` alone in the map, all at time 0. */
  ghost predicate Rounds(cfg: Config, v: string, w: string, n: nat, es: seq<Event>) {
    && cfg.perMin > 0 && cfg.hardCap == 1 && v != w && LimitOf(cfg, v) >= 1 && LimitOf(cfg, w) >= 1
    && Reaches(cfg, {v, w}, es, map[v := Zeros(LimitOf(cfg, v))], [v], 0.0)
    && AdmittedOf(v, es) == Zeros(LimitOf(cfg, v) * (n + 1)) && EvictionsWithin(cfg, v, es, 0.0) == n
  }

  /** With room for one client, each takes the place of the other. */
  lemma TakesOver(cfg: Config, v: string, c: nat, w: string)
    requires cfg.hardCap == 1 && v != w && c >= 1 && LimitOf(cfg, w) >= 1
    ensures Admitted(cfg, map[v := Zeros(c)], [v], w, 0.0, map[], map[w := Zeros(1)], [w])
    ensures Live(cfg, map[v := Zeros(c)], 0.0) == map[v := Zeros(c)]
  {
    var m: Buckets, none: Buckets := map[v := Zeros(c)], map[];
    AllFresh(cfg, m, 0.0);
    KeptNone([v], {});
    assert none.Keys == {};
    assert none[w := Zeros(1)] == map[w := Zeros(1)] && [] + [0.0] == Zeros(1) && [] + [w] == [w];
  }

  lemma OneMoreLimit(limit: nat, n: nat)
    requires limit >= 1
    ensures limit * (n + 2) == limit * (n + 1) + limit
    ensures Zeros(limit * (n + 1)) + [0.0] + Zeros(limit - 1) == Zeros(limit * (n + 2))
  {
    assert limit * (n + 2) == limit * (n + 1) + limit;
  }

  /** `w` evicts `v`, and `v` evicts `w` and uses up its limit again. */
  lemma OneRound(cfg: Config, v: string, w: string, n: nat, init: seq<Event>) returns (es: seq<Event>)
    requires Rounds(cfg, v, w, n, init)
    ensures Rounds(cfg, v, w, n + 1, es)
  {
    var limit := LimitOf(cfg, v);
    var there := SwapsIn(cfg, v, limit, w, {v, w}, init);
    var back := SwapsIn(cfg, w, 1, v, {v, w}, there);
    es := GoesOn(cfg, {v, w}, back, v, limit);
    OneMoreLimit(limit, n);
  }

  /** `w` takes the place of `v`. */
  lemma SwapsIn(cfg: Config, v: string, c: nat, w: string, clients: set<string>, es: seq<Event>) returns (next: seq<Event>)
    requires cfg.hardCap == 1 && v != w && c >= 1 && LimitOf(cfg, w) >= 1 && w in clients
    requires Reaches(cfg, clients, es, map[v := Zeros(c)], [v], 0.0)
    ensures Reaches(cfg, clients, next, map[w := Zeros(1)], [w], 0.0)
    ensures AdmittedOf(v, next) == AdmittedOf(v, es) && AdmittedOf(w, next) == AdmittedOf(w, es) + [0.0]
    ensures EvictionsWithin(cfg, v, next, 0.0) == EvictionsWithin(cfg, v, es, 0.0) + 1
    ensures EvictionsWithin(cfg, w, next, 0.0) == EvictionsWithin(cfg, w, es, 0.0)
  {
    TakesOver(cfg, v, c, w);
    next := Admits(cfg, clients, es, map[v := Zeros(c)], [v], 0.0, w, 0.0, map[], map[w := Zeros(1)], [w]);
  }

  lemma {:induction false} Cycles(cfg: Config, v: string, w: string, n: nat) returns (es: seq<Event>)
    requires cfg.perMin > 0 && cfg.hardCap == 1 && v != w && LimitOf(cfg, v) >= 1 && LimitOf(cfg, w) >= 1
    ensures Rounds(cfg, v, w, n, es)
  {
    if n == 0 {
      es := Uses(cfg, {v, w}, v, LimitOf(cfg, v));
    } else {
      var init := Cycles(cfg, v, w, n - 1);
      es := OneRound(cfg, v, w, n - 1, init);
    }
  }

  /** The bound for evicted clients is reached: for every limit and number of evictions some run, of two
      clients under a cap of one, admits the limit once and then again after each eviction. */
  lemma EvictionsPayInFull(limit: nat, n: nat) returns (cfg: Config, es: seq<Event>)
    requires limit >= 1
    ensures Run(cfg, es) && ClockOrdered(es) && LimitOf(cfg, A) == limit && EvictionsWithin(cfg, A, es, 0.0) == n
    ensures |Within(AdmittedOf(A, es), 0.0, WINDOW)| == limit * (n + 1)
  {
    cfg := Config(limit, limit, 1, 1);
    NotTenants(cfg);
    es := Cycles(cfg, A, B, n);
    ZerosInWindow(limit * (n + 1));
  }

  // ---------- how late a stamp may be ----------

  /** No client has more admissions remembered than its limit in any closed window of this width, in any
      run under any configuration whose stamps are at most `late` late. */
  ghost predicate Tolerates(late: real, width: real) {
    forall cfg, es, k, lo :: Run(cfg, es) && AtMostLate(es, late) ==>
      |Within(Remembered(cfg, k, es), lo, width)| <= Positive(LimitOf(cfg, k))
  }

  const A := "a"
  const B := "b"

  lemma NotTenants(cfg: Config)
    ensures LimitOf(cfg, A) == cfg.perMin == LimitOf(cfg, B)
  {
    assert TENANT_PREFIX[0] != A[0] && TENANT_PREFIX[0] != B[0];
  }

  lemma SparedStays(cfg: Config, es: seq<Event>, e: Event, k: string)
    requires NeverEvicted(cfg, es, k) && !(k in Live(cfg, Before(es, |es|), e.now) && k !in e.mid)
    ensures NeverEvicted(cfg, es + [e], k)
  {
    var next := es + [e];
    forall i | 0 <= i <= |es| ensures !EvictedAt(cfg, next, k, i) {
      assert Before(next, i) == Before(es, i);
      if i < |es| { assert next[i] == es[i] && !EvictedAt(cfg, es, k, i); }
    }
  }

  /** A run that ends in buckets `m` and in which client `A`, admitted at `h`, was never evicted. */
  ghost predicate Quiet(cfg: Config, es: seq<Event>, m: Buckets, h: seq<real>) {
    cfg.perMin > 0 && Run(cfg, es) && Before(es, |es|) == m && NeverEvicted(cfg, es, A) && AdmittedOf(A, es) == h
  }

  /** One more request, which does not hit the cap. */
  lemma Serves(cfg: Config, es: seq<Event>, m: Buckets, h: seq<real>, key: string, now: real, v: Verdict, after: Buckets)
    returns (e: Event)
    requires Quiet(cfg, es, m, h) && Next(cfg, m, key, now, Live(cfg, m, now), v, after)
    ensures e.key == key && e.now == now && e.verdict == v
    ensures Quiet(cfg, es + [e], after, h + if key == A && v.Pass? then [now] else [])
  {
    var live := Live(cfg, m, now);
    e := Event(key, now, live, v, after, Kept(OrderBefore(es, |es|), live.Keys) + if key in live then [] else [key]);
    Extend(cfg, es, e);
    AdmittedSnoc(es, e, A);
    SparedStays(cfg, es, e, A);
  }

  /** Limit 2: a first stamp `late`, a second that late, and then a stamp of another client that finds the
      bucket stale by its last entry and drops the first with it. */
  lemma LosesFirst(cfg: Config, late: real, u: real) returns (es: seq<Event>)
    requires cfg == Config(2, 2, 0, 10) && LimitOf(cfg, A) == 2 == LimitOf(cfg, B) && late >= 0.0 && u > WINDOW
    ensures Quiet(cfg, es, map[B := [u]], [late, 0.0])
    ensures |es| == 3 && es[0].now == late && es[1].now == 0.0 && es[2].now == u
  {
    var m1, m2, m3: Buckets := map[A := [late]], map[A := [late, 0.0]], map[B := [u]];
    FirstHalf(cfg, late, u, m1, m2, m3);
    var e1 := Serves(cfg, [], map[], [], A, late, Pass, m1);
    var e2 := Serves(cfg, [e1], m1, [late], A, 0.0, Pass, m2) by { assert [] + [e1] == [e1] && [] + [late] == [late]; }
    var e3 := Serves(cfg, [e1, e2], m2, [late, 0.0], B, u, Pass, m3) by {
      assert [e1] + [e2] == [e1, e2] && [late] + [0.0] == [late, 0.0];
    }
    es := [e1, e2] + [e3];
    assert [late, 0.0] + [] == [late, 0.0];
  }

  lemma GainsTwo(cfg: Config, es: seq<Event>, h: seq<real>, t: real, u: real) returns (e4: Event, e5: Event)
    requires cfg == Config(2, 2, 0, 10) && LimitOf(cfg, A) == 2 && t <= u && Quiet(cfg, es, map[B := [u]], h)
    ensures e4.now == t == e5.now
    ensures var next := es + [e4] + [e5]; Run(cfg, next) && NeverEvicted(cfg, next, A) && AdmittedOf(A, next) == h + [t, t]
  {
    var m4, m5: Buckets := map[B := [u], A := [t]], map[B := [u], A := [t, t]];
    SecondHalf(cfg, t, u, m4, m5);
    e4 := Serves(cfg, es, map[B := [u]], h, A, t, Pass, m4);
    e5 := Serves(cfg, es + [e4], m4, h + [t], A, t, Pass, m5);
    assert h + [t] + [t] == h + [t, t];
  }

  lemma LateStampsLoseOne(late: real, width: real) returns (cfg: Config, es: seq<Event>)
    requires late >= 0.0 && width >= 0.0 && width > WINDOW - 2.0 * late
    ensures Run(cfg, es) && AtMostLate(es, late) && NeverEvicted(cfg, es, A) && LimitOf(cfg, A) == 2
    ensures |Within(AdmittedOf(A, es), late, width)| > 2
  {
    cfg := Config(2, 2, 0, 10);
    NotTenants(cfg);
    var t, u := late + width, late + late + width;
    var init := LosesFirst(cfg, late, u);
    var e4, e5 := GainsTwo(cfg, init, [late, 0.0], t, u);
    es := init + [e4] + [e5];
    CountThree(late, t, width);
  }

  lemma CountThree(late: real, t: real, width: real)
    requires width >= 0.0 && t == late + width
    ensures |Within([late, 0.0] + [t, t], late, width)| > 2
  {
    WithinConcat([late, 0.0], [t, t], late, width);
    WithinConcat([late], [0.0], late, width);
    WithinConcat([t], [t], late, width);
    assert [late] + [0.0] == [late, 0.0] && [t] + [t] == [t, t];
  }

  lemma FirstHalf(cfg: Config, late: real, u: real, m1: Buckets, m2: Buckets, m3: Buckets)
    requires cfg == Config(2, 2, 0, 10) && LimitOf(cfg, A) == 2 == LimitOf(cfg, B) && late >= 0.0 && u > WINDOW
    requires m1 == map[A := [late]] && m2 == map[A := [late, 0.0]] && m3 == map[B := [u]]
    ensures Next(cfg, map[], A, late, Live(cfg, map[], late), Pass, m1)
    ensures Next(cfg, m1, A, 0.0, Live(cfg, m1, 0.0), Pass, m2) && Next(cfg, m2, B, u, Live(cfg, m2, u), Pass, m3)
  {
    assert Live(cfg, map[], late) == map[];
    assert Live(cfg, m1, 0.0) == m1;
    assert Live(cfg, m2, u) == map[];
    assert [] + [late] == [late] && [late] + [0.0] == [late, 0.0] && [] + [u] == [u];
    assert m1[A := [late, 0.0]] == m2;
  }

  lemma SecondHalf(cfg: Config, t: real, u: real, m4: Buckets, m5: Buckets)
    requires cfg == Config(2, 2, 0, 10) && LimitOf(cfg, A) == 2 && t <= u
    requires m4 == map[B := [u], A := [t]] && m5 == map[B := [u], A := [t, t]]
    ensures var m3: Buckets := map[B := [u]]; Next(cfg, m3, A, t, Live(cfg, m3, t), Pass, m4)
    ensures Next(cfg, m4, A, t, Live(cfg, m4, t), Pass, m5)
  {
    AllFresh(cfg, map[B := [u]], t);
    AllFresh(cfg, m4, t);
    assert [] + [t] == [t] && [t] + [t] == [t, t];
    assert map[B := [u]][A := [t]] == m4;
    assert m4[A := [t, t]] == m5;
  }

  /** Exactly twice the lateness is lost: the bound holds in windows up to `WINDOW - 2 * late` wide. */
  lemma ToleratesIff(late: real, width: real)
    requires late >= 0.0 && width >= 0.0
    ensures Tolerates(late, width) <==> width <= WINDOW - 2.0 * late
  {
    if width <= WINDOW - 2.0 * late {
      forall cfg, es, k, lo | Run(cfg, es) && AtMostLate(es, late)
        ensures |Within(Remembered(cfg, k, es), lo, width)| <= Positive(LimitOf(cfg, k))
      {
        NoBurst(cfg, es, k, late, lo, width);
      }
    } else {
      var cfg, es := LateStampsLoseOne(late, width);
      NothingForgotten(cfg, es, A);
      assert |Within(Remembered(cfg, A, es), late, width)| > Positive(LimitOf(cfg, A));
    }
  }

  // ---------- a wait that is too short ----------

  /** With limit 1 and the default caps: admitted at 0, rejected at 0.5 and told to wait 59 seconds, and
      rejected again 59 seconds later. */
  lemma RetryAfterCanUnderstate() returns (cfg: Config, es: seq<Event>)
    ensures Retries(cfg, es, 1, 2) && NeverEvicted(cfg, es, A)
    ensures es[2].now == es[1].now + es[1].verdict.retryAfter as real && !es[2].verdict.Pass?
  {
    cfg := Config(1, 1, 500, 5000);
    NotTenants(cfg);
    var m: Buckets := map[A := [0.0]];
    AllFresh(cfg, m, 0.5);
    AllFresh(cfg, m, 59.5);
    assert (WINDOW - (0.5 - 0.0)).Floor == 59 && (WINDOW - (59.5 - 0.0)).Floor == 0;
    assert m[A := [0.0]] == m && [] + [0.0] == [0.0] && [0.0] + [] == [0.0];
    var e1 := Serves(cfg, [], map[], [], A, 0.0, Pass, m);
    var e2 := Serves(cfg, [e1], m, [0.0], A, 0.5, TooMany(59), m) by { assert [] + [e1] == [e1]; }
    var e3 := Serves(cfg, [e1, e2], m, [0.0], A, 59.5, TooMany(1), m) by { assert [e1] + [e2] == [e1, e2]; }
    es := [e1, e2] + [e3];
  }
}
