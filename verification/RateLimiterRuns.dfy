/** Runs of the rate limiter, evictions and late clock stamps included, and the simulation that ties each
    client's bucket to the admissions the limiter still remembers. */
module RateLimiterRuns {
  import opened RateLimiter

  // ---------- runs ----------

  /** A request that is subject to limiting; `order` is the order of the map after it. */
  datatype Event = Event(key: string, now: real, mid: Buckets, verdict: Verdict, after: Buckets, order: seq<string>)

  function Before(es: seq<Event>, i: nat): Buckets
    requires i <= |es|
  {
    if i == 0 then map[] else es[i - 1].after
  }

  function OrderBefore(es: seq<Event>, i: nat): seq<string>
    requires i <= |es|
  {
    if i == 0 then [] else es[i - 1].order
  }

  ghost predicate StepAt(cfg: Config, es: seq<Event>, i: nat)
    requires i < |es|
  {
    && cfg.perMin > 0
    && Next(cfg, Before(es, i), es[i].key, es[i].now, es[i].mid, es[i].verdict, es[i].after)
    && Ordered(cfg, Before(es, i), OrderBefore(es, i), es[i].key, es[i].now, es[i].mid, es[i].order)
  }

  /** A run of the limiter, switched on, from the empty map, request by request. */
  ghost predicate Run(cfg: Config, es: seq<Event>) {
    forall i :: 0 <= i < |es| ==> StepAt(cfg, es, i)
  }

  /** No request carries a stamp more than `late` older than one that was served before it. */
  ghost predicate AtMostLate(es: seq<Event>, late: real) {
    forall i, j :: 0 <= i < j < |es| ==> es[i].now - late <= es[j].now
  }

  ghost predicate ClockOrdered(es: seq<Event>) {
    AtMostLate(es, 0.0)
  }

  /** Request `i` makes the hard cap evict client `k`. */
  predicate EvictedAt(cfg: Config, es: seq<Event>, k: string, i: nat)
    requires i < |es|
  {
    k in Live(cfg, Before(es, i), es[i].now) && k !in es[i].mid
  }

  /** No hard-cap eviction of the run takes client `k`. */
  ghost predicate NeverEvicted(cfg: Config, es: seq<Event>, k: string) {
    forall i :: 0 <= i < |es| ==> !EvictedAt(cfg, es, k, i)
  }

  predicate AdmittedAt(es: seq<Event>, k: string, i: nat)
    requires i < |es|
  {
    es[i].key == k && es[i].verdict.Pass?
  }

  function AdmittedOf(k: string, es: seq<Event>): seq<real> {
    if es == [] then [] else
      var n := |es| - 1;
      AdmittedOf(k, es[..n]) + if AdmittedAt(es, k, n) then [es[n].now] else []
  }

  /** The admissions of client `k` since the hard cap last evicted it, however old. */
  function Remembered(cfg: Config, k: string, es: seq<Event>): seq<real> {
    if es == [] then [] else
      var n := |es| - 1;
      (if EvictedAt(cfg, es, k, n) then [] else Remembered(cfg, k, es[..n]))
      + if AdmittedAt(es, k, n) then [es[n].now] else []
  }

  /** The latest stamp of a run. */
  function High(es: seq<Event>): real
    requires es != []
  {
    var n := |es| - 1;
    if n == 0 || High(es[..n]) <= es[n].now then es[n].now else High(es[..n])
  }

  lemma {:induction false} HighBounds(es: seq<Event>, late: real)
    requires es != [] && AtMostLate(es, late) && late >= 0.0
    ensures es[|es| - 1].now <= High(es) <= es[|es| - 1].now + late
    ensures |es| > 1 ==> High(es[..|es| - 1]) <= High(es)
    ensures exists i :: 0 <= i < |es| && High(es) == es[i].now
  {
    var n := |es| - 1;
    if n > 0 {
      HighBounds(es[..n], late);
      var i :| 0 <= i < n && High(es[..n]) == es[..n][i].now;
      assert es[i].now - late <= es[n].now;
      assert High(es) == if High(es[..n]) <= es[n].now then es[n].now else es[i].now;
    }
  }

  lemma RunPrefix(cfg: Config, es: seq<Event>, late: real, n: nat)
    requires n <= |es| && Run(cfg, es) && AtMostLate(es, late)
    ensures Run(cfg, es[..n]) && AtMostLate(es[..n], late)
    ensures forall k, i :: 0 <= i < n ==> EvictedAt(cfg, es[..n], k, i) == EvictedAt(cfg, es, k, i)
  {
    forall i | 0 <= i < n ensures StepAt(cfg, es[..n], i) { assert StepAt(cfg, es, i); }
  }

  /** A client is never evicted by its own request. */
  lemma OwnRequestSpares(cfg: Config, es: seq<Event>, i: nat)
    requires i < |es| && Run(cfg, es)
    ensures !EvictedAt(cfg, es, es[i].key, i)
  {
    assert StepAt(cfg, es, i);
  }

  // ---------- logs ----------

  ghost predicate Sorted(b: seq<real>) {
    NearlySorted(b, 0.0)
  }

  ghost predicate NearlySorted(b: seq<real>, late: real) {
    forall i, j :: 0 <= i < j < |b| ==> b[i] - late <= b[j]
  }

  ghost predicate UpTo(b: seq<real>, t: real) {
    forall i :: 0 <= i < |b| ==> b[i] <= t
  }

  ghost predicate Below(b: seq<real>, t: real) {
    forall i :: 0 <= i < |b| ==> b[i] < t
  }

  ghost predicate From(b: seq<real>, t: real) {
    forall i :: 0 <= i < |b| ==> b[i] >= t
  }

  lemma SplitSorted(d: seq<real>, b: seq<real>, late: real)
    requires NearlySorted(d + b, late)
    ensures NearlySorted(d, late) && NearlySorted(b, late)
  {
    forall i, j | 0 <= i < j < |d| ensures d[i] - late <= d[j] {
      assert (d + b)[i] == d[i] && (d + b)[j] == d[j];
    }
    forall i, j | 0 <= i < j < |b| ensures b[i] - late <= b[j] {
      assert (d + b)[|d| + i] == b[i] && (d + b)[|d| + j] == b[j];
    }
  }

  lemma SnocSorted(b: seq<real>, t: real, top: real, late: real)
    requires NearlySorted(b, late) && UpTo(b, top) && top - late <= t
    ensures NearlySorted(b + [t], late)
  {}

  lemma {:induction false} RememberedIsNearlySorted(cfg: Config, k: string, es: seq<Event>, late: real)
    requires es != [] && AtMostLate(es, late) && late >= 0.0
    ensures NearlySorted(Remembered(cfg, k, es), late) && UpTo(Remembered(cfg, k, es), High(es))
  {
    var n := |es| - 1;
    HighBounds(es, late);
    if n > 0 {
      RememberedIsNearlySorted(cfg, k, es[..n], late);
      SnocSorted(Remembered(cfg, k, es[..n]), es[n].now, High(es[..n]), late) by { HighBounds(es[..n], late); }
    }
  }

  /** Lazy expiry removes a prefix that is older than the cutoff, whatever the order. */
  lemma {:induction false} ExpireSplits(b: seq<real>, c: real) returns (d: seq<real>)
    ensures b == d + Expire(b, c) && Below(d, c)
    ensures Expire(b, c) != [] ==> Expire(b, c)[0] >= c
  {
    if b != [] && b[0] < c {
      assert b == [b[0]] + b[1..];
      var t := ExpireSplits(b[1..], c);
      d := [b[0]] + t;
    } else {
      d := [];
    }
  }

  // ---------- the simulation ----------

  /** The bucket of a client is what is remembered of it, minus a prefix older than `bound - WINDOW`. */
  ghost predicate Sim(b: seq<real>, log: seq<real>, bound: real) {
    exists d :: log == d + b && Below(d, bound - WINDOW)
  }

  lemma SimExpires(b: seq<real>, log: seq<real>, bound: real, now: real) returns (d: seq<real>)
    requires Sim(b, log, bound) && now <= bound
    ensures log == d + Expire(b, now - WINDOW) && Below(d, bound - WINDOW)
  {
    var d0 :| log == d0 + b && Below(d0, bound - WINDOW);
    var d1 := ExpireSplits(b, now - WINDOW);
    d := d0 + d1;
    assert log == d + Expire(b, now - WINDOW);
  }

  lemma SimPruned(cfg: Config, m: Buckets, k: string, log: seq<real>, bound: real, now: real, late: real)
    requires Sim(BucketOf(m, k), log, bound) && now + late <= bound && NearlySorted(log, late) && late >= 0.0
    ensures Sim(BucketOf(Live(cfg, m, now), k), log, bound)
  {
    var b := BucketOf(m, k);
    var d :| log == d + b && Below(d, bound - WINDOW);
    if k in m && k !in Live(cfg, m, now) && b != [] {
      SplitSorted(d, b, late);
      forall i | 0 <= i < |log| ensures log[i] < bound - WINDOW {
        if i >= |d| { assert log[i] == b[i - |d|] && b[i - |d|] - late <= b[|b| - 1]; }
      }
      assert log == log + BucketOf(Live(cfg, m, now), k);
    } else {
      assert BucketOf(Live(cfg, m, now), k) == b;
    }
  }

  /** What is remembered of client `k` when request `|es| - 1` is judged. */
  function KnownAtLast(cfg: Config, k: string, es: seq<Event>): seq<real>
    requires es != []
  {
    if EvictedAt(cfg, es, k, |es| - 1) then [] else Remembered(cfg, k, es[..|es| - 1])
  }

  lemma SimWeakens(b: seq<real>, log: seq<real>, bound: real, more: real)
    requires Sim(b, log, bound) && bound <= more
    ensures Sim(b, log, more)
  {}

  /** Pruning and eviction leave every client's bucket a suffix of what is remembered of it. */
  lemma SimAtMid(cfg: Config, es: seq<Event>, k: string, late: real)
    requires es != [] && Run(cfg, es) && AtMostLate(es, late) && late >= 0.0
    requires |es| > 1 ==>
               Sim(BucketOf(Before(es, |es| - 1), k), Remembered(cfg, k, es[..|es| - 1]), High(es[..|es| - 1]) + late)
    ensures Sim(BucketOf(es[|es| - 1].mid, k), KnownAtLast(cfg, k, es), High(es) + late)
  {
    var n := |es| - 1;
    var e, m, bound := es[n], Before(es, n), High(es) + late;
    assert StepAt(cfg, es, n);
    HighBounds(es, late);
    if EvictedAt(cfg, es, k, n) {
      assert BucketOf(e.mid, k) == [] && [] + BucketOf(e.mid, k) == [];
    } else {
      var log := Remembered(cfg, k, es[..n]);
      if n == 0 {
        assert log == [] + BucketOf(m, k);
      } else {
        RunPrefix(cfg, es, late, n);
        RememberedIsNearlySorted(cfg, k, es[..n], late);
        SimWeakens(BucketOf(m, k), log, High(es[..n]) + late, bound);
      }
      SimPruned(cfg, m, k, log, bound, e.now, late);
      assert BucketOf(e.mid, k) == BucketOf(Live(cfg, m, e.now), k);
    }
  }

  lemma SimJudged(b: seq<real>, log: seq<real>, bound: real, now: real)
    requires Sim(b, log, bound) && now <= bound
    ensures Sim(Expire(b, now - WINDOW), log, bound)
    ensures Sim(Expire(b, now - WINDOW) + [now], log + [now], bound)
  {
    var d := SimExpires(b, log, bound, now);
    assert log + [now] == d + (Expire(b, now - WINDOW) + [now]);
  }

  /** The unexpired part of the bucket that the last request is judged by. */
  function LastBucket(es: seq<Event>): seq<real>
    requires es != []
  {
    var e := es[|es| - 1];
    Expire(BucketOf(e.mid, e.key), e.now - WINDOW)
  }

  lemma LastServed(cfg: Config, es: seq<Event>)
    requires es != [] && Run(cfg, es)
    ensures var e := es[|es| - 1];
            && e.verdict == Judge(LimitOf(cfg, e.key), LastBucket(es), e.now)
            && e.after == e.mid[e.key := if e.verdict.Pass? then LastBucket(es) + [e.now] else LastBucket(es)]
  {
    assert StepAt(cfg, es, |es| - 1);
  }

  /** What serving a request does to the bucket `b` and the log of a client, its own request or not. */
  lemma SimFollows(b: seq<real>, log: seq<real>, bound: real, now: real, own: bool, pass: bool,
                   b': seq<real>, log': seq<real>)
    requires Sim(b, log, bound) && now <= bound
    requires !own ==> b' == b && log' == log
    requires own && pass ==> b' == Expire(b, now - WINDOW) + [now] && log' == log + [now]
    requires own && !pass ==> b' == Expire(b, now - WINDOW) && log' == log
    ensures Sim(b', log', bound)
  {
    SimJudged(b, log, bound, now);
  }

  lemma RememberedGrows(cfg: Config, es: seq<Event>, k: string)
    requires es != []
    ensures var n := |es| - 1;
            Remembered(cfg, k, es) ==
              if AdmittedAt(es, k, n) then KnownAtLast(cfg, k, es) + [es[n].now] else KnownAtLast(cfg, k, es)
  {}

  /** The last request, seen from client `k`. */
  lemma LastStep(cfg: Config, es: seq<Event>, k: string)
    requires es != [] && Run(cfg, es)
    ensures var e := es[|es| - 1];
            var x, known := Expire(BucketOf(e.mid, k), e.now - WINDOW), KnownAtLast(cfg, k, es);
            && (e.key != k ==> BucketOf(e.after, k) == BucketOf(e.mid, k) && Remembered(cfg, k, es) == known)
            && (e.key == k && e.verdict.Pass? ==>
                  BucketOf(e.after, k) == x + [e.now] && Remembered(cfg, k, es) == known + [e.now])
            && (e.key == k && !e.verdict.Pass? ==> BucketOf(e.after, k) == x && Remembered(cfg, k, es) == known)
  {
    LastServed(cfg, es);
    RememberedGrows(cfg, es, k);
  }

  lemma SimServed(cfg: Config, es: seq<Event>, k: string, bound: real)
    requires es != [] && Run(cfg, es) && es[|es| - 1].now <= bound
    requires Sim(BucketOf(es[|es| - 1].mid, k), KnownAtLast(cfg, k, es), bound)
    ensures Sim(BucketOf(es[|es| - 1].after, k), Remembered(cfg, k, es), bound)
  {
    var e := es[|es| - 1];
    LastStep(cfg, es, k);
    SimFollows(BucketOf(e.mid, k), KnownAtLast(cfg, k, es), bound, e.now, e.key == k, e.verdict.Pass?,
               BucketOf(e.after, k), Remembered(cfg, k, es));
  }

  /** After every run in which no stamp is more than `late` late, each client's bucket holds what the
      limiter remembers of it, except admissions that are out of every later window. */
  lemma {:induction false} SimAlongRun(cfg: Config, es: seq<Event>, k: string, late: real)
    requires es != [] && Run(cfg, es) && AtMostLate(es, late) && late >= 0.0
    ensures Sim(BucketOf(es[|es| - 1].mid, k), KnownAtLast(cfg, k, es), High(es) + late)
    ensures Sim(BucketOf(es[|es| - 1].after, k), Remembered(cfg, k, es), High(es) + late)
  {
    var n := |es| - 1;
    if n > 0 {
      RunPrefix(cfg, es, late, n);
      SimAlongRun(cfg, es[..n], k, late);
    }
    SimAtMid(cfg, es, k, late);
    HighBounds(es, late);
    SimServed(cfg, es, k, High(es) + late);
  }

  /** The bucket a request is judged by, against what is remembered of its client. */
  lemma JudgedBucket(cfg: Config, es: seq<Event>, late: real) returns (d: seq<real>)
    requires es != [] && Run(cfg, es) && AtMostLate(es, late) && late >= 0.0
    ensures var e := es[|es| - 1];
            && Remembered(cfg, e.key, es[..|es| - 1]) == d + LastBucket(es)
            && Below(d, e.now + 2.0 * late - WINDOW)
            && (LastBucket(es) != [] ==> LastBucket(es)[0] >= e.now - WINDOW)
  {
    var e := es[|es| - 1];
    SimAlongRun(cfg, es, e.key, late);
    OwnRequestSpares(cfg, es, |es| - 1);
    HighBounds(es, late);
    d := SimExpires(BucketOf(e.mid, e.key), Remembered(cfg, e.key, es[..|es| - 1]), High(es) + late, e.now);
    var _ := ExpireSplits(BucketOf(e.mid, e.key), e.now - WINDOW);
  }

  // ---------- clients the cap never evicts ----------

  /** Of a client that is never evicted everything is remembered. */
  lemma {:induction false} NothingForgotten(cfg: Config, es: seq<Event>, k: string)
    requires Run(cfg, es) && NeverEvicted(cfg, es, k)
    ensures Remembered(cfg, k, es) == AdmittedOf(k, es)
  {
    if es != [] {
      var n := |es| - 1;
      forall i | 0 <= i < n ensures StepAt(cfg, es[..n], i) && !EvictedAt(cfg, es[..n], k, i) {
        assert StepAt(cfg, es, i) && !EvictedAt(cfg, es, k, i);
      }
      NothingForgotten(cfg, es[..n], k);
    }
  }
}
