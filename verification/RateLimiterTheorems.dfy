/** What the bucket limiter promises over whole runs, measured against an ideal limiter that counts every
    admission it remembers that is at most `WINDOW` seconds old. */
module RateLimiterTheorems {
  import Common
  import opened RateLimiter
  import opened RateLimiterRuns

  // ---------- the ideal limiter of one client ----------

  /** The timestamps not older than the cutoff, wherever they stand. */
  function Window(h: seq<real>, cutoff: real): seq<real> {
    if h == [] then []
    else if h[0] >= cutoff then [h[0]] + Window(h[1..], cutoff)
    else Window(h[1..], cutoff)
  }

  function IdealVerdict(limit: int, log: seq<real>, now: real): Verdict {
    Judge(limit, Window(log, now - WINDOW), now)
  }

  /** What one client lives through: its own requests, and evictions. */
  datatype Mark = Asked(at: real) | Forgotten

  /** Everything the ideal limiter has admitted since it was last made to forget. */
  function IdealLog(limit: int, ms: seq<Mark>): seq<real> {
    if ms == [] then [] else
      var h, m := IdealLog(limit, ms[..|ms| - 1]), ms[|ms| - 1];
      if m.Forgotten? then [] else if IdealVerdict(limit, h, m.at).Pass? then h + [m.at] else h
  }

  function IdealVerdicts(limit: int, ms: seq<Mark>): seq<Verdict> {
    if ms == [] then [] else
      var init, m := ms[..|ms| - 1], ms[|ms| - 1];
      IdealVerdicts(limit, init) + if m.Asked? then [IdealVerdict(limit, IdealLog(limit, init), m.at)] else []
  }

  function MarksOf(cfg: Config, k: string, es: seq<Event>): seq<Mark> {
    if es == [] then [] else
      var n := |es| - 1;
      MarksOf(cfg, k, es[..n]) + (if EvictedAt(cfg, es, k, n) then [Forgotten] else [])
      + (if es[n].key == k then [Asked(es[n].now)] else [])
  }

  function VerdictsOf(k: string, es: seq<Event>): seq<Verdict> {
    if es == [] then [] else
      VerdictsOf(k, es[..|es| - 1]) + if es[|es| - 1].key == k then [es[|es| - 1].verdict] else []
  }

  // ---------- windows ----------

  lemma {:induction false} WindowConcat(a: seq<real>, b: seq<real>, c: real)
    ensures Window(a + b, c) == Window(a, c) + Window(b, c)
  {
    if a == [] {
      assert a + b == b;
    } else {
      assert (a + b)[1..] == a[1..] + b;
      WindowConcat(a[1..], b, c);
    }
  }

  lemma {:induction false} WindowOfOld(d: seq<real>, c: real)
    requires Below(d, c)
    ensures Window(d, c) == []
  {
    if d != [] { WindowOfOld(d[1..], c); }
  }

  lemma {:induction false} WindowOfFresh(b: seq<real>, c: real)
    requires From(b, c)
    ensures Window(b, c) == b
  {
    if b != [] { WindowOfFresh(b[1..], c); }
  }

  lemma {:induction false} WindowIsSorted(h: seq<real>, c: real)
    requires Sorted(h)
    ensures Sorted(Window(h, c))
    ensures forall i :: 0 <= i < |Window(h, c)| ==> Window(h, c)[i] >= c && Window(h, c)[i] in h
  {
    if h != [] { WindowIsSorted(h[1..], c); }
  }

  // ---------- refinement and isolation ----------

  lemma SortedFrom(b: seq<real>, c: real)
    requires Sorted(b) && (b != [] ==> b[0] >= c)
    ensures From(b, c)
  {}

  lemma SuffixIsWindow(d: seq<real>, x: seq<real>, c: real)
    requires Sorted(d + x) && Below(d, c) && (x != [] ==> x[0] >= c)
    ensures Window(d + x, c) == x
  {
    SplitSorted(d, x, 0.0);
    SortedFrom(x, c);
    WindowConcat(d, x, c);
    WindowOfOld(d, c);
    WindowOfFresh(x, c);
  }

  lemma LastVerdictIsIdeal(cfg: Config, es: seq<Event>)
    requires es != [] && Run(cfg, es) && ClockOrdered(es)
    ensures var n := |es| - 1;
            es[n].verdict == IdealVerdict(LimitOf(cfg, es[n].key), Remembered(cfg, es[n].key, es[..n]), es[n].now)
  {
    var n := |es| - 1;
    var log := Remembered(cfg, es[n].key, es[..n]);
    assert Sorted(log) by {
      if n > 0 {
        RunPrefix(cfg, es, 0.0, n);
        RememberedIsNearlySorted(cfg, es[n].key, es[..n], 0.0);
      }
    }
    assert Window(log, es[n].now - WINDOW) == LastBucket(es) by {
      var d := JudgedBucket(cfg, es, 0.0);
      SuffixIsWindow(d, LastBucket(es), es[n].now - WINDOW);
    }
    LastServed(cfg, es);
  }

  /** In clock order every request is judged by the window of what is remembered of its client, and
      nothing else. */
  lemma VerdictIsIdeal(cfg: Config, es: seq<Event>, i: nat)
    requires i < |es| && Run(cfg, es) && ClockOrdered(es)
    ensures es[i].verdict ==
              IdealVerdict(LimitOf(cfg, es[i].key), Remembered(cfg, es[i].key, es[..i]), es[i].now)
  {
    RunPrefix(cfg, es, 0.0, i + 1);
    assert es[..i + 1][..i] == es[..i];
    LastVerdictIsIdeal(cfg, es[..i + 1]);
  }

  lemma IdealUnfolds(limit: int, ms: seq<Mark>, m: Mark)
    ensures IdealVerdicts(limit, ms + [m]) ==
              IdealVerdicts(limit, ms) + if m.Asked? then [IdealVerdict(limit, IdealLog(limit, ms), m.at)] else []
    ensures IdealLog(limit, ms + [m]) ==
              if m.Forgotten? then [] else
              if IdealVerdict(limit, IdealLog(limit, ms), m.at).Pass? then IdealLog(limit, ms) + [m.at] else IdealLog(limit, ms)
  {
    assert (ms + [m])[..|ms|] == ms;
  }

  /** Whatever the other clients do, a client sees exactly the verdicts, waits included, of an ideal
      limiter that serves it alone and forgets it when the hard cap evicts it. */
  lemma {:induction false} RefinesIdealLimiter(cfg: Config, es: seq<Event>, k: string)
    requires Run(cfg, es) && ClockOrdered(es)
    ensures VerdictsOf(k, es) == IdealVerdicts(LimitOf(cfg, k), MarksOf(cfg, k, es))
    ensures Remembered(cfg, k, es) == IdealLog(LimitOf(cfg, k), MarksOf(cfg, k, es))
  {
    if es != [] {
      var n, limit := |es| - 1, LimitOf(cfg, k);
      var p, e, ms := es[..n], es[n], MarksOf(cfg, k, es[..n]);
      RunPrefix(cfg, es, 0.0, n);
      RefinesIdealLimiter(cfg, p, k);
      if EvictedAt(cfg, es, k, n) {
        if e.key == k { OwnRequestSpares(cfg, es, n); }
        assert MarksOf(cfg, k, es) == ms + [Forgotten];
        IdealUnfolds(limit, ms, Forgotten);
      } else if e.key == k {
        assert MarksOf(cfg, k, es) == ms + [Asked(e.now)];
        LastVerdictIsIdeal(cfg, es);
        IdealUnfolds(limit, ms, Asked(e.now));
      } else {
        assert MarksOf(cfg, k, es) == ms;
      }
    }
  }

  function Asks(k: string, es: seq<Event>): seq<Mark> {
    if es == [] then [] else
      Asks(k, es[..|es| - 1]) + if es[|es| - 1].key == k then [Asked(es[|es| - 1].now)] else []
  }

  /** A client the cap never evicts gets the verdicts of a limiter that keeps every timestamp for ever. */
  lemma {:induction false} RefinesUnboundedLimiter(cfg: Config, es: seq<Event>, k: string)
    requires Run(cfg, es) && ClockOrdered(es) && NeverEvicted(cfg, es, k)
    ensures VerdictsOf(k, es) == IdealVerdicts(LimitOf(cfg, k), Asks(k, es))
    ensures AdmittedOf(k, es) == IdealLog(LimitOf(cfg, k), Asks(k, es))
  {
    NothingForgotten(cfg, es, k);
    RefinesIdealLimiter(cfg, es, k);
    OnlyAsks(cfg, es, k);
  }

  lemma {:induction false} OnlyAsks(cfg: Config, es: seq<Event>, k: string)
    requires NeverEvicted(cfg, es, k)
    ensures MarksOf(cfg, k, es) == Asks(k, es)
  {
    if es != [] {
      var n := |es| - 1;
      forall i | 0 <= i < n ensures !EvictedAt(cfg, es[..n], k, i) { assert !EvictedAt(cfg, es, k, i); }
      OnlyAsks(cfg, es[..n], k);
    }
  }

  /** Two runs in which client `k` asks at the same times and is evicted at the same points give it the
      same verdicts: evicting it is the one thing other clients can do to it. */
  lemma ClientsAreIsolated(cfg: Config, es: seq<Event>, fs: seq<Event>, k: string)
    requires Run(cfg, es) && ClockOrdered(es) && Run(cfg, fs) && ClockOrdered(fs)
    requires MarksOf(cfg, k, es) == MarksOf(cfg, k, fs)
    ensures VerdictsOf(k, es) == VerdictsOf(k, fs)
  {
    RefinesIdealLimiter(cfg, es, k);
    RefinesIdealLimiter(cfg, fs, k);
  }

  // ---------- no burst ----------

  function Positive(limit: int): nat { if limit < 0 then 0 else limit }

  /** The timestamps in the closed window of the given width. */
  function Within(h: seq<real>, lo: real, width: real): seq<real> {
    if h == [] then [] else
      var n := |h| - 1;
      Within(h[..n], lo, width) + if lo <= h[n] <= lo + width then [h[n]] else []
  }

  lemma {:induction false} WithinConcat(a: seq<real>, b: seq<real>, lo: real, width: real)
    ensures Within(a + b, lo, width) == Within(a, lo, width) + Within(b, lo, width)
  {
    if b == [] {
      assert a + b == a;
    } else {
      var n := |b| - 1;
      WithinConcat(a, b[..n], lo, width);
      assert (a + b)[..|a| + n] == a + b[..n];
    }
  }

  lemma {:induction false} WithinSize(h: seq<real>, lo: real, width: real)
    ensures |Within(h, lo, width)| <= |h|
    ensures Below(h, lo) ==> Within(h, lo, width) == []
  {
    if h != [] { WithinSize(h[..|h| - 1], lo, width); }
  }

  lemma WithinGrows(cfg: Config, k: string, es: seq<Event>, lo: real, width: real)
    requires es != []
    ensures var n := |es| - 1;
            Within(Remembered(cfg, k, es), lo, width) == Within(KnownAtLast(cfg, k, es), lo, width) +
              if AdmittedAt(es, k, n) && lo <= es[n].now <= lo + width then [es[n].now] else []
  {
    var n := |es| - 1;
    var added := if AdmittedAt(es, k, n) then [es[n].now] else [];
    assert Remembered(cfg, k, es) == KnownAtLast(cfg, k, es) + added;
    WithinConcat(KnownAtLast(cfg, k, es), added, lo, width);
  }

  /** With stamps at most `late` late, no client has more admissions remembered than its limit in any
      closed window of `WINDOW - 2 * late` seconds, wherever it starts. */
  lemma {:induction false} NoBurst(cfg: Config, es: seq<Event>, k: string, late: real, lo: real, width: real)
    requires Run(cfg, es) && AtMostLate(es, late) && late >= 0.0 && width <= WINDOW - 2.0 * late
    ensures |Within(Remembered(cfg, k, es), lo, width)| <= Positive(LimitOf(cfg, k))
  {
    if es != [] {
      var n := |es| - 1;
      RunPrefix(cfg, es, late, n);
      NoBurst(cfg, es[..n], k, late, lo, width);
      if AdmittedAt(es, k, n) {
        OwnRequestSpares(cfg, es, n);
        if lo <= es[n].now <= lo + width { AdmissionFits(cfg, es, late, lo, width); }
      }
      WithinGrows(cfg, k, es, lo, width);
    }
  }

  /** An admission into the window finds room in it. */
  lemma AdmissionFits(cfg: Config, es: seq<Event>, late: real, lo: real, width: real)
    requires es != [] && Run(cfg, es) && AtMostLate(es, late) && late >= 0.0 && width <= WINDOW - 2.0 * late
    requires var e := es[|es| - 1]; e.verdict.Pass? && lo <= e.now <= lo + width
    ensures var e := es[|es| - 1];
            |Within(Remembered(cfg, e.key, es[..|es| - 1]), lo, width)| < LimitOf(cfg, e.key)
  {
    var d := JudgedBucket(cfg, es, late);
    assert |LastBucket(es)| < LimitOf(cfg, es[|es| - 1].key) by { LastServed(cfg, es); }
    OnlySuffixCounts(d, LastBucket(es), lo, width);
  }

  lemma OnlySuffixCounts(d: seq<real>, x: seq<real>, lo: real, width: real)
    requires Below(d, lo)
    ensures |Within(d + x, lo, width)| <= |x|
  {
    WithinConcat(d, x, lo, width);
    WithinSize(d, lo, width);
    WithinSize(x, lo, width);
  }

  /** How often the cap evicts client `k` by requests stamped in the window. */
  function EvictionsWithin(cfg: Config, k: string, es: seq<Event>, lo: real): nat {
    if es == [] then 0 else
      var n := |es| - 1;
      EvictionsWithin(cfg, k, es[..n], lo) +
      Common.Bit(EvictedAt(cfg, es, k, n) && lo <= es[n].now <= lo + WINDOW)
  }

  lemma {:induction false} NothingAdmittedYet(k: string, es: seq<Event>, lo: real)
    requires forall i :: 0 <= i < |es| ==> es[i].now < lo
    ensures Within(AdmittedOf(k, es), lo, WINDOW) == []
  {
    if es != [] {
      var n := |es| - 1;
      NothingAdmittedYet(k, es[..n], lo);
      AdmittedGrows(k, es, lo);
    }
  }

  lemma AdmittedGrows(k: string, es: seq<Event>, lo: real)
    requires es != []
    ensures var n := |es| - 1;
            Within(AdmittedOf(k, es), lo, WINDOW) == Within(AdmittedOf(k, es[..n]), lo, WINDOW) +
              if AdmittedAt(es, k, n) && lo <= es[n].now <= lo + WINDOW then [es[n].now] else []
  {
    var n := |es| - 1;
    var added := if AdmittedAt(es, k, n) then [es[n].now] else [];
    assert AdmittedOf(k, es) == AdmittedOf(k, es[..n]) + added;
    WithinConcat(AdmittedOf(k, es[..n]), added, lo, WINDOW);
  }

  lemma Times(a: nat, n: nat)
    ensures a * (n + 1) == a * n + a
  {}

  /** An eviction takes what was remembered into the part that is paid for by one more limit. */
  lemma Tally(limit: nat, evictions: nat, admitted: nat, remembered: nat, evicted: bool, added: nat)
    requires admitted <= limit * evictions + remembered && remembered <= limit
    ensures admitted + added <=
              limit * (evictions + Common.Bit(evicted)) + (if evicted then 0 else remembered) + added
  {
    Times(limit, evictions);
  }

  ghost predicate Paid(cfg: Config, es: seq<Event>, k: string, lo: real) {
    |Within(AdmittedOf(k, es), lo, WINDOW)| <=
      Positive(LimitOf(cfg, k)) * EvictionsWithin(cfg, k, es, lo) + |Within(Remembered(cfg, k, es), lo, WINDOW)|
  }

  lemma PaidStep(cfg: Config, es: seq<Event>, k: string, lo: real)
    requires es != [] && lo <= es[|es| - 1].now <= lo + WINDOW && Paid(cfg, es[..|es| - 1], k, lo)
    requires |Within(Remembered(cfg, k, es[..|es| - 1]), lo, WINDOW)| <= Positive(LimitOf(cfg, k))
    ensures Paid(cfg, es, k, lo)
  {
    var n := |es| - 1;
    var p := es[..n];
    AdmittedGrows(k, es, lo);
    WithinGrows(cfg, k, es, lo, WINDOW);
    Tally(Positive(LimitOf(cfg, k)), EvictionsWithin(cfg, k, p, lo), |Within(AdmittedOf(k, p), lo, WINDOW)|,
          |Within(Remembered(cfg, k, p), lo, WINDOW)|, EvictedAt(cfg, es, k, n), Common.Bit(AdmittedAt(es, k, n)));
  }

  /** While the window is open, its admissions are those remembered, plus one limit for each eviction. */
  lemma {:induction false} BurstWhileOpen(cfg: Config, es: seq<Event>, k: string, lo: real)
    requires Run(cfg, es) && ClockOrdered(es) && forall i :: 0 <= i < |es| ==> es[i].now <= lo + WINDOW
    ensures Paid(cfg, es, k, lo)
  {
    if es != [] {
      var n := |es| - 1;
      if es[n].now < lo {
        forall i | 0 <= i < n ensures es[i].now < lo { assert es[i].now - 0.0 <= es[n].now; }
        NothingAdmittedYet(k, es, lo);
      } else {
        RunPrefix(cfg, es, 0.0, n);
        BurstWhileOpen(cfg, es[..n], k, lo);
        NoBurst(cfg, es[..n], k, 0.0, lo, WINDOW);
        PaidStep(cfg, es, k, lo);
      }
    }
  }

  /** In clock order, and whatever the cap does: in any closed window no client is admitted more often
      than its limit, plus its limit again for each time it was evicted in that window. */
  lemma {:induction false} BurstWithEvictions(cfg: Config, es: seq<Event>, k: string, lo: real)
    requires Run(cfg, es) && ClockOrdered(es)
    ensures |Within(AdmittedOf(k, es), lo, WINDOW)| <=
              Positive(LimitOf(cfg, k)) * (EvictionsWithin(cfg, k, es, lo) + 1)
  {
    var n, limit := |es| - 1, Positive(LimitOf(cfg, k));
    if es == [] || es[n].now <= lo + WINDOW {
      forall i | 0 <= i < |es| ensures es[i].now <= lo + WINDOW { if i < n { assert es[i].now - 0.0 <= es[n].now; } }
      BurstWhileOpen(cfg, es, k, lo);
      NoBurst(cfg, es, k, 0.0, lo, WINDOW);
      Times(limit, EvictionsWithin(cfg, k, es, lo));
    } else {
      RunPrefix(cfg, es, 0.0, n);
      BurstWithEvictions(cfg, es[..n], k, lo);
      AdmittedGrows(k, es, lo);
    }
  }

  // ---------- bounded state, evictions included ----------

  ghost predicate BucketOk(b: seq<real>, limit: int, last: real) {
    && Sorted(b) && UpTo(b, last)
    && |b| <= Positive(limit)
    && (limit >= 1 ==> b != [])
  }

  function Capacity(cfg: Config): nat { if cfg.hardCap < 1 then 1 else cfg.hardCap }

  ghost predicate Bounded(cfg: Config, m: Buckets, last: real) {
    && |m| <= Capacity(cfg)
    && forall k | k in m :: BucketOk(m[k], LimitOf(cfg, k), last)
  }

  lemma LiveIsSmaller(cfg: Config, m: Buckets, now: real)
    ensures Live(cfg, m, now).Keys <= m.Keys && |Live(cfg, m, now)| <= |m|
  {
    Common.SubsetSize(Live(cfg, m, now).Keys, m.Keys);
  }

  lemma UpToSuffix(d: seq<real>, x: seq<real>, t: real)
    requires UpTo(d + x, t)
    ensures UpTo(x, t)
  {
    forall i | 0 <= i < |x| ensures x[i] <= t { assert (d + x)[|d| + i] == x[i]; }
  }

  lemma SortedSnoc(x: seq<real>, t: real)
    requires Sorted(x) && UpTo(x, t)
    ensures Sorted(x + [t]) && UpTo(x + [t], t)
  {}

  lemma ServedBucketOk(b: seq<real>, limit: int, last: real, now: real)
    requires Sorted(b) && UpTo(b, last) && |b| <= Positive(limit) && last <= now
    ensures var x := Expire(b, now - WINDOW);
            BucketOk(if Judge(limit, x, now).Pass? then x + [now] else x, limit, now)
  {
    var d := ExpireSplits(b, now - WINDOW);
    var x := Expire(b, now - WINDOW);
    SplitSorted(d, x, 0.0);
    UpToSuffix(d, x, last);
    SortedSnoc(x, now);
  }

  lemma SizeStep(cfg: Config, m: Buckets, e: Event)
    requires |m| <= Capacity(cfg)
    requires Next(cfg, m, e.key, e.now, e.mid, e.verdict, e.after)
    ensures |e.after| <= Capacity(cfg)
    ensures forall k | k in e.after && k != e.key :: k in m && e.after[k] == m[k]
    ensures BucketOf(e.mid, e.key) == [] || BucketOf(e.mid, e.key) == BucketOf(m, e.key)
  {
    LiveIsSmaller(cfg, m, e.now);
    assert e.after.Keys == e.mid.Keys + {e.key};
    assert |e.after.Keys| <= |e.mid.Keys| + 1;
    if e.key in e.mid { assert e.after.Keys == e.mid.Keys; }
  }

  lemma BucketsStayOk(cfg: Config, m: Buckets, after: Buckets, key: string, last: real, now: real)
    requires last <= now
    requires forall k | k in m :: BucketOk(m[k], LimitOf(cfg, k), last)
    requires forall k | k in after && k != key :: k in m && after[k] == m[k]
    requires key in after ==> BucketOk(after[key], LimitOf(cfg, key), now)
    ensures forall k | k in after :: BucketOk(after[k], LimitOf(cfg, k), now)
  {
    forall k | k in after ensures BucketOk(after[k], LimitOf(cfg, k), now) {
      if k != key { assert BucketOk(m[k], LimitOf(cfg, k), last); }
    }
  }

  lemma BoundedStep(cfg: Config, m: Buckets, e: Event, last: real)
    requires Bounded(cfg, m, last) && last <= e.now
    requires Next(cfg, m, e.key, e.now, e.mid, e.verdict, e.after)
    ensures Bounded(cfg, e.after, e.now)
  {
    SizeStep(cfg, m, e);
    var b := BucketOf(e.mid, e.key);
    if b != [] { assert BucketOk(m[e.key], LimitOf(cfg, e.key), last); }
    ServedBucketOk(b, LimitOf(cfg, e.key), last, e.now);
    BucketsStayOk(cfg, m, e.after, e.key, last, e.now);
  }

  /** After every request of every run: at most `hardCap` buckets, each one sorted, within its client's
      limit and, for limits of at least 1, non-empty. */
  lemma {:induction false} StateStaysBounded(cfg: Config, es: seq<Event>)
    requires es != [] && Run(cfg, es) && ClockOrdered(es)
    ensures Bounded(cfg, es[|es| - 1].after, es[|es| - 1].now)
  {
    var p, e := es[..|es| - 1], es[|es| - 1];
    forall i | 0 <= i < |p| ensures StepAt(cfg, p, i) { assert StepAt(cfg, es, i); }
    assert StepAt(cfg, es, |p|);
    if p == [] {
      BoundedStep(cfg, map[], e, e.now);
    } else {
      StateStaysBounded(cfg, p);
      BoundedStep(cfg, Before(es, |p|), e, p[|p| - 1].now);
    }
  }

  /** Even then, the IndexError is raised exactly on the requests of tenants whose limit is below 1; the
      limit of other clients is the switch that turns the limiter on. */
  lemma FaultsIffLimitBelowOne(cfg: Config, es: seq<Event>, i: nat)
    requires i < |es| && Run(cfg, es) && ClockOrdered(es)
    ensures es[i].verdict == Fault <==> TENANT_PREFIX <= es[i].key && cfg.perMinAuth < 1
  {
    var m, e := Before(es, i), es[i];
    forall j | 0 <= j < i ensures StepAt(cfg, es[..i], j) { assert StepAt(cfg, es, j); }
    if i > 0 { StateStaysBounded(cfg, es[..i]); }
    assert StepAt(cfg, es, i);
    SizeStep(cfg, m, e);
    if BucketOf(m, e.key) != [] { assert BucketOk(m[e.key], LimitOf(cfg, e.key), es[i - 1].now); }
  }
}
