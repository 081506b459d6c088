/** What a rejected client is told (section 10.2.3 of RFC 9110), and when it is admitted again. */
module RateLimiterRetry {
  import opened RateLimiter
  import opened RateLimiterRuns
  import opened RateLimiterTheorems

  lemma {:induction false} AllWithin(h: seq<real>, lo: real)
    requires UpTo(h, lo + WINDOW)
    ensures Within(h, lo, WINDOW) == Window(h, lo)
  {
    if h != [] {
      var n := |h| - 1;
      AllWithin(h[..n], lo);
      assert h == h[..n] + [h[n]];
      WindowConcat(h[..n], [h[n]], lo);
    }
  }

  lemma {:induction false} Rewindow(h: seq<real>, c: real, d: real)
    requires c <= d
    ensures Window(Window(h, c), d) == Window(h, d)
  {
    if h != [] {
      var rest := Window(h[1..], c);
      Rewindow(h[1..], c, d);
      if h[0] >= c {
        assert Window(h, c) == [h[0]] + rest && ([h[0]] + rest)[1..] == rest;
      }
    }
  }

  lemma {:induction false} WindowShrinks(w: seq<real>, d: real)
    ensures |Window(w, d)| <= |w|
    ensures w != [] && w[0] < d ==> |Window(w, d)| < |w|
  {
    if w != [] { WindowShrinks(w[1..], d); }
  }

  lemma RememberedInOrder(cfg: Config, es: seq<Event>, k: string, i: nat)
    requires i < |es| && Run(cfg, es) && ClockOrdered(es)
    ensures Sorted(Remembered(cfg, k, es[..i])) && UpTo(Remembered(cfg, k, es[..i]), es[i].now)
  {
    if i > 0 {
      RunPrefix(cfg, es, 0.0, i);
      RememberedIsNearlySorted(cfg, k, es[..i], 0.0);
      HighBounds(es[..i], 0.0);
      assert es[i - 1].now - 0.0 <= es[i].now;
    }
  }

  lemma WindowFits(cfg: Config, es: seq<Event>, k: string, i: nat)
    requires i < |es| && Run(cfg, es) && ClockOrdered(es)
    ensures |Window(Remembered(cfg, k, es[..i]), es[i].now - WINDOW)| <= Positive(LimitOf(cfg, k))
  {
    RememberedInOrder(cfg, es, k, i);
    RunPrefix(cfg, es, 0.0, i);
    AllWithin(Remembered(cfg, k, es[..i]), es[i].now - WINDOW);
    NoBurst(cfg, es[..i], k, 0.0, es[i].now - WINDOW, WINDOW);
  }

  /** The admissions that decide on request `i`. */
  function Deciding(cfg: Config, es: seq<Event>, i: nat): seq<real>
    requires i < |es|
  {
    Window(Remembered(cfg, es[i].key, es[..i]), es[i].now - WINDOW)
  }

  /** The state behind a rejection: exactly `limit` admissions decide, and the oldest fixes the wait. */
  lemma RejectionWindow(cfg: Config, es: seq<Event>, i: nat)
    requires i < |es| && Run(cfg, es) && ClockOrdered(es) && es[i].verdict.TooMany?
    ensures var w := Deciding(cfg, es, i);
            && |w| > 0 && |w| == LimitOf(cfg, es[i].key) && es[i].now - WINDOW <= w[0] <= es[i].now
            && es[i].verdict == Judge(LimitOf(cfg, es[i].key), w, es[i].now) && From(w, w[0])
  {
    var k := es[i].key;
    var w := Deciding(cfg, es, i);
    VerdictIsIdeal(cfg, es, i);
    WindowFits(cfg, es, k, i);
    RememberedInOrder(cfg, es, k, i);
    WindowIsSorted(Remembered(cfg, k, es[..i]), es[i].now - WINDOW);
    forall j | 0 <= j < |w| ensures w[j] >= w[0] { if j > 0 { assert w[0] - 0.0 <= w[j]; } }
  }

  // ---------- from a rejection to the next request ----------

  /** Some request from `i` to before `j` makes the cap evict client `k`. */
  predicate EvictedIn(cfg: Config, es: seq<Event>, k: string, i: nat, j: nat)
    requires j <= |es|
  {
    exists n | i <= n < j :: EvictedAt(cfg, es, k, n)
  }

  ghost predicate NoneAdmittedIn(es: seq<Event>, k: string, i: nat, j: nat)
    requires j <= |es|
  {
    forall n :: i <= n < j ==> !AdmittedAt(es, k, n)
  }

  lemma {:induction false} NothingNew(cfg: Config, es: seq<Event>, k: string, i: nat, j: nat)
    requires i <= j <= |es| && Run(cfg, es) && ClockOrdered(es) && NoneAdmittedIn(es, k, i, j)
    ensures Remembered(cfg, k, es[..j]) == if EvictedIn(cfg, es, k, i, j) then [] else Remembered(cfg, k, es[..i])
    decreases j
  {
    if i < j {
      var m := j - 1;
      NothingNew(cfg, es, k, i, m);
      RunPrefix(cfg, es, 0.0, j);
      assert es[..j][..m] == es[..m];
      assert AdmittedAt(es[..j], k, m) == AdmittedAt(es, k, m);
      assert EvictedAt(cfg, es[..j], k, m) == EvictedAt(cfg, es, k, m);
    }
  }

  /** Client `k` is turned away by request `i`, asks again with request `j`, and is not admitted between. */
  ghost predicate Retries(cfg: Config, es: seq<Event>, i: nat, j: nat) {
    && i < j < |es| && Run(cfg, es) && ClockOrdered(es)
    && es[i].key == es[j].key && es[i].verdict.TooMany? && NoneAdmittedIn(es, es[i].key, i, j)
  }

  lemma KnownWhenRetrying(cfg: Config, es: seq<Event>, i: nat, j: nat)
    requires Retries(cfg, es, i, j)
    ensures Deciding(cfg, es, j) ==
              if EvictedIn(cfg, es, es[i].key, i, j) then [] else Window(Deciding(cfg, es, i), es[j].now - WINDOW)
  {
    var h, c, d := Remembered(cfg, es[i].key, es[..i]), es[i].now - WINDOW, es[j].now - WINDOW;
    NothingNew(cfg, es, es[i].key, i, j);
    assert c <= d by { assert es[i].now - 0.0 <= es[j].now; }
    assert Window(Window(h, c), d) == Window(h, d) by { Rewindow(h, c, d); }
  }

  /** The client is let in again exactly if the cap has evicted it since, or the oldest of the admissions
      that decided against it has become more than `WINDOW` old. */
  lemma AdmittedAgainIff(cfg: Config, es: seq<Event>, i: nat, j: nat)
    requires Retries(cfg, es, i, j)
    ensures Deciding(cfg, es, i) != []
    ensures es[j].verdict.Pass? <==>
              EvictedIn(cfg, es, es[i].key, i, j) || es[j].now > Deciding(cfg, es, i)[0] + WINDOW
  {
    var w, d := Deciding(cfg, es, i), es[j].now - WINDOW;
    RejectionWindow(cfg, es, i);
    KnownWhenRetrying(cfg, es, i, j);
    VerdictIsIdeal(cfg, es, j);
    WindowShrinks(w, d);
    if w[0] >= d { WindowOfFresh(w, d); }
  }

  /** The advertised wait is between 1 and 60 seconds, and one second more always suffices. */
  lemma RetryAfterSuffices(cfg: Config, es: seq<Event>, i: nat, j: nat)
    requires Retries(cfg, es, i, j)
    ensures 1 <= es[i].verdict.retryAfter <= 60
    ensures es[j].now >= es[i].now + es[i].verdict.retryAfter as real + 1.0 ==> es[j].verdict == Pass
  {
    RejectionWindow(cfg, es, i);
    AdmittedAgainIff(cfg, es, i, j);
  }

  /** What is left of the window at a rejection; the wait is this number, rounded down, but at least 1. */
  function Remaining(cfg: Config, es: seq<Event>, i: nat): real
    requires i < |es| && Deciding(cfg, es, i) != []
  {
    WINDOW - (es[i].now - Deciding(cfg, es, i)[0])
  }

  /** The wait as advertised suffices exactly if less than one second was left: that is when rounding down
      is overridden by the minimum of 1. Otherwise a client that comes back on the second is turned away. */
  lemma WaitSufficesIff(cfg: Config, es: seq<Event>, i: nat, j: nat)
    requires Retries(cfg, es, i, j) && !EvictedIn(cfg, es, es[i].key, i, j)
    ensures Deciding(cfg, es, i) != []
    ensures es[j].now == es[i].now + es[i].verdict.retryAfter as real ==>
              (es[j].verdict.Pass? <==> Remaining(cfg, es, i) < 1.0)
    ensures es[j].now >= es[i].now + es[i].verdict.retryAfter as real && Remaining(cfg, es, i) < 1.0 ==>
              es[j].verdict.Pass?
  {
    RejectionWindow(cfg, es, i);
    AdmittedAgainIff(cfg, es, i, j);
  }
}
