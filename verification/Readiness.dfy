/** The readiness cache: a verdict, its timestamp and an event, written one after the other by the probe
    that holds the lock, and read one after the other by callers that do not. */
module Readiness {
  import opened Common

  datatype Verdict = Ready | NotReady

  datatype Config = Config(ttl: real, negativeTtl: real)

  /** Where a caller of `/readyz` stands. `locked` says it is inside the single-flight probe. */
  datatype Caller =
    | Idle
    | Reading(locked: bool)
    | GotVerdict(locked: bool, verdict: Option<Verdict>)
    | GotStamp(locked: bool, verdict: Option<Verdict>, at: real)
    | Vetted(locked: bool, found: Verdict, at: real)    // a verdict, and if ready then the event was set
    | Waiting
    | Probing
    | Concluded(ok: bool)                               // event set or cleared
    | Published(ok: bool)                               // verdict written
    | Timed(ok: bool, time: real)                       // clock read, stamp not yet written

  /** `proof` is the instant of the latest successful probe: when it set the event and, once it has
      stamped its verdict, the stamp. `setAt` stays with the first of the two. */
  datatype System = System(now: real, verdict: Option<Verdict>, stamp: real, event: bool, lock: Option<nat>,
                           callers: seq<Caller>, proof: Option<real>, setAt: real)

  datatype Move =
    | Tick(to: real)
    | Invalidate                      // an operator clears the event
    | Call(i: nat)
    | ReadVerdict(i: nat)
    | ReadStamp(i: nat)
    | CheckEvent(i: nat)
    | CompareClock(i: nat)
    | TakeLock(i: nat)
    | Abort(i: nat)                   // an error outside the guarded checks: the lock is left, nothing written
    | Conclude(i: nat, ok: bool)      // the checks end; the event is set or cleared
    | Publish(i: nat)
    | ReadClock(i: nat)
    | Stamp(i: nat)

  function Ttl(cfg: Config, v: Verdict): real {
    if v.Ready? then cfg.ttl else cfg.negativeTtl
  }

  function To(y: System, i: nat, c: Caller): System
    requires i < |y.callers|
  {
    y.(callers := y.callers[i := c])
  }

  /** Nothing usable in the cache: queue for the lock or, already holding it, probe. */
  function Miss(y: System, i: nat, locked: bool): System
    requires i < |y.callers|
  {
    To(y, i, if locked then Probing else Waiting)
  }

  /** The caller is answered; a locked one leaves the lock. */
  function Leave(y: System, i: nat, locked: bool): System
    requires i < |y.callers|
  {
    To(y, i, Idle).(lock := if locked then None else y.lock)
  }

  /** The caller at Vetted is about to be answered from the cache. */
  predicate Answers(cfg: Config, y: System, i: nat) {
    i < |y.callers| && y.callers[i].Vetted? && y.now - y.callers[i].at < Ttl(cfg, y.callers[i].found)
  }

  function StepCaller(cfg: Config, y: System, m: Move, i: nat): Option<System>
    requires i < |y.callers|
  {
    match (m, y.callers[i])
    case (Call(_), Idle) => Some(To(y, i, Reading(false)))
    case (ReadVerdict(_), Reading(l)) => Some(To(y, i, GotVerdict(l, y.verdict)))
    case (ReadStamp(_), GotVerdict(l, v)) => Some(To(y, i, GotStamp(l, v, y.stamp)))
    case (CheckEvent(_), GotStamp(l, v, at)) =>
      if v.None? || (v.value.Ready? && !y.event) then Some(Miss(y, i, l)) else Some(To(y, i, Vetted(l, v.value, at)))
    case (CompareClock(_), Vetted(l, v, at)) =>
      if y.now - at < Ttl(cfg, v) then Some(Leave(y, i, l)) else Some(Miss(y, i, l))
    case (TakeLock(_), Waiting) => if y.lock.Some? then None else Some(To(y, i, Reading(true)).(lock := Some(i)))
    case (Abort(_), Probing) => Some(Leave(y, i, true))
    case (Conclude(_, ok), Probing) =>
      if ok then Some(To(y, i, Concluded(true)).(event := true, proof := Some(y.now), setAt := y.now))
      else Some(To(y, i, Concluded(false)).(event := false))
    case (Publish(_), Concluded(ok)) =>
      Some(To(y, i, Published(ok)).(verdict := Some(if ok then Ready else NotReady)))
    case (ReadClock(_), Published(ok)) => Some(To(y, i, Timed(ok, y.now)))
    case (Stamp(_), Timed(ok, t)) =>
      Some(Leave(y, i, true).(stamp := t, proof := if ok then Some(t) else y.proof))
    case _ => None
  }

  function Step(cfg: Config, y: System, m: Move): Option<System> {
    match m
    case Tick(t) => if t < y.now then None else Some(y.(now := t))
    case Invalidate => Some(y.(event := false))
    case _ => if m.i < |y.callers| then StepCaller(cfg, y, m, m.i) else None
  }

  function Steps(cfg: Config, y: System, ms: seq<Move>): Option<System> {
    if ms == [] then Some(y)
    else
      var before := Steps(cfg, y, ms[..|ms| - 1]);
      if before.None? then None else Step(cfg, before.value, ms[|ms| - 1])
  }

  /** The module as loaded: no verdict, stamp 0, event clear; a monotonic clock starts at 0 or later. */
  function Start(callers: nat, now: real): System {
    System(now, None, 0.0, false, None, seq(callers, _ => Idle), None, 0.0)
  }

  // ---------- the invariant ----------

  predicate Inside(c: Caller) {
    match c
    case Idle => false
    case Waiting => false
    case Reading(l) => l
    case GotVerdict(l, _) => l
    case GotStamp(l, _, _) => l
    case Vetted(l, _, _) => l
    case _ => true
  }

  /** The latest success is at least as recent as the stamp `at`. */
  predicate Backs(y: System, at: real) {
    y.proof.Some? && at <= y.proof.value
  }

  predicate CallerOk(y: System, c: Caller) {
    match c
    case GotVerdict(l, v) => l ==> v == y.verdict
    case GotStamp(l, v, at) => at <= y.now && (y.event ==> Backs(y, at)) && (l ==> v == y.verdict && at == y.stamp)
    case Vetted(l, v, at) => at <= y.now && (v.Ready? ==> Backs(y, at)) && (l ==> Some(v) == y.verdict && at == y.stamp)
    case Concluded(ok) => !ok ==> !y.event
    case Published(ok) => !ok ==> !y.event
    case Timed(ok, t) => t <= y.now && (if ok then y.proof.Some? && y.proof.value <= t else !y.event)
    case _ => true
  }

  predicate SharedOk(y: System) {
    && y.stamp <= y.now
    && (y.proof.Some? ==> y.proof.value <= y.now)
    && (y.event ==> Backs(y, y.stamp))
  }

  predicate SlotOk(y: System, i: nat)
    requires i < |y.callers|
  {
    CallerOk(y, y.callers[i]) && (Inside(y.callers[i]) ==> y.lock == Some(i))
      && (y.callers[i] in {Concluded(true), Published(true)} ==> y.proof.Some?)
  }

  ghost predicate Inv(y: System) {
    SharedOk(y) && forall i :: 0 <= i < |y.callers| ==> SlotOk(y, i)
  }

  lemma ReaderStaysOk(cfg: Config, y: System, m: Move, i: nat, z: System)
    requires m.Call? || m.ReadVerdict? || m.ReadStamp? || m.CheckEvent? || m.CompareClock? || m.TakeLock?
    requires i < |y.callers| && SharedOk(y) && SlotOk(y, i) && StepCaller(cfg, y, m, i) == Some(z)
    ensures |z.callers| == |y.callers| && z.callers == y.callers[i := z.callers[i]]
    ensures SharedOk(z) && SlotOk(z, i)
  {}

  lemma WriterStaysOk(cfg: Config, y: System, m: Move, i: nat, z: System)
    requires m.Abort? || m.Conclude? || m.Publish? || m.ReadClock? || m.Stamp?
    requires i < |y.callers| && SharedOk(y) && SlotOk(y, i) && StepCaller(cfg, y, m, i) == Some(z)
    ensures |z.callers| == |y.callers| && z.callers == y.callers[i := z.callers[i]]
    ensures SharedOk(z) && SlotOk(z, i)
  {}

  /** Moves of the caller itself, seen from the caller. */
  lemma MoverStaysOk(cfg: Config, y: System, m: Move, i: nat, z: System)
    requires !m.Tick? && !m.Invalidate?
    requires i < |y.callers| && SharedOk(y) && SlotOk(y, i) && StepCaller(cfg, y, m, i) == Some(z)
    ensures |z.callers| == |y.callers| && z.callers == y.callers[i := z.callers[i]]
    ensures SharedOk(z) && SlotOk(z, i)
  {
    if m.Abort? || m.Conclude? || m.Publish? || m.ReadClock? || m.Stamp? {
      WriterStaysOk(cfg, y, m, i, z);
    } else {
      ReaderStaysOk(cfg, y, m, i, z);
    }
  }

  /** What the other callers rely on: time moves on, the latest success never gets older, the event is set
      only together with a success of now, and the shared fields change only inside the lock. */
  predicate Courteous(y: System, z: System, i: nat) {
    && y.now <= z.now
    && (y.proof.Some? ==> z.proof.Some? && y.proof.value <= z.proof.value)
    && (z.event && !y.event ==> z.proof == Some(z.now) && y.lock == Some(i))
    && (z.verdict != y.verdict || z.stamp != y.stamp || z.proof != y.proof ==> y.lock == Some(i))
    && (z.lock == y.lock || y.lock == None || y.lock == Some(i))
  }

  lemma MoverIsCourteous(cfg: Config, y: System, m: Move, i: nat, z: System)
    requires i < |y.callers| && SharedOk(y) && SlotOk(y, i) && StepCaller(cfg, y, m, i) == Some(z)
    ensures Courteous(y, z, i)
  {}

  lemma OthersStayOk(y: System, z: System, i: nat, j: nat)
    requires i != j && j < |y.callers| == |z.callers| && z.callers[j] == y.callers[j]
    requires Courteous(y, z, i) && SlotOk(y, j)
    ensures SlotOk(z, j)
  {}

  lemma StepKeepsInv(cfg: Config, y: System, m: Move, z: System)
    requires Inv(y) && Step(cfg, y, m) == Some(z)
    ensures Inv(z)
  {
    if m.Tick? || m.Invalidate? {
      forall j | 0 <= j < |z.callers| ensures SlotOk(z, j) { assert SlotOk(y, j); }
    } else {
      assert SlotOk(y, m.i);
      MoverStaysOk(cfg, y, m, m.i, z);
      MoverIsCourteous(cfg, y, m, m.i, z);
      forall j | 0 <= j < |z.callers| ensures SlotOk(z, j) {
        if j != m.i { OthersStayOk(y, z, m.i, j); }
      }
    }
  }

  lemma {:induction false} StepsKeepInv(cfg: Config, y: System, ms: seq<Move>)
    requires Inv(y) && Steps(cfg, y, ms).Some?
    ensures Inv(Steps(cfg, y, ms).value)
  {
    if ms != [] {
      StepsKeepInv(cfg, y, ms[..|ms| - 1]);
      StepKeepsInv(cfg, Steps(cfg, y, ms[..|ms| - 1]).value, ms[|ms| - 1], Steps(cfg, y, ms).value);
    }
  }

  // ---------- the promises ----------

  /** Whatever the interleaving, a cached "ready" rests on a probe that succeeded less than the TTL ago,
      even when the verdict and the stamp the caller read come from different probes. */
  lemma CachedReadyIsFresh(cfg: Config, callers: nat, now: real, ms: seq<Move>, i: nat)
    requires now >= 0.0 && Steps(cfg, Start(callers, now), ms).Some?
    requires var y := Steps(cfg, Start(callers, now), ms).value; Answers(cfg, y, i) && y.callers[i].found.Ready?
    ensures var y := Steps(cfg, Start(callers, now), ms).value;
            y.proof.Some? && y.proof.value <= y.now && y.now - y.proof.value < cfg.ttl
  {
    StepsKeepInv(cfg, Start(callers, now), ms);
    assert SlotOk(Steps(cfg, Start(callers, now), ms).value, i);
  }

  /** With a negative TTL of 0 (the default) or less, a failure is never served from the cache. */
  lemma FailuresAreReprobed(cfg: Config, callers: nat, now: real, ms: seq<Move>, i: nat)
    requires now >= 0.0 && cfg.negativeTtl <= 0.0 && Steps(cfg, Start(callers, now), ms).Some?
    requires var y := Steps(cfg, Start(callers, now), ms).value; Answers(cfg, y, i)
    ensures Steps(cfg, Start(callers, now), ms).value.callers[i].found == Ready
  {
    StepsKeepInv(cfg, Start(callers, now), ms);
    assert SlotOk(Steps(cfg, Start(callers, now), ms).value, i);
  }

  /** The cache holds a verdict that would answer a caller now. */
  predicate Usable(cfg: Config, y: System) {
    y.verdict.Some? && (y.verdict.value.Ready? ==> y.event) && y.now - y.stamp < Ttl(cfg, y.verdict.value)
  }

  /** A caller that starts a probe holds the lock and has just found the cache unusable. */
  lemma ProbesOnMiss(cfg: Config, y: System, m: Move, z: System, i: nat)
    requires Inv(y) && Step(cfg, y, m) == Some(z)
    requires i < |y.callers| == |z.callers| && !y.callers[i].Probing? && z.callers[i].Probing?
    ensures y.lock == Some(i) && !Usable(cfg, y)
  {
    assert SlotOk(y, i);
  }

  /** Single flight: one caller at a time is inside, and it starts a probe only when the cache holds no
      verdict that would answer it, so a crowd behind a fresh verdict does not probe again. */
  lemma NoStampede(cfg: Config, callers: nat, now: real, ms: seq<Move>, m: Move, z: System, i: nat)
    requires now >= 0.0 && Steps(cfg, Start(callers, now), ms).Some?
    requires Step(cfg, Steps(cfg, Start(callers, now), ms).value, m) == Some(z)
    requires var y := Steps(cfg, Start(callers, now), ms).value;
             i < |y.callers| == |z.callers| && !y.callers[i].Probing? && z.callers[i].Probing?
    ensures var y := Steps(cfg, Start(callers, now), ms).value;
            && !Usable(cfg, y)
            && forall j :: 0 <= j < |y.callers| && j != i ==> !Inside(y.callers[j])
  {
    var y := Steps(cfg, Start(callers, now), ms).value;
    StepsKeepInv(cfg, Start(callers, now), ms);
    ProbesOnMiss(cfg, y, m, z, i);
    forall j | 0 <= j < |y.callers| && j != i ensures !Inside(y.callers[j]) { assert SlotOk(y, j); }
  }

  // ---------- how old the checks can be ----------

  /** A successful probe that now reads the clock for its stamp was held up by at most `d` since its checks. */
  predicate PromptMove(y: System, m: Move, d: real) {
    m.ReadClock? && m.i < |y.callers| && y.callers[m.i] == Published(true) ==> y.now - y.setAt <= d
  }

  /** No successful probe of the run is held up longer than `d`. */
  predicate Prompt(cfg: Config, y: System, ms: seq<Move>, d: real) {
    ms == [] || (Prompt(cfg, y, ms[..|ms| - 1], d)
                 && (Steps(cfg, y, ms[..|ms| - 1]).Some? ==>
                       PromptMove(Steps(cfg, y, ms[..|ms| - 1]).value, ms[|ms| - 1], d)))
  }

  predicate HeldOk(y: System, i: nat, d: real)
    requires i < |y.callers|
  {
    y.callers[i].Timed? && y.callers[i].ok ==> y.callers[i].time - y.setAt <= d
  }

  /** The latest success is at most `d` younger than the checks behind it. */
  ghost predicate HeldInv(y: System, d: real) {
    && (y.proof.Some? ==> y.setAt <= y.proof.value <= y.setAt + d)
    && forall i :: 0 <= i < |y.callers| ==> HeldOk(y, i, d)
  }

  lemma MoverStaysHeld(cfg: Config, y: System, m: Move, i: nat, z: System, d: real)
    requires i < |y.callers| && StepCaller(cfg, y, m, i) == Some(z) && m == m.(i := i) && !m.Tick? && !m.Invalidate?
    requires SharedOk(y) && SlotOk(y, i) && HeldInv(y, d) && PromptMove(y, m, d) && d >= 0.0
    ensures (z.proof.Some? ==> z.setAt <= z.proof.value <= z.setAt + d) && |z.callers| == |y.callers| && HeldOk(z, i, d)
  {
    assert HeldOk(y, i, d);
  }

  lemma HeldStep(cfg: Config, y: System, m: Move, z: System, d: real)
    requires Inv(y) && HeldInv(y, d) && d >= 0.0 && Step(cfg, y, m) == Some(z) && PromptMove(y, m, d)
    ensures HeldInv(z, d)
  {
    if m.Tick? || m.Invalidate? {
      forall j | 0 <= j < |z.callers| ensures HeldOk(z, j, d) { assert HeldOk(y, j, d); }
    } else {
      assert SlotOk(y, m.i);
      MoverStaysHeld(cfg, y, m, m.i, z, d);
      forall j | 0 <= j < |z.callers| ensures HeldOk(z, j, d) {
        assert HeldOk(y, j, d) && SlotOk(y, j);
      }
    }
  }

  lemma {:induction false} StepsKeepHeld(cfg: Config, y: System, ms: seq<Move>, d: real)
    requires Inv(y) && HeldInv(y, d) && d >= 0.0 && Steps(cfg, y, ms).Some? && Prompt(cfg, y, ms, d)
    ensures HeldInv(Steps(cfg, y, ms).value, d)
  {
    if ms != [] {
      var init := ms[..|ms| - 1];
      StepsKeepHeld(cfg, y, init, d);
      StepsKeepInv(cfg, y, init);
      HeldStep(cfg, Steps(cfg, y, init).value, ms[|ms| - 1], Steps(cfg, y, ms).value, d);
    }
  }

  /** A run of any number of callers in which no successful probe is held up longer than `d`, at whose end
      caller `i` is about to be answered "ready" from the cache. */
  predicate Serves(cfg: Config, d: real, callers: nat, now: real, ms: seq<Move>, i: nat) {
    && now >= 0.0 && Steps(cfg, Start(callers, now), ms).Some? && Prompt(cfg, Start(callers, now), ms, d)
    && var y := Steps(cfg, Start(callers, now), ms).value; Answers(cfg, y, i) && y.callers[i].found.Ready?
  }

  /** How long ago the checks of the latest success ended. */
  function ChecksAge(cfg: Config, callers: nat, now: real, ms: seq<Move>): real
    requires Steps(cfg, Start(callers, now), ms).Some?
  {
    var y := Steps(cfg, Start(callers, now), ms).value;
    y.now - y.setAt
  }

  /** A cached "ready" rests on checks that ended less than the TTL plus the longest hold-up ago. */
  lemma ChecksAreRecent(cfg: Config, d: real, callers: nat, now: real, ms: seq<Move>, i: nat)
    requires d >= 0.0 && Serves(cfg, d, callers, now, ms, i)
    ensures 0.0 <= ChecksAge(cfg, callers, now, ms) < cfg.ttl + d
  {
    CachedReadyIsFresh(cfg, callers, now, ms, i);
    StepsKeepHeld(cfg, Start(callers, now), ms, d);
  }

  ghost predicate AgeServed(cfg: Config, d: real, age: real) {
    exists callers, now, ms, i :: Serves(cfg, d, callers, now, ms, i) && ChecksAge(cfg, callers, now, ms) == age
  }

  /** The bound is exact: every age below it, and no other, is the age of the checks behind some cached "ready". */
  lemma AgesServedIff(cfg: Config, d: real, age: real)
    requires cfg.ttl > 0.0 && d >= 0.0
    ensures AgeServed(cfg, d, age) <==> 0.0 <= age < cfg.ttl + d
  {
    if AgeServed(cfg, d, age) {
      var callers, now, ms, i :| Serves(cfg, d, callers, now, ms, i) && ChecksAge(cfg, callers, now, ms) == age;
      ChecksAreRecent(cfg, d, callers, now, ms, i);
    }
    if 0.0 <= age < cfg.ttl + d {
      var ms := ReachesAge(cfg, d, age);
      assert Serves(cfg, d, 1, 0.0, ms, 0);
    }
  }

  /** So the checks are always younger than the TTL exactly if no probe is held up at all. */
  lemma ChecksWithinTtlIff(cfg: Config, d: real)
    requires cfg.ttl > 0.0 && d >= 0.0
    ensures (forall age :: AgeServed(cfg, d, age) ==> age < cfg.ttl) <==> d == 0.0
  {
    if d == 0.0 {
      forall age | AgeServed(cfg, d, age) ensures age < cfg.ttl { AgesServedIff(cfg, d, age); }
    } else {
      AgesServedIff(cfg, d, cfg.ttl);
      assert AgeServed(cfg, d, cfg.ttl);
    }
  }

  // ---------- a run for every age ----------

  /** A single caller gets to `y`, never held up longer than `d`. */
  predicate Gets(cfg: Config, d: real, ms: seq<Move>, y: System) {
    Steps(cfg, Start(1, 0.0), ms) == Some(y) && Prompt(cfg, Start(1, 0.0), ms, d)
  }

  lemma Do(cfg: Config, d: real, ms: seq<Move>, y: System, m: Move, z: System) returns (next: seq<Move>)
    requires Gets(cfg, d, ms, y) && Step(cfg, y, m) == Some(z) && PromptMove(y, m, d)
    ensures Gets(cfg, d, next, z)
  {
    next := ms + [m];
    assert next[..|ms|] == ms;
  }

  /** One move of the only caller. */
  lemma DoAlone(cfg: Config, d: real, ms: seq<Move>, y: System, m: Move, z: System) returns (next: seq<Move>)
    requires Gets(cfg, d, ms, y) && |y.callers| == 1 == |z.callers|
    requires !m.Tick? && !m.Invalidate? && m.i == 0 && PromptMove(y, m, d)
    requires StepCaller(cfg, y, m, 0).Some? && StepCaller(cfg, y, m, 0).value.callers[0] == z.callers[0]
    requires StepCaller(cfg, y, m, 0).value == z.(callers := StepCaller(cfg, y, m, 0).value.callers)
    ensures Gets(cfg, d, next, z)
  {
    assert StepCaller(cfg, y, m, 0).value.callers == z.callers;
    next := Do(cfg, d, ms, y, m, z);
  }

  /** Where a look at the cache takes a caller when nobody interferes. */
  function Seen(y: System, l: bool): Caller {
    if y.verdict.None? || (y.verdict.value.Ready? && !y.event) then (if l then Probing else Waiting)
    else Vetted(l, y.verdict.value, y.stamp)
  }

  lemma LooksUp(cfg: Config, d: real, ms: seq<Move>, y: System, l: bool) returns (next: seq<Move>)
    requires Gets(cfg, d, ms, y) && y.callers == [Reading(l)]
    ensures Gets(cfg, d, next, y.(callers := [Seen(y, l)]))
  {
    var got, both := GotVerdict(l, y.verdict), GotStamp(l, y.verdict, y.stamp);
    next := DoAlone(cfg, d, ms, y, ReadVerdict(0), y.(callers := [got]));
    next := DoAlone(cfg, d, next, y.(callers := [got]), ReadStamp(0), y.(callers := [both]));
    next := DoAlone(cfg, d, next, y.(callers := [both]), CheckEvent(0), y.(callers := [Seen(y, l)]));
  }

  /** The only caller at `c` before anything was ever published. */
  function Blank(l: Option<nat>, c: Caller): System {
    System(0.0, None, 0.0, false, l, [c], None, 0.0)
  }

  lemma ReachesProbe(cfg: Config, d: real) returns (ms: seq<Move>)
    ensures Gets(cfg, d, ms, Blank(Some(0), Probing))
  {
    var y0 := Start(1, 0.0);
    assert y0 == Blank(None, Idle) by { assert y0.callers == [Idle]; }
    ms := DoAlone(cfg, d, [], y0, Call(0), Blank(None, Reading(false)));
    ms := LooksUp(cfg, d, ms, Blank(None, Reading(false)), false);
    ms := DoAlone(cfg, d, ms, Blank(None, Waiting), TakeLock(0), Blank(Some(0), Reading(true)));
    ms := LooksUp(cfg, d, ms, Blank(Some(0), Reading(true)), true);
  }

  function PublishedAtZero(): System {
    System(0.0, Some(Ready), 0.0, true, Some(0), [Published(true)], Some(0.0), 0.0)
  }

  lemma ProbePublishes(cfg: Config, d: real) returns (ms: seq<Move>)
    ensures Gets(cfg, d, ms, PublishedAtZero())
  {
    ms := ReachesProbe(cfg, d);
    var won := System(0.0, None, 0.0, true, Some(0), [Concluded(true)], Some(0.0), 0.0);
    ms := DoAlone(cfg, d, ms, Blank(Some(0), Probing), Conclude(0, true), won);
    ms := DoAlone(cfg, d, ms, won, Publish(0), PublishedAtZero());
  }

  /** The checks end at 0, the stamp is read and written at `delay`. */
  function StampedAt(delay: real): System {
    System(delay, Some(Ready), delay, true, None, [Idle], Some(delay), 0.0)
  }

  lemma StampsLate(cfg: Config, d: real, delay: real) returns (ms: seq<Move>)
    requires 0.0 <= delay <= d
    ensures Gets(cfg, d, ms, StampedAt(delay))
  {
    ms := ProbePublishes(cfg, d);
    var late := PublishedAtZero().(now := delay);
    var timed := late.(callers := [Timed(true, delay)]);
    ms := Do(cfg, d, ms, PublishedAtZero(), Tick(delay), late);
    ms := DoAlone(cfg, d, ms, late, ReadClock(0), timed);
    ms := DoAlone(cfg, d, ms, timed, Stamp(0), StampedAt(delay));
  }

  /** Hold the probe up as long as is allowed and needed, and ask as much later as the age still lacks. */
  lemma ReachesAge(cfg: Config, d: real, age: real) returns (ms: seq<Move>)
    requires d >= 0.0 && 0.0 <= age < cfg.ttl + d && cfg.ttl > 0.0
    ensures Serves(cfg, d, 1, 0.0, ms, 0) && ChecksAge(cfg, 1, 0.0, ms) == age
  {
    var delay := if age <= d then age else d;
    ms := StampsLate(cfg, d, delay);
    var y := StampedAt(delay).(now := age);
    ms := Do(cfg, d, ms, StampedAt(delay), Tick(age), y);
    ms := DoAlone(cfg, d, ms, y, Call(0), y.(callers := [Reading(false)]));
    ms := LooksUp(cfg, d, ms, y.(callers := [Reading(false)]), false);
  }
}
