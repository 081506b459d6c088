/** The loop the ledger is for: keep running the task `next` names. It stops, whatever the oracles say. */
module BoardDriver {
  import opened Common
  import opened HistoryChain
  import opened Board
  import opened BoardRuns
  import opened BoardSafety
  import Orchestrator

  /** How many more runs a task can take: none once it is done, given up or halted, what is left of its
      budget otherwise, and one if nothing is left. */
  function Weight(default: int, t: Task): nat {
    var budget := if t.maxIterations.Some? then t.maxIterations.value else default;
    if t.status in {Done, WontFix, Halted} then 0
    else if budget <= |t.attempts| then 1
    else budget - |t.attempts|
  }

  function Measure(default: int, tasks: seq<Task>): nat {
    if tasks == [] then 0 else Measure(default, tasks[..|tasks| - 1]) + Weight(default, tasks[|tasks| - 1])
  }

  lemma {:induction false} MeasureSame(default: int, a: seq<Task>, b: seq<Task>)
    requires |a| == |b| && forall i :: 0 <= i < |a| ==> Weight(default, a[i]) == Weight(default, b[i])
    ensures Measure(default, a) == Measure(default, b)
  {
    if a != [] { MeasureSame(default, a[..|a| - 1], b[..|b| - 1]); }
  }

  lemma {:induction false} MeasureEdit(default: int, a: seq<Task>, i: nat, t: Task)
    requires i < |a|
    ensures Measure(default, a[i := t]) == Measure(default, a) - Weight(default, a[i]) + Weight(default, t)
  {
    var m := |a| - 1;
    if i < m {
      MeasureEdit(default, a[..m], i, t);
      assert a[i := t][..m] == a[..m][i := t];
    } else {
      assert a[i := t][..m] == a[..m];
    }
  }

  /** A board of script tasks with distinct ids whose gates all exist, on an intact history. */
  ghost predicate Drivable(h: Hasher, s: State) {
    && UniqueIds(s.tasks) && Verified(h, s.history)
    && forall i :: 0 <= i < |s.tasks| ==> s.tasks[i].oracle.Script? && GateKnown(s, s.tasks[i])
  }

  lemma FindUnique(tasks: seq<Task>, i: nat)
    requires UniqueIds(tasks) && i < |tasks|
    ensures Find(tasks, tasks[i].id) == Some(i)
  {
    assert tasks[i] in tasks;
  }

  lemma RunKeepsGates(h: Hasher, s: State, ts: string, c: Command)
    requires c.Run? && Exec(h, s, ts, c).Ok?
    ensures Exec(h, s, ts, c).value.gates.Keys == s.gates.Keys
  {}

  lemma StaysDrivable(h: Hasher, s: State, ts: string, c: Command)
    requires Drivable(h, s) && c.Run? && Exec(h, s, ts, c).Ok?
    ensures Drivable(h, Exec(h, s, ts, c).value)
  {
    var s' := Exec(h, s, ts, c).value;
    var _ := NormalForm(h, s, ts, c);
    StaticStays(h, s, ts, c);
    UniqueStays(s.tasks, s'.tasks);
    RunKeepsGates(h, s, ts, c);
    LogKeepsVerified(h, s.history, ts, ActionOf(s, c));
    forall i | 0 <= i < |s'.tasks| ensures s'.tasks[i].oracle.Script? && GateKnown(s', s'.tasks[i]) {
      assert SameStatic(s.tasks[i], s'.tasks[i]);
    }
  }

  lemma NextIsAccepted(h: Hasher, s: State, i: nat, ts: string, passed: bool, signature: string)
    requires Drivable(h, s) && NextTask(s.tasks, 0) == Some(i)
    ensures Exec(h, s, ts, Run(s.tasks[i].id, passed, signature)).Ok?
  {
    FindUnique(s.tasks, i);
    PromoteKeepsFind(s.tasks, s.tasks[i].id);
    PromotionIsEffective(s.tasks, i);
  }

  lemma PromoteMeasure(default: int, tasks: seq<Task>)
    ensures Measure(default, Promote(tasks)) == Measure(default, tasks)
  {
    MeasureSame(default, Promote(tasks), tasks);
  }

  lemma RunIsLighter(s: State, c: Command, t: Task)
    requires c.Run? && t.status in {Pending, InProgress}
    ensures Weight(s.defaultIterations, Touched(s, c, t)) < Weight(s.defaultIterations, t)
  {}

  lemma RunMeasure(h: Hasher, s: State, i: nat, ts: string, c: Command)
    requires UniqueIds(s.tasks) && NextTask(s.tasks, 0) == Some(i)
    requires c.Run? && c.task == s.tasks[i].id && Exec(h, s, ts, c).Ok?
    ensures Measure(s.defaultIterations, Exec(h, s, ts, c).value.tasks) < Measure(s.defaultIterations, s.tasks)
  {
    var d, base := s.defaultIterations, Promote(s.tasks);
    var _ := NormalForm(h, s, ts, c);
    FindUnique(s.tasks, i);
    PromotionIsEffective(s.tasks, i);
    var t := Touched(s, c, base[i]);
    RunIsLighter(s, c, base[i]);
    PromoteMeasure(d, s.tasks);
    MeasureEdit(d, base, i, t);
    PromoteMeasure(d, base[i := t]);
  }

  /** Running the task `next` names is always accepted, and always brings the end nearer: the task turns
      green, is halted, or has one iteration less. */
  lemma NextMakesProgress(h: Hasher, s: State, i: nat, ts: string, passed: bool, signature: string)
    requires Drivable(h, s) && NextTask(s.tasks, 0) == Some(i)
    ensures var r := Exec(h, s, ts, Run(s.tasks[i].id, passed, signature));
            && r.Ok? && Drivable(h, r.value)
            && Measure(s.defaultIterations, r.value.tasks) < Measure(s.defaultIterations, s.tasks)
            && |r.value.history| == |s.history| + 1 && r.value.defaultIterations == s.defaultIterations
  {
    var c := Run(s.tasks[i].id, passed, signature);
    NextIsAccepted(h, s, i, ts, passed, signature);
    StaysDrivable(h, s, ts, c);
    RunMeasure(h, s, i, ts, c);
    var _ := NormalForm(h, s, ts, c);
  }

  /** Drives a session with any oracle: `oracle(n)` is the outcome and signature of the n-th run. At rest
      nothing is actionable, and the number of runs, each one on record, is within the initial measure. */
  method DriveToRest(b: Orchestrator.Session, ts: string, oracle: nat -> (bool, string)) returns (runs: nat)
    requires Drivable(b.h, b.Contents())
    modifies b
    ensures NextTask(b.tasks, 0).None? && Drivable(b.h, b.Contents())
    ensures |b.history| == |old(b.history)| + runs
    ensures runs <= Measure(b.defaultIterations, old(b.tasks))
  {
    runs := 0;
    var next := b.Next();
    while next.Some?
      invariant next == NextTask(b.tasks, 0) && Drivable(b.h, b.Contents())
      invariant |b.history| == |old(b.history)| + runs
      invariant runs + Measure(b.defaultIterations, b.tasks) <= Measure(b.defaultIterations, old(b.tasks))
      decreases Measure(b.defaultIterations, b.tasks)
    {
      var (passed, signature) := oracle(runs);
      NextMakesProgress(b.h, b.Contents(), next.value, ts, passed, signature);
      var ok := b.Execute(Run(b.tasks[next.value].id, passed, signature), ts);
      runs := runs + 1;
      next := b.Next();
    }
  }
}
