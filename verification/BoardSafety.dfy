/** Dependency safety, attestations and the iteration budget, over whole runs of the board. */
module BoardSafety {
  import opened Common
  import opened HistoryChain
  import opened Board
  import opened BoardRuns

  // ---------- dependency safety ----------

  predicate Active(t: Task) {
    t.status != Blocked && t.status != WontFix
  }

  /** Everything under way, halted or done has all its dependencies done. */
  ghost predicate DepClosed(tasks: seq<Task>) {
    forall i :: 0 <= i < |tasks| && Active(tasks[i]) ==> DepsDone(tasks, tasks[i].deps)
  }

  ghost predicate WellFormed(tasks: seq<Task>) {
    UniqueIds(tasks) && forall i :: 0 <= i < |tasks| ==> tasks[i].id !in tasks[i].deps
  }

  /** The three ways to take a done task out of done: reset it, give it up, reopen it with a fail. */
  predicate Demotes(s: State, c: Command) {
    && OnTask(s, c) && !c.Run? && (c.Attest? ==> !c.pass)
    && Target(c) in DoneIds(s.tasks)
  }

  lemma DoneIsFound(tasks: seq<Task>, i: nat)
    requires UniqueIds(tasks) && i < |tasks|
    ensures tasks[i].id in DoneIds(tasks) <==> tasks[i].status == Done
  {
    if tasks[i].id in DoneIds(tasks) {
      var j :| 0 <= j < |tasks| && tasks[j].status == Done && tasks[j].id == tasks[i].id;
    }
    assert tasks[i] in tasks;
  }

  lemma WellFormedStays(h: Hasher, s: State, ts: string, c: Command)
    requires Exec(h, s, ts, c).Ok? && WellFormed(s.tasks)
    ensures WellFormed(Exec(h, s, ts, c).value.tasks)
  {
    var s' := Exec(h, s, ts, c).value;
    StaticStays(h, s, ts, c);
    UniqueStays(s.tasks, s'.tasks);
    forall i | 0 <= i < |s'.tasks| ensures s'.tasks[i].id !in s'.tasks[i].deps {
      assert SameStatic(s.tasks[i], s'.tasks[i]);
    }
  }

  lemma PromoteWellFormed(tasks: seq<Task>)
    requires WellFormed(tasks)
    ensures WellFormed(Promote(tasks))
  {}

  /** Whether a command aimed at a task makes it done. */
  predicate Greens(c: Command) { (c.Run? && c.passed) || (c.Attest? && c.pass) }

  lemma DoneForm(h: Hasher, s: State, ts: string, c: Command, i: nat, s': State)
    requires Formed(h, s, ts, c, i, s') && WellFormed(s.tasks) && OnTask(s, c)
    ensures DoneIds(s'.tasks) == if Greens(c) then DoneIds(s.tasks) + {Target(c)} else DoneIds(s.tasks) - {Target(c)}
  {
    var base := Base(s, c);
    var t := Touched(s, c, base[i]);
    PromoteKeepsDone(s.tasks);
    PromoteWellFormed(s.tasks);
    EditedDone(base, i, t);
    PromoteKeepsDone(base[i := t]);
  }

  /** The done ids after a command. */
  lemma DoneAfter(h: Hasher, s: State, ts: string, c: Command)
    requires Exec(h, s, ts, c).Ok? && WellFormed(s.tasks)
    ensures var s' := Exec(h, s, ts, c).value;
            DoneIds(s'.tasks) ==
              if !OnTask(s, c) then DoneIds(s.tasks)
              else if Greens(c) then DoneIds(s.tasks) + {Target(c)}
              else DoneIds(s.tasks) - {Target(c)}
  {
    var i := NormalForm(h, s, ts, c);
    if OnTask(s, c) {
      DoneForm(h, s, ts, c, i, Exec(h, s, ts, c).value);
    } else {
      PromoteKeepsDone(s.tasks);
    }
  }

  /** The done set shrinks exactly on the three demotions; a run never demotes. */
  lemma DoneShrinksIff(h: Hasher, s: State, ts: string, c: Command)
    requires Exec(h, s, ts, c).Ok? && WellFormed(s.tasks)
    ensures DoneIds(s.tasks) <= DoneIds(Exec(h, s, ts, c).value.tasks) <==> !Demotes(s, c)
  {
    DoneAfter(h, s, ts, c);
    var i := NormalForm(h, s, ts, c);
    if OnTask(s, c) {
      PromoteWellFormed(s.tasks);
      PromoteKeepsDone(s.tasks);
      DoneIsFound(Base(s, c), i);
    }
  }

  lemma PromoteClosed(tasks: seq<Task>)
    requires DepClosed(tasks)
    ensures DepClosed(Promote(tasks))
  {
    PromoteKeepsDone(tasks);
  }

  /** Editing one task keeps the board closed exactly when no other active task depends on it once the
      edit takes it out of done. */
  lemma EditClosedIff(tasks: seq<Task>, i: nat, t: Task)
    requires WellFormed(tasks) && DepClosed(tasks) && i < |tasks| && SameStatic(tasks[i], t)
    requires Active(t) ==> DepsDone(tasks, t.deps)
    ensures DepClosed(tasks[i := t]) <==>
              (tasks[i].status == Done && t.status != Done ==> !HasActiveDependent(tasks, t.id))
  {
    var edited := tasks[i := t];
    EditedDone(tasks, i, t);
    DoneIsFound(tasks, i);
    if tasks[i].status == Done && t.status != Done && HasActiveDependent(tasks, t.id) {
      var j :| 0 <= j < |tasks| && Active(tasks[j]) && t.id in tasks[j].deps;
      assert Active(edited[j]) && !DepsDone(edited, edited[j].deps);
    }
    if tasks[i].status == Done && t.status != Done ==> !HasActiveDependent(tasks, t.id) {
      forall j | 0 <= j < |edited| && Active(edited[j]) ensures DepsDone(edited, edited[j].deps) {
        if j != i { assert Active(tasks[j]) && DepsDone(tasks, tasks[j].deps); }
      }
    }
  }

  predicate HasActiveDependent(tasks: seq<Task>, id: string) {
    exists j | 0 <= j < |tasks| :: Active(tasks[j]) && id in tasks[j].deps
  }

  /** Exactly when a command keeps the board closed: it does not demote, or nothing active (after the
      promotions the command starts with) depends on the demoted task. */
  lemma ClosureSurvivesIff(h: Hasher, s: State, ts: string, c: Command)
    requires Exec(h, s, ts, c).Ok? && WellFormed(s.tasks) && DepClosed(s.tasks)
    ensures DepClosed(Exec(h, s, ts, c).value.tasks) <==>
              (Demotes(s, c) ==> !HasActiveDependent(Base(s, c), Target(c)))
  {
    var i := NormalForm(h, s, ts, c);
    PromoteClosed(s.tasks);
    PromoteWellFormed(s.tasks);
    PromoteKeepsDone(s.tasks);
    if OnTask(s, c) {
      var base := Base(s, c);
      var t := Touched(s, c, base[i]);
      DoneIsFound(base, i);
      EditClosedIff(base, i, t);
      if DepClosed(base[i := t]) { PromoteClosed(base[i := t]); }
    }
  }

  /** No command of the run takes a done task out of done. */
  ghost predicate NeverDemotes(h: Hasher, s: State, cs: seq<Stamped>) {
    forall n :: 0 <= n < |cs| ==> !Demotes(Replay(h, s, cs[..n]), cs[n].cmd)
  }

  /** Without demotions the board stays closed and the done set only grows, over any run. */
  lemma {:induction false} DependencySafety(h: Hasher, s: State, cs: seq<Stamped>)
    requires WellFormed(s.tasks) && DepClosed(s.tasks) && NeverDemotes(h, s, cs)
    ensures WellFormed(Replay(h, s, cs).tasks) && DepClosed(Replay(h, s, cs).tasks)
    ensures DoneIds(s.tasks) <= DoneIds(Replay(h, s, cs).tasks)
  {
    if cs != [] {
      var init, c := cs[..|cs| - 1], cs[|cs| - 1];
      forall n | 0 <= n < |init| ensures !Demotes(Replay(h, s, init[..n]), init[n].cmd) {
        assert init[..n] == cs[..n];
      }
      DependencySafety(h, s, init);
      var p := Replay(h, s, init);
      if Exec(h, p, c.ts, c.cmd).Ok? {
        WellFormedStays(h, p, c.ts, c.cmd);
        ClosureSurvivesIff(h, p, c.ts, c.cmd);
        DoneShrinksIff(h, p, c.ts, c.cmd);
      }
    }
  }

  ghost predicate DependsOn(tasks: seq<Task>, a: string, b: string) {
    exists i :: 0 <= i < |tasks| && tasks[i].id == a && b in tasks[i].deps
  }

  /** On a closed board everything an active task rests on, however indirectly, is done. */
  lemma {:induction false} WholeFoundationDone(tasks: seq<Task>, i: nat, path: seq<string>)
    requires WellFormed(tasks) && DepClosed(tasks) && i < |tasks| && Active(tasks[i])
    requires path != [] && path[0] in tasks[i].deps
    requires forall n :: 0 <= n < |path| - 1 ==> DependsOn(tasks, path[n], path[n + 1])
    ensures path[|path| - 1] in DoneIds(tasks)
    decreases |path|
  {
    assert path[0] in DoneIds(tasks);
    if |path| > 1 {
      var j :| 0 <= j < |tasks| && tasks[j].status == Done && tasks[j].id == path[0];
      assert DependsOn(tasks, path[0], path[1]);
      var k :| 0 <= k < |tasks| && tasks[k].id == path[0] && path[1] in tasks[k].deps;
      assert k == j;
      var rest := path[1..];
      forall n | 0 <= n < |rest| - 1 ensures DependsOn(tasks, rest[n], rest[n + 1]) {
        assert DependsOn(tasks, path[n + 1], path[n + 2]);
      }
      WholeFoundationDone(tasks, j, rest);
    }
  }

  /** With a demotion closure can be lost: resetting a done task leaves its dependent pending. */
  lemma ResetBreaksClosure(h: Hasher) returns (s: State, c: Command)
    ensures WellFormed(s.tasks) && DepClosed(s.tasks) && Exec(h, s, "", c).Ok?
    ensures !DepClosed(Exec(h, s, "", c).value.tasks)
  {
    var a := Task("A", [], Done, Script, None, None, [], None);
    var b := Task("B", ["A"], Pending, Script, None, None, [], None);
    s, c := State([a, b], map[], 4, []), Reset("A");
    assert s.tasks[0] == a && s.tasks[1] == b;
    DoneIsFound(s.tasks, 0);
    assert Find(s.tasks, "A") == Some(0);
    ClosureSurvivesIff(h, s, "", c);
    assert Active(Base(s, c)[1]) && "A" in Base(s, c)[1].deps;
  }

  // ---------- dead dependencies ----------

  predicate Revives(c: Command, id: string) {
    c == Reset(id) || (c.Attest? && c.target == id && c.reopen)
  }

  /** `d` is given up, and `t` rests on it and is blocked or given up too. */
  ghost predicate Dead(tasks: seq<Task>, d: nat, t: nat)
    requires d < |tasks| && t < |tasks|
  {
    tasks[d].status == WontFix && tasks[d].id in tasks[t].deps && tasks[t].status in {Blocked, WontFix}
  }

  lemma DeadPromote(tasks: seq<Task>, d: nat, t: nat)
    requires WellFormed(tasks) && d < |tasks| && t < |tasks| && Dead(tasks, d, t)
    ensures WellFormed(Promote(tasks)) && Dead(Promote(tasks), d, t) && tasks[d].id !in DoneIds(tasks)
  {
    DoneIsFound(tasks, d);
  }

  /** A command that is aimed at either of a dead pair and does not revive it leaves the pair dead. */
  lemma DeadTouched(s: State, c: Command, base: seq<Task>, i: nat, d: nat, t: nat)
    requires WellFormed(base) && d < |base| && t < |base| && i < |base| && Dead(base, d, t)
    requires base == Base(s, c) && DoneIds(base) == DoneIds(s.tasks)
    requires !c.Refresh? && base[i].id == Target(c) && Admissible(s, c, base[i]) && !Revives(c, base[d].id)
    ensures var mid := base[i := Touched(s, c, base[i])]; SameStatic(base[i], mid[i]) && Dead(mid, d, t)
  {
    DoneIsFound(base, d);
    if i == t { assert !DepsDone(base, base[t].deps) && !DepsDone(s.tasks, base[t].deps); }
  }

  lemma EditWellFormed(tasks: seq<Task>, i: nat, t: Task)
    requires WellFormed(tasks) && i < |tasks| && SameStatic(tasks[i], t)
    ensures WellFormed(tasks[i := t])
  {}

  lemma DeadStep(h: Hasher, s: State, ts: string, c: Command, d: nat, t: nat)
    requires WellFormed(s.tasks) && d < |s.tasks| && t < |s.tasks| && Dead(s.tasks, d, t)
    requires Exec(h, s, ts, c).Ok? && !Revives(c, s.tasks[d].id)
    ensures var s' := Exec(h, s, ts, c).value;
            |s'.tasks| == |s.tasks| && s'.tasks[d].id == s.tasks[d].id && Dead(s'.tasks, d, t)
  {
    var i := NormalForm(h, s, ts, c);
    DeadPromote(s.tasks, d, t);
    if OnTask(s, c) {
      var base := Base(s, c);
      PromoteKeepsDone(s.tasks);
      PromoteKeepsFind(s.tasks, Target(c));
      DeadTouched(s, c, base, i, d, t);
      EditWellFormed(base, i, Touched(s, c, base[i]));
      DeadPromote(base[i := Touched(s, c, base[i])], d, t);
    }
  }

  /** A task resting on a given-up one is never unblocked: unless someone resets or reopens the given-up
      task, it stays blocked or is itself given up, whatever else happens. */
  lemma {:induction false} DeadDependency(h: Hasher, s: State, cs: seq<Stamped>, d: nat, t: nat)
    requires WellFormed(s.tasks) && d < |s.tasks| && t < |s.tasks| && Dead(s.tasks, d, t)
    requires forall n :: 0 <= n < |cs| ==> !Revives(cs[n].cmd, s.tasks[d].id)
    ensures var r := Replay(h, s, cs).tasks;
            |r| == |s.tasks| && WellFormed(r) && r[d].id == s.tasks[d].id && Dead(r, d, t)
  {
    if cs != [] {
      var init, c := cs[..|cs| - 1], cs[|cs| - 1];
      DeadDependency(h, s, init, d, t);
      var p := Replay(h, s, init);
      if Exec(h, p, c.ts, c.cmd).Ok? {
        WellFormedStays(h, p, c.ts, c.cmd);
        DeadStep(h, p, c.ts, c.cmd, d, t);
      }
    }
  }

  // ---------- attestations ----------

  ghost predicate TargetDepsDone(s: State, id: string) {
    if id in s.gates then DepsDone(s.tasks, s.gates[id].deps)
    else exists i :: 0 <= i < |s.tasks| && s.tasks[i].id == id && DepsDone(s.tasks, s.tasks[i].deps)
  }

  lemma AttestationHasDeps(h: Hasher, s: State, ts: string, c: Command)
    requires c.Attest? && AttestCmd(h, s, ts, c).Ok?
    ensures TargetDepsDone(s, c.target)
  {
    PromoteKeepsDone(s.tasks);
    if c.target !in s.gates {
      PromoteKeepsFind(s.tasks, c.target);
      var i := Find(s.tasks, c.target).value;
      assert SameStatic(s.tasks[i], Promote(s.tasks)[i]);
    }
  }

  /** Wherever a passing attestation stands in the history of a run, at the moment it was made all
      dependencies of its target were done. */
  lemma {:induction false} AttestationsHadTheirDeps(h: Hasher, s: State, cs: seq<Stamped>, n: nat) returns (k: nat)
    requires |s.history| <= n < |Replay(h, s, cs).history| && Replay(h, s, cs).history[n].body.action.AttestedPass?
    ensures k < |cs| && |Replay(h, s, cs[..k]).history| == n
    ensures TargetDepsDone(Replay(h, s, cs[..k]), Replay(h, s, cs).history[n].body.action.target)
  {
    var m := |cs| - 1;
    var c := cs[m];
    var p := Replay(h, s, cs[..m]);
    HistoryOnlyGrows(h, s, cs[..m]);
    if Exec(h, p, c.ts, c.cmd).Ok? {
      var _ := NormalForm(h, p, c.ts, c.cmd);
      LogKeepsVerified(h, p.history, c.ts, ActionOf(p, c.cmd));
    }
    if n < |p.history| {
      k := AttestationsHadTheirDeps(h, s, cs[..m], n);
      assert cs[..m][..k] == cs[..k];
    } else {
      k := m;
      AttestationHasDeps(h, p, c.ts, c.cmd);
    }
  }

  // ---------- the iteration budget ----------

  predicate WithinBudget(default: int, t: Task) {
    t.oracle.Script? && t.status == InProgress ==>
      && |t.attempts| < (if t.maxIterations.Some? then t.maxIterations.value else default)
      && !Repeats(FailSignatures(t.attempts))
  }

  ghost predicate AllWithinBudget(s: State) {
    forall i :: 0 <= i < |s.tasks| ==> WithinBudget(s.defaultIterations, s.tasks[i])
  }

  lemma BudgetStep(h: Hasher, s: State, ts: string, c: Command)
    requires AllWithinBudget(s) && Exec(h, s, ts, c).Ok?
    ensures AllWithinBudget(Exec(h, s, ts, c).value)
  {
    var i := NormalForm(h, s, ts, c);
    var s', base := Exec(h, s, ts, c).value, Base(s, c);
    forall j | 0 <= j < |base| ensures WithinBudget(s.defaultIterations, base[j]) {
      assert WithinBudget(s.defaultIterations, s.tasks[j]);
    }
    if OnTask(s, c) {
      var mid := base[i := Touched(s, c, base[i])];
      assert WithinBudget(s.defaultIterations, mid[i]);
      forall j | 0 <= j < |mid| ensures WithinBudget(s.defaultIterations, s'.tasks[j]) {
        assert j != i ==> WithinBudget(s.defaultIterations, base[j]);
      }
    }
  }

  /** A script task that is in progress has budget left and has not just failed the same way twice. */
  lemma {:induction false} BudgetHolds(h: Hasher, s: State, cs: seq<Stamped>)
    requires AllWithinBudget(s)
    ensures AllWithinBudget(Replay(h, s, cs))
  {
    if cs != [] {
      var init, c := cs[..|cs| - 1], cs[|cs| - 1];
      BudgetHolds(h, s, init);
      var p := Replay(h, s, init);
      if Exec(h, p, c.ts, c.cmd).Ok? { BudgetStep(h, p, c.ts, c.cmd); }
    }
  }

  /** Halting binds `next`, not `run`: a halted script task is never the next one, yet `run` accepts it. */
  lemma HaltedTasksStillRun(h: Hasher, s: State, i: nat, ts: string, passed: bool, signature: string)
    requires Verified(h, s.history) && UniqueIds(s.tasks) && i < |s.tasks|
    requires s.tasks[i].status == Halted && s.tasks[i].oracle.Script? && GateKnown(s, s.tasks[i])
    ensures NextTask(s.tasks, 0) != Some(i)
    ensures Exec(h, s, ts, Run(s.tasks[i].id, passed, signature)).Ok?
  {
    PromoteKeepsFind(s.tasks, s.tasks[i].id);
    assert s.tasks[i] in s.tasks;
  }
}
