/** Runs of the board: a normal form for what one command does to the tasks, and replay. */
module BoardRuns {
  import opened Common
  import opened HistoryChain
  import opened Board

  datatype Stamped = Stamped(ts: string, cmd: Command)

  /** A rejected command leaves the saved state as it is. */
  function Apply(h: Hasher, s: State, c: Stamped): State {
    var r := Exec(h, s, c.ts, c.cmd);
    if r.Ok? then r.value else s
  }

  function Replay(h: Hasher, s: State, cs: seq<Stamped>): State {
    if cs == [] then s else Apply(h, Replay(h, s, cs[..|cs| - 1]), cs[|cs| - 1])
  }

  // ---------- well-formed boards ----------

  ghost predicate UniqueIds(tasks: seq<Task>) {
    forall i, j :: 0 <= i < j < |tasks| ==> tasks[i].id != tasks[j].id
  }

  predicate SameStatic(t: Task, u: Task) {
    u == t.(status := u.status, attempts := u.attempts, evidence := u.evidence)
  }

  ghost predicate SameBoard(a: seq<Task>, b: seq<Task>) {
    |a| == |b| && forall i :: 0 <= i < |a| ==> SameStatic(a[i], b[i])
  }

  // ---------- the normal form ----------

  function Target(c: Command): string
    requires !c.Refresh?
  {
    match c
    case Run(id, _, _) => id
    case Attest(id, _, _, _, _) => id
    case GiveUp(id, _, _) => id
    case Reset(id) => id
  }

  predicate OnTask(s: State, c: Command) {
    !c.Refresh? && (c.Run? || c.Reset? || Target(c) !in s.gates)
  }

  function Base(s: State, c: Command): seq<Task> {
    if c.GiveUp? || c.Reset? then s.tasks else Promote(s.tasks)
  }

  /** What an accepted command makes of the task it is aimed at. */
  function Touched(s: State, c: Command, t: Task): Task
    requires !c.Refresh?
  {
    match c
    case Run(_, passed, signature) =>
      var attempts := t.attempts + [Attempt(passed, if passed then "PASS" else signature)];
      t.(attempts := attempts, status := if passed then Done else FailStatus(attempts, Budget(s, t)))
    case Attest(_, pass, _, proof, _) =>
      if pass then
        t.(attempts := t.attempts + [Attempt(true, "PASS")], status := Done,
           evidence := if proof.Some? then Some(proof.value.record) else None)
      else t.(attempts := t.attempts + [Attempt(false, "attest_fail")], status := InProgress)
    case GiveUp(_, _, _) => t.(status := WontFix)
    case Reset(_) =>
      t.(attempts := [], evidence := None, status := if DepsDone(s.tasks, t.deps) then Pending else Blocked)
  }

  /** The guards an accepted command has passed. */
  predicate Admissible(s: State, c: Command, t: Task) {
    match c
    case Refresh => true
    case Run(_, _, _) => t.oracle.Script? && t.status !in TERMINAL && t.status != Blocked
    case Attest(_, pass, _, proof, reopen) =>
      && !t.oracle.Script? && t.status != Blocked && DepsDone(Base(s, c), t.deps)
      && (t.status in TERMINAL ==> reopen)
      && (pass ==> proof.Some? && Accepted(Target(c), t.oracle.artifact, proof) == Some(proof.value.record))
    case GiveUp(_, _, _) => true
    case Reset(_) => true
  }

  function ActionOf(s: State, c: Command): Action
    requires c.Attest? && c.pass ==> c.proof.Some?
  {
    match c
    case Refresh => Refreshed(PromotedCount(DoneIds(s.tasks), s.tasks))
    case Run(id, passed, signature) => OracleRun(id, passed, if passed then "PASS" else signature)
    case Attest(id, pass, note, proof, _) =>
      if pass then AttestedPass(id, proof.value.record.sha, proof.value.record.signer, note) else AttestedFail(id, note)
    case GiveUp(id, reason, file) => MarkedWontFix(id, reason, if file.File? then Some(file.sha) else None)
    case Reset(id) => WasReset(id)
  }

  /** `s'` is `s` promoted (or not), with the one task the command names edited, promoted again when
      that task turned green, and exactly one entry longer. */
  ghost predicate Formed(h: Hasher, s: State, ts: string, c: Command, i: nat, s': State) {
    && (c.Attest? && c.pass ==> c.proof.Some?)
    && s'.history == Logged(h, s.history, ts, ActionOf(s, c))
    && s'.defaultIterations == s.defaultIterations
    && if OnTask(s, c) then
         && Find(s.tasks, Target(c)) == Some(i) && i < |s.tasks| == |Base(s, c)|
         && Admissible(s, c, Base(s, c)[i])
         && var mid := Base(s, c)[i := Touched(s, c, Base(s, c)[i])];
            s'.tasks == if (c.Run? && c.passed) || (c.Attest? && c.pass) then Promote(mid) else mid
       else
         s'.tasks == Base(s, c)
  }

  lemma RunForm(h: Hasher, s: State, ts: string, c: Command) returns (i: nat)
    requires c.Run? && RunCmd(h, s, ts, c.task, c.passed, c.signature).Ok?
    ensures Formed(h, s, ts, c, i, RunCmd(h, s, ts, c.task, c.passed, c.signature).value)
  {
    PromoteKeepsFind(s.tasks, c.task);
    i := Find(s.tasks, c.task).value;
  }

  lemma AttestForm(h: Hasher, s: State, ts: string, c: Command) returns (i: nat)
    requires c.Attest? && AttestCmd(h, s, ts, c).Ok?
    ensures Formed(h, s, ts, c, i, AttestCmd(h, s, ts, c).value)
  {
    PromoteKeepsFind(s.tasks, c.target);
    i := if c.target in s.gates then 0 else Find(s.tasks, c.target).value;
  }

  lemma PlainForm(h: Hasher, s: State, ts: string, c: Command) returns (i: nat)
    requires !c.Run? && !c.Attest? && Exec(h, s, ts, c).Ok?
    ensures Formed(h, s, ts, c, i, Exec(h, s, ts, c).value)
  {
    i := if OnTask(s, c) then Find(s.tasks, Target(c)).value else 0;
  }

  /** Every accepted command, whatever it is, has this form; nothing is accepted on a broken chain. */
  lemma NormalForm(h: Hasher, s: State, ts: string, c: Command) returns (i: nat)
    requires Exec(h, s, ts, c).Ok?
    ensures Verified(h, s.history) && Formed(h, s, ts, c, i, Exec(h, s, ts, c).value)
  {
    if c.Run? {
      i := RunForm(h, s, ts, c);
    } else if c.Attest? {
      i := AttestForm(h, s, ts, c);
    } else {
      i := PlainForm(h, s, ts, c);
    }
  }

  lemma {:induction false} FindSame(a: seq<Task>, b: seq<Task>, id: string)
    requires |a| == |b| && forall i :: 0 <= i < |a| ==> a[i].id == b[i].id
    ensures Find(a, id) == Find(b, id)
  {
    if a != [] { FindSame(a[1..], b[1..], id); }
  }

  lemma PromoteKeepsFind(tasks: seq<Task>, id: string)
    ensures Find(Promote(tasks), id) == Find(tasks, id)
  {
    FindSame(Promote(tasks), tasks, id);
  }

  // ---------- promotion ----------

  lemma PromoteKeepsDone(tasks: seq<Task>)
    ensures DoneIds(Promote(tasks)) == DoneIds(tasks) && SameBoard(tasks, Promote(tasks))
  {
    DoneByIndex(tasks, Promote(tasks));
  }

  /** Promotion is idempotent, and stores exactly the status that `status` and `next` display. */
  lemma PromotionIsEffective(tasks: seq<Task>, i: nat)
    requires i < |tasks|
    ensures Promote(tasks)[i].status == EffectiveStatus(tasks, tasks[i])
    ensures EffectiveStatus(Promote(tasks), Promote(tasks)[i]) == Promote(tasks)[i].status
    ensures Promote(Promote(tasks)) == Promote(tasks)
  {
    PromoteKeepsDone(tasks);
  }

  lemma EditedDone(tasks: seq<Task>, i: nat, t: Task)
    requires UniqueIds(tasks) && i < |tasks| && t.id == tasks[i].id
    ensures DoneIds(tasks[i := t]) == DoneIds(tasks) - {t.id} + if t.status == Done then {t.id} else {}
  {
    var edited := tasks[i := t];
    forall d ensures d in DoneIds(edited) <==> (if d == t.id then t.status == Done else d in DoneIds(tasks)) {
      if d in DoneIds(edited) {
        var j :| 0 <= j < |edited| && edited[j].status == Done && edited[j].id == d;
        if j != i { assert tasks[j] in tasks; }
      }
      if d == t.id {
        assert edited[i] in edited;
      } else if d in DoneIds(tasks) {
        var j :| 0 <= j < |tasks| && tasks[j].status == Done && tasks[j].id == d;
        assert edited[j] in edited;
      }
    }
  }

  lemma UniqueStays(a: seq<Task>, b: seq<Task>)
    requires UniqueIds(a) && SameBoard(a, b)
    ensures UniqueIds(b)
  {
    forall i, j | 0 <= i < j < |b| ensures b[i].id != b[j].id {
      assert SameStatic(a[i], b[i]) && SameStatic(a[j], b[j]);
    }
  }

  lemma SameBoardTrans(a: seq<Task>, b: seq<Task>, c: seq<Task>)
    requires SameBoard(a, b) && SameBoard(b, c)
    ensures SameBoard(a, c)
  {
    forall i | 0 <= i < |a| ensures SameStatic(a[i], c[i]) {
      assert SameStatic(a[i], b[i]) && SameStatic(b[i], c[i]);
    }
  }

  /** No command changes what a task is: its id, dependencies, oracle, gate and budget. */
  lemma StaticStays(h: Hasher, s: State, ts: string, c: Command)
    requires Exec(h, s, ts, c).Ok?
    ensures SameBoard(s.tasks, Exec(h, s, ts, c).value.tasks)
  {
    var i := NormalForm(h, s, ts, c);
    var s' := Exec(h, s, ts, c).value;
    var base := Base(s, c);
    PromoteKeepsDone(s.tasks);
    if OnTask(s, c) {
      var mid := base[i := Touched(s, c, base[i])];
      assert SameBoard(base, mid);
      SameBoardTrans(s.tasks, base, mid);
      PromoteKeepsDone(mid);
      SameBoardTrans(s.tasks, mid, s'.tasks);
    }
  }

  function AcceptedCount(h: Hasher, s: State, cs: seq<Stamped>): nat {
    if cs == [] then 0 else
      var init, c := cs[..|cs| - 1], cs[|cs| - 1];
      AcceptedCount(h, s, init) + Bit(Exec(h, Replay(h, s, init), c.ts, c.cmd).Ok?)
  }

  /** Every accepted command adds one entry; a run adds as many as it has accepted commands. */
  lemma {:induction false} HistoryOnlyGrows(h: Hasher, s: State, cs: seq<Stamped>)
    ensures s.history <= Replay(h, s, cs).history
    ensures |Replay(h, s, cs).history| == |s.history| + AcceptedCount(h, s, cs)
    ensures Verified(h, s.history) ==> Verified(h, Replay(h, s, cs).history)
  {
    if cs != [] {
      var p, c := Replay(h, s, cs[..|cs| - 1]), cs[|cs| - 1];
      HistoryOnlyGrows(h, s, cs[..|cs| - 1]);
      if Exec(h, p, c.ts, c.cmd).Ok? {
        var _ := NormalForm(h, p, c.ts, c.cmd);
        LogKeepsVerified(h, p.history, c.ts, ActionOf(p, c.cmd));
      }
    }
  }
}
