/** No fake green: what is done on the board is exactly what stands earned in the history. */
module BoardLedger {
  import opened Common
  import opened HistoryChain
  import opened Board
  import opened BoardRuns

  // ---------- what stands in a history ----------

  /** Which actions make something done, and which undo that. */
  datatype Rule = Rule(earns: Action -> bool, revokes: Action -> bool)

  /** Entry `n` earned it, and no later entry has revoked it. */
  ghost predicate StandsFrom(rule: Rule, hist: seq<Entry>, n: nat) {
    && n < |hist| && rule.earns(hist[n].body.action)
    && forall m :: n < m < |hist| ==> !rule.revokes(hist[m].body.action)
  }

  /** It was earned at or after entry `base`, and has not been revoked since. */
  ghost predicate Stands(rule: Rule, hist: seq<Entry>, base: nat) {
    exists n :: base <= n && StandsFrom(rule, hist, n)
  }

  lemma StandsSnoc(rule: Rule, hist: seq<Entry>, e: Entry, base: nat)
    requires base <= |hist|
    ensures Stands(rule, hist + [e], base) <==>
              rule.earns(e.body.action) || (Stands(rule, hist, base) && !rule.revokes(e.body.action))
  {
    var next := hist + [e];
    if Stands(rule, next, base) && !rule.earns(e.body.action) {
      var n :| base <= n && StandsFrom(rule, next, n);
      assert next[|hist|] == e;
      assert forall m :: n < m < |hist| ==> next[m] == hist[m];
      assert StandsFrom(rule, hist, n);
    }
    if rule.earns(e.body.action) { assert StandsFrom(rule, next, |hist|); }
    if Stands(rule, hist, base) && !rule.revokes(e.body.action) {
      var n :| base <= n && StandsFrom(rule, hist, n);
      assert StandsFrom(rule, next, n);
    }
  }

  predicate AttestedAs(a: Action, rec: Record) {
    a.AttestedPass? && a.target in VALIDATED && a.sha == rec.sha && a.signer == rec.signer
  }

  /** What of a task or gate matters here; a script task carries no evidence. */
  datatype Seen = Seen(done: bool, evidence: Option<Record>, script: bool)

  /** Done exactly if it stands earned; and if by attestation, then by one of the evidence it carries, for a
      target with a registered validator. */
  ghost predicate OnRecord(rule: Rule, hist: seq<Entry>, base: nat, x: Seen) {
    && (x.done <==> Stands(rule, hist, base))
    && (x.done && !x.script ==> x.evidence.Some? && Proven(rule, hist, base, x.evidence.value))
  }

  ghost predicate Proven(rule: Rule, hist: seq<Entry>, base: nat, rec: Record) {
    exists n :: base <= n && StandsFrom(rule, hist, n) && AttestedAs(hist[n].body.action, rec)
  }

  /** `y` is what action `a` leaves of `x`. */
  predicate Follows(rule: Rule, a: Action, x: Seen, y: Seen) {
    && (y.done <==> rule.earns(a) || (x.done && !rule.revokes(a))) && x.script == y.script
    && (y.done && !y.script ==>
          if rule.earns(a) then y.evidence.Some? && AttestedAs(a, y.evidence.value) else y.evidence == x.evidence)
  }

  lemma StaysOnRecord(rule: Rule, hist: seq<Entry>, e: Entry, base: nat, x: Seen, y: Seen)
    requires base <= |hist| && OnRecord(rule, hist, base, x) && Follows(rule, e.body.action, x, y)
    ensures OnRecord(rule, hist + [e], base, y)
  {
    var next, a := hist + [e], e.body.action;
    StandsSnoc(rule, hist, e, base);
    if y.done && !y.script {
      if rule.earns(a) {
        assert StandsFrom(rule, next, |hist|) && AttestedAs(next[|hist|].body.action, y.evidence.value);
      } else {
        var n :| base <= n && StandsFrom(rule, hist, n) && AttestedAs(hist[n].body.action, x.evidence.value);
        assert StandsFrom(rule, next, n) && next[n] == hist[n];
      }
    }
  }

  /** A task is earned by a passing run of its script or a passing attestation, and revoked by a failing
      one, a reset or giving it up. A target that is also the id of a gate means the gate. */
  function TaskRule(gates: set<string>, id: string, script: bool): Rule {
    Rule((a: Action) => match a
                        case OracleRun(x, passed, _) => script && passed && x == id
                        case AttestedPass(x, _, _, _) => !script && x !in gates && x == id
                        case _ => false,
         (a: Action) => match a
                        case OracleRun(x, passed, _) => !passed && x == id
                        case AttestedFail(x, _) => x !in gates && x == id
                        case MarkedWontFix(x, _, _) => x !in gates && x == id
                        case WasReset(x) => x == id
                        case _ => false)
  }

  predicate Feeds(tasks: seq<Task>, x: string, gate: string) {
    var found := Find(tasks, x);
    found.Some? && tasks[found.value].gate == Some(gate)
  }

  /** A gate is earned by a passing attestation of itself or of a task that feeds it, and revoked by a
      failing one of itself, by giving it up, and by a passing run of a script that feeds it. */
  function GateRule(tasks: seq<Task>, gates: set<string>, id: string): Rule {
    Rule((a: Action) => a.AttestedPass? && (a.target == id || (a.target !in gates && Feeds(tasks, a.target, id))),
         (a: Action) => match a
                        case OracleRun(x, passed, _) => passed && Feeds(tasks, x, id)
                        case AttestedFail(x, _) => x == id
                        case MarkedWontFix(x, _, _) => x == id
                        case _ => false)
  }

  // ---------- one command ----------

  lemma GateKeysStay(h: Hasher, s: State, ts: string, c: Command)
    requires Exec(h, s, ts, c).Ok?
    ensures Exec(h, s, ts, c).value.gates.Keys == s.gates.Keys
  {}

  /** The task that lookups find under its id. */
  predicate First(tasks: seq<Task>, i: nat) {
    i < |tasks| && Find(tasks, tasks[i].id) == Some(i)
  }

  function SeenTask(t: Task): Seen { Seen(t.status == Done, t.evidence, t.oracle.Script?) }

  predicate TaskFollows(gates: set<string>, a: Action, t: Task, u: Task) {
    Follows(TaskRule(gates, t.id, t.oracle.Script?), a, SeenTask(t), SeenTask(u))
  }

  lemma TouchedFollows(s: State, c: Command, t: Task)
    requires OnTask(s, c) && t.id == Target(c) && Admissible(s, c, t) && (c.Attest? && c.pass ==> c.proof.Some?)
    ensures TaskFollows(s.gates.Keys, ActionOf(s, c), t, Touched(s, c, t))
  {}

  lemma OtherFollows(s: State, c: Command, t: Task)
    requires (c.Attest? && c.pass ==> c.proof.Some?) && (OnTask(s, c) ==> t.id != Target(c))
    ensures TaskFollows(s.gates.Keys, ActionOf(s, c), t, t)
  {}

  lemma FollowsPromoted(gates: set<string>, a: Action, t: Task, u: Task, done: set<string>)
    ensures TaskFollows(gates, a, t, u) <==> TaskFollows(gates, a, t, Unblock(done, u))
    ensures TaskFollows(gates, a, t, u) <==> TaskFollows(gates, a, Unblock(done, t), u)
  {}

  lemma TaskStep(h: Hasher, s: State, ts: string, c: Command, i: nat)
    requires Exec(h, s, ts, c).Ok? && First(s.tasks, i)
    ensures var s' := Exec(h, s, ts, c).value;
            |s'.tasks| == |s.tasks| && s'.history == Logged(h, s.history, ts, ActionOf(s, c))
            && TaskFollows(s.gates.Keys, ActionOf(s, c), s.tasks[i], s'.tasks[i])
  {
    var k := NormalForm(h, s, ts, c);
    var s', base, a := Exec(h, s, ts, c).value, Base(s, c), ActionOf(s, c);
    var gates, done := s.gates.Keys, DoneIds(s.tasks);
    var mid := if OnTask(s, c) then base[k := Touched(s, c, base[k])] else base;
    PromoteKeepsFind(s.tasks, s.tasks[i].id);
    if OnTask(s, c) && k == i { TouchedFollows(s, c, base[i]); } else { OtherFollows(s, c, base[i]); }
    FollowsPromoted(gates, a, s.tasks[i], mid[i], done);
    FollowsPromoted(gates, a, s.tasks[i], mid[i], DoneIds(mid));
  }

  lemma FoundIsFirst(tasks: seq<Task>, id: string, k: nat)
    requires Find(tasks, id) == Some(k)
    ensures First(tasks, k)
  {}

  /** A task hidden behind another of the same id is never touched. */
  lemma HiddenStep(h: Hasher, s: State, ts: string, c: Command, i: nat)
    requires Exec(h, s, ts, c).Ok? && i < |s.tasks| && !First(s.tasks, i) && s.tasks[i].status != Done
    ensures var s' := Exec(h, s, ts, c).value; i < |s'.tasks| && s'.tasks[i].status != Done
  {
    var k := NormalForm(h, s, ts, c);
    HiddenForm(h, s, ts, c, k, Exec(h, s, ts, c).value, i);
  }

  lemma HiddenForm(h: Hasher, s: State, ts: string, c: Command, k: nat, s': State, i: nat)
    requires Formed(h, s, ts, c, k, s') && i < |s.tasks| && !First(s.tasks, i) && s.tasks[i].status != Done
    ensures i < |s'.tasks| && s'.tasks[i].status != Done
  {
    if OnTask(s, c) { FoundIsFirst(s.tasks, Target(c), k); }
  }

  function SeenGate(g: Gate): Seen { Seen(g.status == Done, g.evidence, false) }

  predicate GateFollows(tasks: seq<Task>, gates: set<string>, a: Action, id: string, g: Gate, u: Gate) {
    Follows(GateRule(tasks, gates, id), a, SeenGate(g), SeenGate(u))
  }

  lemma FeedsSame(a: seq<Task>, b: seq<Task>, x: string, id: string)
    requires SameBoard(a, b)
    ensures Feeds(a, x, id) == Feeds(b, x, id)
  {
    assert forall i :: 0 <= i < |a| ==> SameStatic(a[i], b[i]);
    FindSame(a, b, x);
  }

  lemma RunGateStep(h: Hasher, s: State, ts: string, c: Command, id: string)
    requires c.Run? && RunCmd(h, s, ts, c.task, c.passed, c.signature).Ok? && id in s.gates
    ensures var s' := RunCmd(h, s, ts, c.task, c.passed, c.signature).value;
            id in s'.gates && GateFollows(s.tasks, s.gates.Keys, ActionOf(s, c), id, s.gates[id], s'.gates[id])
  {
    PromoteKeepsDone(s.tasks);
    FeedsSame(s.tasks, Promote(s.tasks), c.task, id);
  }

  lemma AttestGateStep(h: Hasher, s: State, ts: string, c: Command, id: string)
    requires c.Attest? && AttestCmd(h, s, ts, c).Ok? && id in s.gates
    ensures c.pass ==> c.proof.Some?
    ensures var s' := AttestCmd(h, s, ts, c).value;
            id in s'.gates && GateFollows(s.tasks, s.gates.Keys, ActionOf(s, c), id, s.gates[id], s'.gates[id])
  {
    PromoteKeepsDone(s.tasks);
    FeedsSame(s.tasks, Promote(s.tasks), c.target, id);
  }

  lemma GateStep(h: Hasher, s: State, ts: string, c: Command, id: string)
    requires Exec(h, s, ts, c).Ok? && id in s.gates
    ensures var s' := Exec(h, s, ts, c).value;
            && id in s'.gates && (c.Attest? && c.pass ==> c.proof.Some?)
            && GateFollows(s.tasks, s.gates.Keys, ActionOf(s, c), id, s.gates[id], s'.gates[id])
  {
    if c.Run? { RunGateStep(h, s, ts, c, id); }
    if c.Attest? { AttestGateStep(h, s, ts, c, id); }
  }

  /** Taking a task out of done leaves every gate as it is. */
  lemma RevocationSparesGates(h: Hasher, s: State, ts: string, c: Command, id: string, script: bool)
    requires Exec(h, s, ts, c).Ok?
    ensures c.Attest? && c.pass ==> c.proof.Some?
    ensures TaskRule(s.gates.Keys, id, script).revokes(ActionOf(s, c)) ==> Exec(h, s, ts, c).value.gates == s.gates
  {
    var _ := NormalForm(h, s, ts, c);
  }

  // ---------- whole runs ----------

  lemma {:induction false} BoardStays(h: Hasher, s: State, cs: seq<Stamped>)
    ensures var r := Replay(h, s, cs); SameBoard(s.tasks, r.tasks) && r.gates.Keys == s.gates.Keys
    ensures |s.history| <= |Replay(h, s, cs).history|
  {
    HistoryOnlyGrows(h, s, cs);
    if cs != [] {
      var p, c := Replay(h, s, cs[..|cs| - 1]), cs[|cs| - 1];
      BoardStays(h, s, cs[..|cs| - 1]);
      if Exec(h, p, c.ts, c.cmd).Ok? {
        StaticStays(h, p, c.ts, c.cmd);
        SameBoardTrans(s.tasks, p.tasks, Replay(h, s, cs).tasks);
        GateKeysStay(h, p, c.ts, c.cmd);
      }
    }
  }

  function RuleOfTask(s: State, i: nat): Rule
    requires i < |s.tasks|
  {
    TaskRule(s.gates.Keys, s.tasks[i].id, s.tasks[i].oracle.Script?)
  }

  function RuleOfGate(s: State, id: string): Rule {
    GateRule(s.tasks, s.gates.Keys, id)
  }

  lemma FirstSame(a: seq<Task>, b: seq<Task>, i: nat)
    requires SameBoard(a, b) && i < |a|
    ensures First(a, i) == First(b, i) && SameStatic(a[i], b[i])
  {
    assert forall j :: 0 <= j < |a| ==> SameStatic(a[j], b[j]);
    FindSame(a, b, a[i].id);
  }

  lemma TaskRecordStep(h: Hasher, s: State, p: State, ts: string, c: Command, i: nat)
    requires Exec(h, p, ts, c).Ok? && SameBoard(s.tasks, p.tasks) && s.gates.Keys == p.gates.Keys
    requires i < |s.tasks| && First(s.tasks, i) && |s.history| <= |p.history|
    requires OnRecord(RuleOfTask(s, i), p.history, |s.history|, SeenTask(p.tasks[i]))
    ensures var r := Exec(h, p, ts, c).value;
            |r.tasks| == |s.tasks| && OnRecord(RuleOfTask(s, i), r.history, |s.history|, SeenTask(r.tasks[i]))
  {
    var r := Exec(h, p, ts, c).value;
    FirstSame(s.tasks, p.tasks, i);
    TaskStep(h, p, ts, c, i);
    StaysOnRecord(RuleOfTask(s, i), p.history, r.history[|p.history|], |s.history|,
                  SeenTask(p.tasks[i]), SeenTask(r.tasks[i]));
  }

  /** House rule: no fake green, and none lost. A task that is not done at the start is done after any
      commands exactly if it was earned since and not revoked after that: by a passing run of its script,
      or by an attestation of the evidence it carries. */
  lemma {:induction false} TaskDoneIffEarned(h: Hasher, s: State, cs: seq<Stamped>, i: nat)
    requires First(s.tasks, i) && s.tasks[i].status != Done
    ensures var r := Replay(h, s, cs);
            |r.tasks| == |s.tasks| && OnRecord(RuleOfTask(s, i), r.history, |s.history|, SeenTask(r.tasks[i]))
  {
    if cs != [] {
      var init, c := cs[..|cs| - 1], cs[|cs| - 1];
      TaskDoneIffEarned(h, s, init, i);
      BoardStays(h, s, init);
      if Exec(h, Replay(h, s, init), c.ts, c.cmd).Ok? {
        TaskRecordStep(h, s, Replay(h, s, init), c.ts, c.cmd, i);
      }
    }
  }

  /** A task that lookups never find, because an earlier one has its id, is never done. */
  lemma {:induction false} HiddenNeverDone(h: Hasher, s: State, cs: seq<Stamped>, i: nat)
    requires i < |s.tasks| && !First(s.tasks, i) && s.tasks[i].status != Done
    ensures var r := Replay(h, s, cs); |r.tasks| == |s.tasks| && r.tasks[i].status != Done
  {
    BoardStays(h, s, cs);
    if cs != [] {
      var init, c := cs[..|cs| - 1], cs[|cs| - 1];
      HiddenNeverDone(h, s, init, i);
      BoardStays(h, s, init);
      FirstSame(s.tasks, Replay(h, s, init).tasks, i);
      if Exec(h, Replay(h, s, init), c.ts, c.cmd).Ok? { HiddenStep(h, Replay(h, s, init), c.ts, c.cmd, i); }
    }
  }

  lemma SameGateRule(s: State, p: State, a: Action, id: string)
    requires SameBoard(s.tasks, p.tasks) && s.gates.Keys == p.gates.Keys
    ensures var (q, r) := (RuleOfGate(s, id), RuleOfGate(p, id)); q.earns(a) == r.earns(a) && q.revokes(a) == r.revokes(a)
  {
    if a.AttestedPass? { FeedsSame(s.tasks, p.tasks, a.target, id); }
    if a.OracleRun? { FeedsSame(s.tasks, p.tasks, a.task, id); }
  }

  /** The same for gates: earned by an attestation of the gate or of a task that feeds it. */
  lemma {:induction false} GateDoneIffEarned(h: Hasher, s: State, cs: seq<Stamped>, id: string)
    requires id in s.gates && s.gates[id].status != Done
    ensures var r := Replay(h, s, cs);
            id in r.gates && OnRecord(RuleOfGate(s, id), r.history, |s.history|, SeenGate(r.gates[id]))
  {
    if cs != [] {
      var init, c := cs[..|cs| - 1], cs[|cs| - 1];
      var p := Replay(h, s, init);
      GateDoneIffEarned(h, s, init, id);
      BoardStays(h, s, init);
      if Exec(h, p, c.ts, c.cmd).Ok? {
        var r := Exec(h, p, c.ts, c.cmd).value;
        GateStep(h, p, c.ts, c.cmd, id);
        SameGateRule(s, p, ActionOf(p, c.cmd), id);
        var _ := NormalForm(h, p, c.ts, c.cmd);
        StaysOnRecord(RuleOfGate(s, id), p.history, r.history[|p.history|], |s.history|,
                      SeenGate(p.gates[id]), SeenGate(r.gates[id]));
      }
    }
  }

  ghost predicate TaskEarned(s: State, r: State, i: nat) {
    && i < |s.tasks| == |r.tasks|
    && (r.tasks[i].status == Done <==> First(s.tasks, i) && Stands(RuleOfTask(s, i), r.history, |s.history|))
    && (First(s.tasks, i) ==> OnRecord(RuleOfTask(s, i), r.history, |s.history|, SeenTask(r.tasks[i])))
  }

  ghost predicate GateEarned(s: State, r: State, id: string) {
    id in r.gates && OnRecord(RuleOfGate(s, id), r.history, |s.history|, SeenGate(r.gates[id]))
  }

  /** From a board with nothing done, after any commands at all, the history alone tells what is done. */
  lemma NoFakeGreen(h: Hasher, s: State, cs: seq<Stamped>)
    requires forall i :: 0 <= i < |s.tasks| ==> s.tasks[i].status != Done
    requires forall id :: id in s.gates ==> s.gates[id].status != Done
    ensures forall i :: 0 <= i < |s.tasks| ==> TaskEarned(s, Replay(h, s, cs), i)
    ensures forall id :: id in s.gates ==> GateEarned(s, Replay(h, s, cs), id)
  {
    forall i | 0 <= i < |s.tasks| ensures TaskEarned(s, Replay(h, s, cs), i) {
      if First(s.tasks, i) { TaskDoneIffEarned(h, s, cs, i); } else { HiddenNeverDone(h, s, cs, i); }
    }
    forall id | id in s.gates ensures GateEarned(s, Replay(h, s, cs), id) { GateDoneIffEarned(h, s, cs, id); }
  }

  /** Entry `n` is the last one that earned gate `id`, and it attests the human task `i` that feeds it. */
  ghost predicate LastFedBy(s: State, hist: seq<Entry>, id: string, i: nat, n: nat) {
    && i < |s.tasks| && First(s.tasks, i) && !s.tasks[i].oracle.Script? && s.tasks[i].gate == Some(id)
    && s.tasks[i].id !in s.gates && |s.history| <= n < |hist|
    && hist[n].body.action.AttestedPass? && hist[n].body.action.target == s.tasks[i].id
    && forall m :: n < m < |hist| ==> !RuleOfGate(s, id).earns(hist[m].body.action)
  }

  lemma FeederEarnsGate(s: State, id: string, i: nat, a: Action)
    requires First(s.tasks, i) && !s.tasks[i].oracle.Script? && s.tasks[i].gate == Some(id)
    ensures RuleOfTask(s, i).earns(a) ==> RuleOfGate(s, id).earns(a)
  {}

  /** A gate can outlive the task that fed it. After the entry that last earned the gate, the task is still
      done exactly if nothing has revoked it; and what revokes a task never touches a gate. */
  lemma FeederDoneIff(h: Hasher, s: State, cs: seq<Stamped>, id: string, i: nat, n: nat)
    requires LastFedBy(s, Replay(h, s, cs).history, id, i, n) && s.tasks[i].status != Done
    ensures var r := Replay(h, s, cs);
            && |r.tasks| == |s.tasks|
            && (r.tasks[i].status == Done <==>
                  forall m :: n < m < |r.history| ==> !RuleOfTask(s, i).revokes(r.history[m].body.action))
  {
    var r := Replay(h, s, cs);
    TaskDoneIffEarned(h, s, cs, i);
    forall m | n < m < |r.history| ensures !RuleOfTask(s, i).earns(r.history[m].body.action) {
      FeederEarnsGate(s, id, i, r.history[m].body.action);
    }
    if r.tasks[i].status == Done {
      var k: nat :| |s.history| <= k && StandsFrom(RuleOfTask(s, i), r.history, k);
      assert k <= n;
    }
    if forall m :: n < m < |r.history| ==> !RuleOfTask(s, i).revokes(r.history[m].body.action) {
      assert StandsFrom(RuleOfTask(s, i), r.history, n);
    }
  }

  /** Such a run: the human task "T3" is attested, which turns its gate green, and then reset. */
  lemma GateOutlivesTask(h: Hasher, ts: string, rec: Record) returns (s: State, cs: seq<Stamped>)
    ensures |s.tasks| == 1 && s.tasks[0].status == Pending && s.gates.Keys == {"G1"} && s.gates["G1"].status == Pending
    ensures s.tasks[0].gate == Some("G1") && Verified(h, s.history)
    ensures var r := Replay(h, s, cs);
            |r.tasks| == 1 && r.tasks[0].status != Done && "G1" in r.gates && r.gates["G1"].status == Done
  {
    var t := Task("T3", [], Pending, Human(None), Some("G1"), None, [], None);
    s := State([t], map["G1" := Gate([], Pending, None)], 5, []);
    var pass, reset := Attest("T3", true, "", Some(Evidence(true, "", true, rec)), false), Reset("T3");
    cs := [Stamped(ts, pass), Stamped(ts, reset)];
    assert Promote(s.tasks) == s.tasks && Find(s.tasks, "T3") == Some(0);
    var green := Exec(h, s, ts, pass).value;
    assert Exec(h, s, ts, pass).Ok? && green.tasks[0].status == Done && green.gates["G1"].status == Done;
    LogKeepsVerified(h, s.history, ts, AttestedPass("T3", rec.sha, rec.signer, ""));
    assert Exec(h, green, ts, reset).Ok?;
    assert cs[..1] == [cs[0]] && cs[..1][..0] == [];
    assert Replay(h, s, cs[..1]) == green;
  }
}
