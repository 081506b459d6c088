/** The truth-gated loop board: what each command makes of the state it loaded. */
module Board {
  import opened Common
  import opened HistoryChain

  datatype Status = Blocked | Pending | InProgress | AwaitingOracle | Halted | Done | WontFix

  const TERMINAL: set<Status> := {Done, WontFix}
  const REPEAT_LIMIT := 2

  /** The targets a semantic validator is registered for. */
  const VALIDATED: set<string> := {"T1", "T3", "T2A", "T2B", "T6", "T4A", "T4B", "T5", "G0", "G3", "G4"}

  datatype Oracle = Script | Human(artifact: Option<string>)

  datatype Attempt = Attempt(passed: bool, signature: string)

  datatype Record = Record(sha: string, signer: string)

  datatype Task = Task(id: string, deps: seq<string>, status: Status, oracle: Oracle, gate: Option<string>,
                       maxIterations: Option<int>, attempts: seq<Attempt>, evidence: Option<Record>)

  datatype Gate = Gate(deps: seq<string>, status: Status, evidence: Option<Record>)

  datatype State = State(tasks: seq<Task>, gates: map<string, Gate>, defaultIterations: int, history: seq<Entry>)

  /** A manifest as the checks see it: whether its structure, provenance, freshness, artifact hash and
      signature hold up, and whether the target's validator accepts the artifact's content. */
  datatype Evidence = Evidence(genuine: bool, artifact: string, contentOk: bool, record: Record)

  datatype FileEvidence = NoFile | MissingFile | File(sha: string)

  datatype Command =
    | Refresh
    | Run(task: string, passed: bool, signature: string)
    | Attest(target: string, pass: bool, note: string, proof: Option<Evidence>, reopen: bool)
    | GiveUp(target: string, reason: string, file: FileEvidence)
    | Reset(task: string)

  // ---------- lookups ----------

  function DoneIds(tasks: seq<Task>): set<string> {
    set t | t in tasks && t.status == Done :: t.id
  }

  predicate DepsDone(tasks: seq<Task>, deps: seq<string>) {
    forall d | d in deps :: d in DoneIds(tasks)
  }

  function EffectiveStatus(tasks: seq<Task>, t: Task): Status {
    if t.status == Blocked && DepsDone(tasks, t.deps) then Pending else t.status
  }

  /** The index of the first task with this id. */
  function Find(tasks: seq<Task>, id: string): (r: Option<nat>)
    ensures r.Some? ==> r.value < |tasks| && tasks[r.value].id == id && forall j | 0 <= j < r.value :: tasks[j].id != id
    ensures r.None? ==> forall t | t in tasks :: t.id != id
  {
    if tasks == [] then None
    else if tasks[0].id == id then Some(0)
    else
      var r := Find(tasks[1..], id);
      if r.Some? then Some(r.value + 1) else None
  }

  predicate Actionable(tasks: seq<Task>, t: Task) {
    EffectiveStatus(tasks, t) in {Pending, InProgress}
  }

  // ---------- promotion ----------

  function Unblock(done: set<string>, t: Task): Task {
    if t.status == Blocked && (forall d | d in t.deps :: d in done) then t.(status := Pending) else t
  }

  function Promote(tasks: seq<Task>): seq<Task> {
    seq(|tasks|, i requires 0 <= i < |tasks| => Unblock(DoneIds(tasks), tasks[i]))
  }

  function PromotedCount(done: set<string>, tasks: seq<Task>): nat {
    if tasks == [] then 0
    else PromotedCount(done, tasks[..|tasks| - 1]) + Bit(Unblock(done, tasks[|tasks| - 1]) != tasks[|tasks| - 1])
  }

  // ---------- recording an oracle run ----------

  function FailSignatures(attempts: seq<Attempt>): seq<string> {
    if attempts == [] then []
    else
      var rest := FailSignatures(attempts[..|attempts| - 1]);
      if attempts[|attempts| - 1].passed then rest else rest + [attempts[|attempts| - 1].signature]
  }

  /** Anti-thrash: the last two failures carry the same signature. */
  predicate Repeats(sigs: seq<string>) {
    |sigs| >= REPEAT_LIMIT && sigs[|sigs| - 2] == sigs[|sigs| - 1]
  }

  function Budget(s: State, t: Task): int {
    if t.maxIterations.Some? then t.maxIterations.value else s.defaultIterations
  }

  function FailStatus(attempts: seq<Attempt>, budget: int): Status {
    if Repeats(FailSignatures(attempts)) || |attempts| >= budget then Halted else InProgress
  }

  // ---------- the commands ----------

  function WithLog(h: Hasher, s: State, ts: string, a: Action): State {
    s.(history := Logged(h, s.history, ts, a))
  }

  function SetTask(s: State, i: nat, t: Task): State
    requires i < |s.tasks|
  {
    s.(tasks := s.tasks[i := t])
  }

  function Promoted(s: State): State {
    s.(tasks := Promote(s.tasks))
  }

  /** A task without a gate is fine; naming a gate that does not exist raises a KeyError. */
  predicate GateKnown(s: State, t: Task) {
    t.gate.Some? ==> t.gate.value in s.gates
  }

  function AfterOracle(h: Hasher, s: State, i: nat, ts: string, passed: bool, signature: string): Result<State>
    requires i < |s.tasks|
  {
    var t := s.tasks[i];
    var sig := if passed then "PASS" else signature;
    var attempts := t.attempts + [Attempt(passed, sig)];
    var logged := WithLog(h, s, ts, OracleRun(t.id, passed, sig));
    if !passed then
      Ok(SetTask(logged, i, t.(attempts := attempts, status := FailStatus(attempts, Budget(s, t)))))
    else if !GateKnown(s, t) then
      Rejected
    else
      var green := SetTask(logged, i, t.(attempts := attempts, status := Done));
      Ok(Promoted(if t.gate.Some? then
                    green.(gates := s.gates[t.gate.value := s.gates[t.gate.value].(status := Pending)])
                  else green))
  }

  function RunCmd(h: Hasher, s0: State, ts: string, id: string, passed: bool, signature: string): Result<State> {
    var s := Promoted(s0);
    var found := Find(s.tasks, id);
    if found.None? then Rejected
    else
      var t := s.tasks[found.value];
      if t.status in TERMINAL || t.status == Blocked || !t.oracle.Script? then Rejected
      else AfterOracle(h, s, found.value, ts, passed, signature)
  }

  predicate EndsWith(path: string, suffix: string) {
    |path| >= |suffix| && path[|path| - |suffix|..] == suffix
  }

  /** The record an attestation is granted on, if any: no registered validator, no record. */
  function Accepted(target: string, required: Option<string>, proof: Option<Evidence>): Option<Record> {
    if proof.None? || !proof.value.genuine then None
    else if required.Some? && !EndsWith(proof.value.artifact, required.value) then None
    else if target !in VALIDATED || !proof.value.contentOk then None
    else Some(proof.value.record)
  }

  function AttestGate(h: Hasher, s: State, ts: string, c: Command): Result<State>
    requires c.Attest? && c.target in s.gates
  {
    var g := s.gates[c.target];
    if !DepsDone(s.tasks, g.deps) || (g.status in TERMINAL && !c.reopen) then Rejected
    else if !c.pass then
      Ok(WithLog(h, s.(gates := s.gates[c.target := g.(status := Pending)]), ts, AttestedFail(c.target, c.note)))
    else
      var rec := Accepted(c.target, None, c.proof);
      if rec.None? then Rejected
      else
        var logged := WithLog(h, s, ts, AttestedPass(c.target, rec.value.sha, rec.value.signer, c.note));
        Ok(logged.(gates := s.gates[c.target := g.(status := Done, evidence := rec)]))
  }

  function AttestTask(h: Hasher, s: State, i: nat, ts: string, c: Command): Result<State>
    requires c.Attest? && i < |s.tasks|
  {
    var t := s.tasks[i];
    if t.status == Blocked || !DepsDone(s.tasks, t.deps) || t.oracle.Script? || (t.status in TERMINAL && !c.reopen) then
      Rejected
    else if !c.pass then
      var t' := t.(attempts := t.attempts + [Attempt(false, "attest_fail")], status := InProgress);
      Ok(WithLog(h, SetTask(s, i, t'), ts, AttestedFail(c.target, c.note)))
    else
      var rec := Accepted(c.target, t.oracle.artifact, c.proof);
      if rec.None? || !GateKnown(s, t) then Rejected
      else
        var t' := t.(attempts := t.attempts + [Attempt(true, "PASS")], status := Done, evidence := rec);
        var logged := WithLog(h, SetTask(s, i, t'), ts, AttestedPass(c.target, rec.value.sha, rec.value.signer, c.note));
        Ok(Promoted(if t.gate.Some? then
                      logged.(gates := s.gates[t.gate.value := s.gates[t.gate.value].(status := Done, evidence := rec)])
                    else logged))
  }

  function AttestCmd(h: Hasher, s0: State, ts: string, c: Command): Result<State>
    requires c.Attest?
  {
    var s := Promoted(s0);
    if c.target in s.gates then AttestGate(h, s, ts, c)
    else
      var found := Find(s.tasks, c.target);
      if found.None? then Rejected else AttestTask(h, s, found.value, ts, c)
  }

  function GiveUpCmd(h: Hasher, s: State, ts: string, c: Command): Result<State>
    requires c.GiveUp?
  {
    if c.reason == "" || c.file.MissingFile? then Rejected
    else
      var logged := WithLog(h, s, ts, MarkedWontFix(c.target, c.reason, if c.file.File? then Some(c.file.sha) else None));
      if c.target in s.gates then
        Ok(logged.(gates := s.gates[c.target := s.gates[c.target].(status := WontFix)]))
      else
        var found := Find(s.tasks, c.target);
        if found.None? then Rejected
        else Ok(SetTask(logged, found.value, s.tasks[found.value].(status := WontFix)))
  }

  function ResetCmd(h: Hasher, s: State, ts: string, id: string): Result<State> {
    var found := Find(s.tasks, id);
    if found.None? then Rejected
    else
      var t := s.tasks[found.value];
      var status := if DepsDone(s.tasks, t.deps) then Pending else Blocked;
      Ok(WithLog(h, SetTask(s, found.value, t.(attempts := [], evidence := None, status := status)), ts, WasReset(id)))
  }

  /** What a mutating invocation saves, given the state it loaded; a broken chain refuses everything. */
  function Exec(h: Hasher, s: State, ts: string, c: Command): Result<State> {
    if !Verified(h, s.history) then Rejected
    else match c
      case Refresh => Ok(WithLog(h, Promoted(s), ts, Refreshed(PromotedCount(DoneIds(s.tasks), s.tasks))))
      case Run(id, passed, signature) => RunCmd(h, s, ts, id, passed, signature)
      case Attest(_, _, _, _, _) => AttestCmd(h, s, ts, c)
      case GiveUp(_, _, _) => GiveUpCmd(h, s, ts, c)
      case Reset(id) => ResetCmd(h, s, ts, id)
  }

  /** The task `next` points at: the first actionable one. */
  function NextTask(tasks: seq<Task>, from: nat): (r: Option<nat>)
    requires from <= |tasks|
    ensures r.Some? ==> from <= r.value < |tasks| && Actionable(tasks, tasks[r.value])
    ensures r.Some? ==> forall i | from <= i < r.value :: !Actionable(tasks, tasks[i])
    ensures r.None? ==> forall i | from <= i < |tasks| :: !Actionable(tasks, tasks[i])
    decreases |tasks| - from
  {
    if from == |tasks| then None
    else if Actionable(tasks, tasks[from]) then Some(from)
    else NextTask(tasks, from + 1)
  }

  lemma DoneByIndex(before: seq<Task>, tasks: seq<Task>)
    requires |tasks| == |before|
    requires forall j | 0 <= j < |tasks| :: tasks[j].id == before[j].id && (tasks[j].status == Done <==> before[j].status == Done)
    ensures DoneIds(tasks) == DoneIds(before)
  {
    forall d ensures d in DoneIds(tasks) <==> d in DoneIds(before) {
      if d in DoneIds(tasks) {
        var t :| t in tasks && t.status == Done && t.id == d;
        var j :| 0 <= j < |tasks| && tasks[j] == t;
        assert before[j] in before;
      }
      if d in DoneIds(before) {
        var t :| t in before && t.status == Done && t.id == d;
        var j :| 0 <= j < |before| && before[j] == t;
        assert tasks[j] in tasks;
      }
    }
  }
}
