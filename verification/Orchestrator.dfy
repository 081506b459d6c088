/** The commands as they run: a loaded state edited in place. A command that returns false has left
    through `sys.exit` or an exception, and its half-edited state is never saved. */
module Orchestrator {
  import opened Common
  import opened HistoryChain
  import opened Board

  class Session {
    const h: Hasher
    var tasks: seq<Task>
    var gates: map<string, Gate>
    const defaultIterations: int
    var history: seq<Entry>

    constructor (h: Hasher, s: State)
      ensures this.h == h && Contents() == s
    {
      this.h := h;
      tasks, gates, defaultIterations, history := s.tasks, s.gates, s.defaultIterations, s.history;
    }

    ghost function Contents(): State
      reads this
    {
      State(tasks, gates, defaultIterations, history)
    }

    method Log(ts: string, a: Action)
      modifies this`history
      ensures history == Logged(h, old(history), ts, a)
    {
      var prevHash := if history == [] then GENESIS else history[|history| - 1].hash;
      var body := Body(ts, prevHash, a);
      history := history + [Entry(body, h.sha256(prevHash + h.json(body)))];
    }

    method FindTask(id: string) returns (r: Option<nat>)
      ensures r == Find(tasks, id)
    {
      for i := 0 to |tasks|
        invariant forall j | 0 <= j < i :: tasks[j].id != id
      {
        if tasks[i].id == id {
          FindIsFirst(tasks, id, i);
          return Some(i);
        }
      }
      r := None;
    }

    /** One pass over the tasks; promotions on the way do not change who is done. */
    method RefreshBlocked() returns (changed: nat)
      modifies this`tasks
      ensures tasks == Promote(old(tasks))
      ensures changed == PromotedCount(DoneIds(old(tasks)), old(tasks))
    {
      ghost var before := tasks;
      ghost var done := DoneIds(before);
      changed := 0;
      var i := 0;
      while i < |tasks|
        invariant 0 <= i <= |tasks| == |before|
        invariant forall j | 0 <= j < |tasks| :: tasks[j] == if j < i then Unblock(done, before[j]) else before[j]
        invariant changed == PromotedCount(done, before[..i])
      {
        SameDone(before, tasks, done, i);
        assert before[..i + 1][..i] == before[..i];
        var t := tasks[i];
        if t.status == Blocked && DepsDone(tasks, t.deps) {
          tasks := tasks[i := t.(status := Pending)];
          changed := changed + 1;
        }
        i := i + 1;
      }
      assert before[..i] == before;
    }

    method RecordRun(i: nat, ts: string, passed: bool, signature: string) returns (ok: bool)
      requires i < |tasks|
      modifies this
      ensures ok <==> AfterOracle(h, old(Contents()), i, ts, passed, signature).Ok?
      ensures ok ==> Contents() == AfterOracle(h, old(Contents()), i, ts, passed, signature).value
    {
      var t := tasks[i];
      var sig := if passed then "PASS" else signature;
      var attempts := t.attempts + [Attempt(passed, sig)];
      tasks := tasks[i := t.(attempts := attempts)];
      Log(ts, OracleRun(t.id, passed, sig));
      if passed {
        tasks := tasks[i := tasks[i].(status := Done)];
        assert tasks == old(tasks)[i := t.(attempts := attempts, status := Done)];
        if t.gate.Some? {
          if t.gate.value !in gates {
            return false;
          }
          gates := gates[t.gate.value := gates[t.gate.value].(status := Pending)];
        }
        var _ := RefreshBlocked();
        return true;
      }
      var sigs := FailedSignatures(attempts);
      var budget := if t.maxIterations.Some? then t.maxIterations.value else defaultIterations;
      if |sigs| >= REPEAT_LIMIT && sigs[|sigs| - 2] == sigs[|sigs| - 1] {
        tasks := tasks[i := tasks[i].(status := Halted)];
      } else if |attempts| >= budget {
        tasks := tasks[i := tasks[i].(status := Halted)];
      } else {
        tasks := tasks[i := tasks[i].(status := InProgress)];
      }
      assert tasks == old(tasks)[i := t.(attempts := attempts, status := FailStatus(attempts, budget))];
      ok := true;
    }

    method FailedSignatures(attempts: seq<Attempt>) returns (sigs: seq<string>)
      ensures sigs == FailSignatures(attempts)
    {
      sigs := [];
      for n := 0 to |attempts|
        invariant sigs == FailSignatures(attempts[..n])
      {
        assert attempts[..n + 1][..n] == attempts[..n];
        if !attempts[n].passed {
          sigs := sigs + [attempts[n].signature];
        }
      }
      assert attempts[..|attempts|] == attempts;
    }

    method Run(id: string, ts: string, passed: bool, signature: string) returns (ok: bool)
      modifies this
      ensures ok <==> RunCmd(h, old(Contents()), ts, id, passed, signature).Ok?
      ensures ok ==> Contents() == RunCmd(h, old(Contents()), ts, id, passed, signature).value
    {
      var _ := RefreshBlocked();
      var found := FindTask(id);
      if found.None? {
        return false;
      }
      var t := tasks[found.value];
      if t.status in TERMINAL || t.status == Blocked || !t.oracle.Script? {
        return false;
      }
      ok := RecordRun(found.value, ts, passed, signature);
    }

    method AttestGateNow(c: Command, ts: string) returns (ok: bool)
      requires c.Attest? && c.target in gates
      modifies this
      ensures ok <==> AttestGate(h, old(Contents()), ts, c).Ok?
      ensures ok ==> Contents() == AttestGate(h, old(Contents()), ts, c).value
    {
      var g := gates[c.target];
      if !DepsDone(tasks, g.deps) {
        return false;
      }
      if g.status in TERMINAL && !c.reopen {
        return false;
      }
      if !c.pass {
        gates := gates[c.target := g.(status := Pending)];
        Log(ts, AttestedFail(c.target, c.note));
        return true;
      }
      var rec := Accepted(c.target, None, c.proof);
      if rec.None? {
        return false;
      }
      Log(ts, AttestedPass(c.target, rec.value.sha, rec.value.signer, c.note));
      gates := gates[c.target := gates[c.target].(status := Done, evidence := rec)];
      ok := true;
    }

    method AttestTaskNow(i: nat, c: Command, ts: string) returns (ok: bool)
      requires c.Attest? && i < |tasks|
      modifies this
      ensures ok <==> AttestTask(h, old(Contents()), i, ts, c).Ok?
      ensures ok ==> Contents() == AttestTask(h, old(Contents()), i, ts, c).value
    {
      var t := tasks[i];
      if t.status == Blocked || !DepsDone(tasks, t.deps) {
        return false;
      }
      if t.oracle.Script? {
        return false;
      }
      if t.status in TERMINAL && !c.reopen {
        return false;
      }
      if !c.pass {
        tasks := tasks[i := t.(attempts := t.attempts + [Attempt(false, "attest_fail")])];
        tasks := tasks[i := tasks[i].(status := InProgress)];
        assert tasks == old(tasks)[i := tasks[i]];
        Log(ts, AttestedFail(c.target, c.note));
        return true;
      }
      var rec := Accepted(c.target, t.oracle.artifact, c.proof);
      if rec.None? {
        return false;
      }
      Log(ts, AttestedPass(c.target, rec.value.sha, rec.value.signer, c.note));
      tasks := tasks[i := t.(attempts := t.attempts + [Attempt(true, "PASS")])];
      tasks := tasks[i := tasks[i].(status := Done, evidence := rec)];
      assert tasks == old(tasks)[i := tasks[i]];
      if t.gate.Some? {
        if t.gate.value !in gates {
          return false;
        }
        gates := gates[t.gate.value := gates[t.gate.value].(status := Done, evidence := rec)];
      }
      var _ := RefreshBlocked();
      ok := true;
    }

    method AttestTarget(c: Command, ts: string) returns (ok: bool)
      requires c.Attest?
      modifies this
      ensures ok <==> AttestCmd(h, old(Contents()), ts, c).Ok?
      ensures ok ==> Contents() == AttestCmd(h, old(Contents()), ts, c).value
    {
      var _ := RefreshBlocked();
      if c.target in gates {
        ok := AttestGateNow(c, ts);
      } else {
        var found := FindTask(c.target);
        if found.None? {
          return false;
        }
        ok := AttestTaskNow(found.value, c, ts);
      }
    }

    method GiveUpOn(c: Command, ts: string) returns (ok: bool)
      requires c.GiveUp?
      modifies this
      ensures ok <==> GiveUpCmd(h, old(Contents()), ts, c).Ok?
      ensures ok ==> Contents() == GiveUpCmd(h, old(Contents()), ts, c).value
    {
      if c.reason == "" || c.file.MissingFile? {
        return false;
      }
      if c.target in gates {
        gates := gates[c.target := gates[c.target].(status := WontFix)];
      } else {
        var found := FindTask(c.target);
        if found.None? {
          return false;
        }
        tasks := tasks[found.value := tasks[found.value].(status := WontFix)];
      }
      Log(ts, MarkedWontFix(c.target, c.reason, if c.file.File? then Some(c.file.sha) else None));
      ok := true;
    }

    method ResetTask(id: string, ts: string) returns (ok: bool)
      modifies this
      ensures ok <==> ResetCmd(h, old(Contents()), ts, id).Ok?
      ensures ok ==> Contents() == ResetCmd(h, old(Contents()), ts, id).value
    {
      var found := FindTask(id);
      if found.None? {
        return false;
      }
      var i := found.value;
      ghost var before := tasks;
      tasks := tasks[i := tasks[i].(attempts := [], evidence := None)];
      assert DoneIds(tasks) == DoneIds(before) by { EditsKeepDone(before, tasks, i); }
      var status := if DepsDone(tasks, tasks[i].deps) then Pending else Blocked;
      tasks := tasks[i := tasks[i].(status := status)];
      Log(ts, WasReset(id));
      ok := true;
    }

    /** One mutating invocation on the loaded state, the check of the history chain first. */
    method Execute(c: Command, ts: string) returns (ok: bool)
      modifies this
      ensures ok <==> Exec(h, old(Contents()), ts, c).Ok?
      ensures ok ==> Contents() == Exec(h, old(Contents()), ts, c).value
    {
      var intact, _ := VerifyHistoryChain(h, history);
      if !intact {
        return false;
      }
      match c
      case Refresh =>
        var n := RefreshBlocked();
        Log(ts, Refreshed(n));
        ok := true;
      case Run(id, passed, signature) => ok := Run(id, ts, passed, signature);
      case Attest(_, _, _, _, _) => ok := AttestTarget(c, ts);
      case GiveUp(_, _, _) => ok := GiveUpOn(c, ts);
      case Reset(id) => ok := ResetTask(id, ts);
    }

    /** Read-only: the first task that is pending or in progress once promotions are counted in. */
    method Next() returns (r: Option<nat>)
      ensures r == NextTask(tasks, 0)
    {
      for i := 0 to |tasks|
        invariant NextTask(tasks, 0) == NextTask(tasks, i)
      {
        if EffectiveStatus(tasks, tasks[i]) in {Pending, InProgress} {
          return Some(i);
        }
      }
      r := None;
    }
  }

  lemma {:induction false} FindIsFirst(tasks: seq<Task>, id: string, i: nat)
    requires i < |tasks| && tasks[i].id == id && forall j | 0 <= j < i :: tasks[j].id != id
    ensures Find(tasks, id) == Some(i)
  {
    var r := Find(tasks, id);
    assert tasks[i] in tasks;
  }

  /** Editing fields other than id and status, or unblocking, changes nobody's being done. */
  lemma SameDone(before: seq<Task>, tasks: seq<Task>, done: set<string>, i: nat)
    requires |tasks| == |before| && done == DoneIds(before)
    requires forall j | 0 <= j < |tasks| :: tasks[j] == if j < i then Unblock(done, before[j]) else before[j]
    ensures DoneIds(tasks) == done
  {
    DoneByIndex(before, tasks);
  }

  lemma EditsKeepDone(before: seq<Task>, tasks: seq<Task>, i: nat)
    requires i < |before| && |tasks| == |before|
    requires tasks == before[i := tasks[i]] && tasks[i].id == before[i].id && tasks[i].status == before[i].status
    ensures DoneIds(tasks) == DoneIds(before)
  {
    DoneByIndex(before, tasks);
  }
}
