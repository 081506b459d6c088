/** Orchestrator processes sharing one state file: lock, load, modify, write a temporary file, rename it
    over the state, unlock; with readers that take no lock and processes that may die at any point. */
module Transactions {
  import opened Common
  import opened HistoryChain
  import opened Board
  import opened BoardRuns

  datatype Proc =
    | Idle
    | Locked(cmd: Stamped)
    | Loaded(cmd: Stamped, snapshot: State)
    | Edited(cmd: Stamped, result: State)
    | TempWritten(cmd: Stamped, result: State)
    | Leaving

  /** `committed` lists the saved commands in the order of their renames, `seen` what readers saw. */
  datatype System = System(disk: State, lock: Option<nat>, procs: seq<Proc>, committed: seq<Stamped>, seen: seq<State>)

  datatype Move =
    | Acquire(p: nat, cmd: Stamped)
    | Load(p: nat)
    | Modify(p: nat)
    | WriteTemp(p: nat)
    | Rename(p: nat)
    | Release(p: nat)
    | Crash(p: nat)
    | Read

  function Unlock(y: System, p: nat): Option<nat> {
    if y.lock == Some(p) then None else y.lock
  }

  /** One step, or None where the process is not at that point. `flock` says whether file locks exist on
      this platform; without them acquiring the lock is a no-op. */
  function Step(h: Hasher, flock: bool, y: System, m: Move): Option<System> {
    if m.Read? then Some(y.(seen := y.seen + [y.disk]))
    else if m.p >= |y.procs| then None
    else match (m, y.procs[m.p])
      case (Acquire(p, c), Idle) =>
        if flock && y.lock.Some? then None
        else Some(y.(lock := if flock then Some(p) else y.lock, procs := y.procs[p := Locked(c)]))
      case (Load(p), Locked(c)) => Some(y.(procs := y.procs[p := Loaded(c, y.disk)]))
      case (Modify(p), Loaded(c, s)) =>
        var r := Exec(h, s, c.ts, c.cmd);
        Some(y.(procs := y.procs[p := if r.Ok? then Edited(c, r.value) else Leaving]))
      case (WriteTemp(p), Edited(c, r)) => Some(y.(procs := y.procs[p := TempWritten(c, r)]))
      case (Rename(p), TempWritten(c, r)) =>
        Some(y.(disk := r, committed := y.committed + [c], procs := y.procs[p := Leaving]))
      case (Release(p), Leaving) => Some(y.(lock := Unlock(y, p), procs := y.procs[p := Idle]))
      case (Crash(p), _) => Some(y.(lock := Unlock(y, p), procs := y.procs[p := Idle]))
      case _ => None
  }

  function Steps(h: Hasher, flock: bool, y: System, ms: seq<Move>): Option<System> {
    if ms == [] then Some(y)
    else
      var before := Steps(h, flock, y, ms[..|ms| - 1]);
      if before.None? then None else Step(h, flock, before.value, ms[|ms| - 1])
  }

  function Start(init: State, n: nat): System {
    System(init, None, seq(n, _ => Idle), [], [])
  }

  /** A process inside the critical section holds the lock and works on what is on disk now. */
  ghost predicate ProcOk(h: Hasher, y: System, p: nat)
    requires p < |y.procs|
  {
    match y.procs[p]
    case Idle => true
    case Locked(_) => y.lock == Some(p)
    case Loaded(_, s) => y.lock == Some(p) && s == y.disk
    case Edited(c, r) => y.lock == Some(p) && Exec(h, y.disk, c.ts, c.cmd) == Ok(r)
    case TempWritten(c, r) => y.lock == Some(p) && Exec(h, y.disk, c.ts, c.cmd) == Ok(r)
    case Leaving => y.lock == Some(p)
  }

  ghost predicate WasCommitted(h: Hasher, init: State, committed: seq<Stamped>, s: State) {
    exists n :: 0 <= n <= |committed| && s == Replay(h, init, committed[..n])
  }

  ghost predicate Serial(h: Hasher, init: State, y: System) {
    && y.disk == Replay(h, init, y.committed)
    && |y.disk.history| == |init.history| + |y.committed|
    && (forall i :: 0 <= i < |y.seen| ==> WasCommitted(h, init, y.committed, y.seen[i]))
  }

  ghost predicate Inv(h: Hasher, init: State, y: System) {
    Serial(h, init, y) && forall p :: 0 <= p < |y.procs| ==> ProcOk(h, y, p)
  }

  lemma ReadsStay(h: Hasher, init: State, y: System, c: Stamped, s: State)
    requires WasCommitted(h, init, y.committed, s)
    ensures WasCommitted(h, init, y.committed + [c], s)
  {
    var n :| 0 <= n <= |y.committed| && s == Replay(h, init, y.committed[..n]);
    assert (y.committed + [c])[..n] == y.committed[..n];
  }

  /** The rename publishes exactly the command applied to the state it replaces. */
  lemma RenameIsSerial(h: Hasher, init: State, y: System, p: nat, y': System)
    requires Inv(h, init, y) && Step(h, true, y, Rename(p)) == Some(y')
    ensures Serial(h, init, y')
  {
    assert ProcOk(h, y, p);
    var c := y.procs[p].cmd;
    assert (y.committed + [c])[..|y.committed|] == y.committed;
    var _ := NormalForm(h, y.disk, c.ts, c.cmd);
    forall i | 0 <= i < |y'.seen| ensures WasCommitted(h, init, y'.committed, y'.seen[i]) {
      ReadsStay(h, init, y, c, y.seen[i]);
    }
  }

  lemma ProcStaysOk(h: Hasher, y: System, m: Move, y': System, q: nat)
    requires !m.Read? && m.p < |y.procs| && q < |y.procs| && ProcOk(h, y, m.p) && ProcOk(h, y, q)
    requires Step(h, true, y, m) == Some(y')
    ensures |y'.procs| == |y.procs| && ProcOk(h, y', q)
  {}

  lemma StepKeepsInv(h: Hasher, init: State, y: System, m: Move, y': System)
    requires Inv(h, init, y) && Step(h, true, y, m) == Some(y')
    ensures Inv(h, init, y')
  {
    if m.Read? {
      assert y.committed[..|y.committed|] == y.committed;
      assert WasCommitted(h, init, y.committed, y.disk);
      forall p | 0 <= p < |y'.procs| ensures ProcOk(h, y', p) { assert ProcOk(h, y, p); }
    } else {
      if m.Rename? { RenameIsSerial(h, init, y, m.p, y'); }
      forall q | 0 <= q < |y'.procs| ensures ProcOk(h, y', q) {
        assert ProcOk(h, y, m.p) && ProcOk(h, y, q);
        ProcStaysOk(h, y, m, y', q);
      }
    }
  }

  lemma {:induction false} StepsKeepInv(h: Hasher, init: State, y: System, ms: seq<Move>)
    requires Inv(h, init, y) && Steps(h, true, y, ms).Some?
    ensures Inv(h, init, Steps(h, true, y, ms).value)
  {
    if ms != [] {
      StepsKeepInv(h, init, y, ms[..|ms| - 1]);
      StepKeepsInv(h, init, Steps(h, true, y, ms[..|ms| - 1]).value, ms[|ms| - 1], Steps(h, true, y, ms).value);
    }
  }

  /** With file locks no update is lost: however any number of processes interleave, crash and read, the
      disk holds the committed commands replayed one after the other from the initial state, each of them
      has left exactly one entry in the history (so a rejected command has left nothing), every lock-free
      read saw one of those states, and at most one process is inside at a time. */
  lemma NoLostUpdate(h: Hasher, init: State, n: nat, ms: seq<Move>)
    requires Steps(h, true, Start(init, n), ms).Some?
    ensures var y := Steps(h, true, Start(init, n), ms).value;
            && Serial(h, init, y)
            && forall p, q :: 0 <= p < |y.procs| && 0 <= q < |y.procs| && p != q ==> y.procs[p].Idle? || y.procs[q].Idle?
  {
    var y := Steps(h, true, Start(init, n), ms).value;
    StepsKeepInv(h, init, Start(init, n), ms);
    forall p, q | 0 <= p < |y.procs| && 0 <= q < |y.procs| && p != q ensures y.procs[p].Idle? || y.procs[q].Idle? {
      assert ProcOk(h, y, p) && ProcOk(h, y, q);
    }
  }

  lemma StepsSnoc(h: Hasher, flock: bool, y: System, ms: seq<Move>, m: Move)
    requires Steps(h, flock, y, ms).Some?
    ensures Steps(h, flock, y, ms + [m]) == Step(h, flock, Steps(h, flock, y, ms).value, m)
  {
    assert (ms + [m])[..|ms|] == ms;
  }

  lemma Publish(h: Hasher, y0: System, ms: seq<Move>, p: nat, c: Stamped, r: State, y: System)
    requires Steps(h, false, y0, ms) == Some(y) && p < |y.procs| && y.procs[p] == Edited(c, r)
    ensures Steps(h, false, y0, ms + [WriteTemp(p)] + [Rename(p)]) ==
              Some(y.(disk := r, committed := y.committed + [c], procs := y.procs[p := Leaving]))
  {
    StepsSnoc(h, false, y0, ms, WriteTemp(p));
    StepsSnoc(h, false, y0, ms + [WriteTemp(p)], Rename(p));
    assert y.procs[p := TempWritten(c, r)][p := Leaving] == y.procs[p := Leaving];
  }

  /** One process goes from its loaded snapshot to the rename, with nobody to hold it back. */
  lemma Solo(h: Hasher, y0: System, ms: seq<Move>, p: nat, c: Stamped, s: State, r: State, y: System)
    returns (next: seq<Move>)
    requires Steps(h, false, y0, ms) == Some(y)
    requires p < |y.procs| && y.procs[p] == Loaded(c, s) && Exec(h, s, c.ts, c.cmd) == Ok(r)
    ensures Steps(h, false, y0, next) ==
              Some(y.(disk := r, committed := y.committed + [c], procs := y.procs[p := Leaving]))
  {
    StepsSnoc(h, false, y0, ms, Modify(p));
    var edited := y.(procs := y.procs[p := Edited(c, r)]);
    Publish(h, y0, ms + [Modify(p)], p, c, r, edited);
    next := ms + [Modify(p)] + [WriteTemp(p)] + [Rename(p)];
    assert edited.procs[p := Leaving] == y.procs[p := Leaving];
  }

  /** Two processes that have both loaded the initial state. */
  lemma BothLoaded(h: Hasher, init: State, c: Stamped) returns (ms: seq<Move>)
    ensures Steps(h, false, Start(init, 2), ms) == Some(Start(init, 2).(procs := [Loaded(c, init), Loaded(c, init)]))
  {
    var y0 := Start(init, 2);
    StepsSnoc(h, false, y0, [], Acquire(0, c));
    StepsSnoc(h, false, y0, [] + [Acquire(0, c)], Acquire(1, c));
    StepsSnoc(h, false, y0, [] + [Acquire(0, c)] + [Acquire(1, c)], Load(0));
    StepsSnoc(h, false, y0, [] + [Acquire(0, c)] + [Acquire(1, c)] + [Load(0)], Load(1));
    ms := [] + [Acquire(0, c)] + [Acquire(1, c)] + [Load(0)] + [Load(1)];
    assert y0.procs == [Idle, Idle];
    assert [Idle, Idle][0 := Locked(c)] == [Locked(c), Idle];
    assert [Locked(c), Idle][1 := Locked(c)] == [Locked(c), Locked(c)];
    assert [Locked(c), Locked(c)][0 := Loaded(c, init)] == [Loaded(c, init), Locked(c)];
    assert [Loaded(c, init), Locked(c)][1 := Loaded(c, init)] == [Loaded(c, init), Loaded(c, init)];
  }

  /** The lock is what does it: where file locks are missing, from every intact state two refreshes can
      interleave so that both commit and one of their entries is gone. */
  lemma LostWithoutFileLocks(h: Hasher, init: State) returns (ms: seq<Move>)
    requires Verified(h, init.history)
    ensures Steps(h, false, Start(init, 2), ms).Some?
    ensures var y := Steps(h, false, Start(init, 2), ms).value;
            |y.committed| == 2 && |y.disk.history| == |init.history| + 1 && !Serial(h, init, y)
  {
    var c := Stamped("", Refresh);
    var m0 := BothLoaded(h, init, c);
    var y := Start(init, 2).(procs := [Loaded(c, init), Loaded(c, init)]);
    var r := Exec(h, init, c.ts, c.cmd).value;
    var m1 := Solo(h, Start(init, 2), m0, 0, c, init, r, y);
    ms := Solo(h, Start(init, 2), m1, 1, c, init, r, Steps(h, false, Start(init, 2), m1).value);
  }
}
