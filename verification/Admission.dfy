/** Admission to extraction: a bounded semaphore of worker and queue slots, a worker pool, deadlines that
    cancel, and slots given back by a callback on the job's future. Every thread switch is a step. */
module Admission {
  import opened Common

  datatype Future = Queued | Running | Finished | Cancelled

  datatype Phase = Shed | Acquired | Failing | Failed | InPool(future: Future)

  /** One request. `callbacks` are registered on its future and not yet due; `due` have been triggered by
      the future's completion and not yet run; `releases` counts the slots given back on its behalf. */
  datatype Job = Job(phase: Phase, attached: bool, callbacks: nat, due: nat, releases: nat)

  datatype Worker = Idle | Working(job: nat)

  datatype Pool = Pool(capacity: nat, free: int, open: bool, workers: seq<Worker>, jobs: seq<Job>)

  datatype Move =
    | Arrive                       // acquire(blocking=False), or shed
    | Submit(job: nat)             // the pool accepts the work
    | SubmitRaises(job: nat)       // submit raises: closed pool, no thread
    | ReleaseFailed(job: nat)      // the except branch gives the slot back
    | Attach(job: nat)             // add_done_callback
    | Begin(worker: nat, job: nat)
    | Finish(worker: nat)          // result or exception set
    | Cancel(job: nat)             // deadline, disconnect or shutdown; effective on queued work only
    | CallBack(job: nat)           // one due callback releases the slot
    | Close                        // shutdown begins
    | Reopen                       // a later lifespan makes a new pool

  predicate IsDone(f: Future) { f == Finished || f == Cancelled }

  /** The future completes: whatever was registered on it is now due. */
  function Complete(j: Job, f: Future): Job {
    j.(phase := InPool(f), callbacks := 0, due := j.due + j.callbacks)
  }

  /** What a step makes of the one job it is about, and how many slots it gives back. */
  datatype Edit = Edit(job: Job, released: nat)

  function EditJob(j: Job, open: bool, m: Move): Option<Edit> {
    match m
    case Submit(_) => if j.phase.Acquired? && open then Some(Edit(j.(phase := InPool(Queued)), 0)) else None
    case SubmitRaises(_) => if j.phase.Acquired? then Some(Edit(j.(phase := Failing), 0)) else None
    case ReleaseFailed(_) =>
      if j.phase.Failing? then Some(Edit(j.(phase := Failed, releases := j.releases + 1), 1)) else None
    case Attach(_) =>
      if j.phase.InPool? && !j.attached then
        Some(Edit(if IsDone(j.phase.future) then j.(attached := true, due := j.due + 1)
                  else j.(attached := true, callbacks := j.callbacks + 1), 0))
      else None
    case Begin(_, _) => if j.phase == InPool(Queued) then Some(Edit(j.(phase := InPool(Running)), 0)) else None
    case Finish(_) => if j.phase.InPool? then Some(Edit(Complete(j, Finished), 0)) else None
    case Cancel(_) =>
      if j.phase == InPool(Queued) then Some(Edit(Complete(j, Cancelled), 0))
      else if j.phase.InPool? then Some(Edit(j, 0))
      else None
    case CallBack(_) =>
      if j.due > 0 then Some(Edit(j.(due := j.due - 1, releases := j.releases + 1), 1)) else None
    case _ => None
  }

  /** The job a step is about, if it is about one. */
  function JobOf(y: Pool, m: Move): Option<nat> {
    match m
    case Arrive => None
    case Close => None
    case Reopen => None
    case Finish(w) => if w < |y.workers| && y.workers[w].Working? then Some(y.workers[w].job) else None
    case Begin(w, i) => if w < |y.workers| && y.workers[w].Idle? then Some(i) else None
    case _ => Some(m.job)
  }

  function WorkersAfter(y: Pool, m: Move): seq<Worker> {
    match m
    case Begin(w, i) => if w < |y.workers| then y.workers[w := Working(i)] else y.workers
    case Finish(w) => if w < |y.workers| then y.workers[w := Idle] else y.workers
    case _ => y.workers
  }

  function Step(y: Pool, m: Move): Option<Pool> {
    match m
    case Arrive =>
      if y.free > 0 then Some(y.(free := y.free - 1, jobs := y.jobs + [Job(Acquired, false, 0, 0, 0)]))
      else Some(y.(jobs := y.jobs + [Job(Shed, false, 0, 0, 0)]))
    case Close => Some(y.(open := false))
    case Reopen =>
      if y.open || (exists w | 0 <= w < |y.workers| :: !y.workers[w].Idle?) then None else Some(y.(open := true))
    case _ =>
      var i := JobOf(y, m);
      if i.None? || i.value >= |y.jobs| then None
      else
        var e := EditJob(y.jobs[i.value], y.open, m);
        if e.None? then None
        else Some(y.(jobs := y.jobs[i.value := e.value.job], free := y.free + e.value.released,
                     workers := WorkersAfter(y, m)))
  }

  function Steps(y: Pool, ms: seq<Move>): Option<Pool> {
    if ms == [] then Some(y)
    else
      var before := Steps(y, ms[..|ms| - 1]);
      if before.None? then None else Step(before.value, ms[|ms| - 1])
  }

  function Start(workers: nat, queue: nat): Pool {
    Pool(workers + queue, workers + queue, true, seq(workers, _ => Idle), [])
  }

  // ---------- slots ----------

  /** A request that has taken a slot and not given it back. */
  predicate Holds(j: Job) { !j.phase.Shed? && j.releases == 0 }

  function HeldCount(jobs: seq<Job>): nat {
    if jobs == [] then 0 else HeldCount(jobs[..|jobs| - 1]) + Bit(Holds(jobs[|jobs| - 1]))
  }

  lemma {:induction false} HeldEdit(jobs: seq<Job>, i: nat, j: Job)
    requires i < |jobs|
    ensures HeldCount(jobs[i := j]) + Bit(Holds(jobs[i])) == HeldCount(jobs) + Bit(Holds(j))
  {
    var m := |jobs| - 1;
    if i < m {
      HeldEdit(jobs[..m], i, j);
      assert jobs[i := j][..m] == jobs[..m][i := j];
    } else {
      assert jobs[i := j][..m] == jobs[..m];
    }
  }

  lemma HeldSnoc(jobs: seq<Job>, j: Job)
    ensures HeldCount(jobs + [j]) == HeldCount(jobs) + Bit(Holds(j))
  {
    assert (jobs + [j])[..|jobs|] == jobs;
  }

  lemma {:induction false} SomeoneHolds(jobs: seq<Job>, i: nat)
    requires i < |jobs| && Holds(jobs[i])
    ensures HeldCount(jobs) > 0
  {
    if i < |jobs| - 1 { SomeoneHolds(jobs[..|jobs| - 1], i); }
  }

  lemma {:induction false} NobodyHolds(jobs: seq<Job>)
    requires forall i :: 0 <= i < |jobs| ==> !Holds(jobs[i])
    ensures HeldCount(jobs) == 0
  {
    if jobs != [] { NobodyHolds(jobs[..|jobs| - 1]); }
  }

  // ---------- the invariant ----------

  /** Each slot has exactly one way back: the release still to come, or the one that has happened. */
  predicate JobOk(j: Job) {
    match j.phase
    case Shed => j.releases == j.due == j.callbacks == 0 && !j.attached
    case Acquired => j.releases == j.due == j.callbacks == 0 && !j.attached
    case Failing => j.releases == j.due == j.callbacks == 0 && !j.attached
    case Failed => j.releases == 1 && j.due == j.callbacks == 0 && !j.attached
    case InPool(f) =>
      && j.callbacks + j.due + j.releases == Bit(j.attached)
      && if IsDone(f) then j.callbacks == 0 else j.due == j.releases == 0
  }

  predicate Employed(ws: seq<Worker>, jobs: seq<Job>, w: nat)
    requires w < |ws|
  {
    ws[w].Working? ==> ws[w].job < |jobs| && IsRunning(jobs[ws[w].job])
  }

  predicate Apart(ws: seq<Worker>, v: nat, w: nat)
    requires v < |ws| && w < |ws|
  {
    ws[v].Working? ==> ws[v] != ws[w]
  }

  ghost predicate HasWorker(ws: seq<Worker>, i: nat) {
    exists w :: 0 <= w < |ws| && ws[w] == Working(i)
  }

  ghost predicate JobsOk(jobs: seq<Job>) {
    forall i :: 0 <= i < |jobs| ==> JobOk(jobs[i])
  }

  /** Workers and running jobs pair up. */
  ghost predicate WorkersOk(ws: seq<Worker>, jobs: seq<Job>) {
    && (forall w :: 0 <= w < |ws| ==> Employed(ws, jobs, w))
    && (forall v, w :: 0 <= v < |ws| && 0 <= w < |ws| && v != w ==> Apart(ws, v, w))
    && (forall i :: 0 <= i < |jobs| && IsRunning(jobs[i]) ==> HasWorker(ws, i))
  }

  ghost predicate Inv(y: Pool) {
    && 0 <= y.free && y.free + HeldCount(y.jobs) == y.capacity
    && JobsOk(y.jobs) && WorkersOk(y.workers, y.jobs)
  }

  predicate IsRunning(j: Job) { j.phase == InPool(Running) }

  /** What a step releases is exactly what the job stops holding. */
  lemma EditKeepsJobOk(j: Job, open: bool, m: Move)
    requires JobOk(j) && EditJob(j, open, m).Some? && (m.Finish? ==> IsRunning(j))
    ensures var e := EditJob(j, open, m).value;
            && JobOk(e.job)
            && e.released + Bit(Holds(e.job)) == Bit(Holds(j))
            && (IsRunning(e.job) <==> m.Begin? || (IsRunning(j) && !m.Finish?))
  {}

  predicate Edits(m: Move) { !m.Arrive? && !m.Close? && !m.Reopen? }

  /** An editing step, taken apart. */
  lemma EditStep(y: Pool, m: Move, z: Pool) returns (i: nat, e: Edit)
    requires Edits(m) && JobsOk(y.jobs) && WorkersOk(y.workers, y.jobs) && Step(y, m) == Some(z)
    ensures JobOf(y, m) == Some(i) && i < |y.jobs| && EditJob(y.jobs[i], y.open, m) == Some(e)
    ensures z == y.(jobs := y.jobs[i := e.job], free := y.free + e.released, workers := WorkersAfter(y, m))
    ensures JobOk(y.jobs[i]) && JobOk(e.job) && (m.Finish? ==> IsRunning(y.jobs[i]))
    ensures e.released + Bit(Holds(e.job)) == Bit(Holds(y.jobs[i]))
    ensures IsRunning(e.job) <==> m.Begin? || (IsRunning(y.jobs[i]) && !m.Finish?)
  {
    i := JobOf(y, m).value;
    e := EditJob(y.jobs[i], y.open, m).value;
    if m.Finish? { assert Employed(y.workers, y.jobs, m.worker); }
    EditKeepsJobOk(y.jobs[i], y.open, m);
  }

  lemma IdleStep(y: Pool, m: Move, z: Pool)
    requires !Edits(m) && Step(y, m) == Some(z)
    ensures z.workers == y.workers && z.capacity == y.capacity
    ensures m.Arrive? ==> |z.jobs| == |y.jobs| + 1 && z.jobs == y.jobs + [z.jobs[|y.jobs|]] && ArrivedAs(y, z.jobs[|y.jobs|])
    ensures m.Arrive? ==> z.free == y.free - Bit(y.free > 0)
    ensures !m.Arrive? ==> z.jobs == y.jobs && z.free == y.free
  {}

  predicate ArrivedAs(y: Pool, j: Job) {
    j == Job(if y.free > 0 then Acquired else Shed, false, 0, 0, 0)
  }

  lemma SlotsConserved(y: Pool, m: Move, z: Pool)
    requires Inv(y) && Step(y, m) == Some(z)
    ensures 0 <= z.free && z.free + HeldCount(z.jobs) == z.capacity == y.capacity && JobsOk(z.jobs)
  {
    if Edits(m) {
      var i, e := EditStep(y, m, z);
      HeldEdit(y.jobs, i, e.job);
    } else {
      IdleStep(y, m, z);
      if m.Arrive? { HeldSnoc(y.jobs, z.jobs[|y.jobs|]); }
    }
  }

  lemma SameWork(ws: seq<Worker>, jobs: seq<Job>, jobs': seq<Job>)
    requires WorkersOk(ws, jobs) && |jobs| <= |jobs'|
    requires forall k :: 0 <= k < |jobs'| ==> IsRunning(jobs'[k]) == (k < |jobs| && IsRunning(jobs[k]))
    ensures WorkersOk(ws, jobs')
  {
    forall w | 0 <= w < |ws| ensures Employed(ws, jobs', w) { assert Employed(ws, jobs, w); }
  }

  lemma BeginWork(ws: seq<Worker>, jobs: seq<Job>, w: nat, i: nat, job: Job)
    requires WorkersOk(ws, jobs) && w < |ws| && ws[w].Idle? && i < |jobs| && !IsRunning(jobs[i]) && IsRunning(job)
    ensures WorkersOk(ws[w := Working(i)], jobs[i := job])
  {
    var ws', jobs' := ws[w := Working(i)], jobs[i := job];
    forall u | 0 <= u < |ws| ensures Employed(ws', jobs', u) { assert Employed(ws, jobs, u); }
    forall u, v | 0 <= u < |ws| && 0 <= v < |ws| && u != v ensures Apart(ws', u, v) {
      assert Apart(ws, u, v) && Employed(ws, jobs, u) && Employed(ws, jobs, v);
    }
    forall k | 0 <= k < |jobs'| && IsRunning(jobs'[k]) ensures HasWorker(ws', k) {
      if k == i {
        assert ws'[w] == Working(k);
      } else {
        assert HasWorker(ws, k);
        var u :| 0 <= u < |ws| && ws[u] == Working(k);
        assert ws'[u] == Working(k);
      }
    }
  }

  lemma FinishWork(ws: seq<Worker>, jobs: seq<Job>, w: nat, job: Job)
    requires WorkersOk(ws, jobs) && w < |ws| && ws[w].Working? && ws[w].job < |jobs| && !IsRunning(job)
    ensures WorkersOk(ws[w := Idle], jobs[ws[w].job := job])
  {
    var ws', jobs' := ws[w := Idle], jobs[ws[w].job := job];
    forall u | 0 <= u < |ws| ensures Employed(ws', jobs', u) {
      assert Employed(ws, jobs, u);
      if u != w { assert Apart(ws, u, w); }
    }
    forall u, v | 0 <= u < |ws| && 0 <= v < |ws| && u != v ensures Apart(ws', u, v) { assert Apart(ws, u, v); }
    forall k | 0 <= k < |jobs'| && IsRunning(jobs'[k]) ensures HasWorker(ws', k) {
      assert HasWorker(ws, k);
      var u :| 0 <= u < |ws| && ws[u] == Working(k);
      assert ws'[u] == Working(k);
    }
  }

  lemma EditWorkers(y: Pool, m: Move, i: nat, e: Edit)
    requires JobsOk(y.jobs) && WorkersOk(y.workers, y.jobs) && Edits(m)
    requires JobOf(y, m) == Some(i) && i < |y.jobs|
    requires (m.Begin? ==> !IsRunning(y.jobs[i])) && (IsRunning(e.job) <==> m.Begin? || (IsRunning(y.jobs[i]) && !m.Finish?))
    ensures WorkersOk(WorkersAfter(y, m), y.jobs[i := e.job])
  {
    if m.Begin? {
      BeginWork(y.workers, y.jobs, m.worker, i, e.job);
    } else if m.Finish? {
      FinishWork(y.workers, y.jobs, m.worker, e.job);
    } else {
      SameWork(y.workers, y.jobs, y.jobs[i := e.job]);
    }
  }

  lemma WorkersStayOk(y: Pool, m: Move, z: Pool)
    requires JobsOk(y.jobs) && WorkersOk(y.workers, y.jobs) && Step(y, m) == Some(z)
    ensures WorkersOk(z.workers, z.jobs) && |z.workers| == |y.workers|
  {
    if Edits(m) {
      var i, e := EditStep(y, m, z);
      EditWorkers(y, m, i, e);
    } else {
      IdleStep(y, m, z);
      SameWork(y.workers, y.jobs, z.jobs);
    }
  }

  lemma {:induction false} StepsKeepInv(y: Pool, ms: seq<Move>)
    requires Inv(y) && Steps(y, ms).Some?
    ensures Inv(Steps(y, ms).value) && Steps(y, ms).value.capacity == y.capacity
    ensures |Steps(y, ms).value.workers| == |y.workers|
  {
    if ms != [] {
      var init := ms[..|ms| - 1];
      StepsKeepInv(y, init);
      SlotsConserved(Steps(y, init).value, ms[|ms| - 1], Steps(y, ms).value);
      WorkersStayOk(Steps(y, init).value, ms[|ms| - 1], Steps(y, ms).value);
    }
  }

  /** The pool after any interleaving from the start. */
  lemma Reached(workers: nat, queue: nat, ms: seq<Move>) returns (y: Pool)
    requires Steps(Start(workers, queue), ms).Some?
    ensures y == Steps(Start(workers, queue), ms).value && Inv(y)
    ensures y.capacity == workers + queue && |y.workers| == workers
  {
    StepsKeepInv(Start(workers, queue), ms);
    y := Steps(Start(workers, queue), ms).value;
  }

  // ---------- the promises ----------

  /** Free and held slots always add up, and no request gives back more than the one slot it took. */
  lemma AdmissionConserves(workers: nat, queue: nat, ms: seq<Move>)
    requires Steps(Start(workers, queue), ms).Some?
    ensures var y := Steps(Start(workers, queue), ms).value;
            && y.free >= 0 && y.free + HeldCount(y.jobs) == workers + queue
            && forall i :: 0 <= i < |y.jobs| ==> y.jobs[i].releases <= if y.jobs[i].phase.Shed? then 0 else 1
  {
    var y := Reached(workers, queue, ms);
    forall i | 0 <= i < |y.jobs| ensures y.jobs[i].releases <= if y.jobs[i].phase.Shed? then 0 else 1 {
      assert JobOk(y.jobs[i]);
    }
  }

  /** The bounded semaphore is never released above its bound, whichever step comes next. */
  lemma NeverOverReleased(workers: nat, queue: nat, ms: seq<Move>, m: Move)
    requires Steps(Start(workers, queue), ms + [m]).Some?
    ensures Steps(Start(workers, queue), ms).Some?
    ensures Steps(Start(workers, queue), ms + [m]).value.free <= workers + queue
  {
    assert (ms + [m])[..|ms|] == ms;
    var _ := Reached(workers, queue, ms + [m]);
  }

  /** A request is shed exactly when every one of the slots is held. */
  lemma ShedIffFull(workers: nat, queue: nat, ms: seq<Move>)
    requires Steps(Start(workers, queue), ms).Some?
    ensures var y := Steps(Start(workers, queue), ms).value;
            Step(y, Arrive).value.jobs[|y.jobs|].phase.Shed? <==> HeldCount(y.jobs) == workers + queue
  {
    var y := Reached(workers, queue, ms);
  }

  function RunningJobs(y: Pool): set<nat> {
    set i: nat | i < |y.jobs| && y.jobs[i].phase == InPool(Running)
  }

  function Employing(ws: seq<Worker>): (r: set<nat>)
    ensures |r| <= |ws|
    ensures forall w :: 0 <= w < |ws| && ws[w].Working? ==> ws[w].job in r
  {
    if ws == [] then {} else
      var m := |ws| - 1;
      Employing(ws[..m]) + if ws[m].Working? then {ws[m].job} else {}
  }

  /** No more jobs run at once than there are workers. */
  lemma AtMostWorkersRun(workers: nat, queue: nat, ms: seq<Move>)
    requires Steps(Start(workers, queue), ms).Some?
    ensures |RunningJobs(Steps(Start(workers, queue), ms).value)| <= workers
  {
    var y := Reached(workers, queue, ms);
    forall i | i in RunningJobs(y) ensures i in Employing(y.workers) {
      assert HasWorker(y.workers, i);
    }
    SubsetSize(RunningJobs(y), Employing(y.workers));
  }

  predicate Unfinished(j: Job) { j.phase.InPool? && !IsDone(j.phase.future) }

  function UnfinishedCount(jobs: seq<Job>): nat {
    if jobs == [] then 0 else UnfinishedCount(jobs[..|jobs| - 1]) + Bit(Unfinished(jobs[|jobs| - 1]))
  }

  lemma {:induction false} UnfinishedHold(jobs: seq<Job>)
    requires JobsOk(jobs)
    ensures UnfinishedCount(jobs) <= HeldCount(jobs)
  {
    if jobs != [] { UnfinishedHold(jobs[..|jobs| - 1]); }
  }

  /** A deadline frees its slot only by removing the work: work queued or running never exceeds the slots. */
  lemma WorkIsBounded(workers: nat, queue: nat, ms: seq<Move>)
    requires Steps(Start(workers, queue), ms).Some?
    ensures UnfinishedCount(Steps(Start(workers, queue), ms).value.jobs) <= workers + queue
  {
    var y := Reached(workers, queue, ms);
    UnfinishedHold(y.jobs);
  }

  // ---------- draining ----------

  /** How many steps a request is away from having nothing left to do. */
  function Weight(j: Job): nat {
    match j.phase
    case Shed => 0
    case Acquired => 8
    case Failing => 1
    case Failed => 0
    case InPool(f) =>
      (if f.Queued? then 3 else if f.Running? then 2 else 0) + (if j.attached then 0 else 2) + j.callbacks + j.due
  }

  function Measure(jobs: seq<Job>): nat {
    if jobs == [] then 0 else Measure(jobs[..|jobs| - 1]) + Weight(jobs[|jobs| - 1])
  }

  lemma {:induction false} MeasureEdit(jobs: seq<Job>, i: nat, j: Job)
    requires i < |jobs|
    ensures Measure(jobs[i := j]) + Weight(jobs[i]) == Measure(jobs) + Weight(j)
  {
    var m := |jobs| - 1;
    if i < m {
      MeasureEdit(jobs[..m], i, j);
      assert jobs[i := j][..m] == jobs[..m][i := j];
    } else {
      assert jobs[i := j][..m] == jobs[..m];
    }
  }

  /** No handler, worker or callback has anything left to do. */
  ghost predicate Quiescent(y: Pool) {
    forall i :: 0 <= i < |y.jobs| ==> Weight(y.jobs[i]) == 0
  }

  /** A step of a draining pool: no arrival, no reopening, no cancel that comes too late to matter. */
  predicate Drains(y: Pool, m: Move) {
    && !m.Arrive? && !m.Close? && !m.Reopen?
    && (m.Cancel? ==> m.job < |y.jobs| && y.jobs[m.job].phase == InPool(Queued))
  }

  lemma DrainingTerminates(y: Pool, m: Move, z: Pool)
    requires Inv(y) && Drains(y, m) && Step(y, m) == Some(z)
    ensures Measure(z.jobs) < Measure(y.jobs)
  {
    var i, e := EditStep(y, m, z);
    LighterJob(y.jobs[i], y.open, m);
    MeasureEdit(y.jobs, i, e.job);
  }

  lemma LighterJob(j: Job, open: bool, m: Move)
    requires JobOk(j) && EditJob(j, open, m).Some? && (m.Finish? ==> IsRunning(j)) && (m.Cancel? ==> j.phase == InPool(Queued))
    ensures Weight(EditJob(j, open, m).value.job) < Weight(j)
  {}

  lemma DrainNeverStuck(y: Pool) returns (m: Move)
    requires Inv(y) && !Quiescent(y)
    ensures Drains(y, m) && Step(y, m).Some?
  {
    var i :| 0 <= i < |y.jobs| && Weight(y.jobs[i]) > 0;
    var j := y.jobs[i];
    if j.phase.Acquired? {
      m := SubmitRaises(i);
    } else if j.phase.Failing? {
      m := ReleaseFailed(i);
    } else if j.phase == InPool(Queued) {
      m := Cancel(i);
    } else if j.phase == InPool(Running) {
      assert HasWorker(y.workers, i);
      var w :| 0 <= w < |y.workers| && y.workers[w] == Working(i);
      m := Finish(w);
    } else if !j.attached {
      m := Attach(i);
    } else {
      assert JobOk(j);
      m := CallBack(i);
    }
  }

  /** Quiescent means drained: every request that took a slot has given it back exactly once, and all
      the slots are free again. */
  lemma QuiescentIsFree(workers: nat, queue: nat, ms: seq<Move>)
    requires Steps(Start(workers, queue), ms).Some? && Quiescent(Steps(Start(workers, queue), ms).value)
    ensures var y := Steps(Start(workers, queue), ms).value;
            && y.free == workers + queue
            && forall i :: 0 <= i < |y.jobs| ==> y.jobs[i].releases == if y.jobs[i].phase.Shed? then 0 else 1
  {
    var y := Reached(workers, queue, ms);
    forall i | 0 <= i < |y.jobs| ensures y.jobs[i].releases == if y.jobs[i].phase.Shed? then 0 else 1 {
      assert JobOk(y.jobs[i]) && Weight(y.jobs[i]) == 0;
    }
    NobodyHolds(y.jobs);
  }

  /** From any reachable state a pool that takes no more requests drains, and then has all slots free. */
  lemma {:induction false} DrainsToFree(workers: nat, queue: nat, ms: seq<Move>) returns (more: seq<Move>)
    requires Steps(Start(workers, queue), ms).Some?
    ensures ms <= more && Steps(Start(workers, queue), more).Some?
    ensures forall k :: |ms| <= k < |more| ==> !more[k].Arrive? && !more[k].Reopen?
    ensures Quiescent(Steps(Start(workers, queue), more).value)
    ensures Steps(Start(workers, queue), more).value.free == workers + queue
    decreases Measure(Steps(Start(workers, queue), ms).value.jobs)
  {
    var y := Reached(workers, queue, ms);
    if Quiescent(y) {
      more := ms;
      QuiescentIsFree(workers, queue, ms);
    } else {
      var m := DrainNeverStuck(y);
      assert (ms + [m])[..|ms|] == ms;
      DrainingTerminates(y, m, Step(y, m).value);
      more := DrainsToFree(workers, queue, ms + [m]);
      assert more[|ms|] == m;
    }
  }
}
