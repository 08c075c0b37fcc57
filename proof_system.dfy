/**
 * Model of the bookkeeping of src/proof_system.rs: the statistics counters,
 * the task lists of `ProofGenerator`, the submission loop and the
 * non-blocking drain loop of `proof_generation_system`, and the work one task
 * does (`generate_proof_async`: height choice, matrix generation, constraint
 * check, proving, serialisation).
 *
 * The task pool is an oracle: a task's `status` is `None` while it runs and
 * becomes `Some(outcome)` when a worker finishes it (`FinishTask`). The STARK
 * prover itself is not modelled; only whether serialising its artifact
 * succeeds is taken as an input.
 */
module ProofSystem {
  import opened Options
  import opened Traces
  import opened Air
  import opened ConstraintCheck

  /**
   * How a task can end without a proof. An origin violation (the `assert!`
   * of `generate_movement_trace_matrix`) and a violated constraint (Plonky3's
   * `check_constraints`) are panics inside the task; only a serialisation
   * failure is an `Err` that the task returns.
   */
  datatype FailureKind = OriginPanic | ConstraintPanic | SerializationFailure

  /** How a task ends: the `Ok((bytes, size))` of its `ProofResult`, or one of the failures above. */
  datatype ProofOutcome = Proved(proofSize: nat) | Failed(kind: FailureKind)

  /** The task panicked instead of returning a `ProofResult`. */
  predicate Panics(o: ProofOutcome)
  {
    o.Failed? && o.kind != SerializationFailure
  }

  /** What serialising a proof artifact gives; it is decided outside the model. */
  datatype Serialization = Serialized(size: nat) | SerializationError

  /** One spawned unit of work, with the window it proves and its state in the task pool. */
  datatype Task = Task(traceId: nat, trace: MovementTrace, submittedAt: int, status: Option<ProofOutcome>)

  datatype CompletedProof = CompletedProof(traceId: nat, proofSize: nat, verificationSuccess: bool, completedAt: int)

  /** The integer counters of `ProofStats` (the floating-point latency totals are left out). */
  datatype ProofStats = ProofStats(
    totalProofsGenerated: nat,
    totalProofsVerified: nat,
    successfulVerifications: nat,
    failedVerifications: nat)

  /** `ProofStats::default()`. */
  const DEFAULT_STATS: ProofStats := ProofStats(0, 0, 0, 0)

  const MIN_TRACE_HEIGHT: nat := 4

  function Max(a: nat, b: nat): nat
  {
    if a >= b then a else b
  }

  // ---------------------------------------------------------------------------
  // One unit of work
  // ---------------------------------------------------------------------------

  /** The matrix height chosen for a window of `len` samples: `next_power_of_2(max(len, 4))`. */
  function TargetHeight(len: nat): (h: nat)
    ensures IsPowerOfTwo(h) && h >= MIN_TRACE_HEIGHT && h >= len
    ensures h < 2 * Max(len, MIN_TRACE_HEIGHT)
  {
    NextPow2(Max(len, MIN_TRACE_HEIGHT))
  }

  /** The outcome a worker reports for window `trace`, given what serialisation does. */
  function ProofOutcomeOf(trace: MovementTrace, serialization: Serialization): ProofOutcome
  {
    match TraceMatrix(trace, TargetHeight(|trace.steps|))
    case OriginViolation => Failed(OriginPanic)
    case Matrix(rows) =>
      if !SatisfiesAir(rows) then Failed(ConstraintPanic)
      else if serialization.Serialized? then Proved(serialization.size)
      else Failed(SerializationFailure)
  }

  /**
   * `generate_proof_async`: choose the height, build the matrix, check the
   * constraints, prove and serialise. The task runs Plonky3's own debug
   * constraint checker, which panics on the first violated constraint; the
   * reference checker `CheckMovementConstraints` stands in for it, since it
   * passes exactly the matrices that satisfy the same constraints. The task
   * panics exactly when the origin check fails or the matrix breaks a
   * constraint.
   */
  method GenerateProofAsync(trace: MovementTrace, serialization: Serialization) returns (r: ProofOutcome)
    ensures r == ProofOutcomeOf(trace, serialization)
    ensures r.Failed? && r.kind == OriginPanic <==> OriginCheckFails(trace)
    ensures Panics(r) <==> OriginCheckFails(trace) || !SatisfiesAir(TraceMatrix(trace, TargetHeight(|trace.steps|)).rows)
    ensures r.Proved? ==> serialization == Serialized(r.proofSize)
  {
    var targetHeight := NextPowerOf2(Max(|trace.steps|, MIN_TRACE_HEIGHT));
    var matrix := GenerateMovementTraceMatrix(trace, targetHeight);
    if matrix.OriginViolation? {
      return Failed(OriginPanic);
    }
    var check := CheckMovementConstraints(matrix.rows);
    if !check.Passed? {
      return Failed(ConstraintPanic);
    }
    match serialization
    case Serialized(size) => r := Proved(size);
    case SerializationError => r := Failed(SerializationFailure);
  }

  // ---------------------------------------------------------------------------
  // Submission
  // ---------------------------------------------------------------------------

  /** The windows the submission loop spawns work for: those with more than one sample, in order. */
  function ProvableTraces(ts: seq<MovementTrace>): (r: seq<MovementTrace>)
    ensures |r| <= |ts|
  {
    if ts == [] then []
    else
      var front := ts[..|ts| - 1];
      ProvableTraces(front) + if |Last(ts).steps| > 1 then [Last(ts)] else []
  }

  /**
   * The tasks spawned for queued windows `ts`, in the order they are
   * popped: each provable window gets the next id after `firstId` and the
   * tasks spawned before it.
   */
  function Spawned(ts: seq<MovementTrace>, firstId: nat, now: int): seq<Task>
  {
    if ts == [] then []
    else
      var front := Spawned(ts[..|ts| - 1], firstId, now);
      front + if |Last(ts).steps| > 1 then [Task(firstId + |front|, Last(ts), now, None)] else []
  }

  // ---------------------------------------------------------------------------
  // Draining finished tasks
  // ---------------------------------------------------------------------------

  /** The tasks among the first `n` of `ts` that are still running, in their relative order. */
  function RunningAmong(ts: seq<Task>, n: nat): (r: seq<Task>)
    requires n <= |ts|
    ensures |r| <= n
  {
    if n == 0 then [] else RunningAmong(ts, n - 1) + if ts[n - 1].status.None? then [ts[n - 1]] else []
  }

  /** The outcomes of the finished tasks among the first `n` of `ts`, in order. */
  function OutcomesAmong(ts: seq<Task>, n: nat): seq<ProofOutcome>
    requires n <= |ts|
  {
    if n == 0 then [] else OutcomesAmong(ts, n - 1) + if ts[n - 1].status.Some? then [ts[n - 1].status.value] else []
  }

  /** The `CompletedProof` records the first `n` tasks of `ts` leave behind. */
  function RecordsAmong(ts: seq<Task>, n: nat, now: int): seq<CompletedProof>
    requires n <= |ts|
  {
    if n == 0 then [] else RecordsAmong(ts, n - 1, now) + RecordFor(ts[n - 1], now)
  }

  /** The tasks a drain leaves running. */
  function StillRunning(ts: seq<Task>): seq<Task>
  {
    RunningAmong(ts, |ts|)
  }

  /** The outcomes a drain counts, in the order it meets them. */
  function Outcomes(ts: seq<Task>): seq<ProofOutcome>
  {
    OutcomesAmong(ts, |ts|)
  }

  /** The records a drain appends to `completed_proofs`. */
  function NewlyCompleted(ts: seq<Task>, now: int): seq<CompletedProof>
  {
    RecordsAmong(ts, |ts|, now)
  }

  /** The record a successful task leaves behind; other tasks leave none. */
  function RecordFor(t: Task, now: int): seq<CompletedProof>
  {
    if t.status.Some? && t.status.value.Proved? then [CompletedProof(t.traceId, t.status.value.proofSize, true, now)] else []
  }

  function CountProved(os: seq<ProofOutcome>): nat
  {
    if os == [] then 0 else CountProved(os[..|os| - 1]) + if Last(os).Proved? then 1 else 0
  }

  function CountFailed(os: seq<ProofOutcome>): nat
  {
    if os == [] then 0 else CountFailed(os[..|os| - 1]) + if Last(os).Failed? then 1 else 0
  }

  /** The statistics after processing outcomes `os`. */
  function Tally(s: ProofStats, os: seq<ProofOutcome>): ProofStats
  {
    s.(totalProofsGenerated := s.totalProofsGenerated + CountProved(os),
       successfulVerifications := s.successfulVerifications + CountProved(os),
       failedVerifications := s.failedVerifications + CountFailed(os))
  }

  /**
   * The index loop of `proof_generation_system` on the task list, the
   * completed records and the counters: task `i` is removed when it has
   * finished (and `i` stays put), its outcome is counted and a success is
   * recorded; a running task is stepped over. A task that panicked is
   * counted as a failure here, as if the panic were contained where the
   * task runs; `DrainAsWritten` is the loop as the source has it.
   */
  method DrainFinished(active: seq<Task>, completed0: seq<CompletedProof>, stats0: ProofStats, now: int)
    returns (tasks: seq<Task>, completed: seq<CompletedProof>, st: ProofStats)
    ensures tasks == StillRunning(active)
    ensures completed == completed0 + NewlyCompleted(active, now)
    ensures st == Tally(stats0, Outcomes(active))
  {
    tasks, completed, st := active, completed0, stats0;
    ghost var j := 0;
    var i := 0;
    assert tasks == [] + active[0..];
    assert completed == completed0 + [];
    while i < |tasks|
      invariant 0 <= j <= |active|
      invariant tasks == RunningAmong(active, j) + active[j..]
      invariant i == |RunningAmong(active, j)|
      invariant completed == completed0 + RecordsAmong(active, j, now)
      invariant st == Tally(stats0, OutcomesAmong(active, j))
      decreases |active| - j
    {
      tasks, i, completed, st := ExamineTask(active, j, tasks, i, completed, st, completed0, stats0, now);
      j := j + 1;
    }
    assert j == |active| by { assert |tasks| == i + |active[j..]|; }
    assert active[j..] == [];
    assert tasks == RunningAmong(active, j) + [];
  }

  /** One pass of the drain loop: task `i` of the list, which is task `j` of the original `active`. */
  method ExamineTask(ghost active: seq<Task>, ghost j: nat, tasks: seq<Task>, i: nat,
                     completed: seq<CompletedProof>, st: ProofStats,
                     ghost completed0: seq<CompletedProof>, ghost stats0: ProofStats, now: int)
    returns (tasks': seq<Task>, i': nat, completed': seq<CompletedProof>, st': ProofStats)
    requires j < |active|
    requires tasks == RunningAmong(active, j) + active[j..] && i == |RunningAmong(active, j)|
    requires completed == completed0 + RecordsAmong(active, j, now)
    requires st == Tally(stats0, OutcomesAmong(active, j))
    ensures tasks' == RunningAmong(active, j + 1) + active[j + 1..] && i' == |RunningAmong(active, j + 1)|
    ensures completed' == completed0 + RecordsAmong(active, j + 1, now)
    ensures st' == Tally(stats0, OutcomesAmong(active, j + 1))
  {
    ghost var running, rest := RunningAmong(active, j), active[j..];
    SplitAt(running, rest);
    assert rest[0] == active[j] && rest[1..] == active[j + 1..];
    DrainStep(active, j, now);
    tasks', i', completed', st' := tasks, i, completed, st;
    var task := tasks[i];
    if task.status.Some? {
      tasks' := tasks[..i] + tasks[i + 1..];
      var outcome := task.status.value;
      TallySnoc(stats0, OutcomesAmong(active, j), outcome);
      match outcome
      case Proved(proofSize) =>
        st' := st.(totalProofsGenerated := st.totalProofsGenerated + 1,
                   successfulVerifications := st.successfulVerifications + 1);
        var record := CompletedProof(task.traceId, proofSize, true, now);
        completed' := completed + [record];
        assert completed' == completed0 + (RecordsAmong(active, j, now) + [record]);
      case Failed(_) =>
        st' := st.(failedVerifications := st.failedVerifications + 1);
    } else {
      i' := i + 1;
    }
  }

  /** A finished task whose proof panicked. */
  predicate PanickedTask(t: Task)
  {
    t.status.Some? && Panics(t.status.value)
  }

  /** The first task at or after `from` whose proof panicked, if there is one. */
  function FirstPanicFrom(ts: seq<Task>, from: nat): (r: Option<nat>)
    requires from <= |ts|
    ensures r.Some? ==> from <= r.value < |ts| && PanickedTask(ts[r.value])
    decreases |ts| - from
  {
    if from == |ts| then None
    else if PanickedTask(ts[from]) then Some(from)
    else FirstPanicFrom(ts, from + 1)
  }

  /** No task from `from` up to the first panic found (or up to the end) panicked. */
  lemma {:induction false} PanicIsFirst(ts: seq<Task>, from: nat)
    requires from <= |ts|
    ensures var r := FirstPanicFrom(ts, from);
            forall k :: from <= k < (if r.Some? then r.value else |ts|) ==> !PanickedTask(ts[k])
    decreases |ts| - from
  {
    if from < |ts| && !PanickedTask(ts[from]) {
      PanicIsFirst(ts, from + 1);
    }
  }

  function FirstPanic(ts: seq<Task>): Option<nat>
  {
    FirstPanicFrom(ts, 0)
  }

  /** How many tasks the drain as written gets through: all of them, or those before the first panic. */
  function DrainedBeforePanic(ts: seq<Task>): (n: nat)
    ensures n <= |ts|
  {
    if FirstPanic(ts).Some? then FirstPanic(ts).value else |ts|
  }

  /**
   * The drain loop as the source has it. `poll_once` on a task whose proof
   * panicked resumes that panic in `proof_generation_system`, and a system
   * that panics ends the game (`crashed`). The tasks before it have been
   * drained; no failure is counted for it.
   */
  method DrainAsWritten(active: seq<Task>, completed0: seq<CompletedProof>, stats0: ProofStats, now: int)
    returns (tasks: seq<Task>, completed: seq<CompletedProof>, st: ProofStats, crashed: bool)
    ensures crashed <==> FirstPanic(active).Some?
    ensures var n := DrainedBeforePanic(active);
            && tasks == RunningAmong(active, n) + active[n..]
            && completed == completed0 + RecordsAmong(active, n, now)
            && st == Tally(stats0, OutcomesAmong(active, n))
  {
    tasks, completed, st, crashed := active, completed0, stats0, false;
    ghost var j := 0;
    var i := 0;
    assert tasks == [] + active[0..];
    assert completed == completed0 + [];
    while i < |tasks|
      invariant 0 <= j <= |active|
      invariant tasks == RunningAmong(active, j) + active[j..]
      invariant i == |RunningAmong(active, j)|
      invariant completed == completed0 + RecordsAmong(active, j, now)
      invariant st == Tally(stats0, OutcomesAmong(active, j))
      invariant FirstPanic(active) == FirstPanicFrom(active, j)
      invariant !crashed
      decreases |active| - j
    {
      assert j < |active| by { assert |tasks| == i + |active[j..]|; }
      tasks, i, completed, st, crashed := PollOnce(active, j, tasks, i, completed, st, completed0, stats0, now);
      if crashed {
        break;
      }
      j := j + 1;
    }
    assert !crashed ==> j == |active| by { assert |tasks| == i + |active[j..]|; }
  }

  /** One pass of the drain loop as written: a panicked task crashes the system, any other is examined. */
  method PollOnce(ghost active: seq<Task>, ghost j: nat, tasks: seq<Task>, i: nat,
                  completed: seq<CompletedProof>, st: ProofStats,
                  ghost completed0: seq<CompletedProof>, ghost stats0: ProofStats, now: int)
    returns (tasks': seq<Task>, i': nat, completed': seq<CompletedProof>, st': ProofStats, crashed: bool)
    requires j < |active|
    requires tasks == RunningAmong(active, j) + active[j..] && i == |RunningAmong(active, j)|
    requires completed == completed0 + RecordsAmong(active, j, now)
    requires st == Tally(stats0, OutcomesAmong(active, j))
    ensures crashed <==> PanickedTask(active[j])
    ensures crashed ==> FirstPanicFrom(active, j) == Some(j)
    ensures !crashed ==> FirstPanicFrom(active, j) == FirstPanicFrom(active, j + 1)
    ensures crashed ==> tasks' == tasks && i' == i && completed' == completed && st' == st
    ensures !crashed ==>
              && tasks' == RunningAmong(active, j + 1) + active[j + 1..] && i' == |RunningAmong(active, j + 1)|
              && completed' == completed0 + RecordsAmong(active, j + 1, now)
              && st' == Tally(stats0, OutcomesAmong(active, j + 1))
  {
    SplitAt(RunningAmong(active, j), active[j..]);
    assert tasks[i] == active[j];
    var task := tasks[i];
    if task.status.Some? && Panics(task.status.value) {
      tasks', i', completed', st', crashed := tasks, i, completed, st, true;
    } else {
      tasks', i', completed', st' := ExamineTask(active, j, tasks, i, completed, st, completed0, stats0, now);
      crashed := false;
    }
  }

  class ProofGenerator {
    var activeTasks: seq<Task>
    var completedProofs: seq<CompletedProof>
    var stats: ProofStats

    /**
     * What the counters keep: every success is counted both as generated and
     * as a successful verification, `total_proofs_verified` is never counted,
     * and each generated proof since the last reset left a record.
     */
    ghost predicate Consistent()
      reads this
    {
      && stats.successfulVerifications == stats.totalProofsGenerated
      && stats.totalProofsVerified == 0
      && stats.totalProofsGenerated <= |completedProofs|
    }

    /** `ProofGenerator::default()`. */
    constructor ()
      ensures activeTasks == [] && completedProofs == [] && stats == DEFAULT_STATS
      ensures Consistent()
    {
      activeTasks := [];
      completedProofs := [];
      stats := DEFAULT_STATS;
    }

    /**
     * The `while let` loop of `proof_generation_system`: pop every sealed
     * window, spawning one task (numbered `completed_proofs.len() +
     * active_tasks.len()`) for each window with more than one sample.
     */
    method SubmitCompletedTraces(collector: MovementTraceCollector, now: int)
      requires collector.Valid()
      modifies this`activeTasks, collector`completedTraces
      ensures collector.Valid() && collector.completedTraces == []
      ensures activeTasks == old(activeTasks) +
        Spawned(old(collector.completedTraces), |completedProofs| + |old(activeTasks)|, now)
      ensures old(collector.WellFormed()) ==> collector.WellFormed()
    {
      ghost var queue0 := collector.completedTraces;
      ghost var active0 := activeTasks;
      ghost var firstId := |completedProofs| + |activeTasks|;
      ghost var k := 0;
      var next := collector.GetNextTraceForProving();
      while next.Some?
        invariant collector.Valid()
        invariant 0 <= k < |queue0| + 1
        invariant next.Some? <==> k < |queue0|
        invariant next.Some? ==> next.value == queue0[k] && collector.completedTraces == queue0[k + 1..]
        invariant next.None? ==> collector.completedTraces == []
        invariant activeTasks == active0 + Spawned(queue0[..k], firstId, now)
        invariant old(collector.WellFormed()) ==> collector.WellFormed()
        decreases |collector.completedTraces| + if next.Some? then 1 else 0
      {
        ghost var before := Spawned(queue0[..k], firstId, now);
        SpawnedSnoc(queue0, k, firstId, now);
        Spawn(next.value, now);
        assert activeTasks == active0 + Spawned(queue0[..k + 1], firstId, now);
        k := k + 1;
        next := collector.GetNextTraceForProving();
      }
      assert queue0[..k] == queue0;
    }

    /** The body of the submission loop: a window with more than one sample gets a task, numbered next. */
    method Spawn(trace: MovementTrace, now: int)
      modifies this`activeTasks
      ensures activeTasks == old(activeTasks) +
        if |trace.steps| > 1 then [Task(|completedProofs| + |old(activeTasks)|, trace, now, None)] else []
    {
      if |trace.steps| > 1 {
        var traceId := |completedProofs| + |activeTasks|;
        activeTasks := activeTasks + [Task(traceId, trace, now, None)];
      } else {
        assert activeTasks == activeTasks + [];
      }
    }

    /**
     * The index loop of `proof_generation_system`: remove every finished
     * task, count its outcome and record each success as a `CompletedProof`.
     */
    method PollActiveTasks(now: int)
      modifies this
      ensures activeTasks == StillRunning(old(activeTasks))
      ensures completedProofs == old(completedProofs) + NewlyCompleted(old(activeTasks), now)
      ensures stats == Tally(old(stats), Outcomes(old(activeTasks)))
      ensures stats.totalProofsGenerated + stats.failedVerifications ==
        old(stats.totalProofsGenerated + stats.failedVerifications) + |old(activeTasks)| - |activeTasks|
      ensures old(Consistent()) ==> Consistent()
    {
      ghost var active0 := activeTasks;
      activeTasks, completedProofs, stats := DrainFinished(activeTasks, completedProofs, stats, now);
      DrainPartition(active0, |active0|);
      CountsCover(Outcomes(active0));
      RecordsCountSuccesses(active0, |active0|, now);
    }

    /** `proof_generation_system` for one player: submit, then drain without blocking. */
    method ProofGenerationSystem(collector: MovementTraceCollector, now: int)
      requires collector.Valid()
      modifies this, collector`completedTraces
      ensures collector.Valid() && collector.completedTraces == []
      ensures activeTasks == StillRunning(old(activeTasks)) +
        Spawned(old(collector.completedTraces), |old(completedProofs)| + |old(activeTasks)|, now)
      ensures completedProofs == old(completedProofs) + NewlyCompleted(old(activeTasks), now)
      ensures stats == Tally(old(stats), Outcomes(old(activeTasks)))
      ensures old(Consistent()) ==> Consistent()
      ensures old(collector.WellFormed()) ==> collector.WellFormed()
    {
      ghost var spawned := Spawned(collector.completedTraces, |completedProofs| + |activeTasks|, now);
      ghost var active0, completed0, stats0 := activeTasks, completedProofs, stats;
      SubmitCompletedTraces(collector, now);
      ghost var submitted := activeTasks;
      assert submitted == active0 + spawned && completedProofs == completed0 && stats == stats0;
      SpawnedNumbering(old(collector.completedTraces), |completed0| + |active0|, now);
      SpawnedAreRunning(active0, spawned, |spawned|, now);
      assert spawned[..|spawned|] == spawned;
      assert |submitted| == |active0| + |spawned|;
      assert StillRunning(submitted) == StillRunning(active0) + spawned;
      assert Outcomes(submitted) == Outcomes(active0);
      assert NewlyCompleted(submitted, now) == NewlyCompleted(active0, now);
      PollActiveTasks(now);
    }

    /** A worker finishes task `i`: it runs `generate_proof_async` on the task's window. */
    method FinishTask(i: nat, serialization: Serialization)
      requires i < |activeTasks| && activeTasks[i].status.None?
      modifies this`activeTasks
      ensures activeTasks == old(activeTasks)[i := old(activeTasks)[i].(status := Some(ProofOutcomeOf(old(activeTasks)[i].trace, serialization)))]
    {
      var outcome := GenerateProofAsync(activeTasks[i].trace, serialization);
      activeTasks := activeTasks[i := activeTasks[i].(status := Some(outcome))];
    }
  }

  // ---------------------------------------------------------------------------
  // Lemmas
  // ---------------------------------------------------------------------------

  /** The submission loop spawns work only for queued windows of more than one sample. */
  lemma {:induction false} ProvableTracesMembers(ts: seq<MovementTrace>)
    ensures forall t :: t in ProvableTraces(ts) ==> t in ts && |t.steps| > 1
  {
    if ts != [] {
      ProvableTracesMembers(ts[..|ts| - 1]);
      assert forall t :: t in ts[..|ts| - 1] ==> t in ts;
    }
  }

  /** One more popped window extends the spawned tasks by at most one, numbered next. */
  lemma SpawnedSnoc(q: seq<MovementTrace>, k: nat, firstId: nat, now: int)
    requires k < |q|
    ensures Spawned(q[..k + 1], firstId, now) ==
      Spawned(q[..k], firstId, now) +
      if |q[k].steps| > 1 then [Task(firstId + |Spawned(q[..k], firstId, now)|, q[k], now, None)] else []
  {
    assert q[..k + 1][..k] == q[..k];
    assert Last(q[..k + 1]) == q[k];
  }

  /**
   * The spawned tasks are the provable windows in order, numbered
   * consecutively from `firstId`, all still running.
   */
  lemma {:induction false} SpawnedNumbering(ts: seq<MovementTrace>, firstId: nat, now: int)
    ensures |Spawned(ts, firstId, now)| == |ProvableTraces(ts)|
    ensures forall k :: 0 <= k < |ProvableTraces(ts)| ==>
      Spawned(ts, firstId, now)[k] == Task(firstId + k, ProvableTraces(ts)[k], now, None)
  {
    if ts != [] {
      SpawnedNumbering(ts[..|ts| - 1], firstId, now);
    }
  }

  lemma SplitAt<T>(a: seq<T>, b: seq<T>)
    requires |b| > 0
    ensures (a + b)[|a|] == b[0]
    ensures (a + b)[..|a|] + (a + b)[|a| + 1..] == a + b[1..]
    ensures a + b == (a + [b[0]]) + b[1..]
  {
    assert (a + b)[..|a|] == a;
    assert (a + b)[|a| + 1..] == b[1..];
  }

  lemma TallySnoc(s: ProofStats, os: seq<ProofOutcome>, o: ProofOutcome)
    ensures Tally(s, os + [o]) ==
      if o.Proved? then Tally(s, os).(totalProofsGenerated := Tally(s, os).totalProofsGenerated + 1,
                                      successfulVerifications := Tally(s, os).successfulVerifications + 1)
      else Tally(s, os).(failedVerifications := Tally(s, os).failedVerifications + 1)
  {
    assert (os + [o])[..|os|] == os;
  }

  /** What examining task `j` adds to each drain prefix. */
  lemma DrainStep(ts: seq<Task>, j: nat, now: int)
    requires j < |ts|
    ensures ts[j].status.None? ==>
      && RunningAmong(ts, j + 1) == RunningAmong(ts, j) + [ts[j]]
      && OutcomesAmong(ts, j + 1) == OutcomesAmong(ts, j)
      && RecordsAmong(ts, j + 1, now) == RecordsAmong(ts, j, now)
    ensures ts[j].status.Some? ==>
      && RunningAmong(ts, j + 1) == RunningAmong(ts, j)
      && OutcomesAmong(ts, j + 1) == OutcomesAmong(ts, j) + [ts[j].status.value]
    ensures ts[j].status.Some? && ts[j].status.value.Proved? ==>
      RecordsAmong(ts, j + 1, now) == RecordsAmong(ts, j, now) + [CompletedProof(ts[j].traceId, ts[j].status.value.proofSize, true, now)]
    ensures ts[j].status.Some? && ts[j].status.value.Failed? ==>
      RecordsAmong(ts, j + 1, now) == RecordsAmong(ts, j, now)
  {
    assert RunningAmong(ts, j) + [] == RunningAmong(ts, j);
    assert OutcomesAmong(ts, j) + [] == OutcomesAmong(ts, j);
    assert RecordsAmong(ts, j, now) + [] == RecordsAmong(ts, j, now);
  }

  /** Tasks appended after the first `n` do not change what the first `n` give. */
  lemma {:induction false} AmongPrefix(ts: seq<Task>, more: seq<Task>, n: nat, now: int)
    requires n <= |ts|
    ensures RunningAmong(ts + more, n) == RunningAmong(ts, n)
    ensures OutcomesAmong(ts + more, n) == OutcomesAmong(ts, n)
    ensures RecordsAmong(ts + more, n, now) == RecordsAmong(ts, n, now)
  {
    if n > 0 {
      AmongPrefix(ts, more, n - 1, now);
      assert (ts + more)[n - 1] == ts[n - 1];
    }
  }

  /** Freshly spawned tasks are running, so a drain passes over them. */
  lemma {:induction false} SpawnedAreRunning(ts: seq<Task>, spawned: seq<Task>, k: nat, now: int)
    requires k <= |spawned|
    requires forall m :: 0 <= m < |spawned| ==> spawned[m].status.None?
    ensures RunningAmong(ts + spawned, |ts| + k) == StillRunning(ts) + spawned[..k]
    ensures OutcomesAmong(ts + spawned, |ts| + k) == Outcomes(ts)
    ensures RecordsAmong(ts + spawned, |ts| + k, now) == NewlyCompleted(ts, now)
  {
    if k == 0 {
      AmongPrefix(ts, spawned, |ts|, now);
      assert spawned[..0] == [];
    } else {
      SpawnedAreRunning(ts, spawned, k - 1, now);
      assert (ts + spawned)[|ts| + k - 1] == spawned[k - 1];
      assert spawned[..k] == spawned[..k - 1] + [spawned[k - 1]];
      assert RecordFor(spawned[k - 1], now) == [];
    }
  }

  // ---------------------------------------------------------------------------
  // Properties of the drain and the counters
  // ---------------------------------------------------------------------------

  /** Each task met by the drain is either kept or counted, never both. */
  lemma {:induction false} DrainPartition(ts: seq<Task>, n: nat)
    requires n <= |ts|
    ensures |RunningAmong(ts, n)| + |OutcomesAmong(ts, n)| == n
  {
    if n > 0 {
      DrainPartition(ts, n - 1);
    }
  }

  /** The drain keeps exactly the running tasks. */
  lemma {:induction false} RunningAmongMembers(ts: seq<Task>, n: nat, t: Task)
    requires n <= |ts|
    ensures t in RunningAmong(ts, n) <==> t in ts[..n] && t.status.None?
  {
    if n > 0 {
      RunningAmongMembers(ts, n - 1, t);
      assert ts[..n] == ts[..n - 1] + [ts[n - 1]];
    }
  }

  lemma StillRunningMembers(ts: seq<Task>, t: Task)
    ensures t in StillRunning(ts) <==> t in ts && t.status.None?
  {
    RunningAmongMembers(ts, |ts|, t);
    assert ts[..|ts|] == ts;
  }

  /** The outcomes counted are exactly those of the finished tasks. */
  lemma {:induction false} OutcomesAmongMembers(ts: seq<Task>, n: nat, o: ProofOutcome)
    requires n <= |ts|
    ensures o in OutcomesAmong(ts, n) <==> Some(o) in StatusesOf(ts[..n])
  {
    if n > 0 {
      OutcomesAmongMembers(ts, n - 1, o);
      assert ts[..n] == ts[..n - 1] + [ts[n - 1]];
      StatusesSnoc(ts[..n - 1], ts[n - 1]);
    }
  }

  lemma OutcomesMembers(ts: seq<Task>, o: ProofOutcome)
    ensures o in Outcomes(ts) <==> Some(o) in StatusesOf(ts)
  {
    OutcomesAmongMembers(ts, |ts|, o);
    assert ts[..|ts|] == ts;
  }

  /** The statuses of a list of tasks. */
  function StatusesOf(ts: seq<Task>): (r: seq<Option<ProofOutcome>>)
    ensures |r| == |ts|
    ensures forall k :: 0 <= k < |ts| ==> r[k] == ts[k].status
  {
    seq(|ts|, k requires 0 <= k < |ts| => ts[k].status)
  }

  lemma StatusesSnoc(ts: seq<Task>, t: Task)
    ensures StatusesOf(ts + [t]) == StatusesOf(ts) + [t.status]
  {
  }

  /** Each success leaves one `CompletedProof`. */
  lemma {:induction false} RecordsCountSuccesses(ts: seq<Task>, n: nat, now: int)
    requires n <= |ts|
    ensures |RecordsAmong(ts, n, now)| == CountProved(OutcomesAmong(ts, n))
  {
    if n > 0 {
      RecordsCountSuccesses(ts, n - 1, now);
      var os := OutcomesAmong(ts, n - 1);
      if ts[n - 1].status.Some? {
        assert (os + [ts[n - 1].status.value])[..|os|] == os;
      } else {
        assert os + [] == os;
      }
    }
  }

  /** Every counted outcome is either a success or a failure. */
  lemma {:induction false} CountsCover(os: seq<ProofOutcome>)
    ensures CountProved(os) + CountFailed(os) == |os|
  {
    if os != [] {
      CountsCover(os[..|os| - 1]);
    }
  }

  /** Counting is additive over consecutive batches of outcomes. */
  lemma {:induction false} CountsAppend(a: seq<ProofOutcome>, b: seq<ProofOutcome>)
    ensures CountProved(a + b) == CountProved(a) + CountProved(b)
    ensures CountFailed(a + b) == CountFailed(a) + CountFailed(b)
    decreases |b|
  {
    if b == [] {
      assert a + b == a;
    } else {
      var front := b[..|b| - 1];
      assert (a + b)[..|a + b| - 1] == a + front;
      CountsAppend(a, front);
    }
  }

  /**
   * The failures counted, read off the multiset of outcomes: one entry per
   * failure kind, panics included. As written, the drain never counts a
   * panic (`AsWrittenCountsOnlySerialization`).
   */
  lemma {:induction false} FailuresByKind(os: seq<ProofOutcome>)
    ensures CountFailed(os) ==
      multiset(os)[Failed(OriginPanic)] + multiset(os)[Failed(ConstraintPanic)] +
      multiset(os)[Failed(SerializationFailure)]
  {
    if os != [] {
      var front := os[..|os| - 1];
      assert os == front + [Last(os)];
      assert multiset(os) == multiset(front) + multiset{Last(os)};
      FailuresByKind(front);
      assert CountFailed(os) == CountFailed(front) + if Last(os).Failed? then 1 else 0;
      var o := Last(os);
      match o
      case Proved(_) =>
      case Failed(kind) =>
        assert kind == OriginPanic || kind == ConstraintPanic || kind == SerializationFailure;
    }
  }

  /** The outcomes among tasks none of which panicked hold no panic. */
  lemma {:induction false} NoPanicAmong(ts: seq<Task>, n: nat)
    requires n <= |ts|
    requires forall k :: 0 <= k < n ==> !PanickedTask(ts[k])
    ensures forall o :: o in OutcomesAmong(ts, n) ==> !Panics(o)
  {
    if n > 0 {
      NoPanicAmong(ts, n - 1);
      assert !PanickedTask(ts[n - 1]);
    }
  }

  /**
   * As written, `failed_verifications` counts serialisation failures and
   * nothing else: the drain stops at the first panicked task, before it is
   * counted.
   */
  lemma AsWrittenCountsOnlySerialization(ts: seq<Task>)
    ensures var os := OutcomesAmong(ts, DrainedBeforePanic(ts));
            CountFailed(os) == multiset(os)[Failed(SerializationFailure)]
  {
    var n := DrainedBeforePanic(ts);
    var os := OutcomesAmong(ts, n);
    PanicIsFirst(ts, 0);
    NoPanicAmong(ts, n);
    FailuresByKind(os);
    assert Failed(OriginPanic) !in os;
    assert Failed(ConstraintPanic) !in os;
  }

  /** The counts depend only on which outcomes arrived, not on the order the drain met them. */
  lemma CountsDependOnMultiset(a: seq<ProofOutcome>, b: seq<ProofOutcome>)
    requires multiset(a) == multiset(b)
    ensures CountProved(a) == CountProved(b) && CountFailed(a) == CountFailed(b)
  {
    FailuresByKind(a);
    FailuresByKind(b);
    CountsCover(a);
    CountsCover(b);
    assert |a| == |multiset(a)| == |multiset(b)| == |b|;
  }

  /** Two drains in a row tally what one drain over both batches would. */
  lemma TallyTwice(s: ProofStats, a: seq<ProofOutcome>, b: seq<ProofOutcome>)
    ensures Tally(Tally(s, a), b) == Tally(s, a + b)
  {
    CountsAppend(a, b);
  }

  /**
   * Trace ids are not unique: a failed task is removed without leaving a
   * record, so the next id, `completed_proofs.len() + active_tasks.len()`,
   * can equal the id of a task still running.
   */
  lemma TraceIdsCanRepeat(w: MovementTrace, now: int)
    requires |w.steps| > 1
    ensures var active := [Task(0, w, now, Some(Failed(SerializationFailure))), Task(1, w, now, None)];
            var running := StillRunning(active);
            var next := Spawned([w], |NewlyCompleted(active, now)| + |running|, now);
            |running| == 1 && |next| == 1 && running[0].traceId == next[0].traceId
  {
    var active := [Task(0, w, now, Some(Failed(SerializationFailure))), Task(1, w, now, None)];
    assert RunningAmong(active, 1) == [];
    assert RunningAmong(active, 2) == [active[1]];
    assert RecordFor(active[0], now) == [] && RecordFor(active[1], now) == [];
    assert RecordsAmong(active, 1, now) == [] + [];
    assert RecordsAmong(active, 2, now) == [] + [];
    assert [w][..0] == [];
    assert ProvableTraces([w]) == [w];
  }
}
