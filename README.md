# starkgame movement integrity, modelled in Dafny

starkgame is a small top-down game in which every movement of the player is
recorded and checked by a STARK prover. Each frame the player's integer
position, velocity and the arrow keys that produced them are appended to a
*movement trace*. After 100 ms the trace is sealed and queued, at most five
are kept, and a background task per trace encodes it as a matrix over the
BabyBear field (p = 2013265921). It then checks the movement AIR (algebraic
intermediate representation) on that matrix and proves it. The AIR has three
kinds of constraint:

- the input flags of each row are boolean;
- the velocity of each row is +/-200 on an axis exactly when the matching
  arrow key is held;
- the position of each row but the last is followed by the position the next
  row's velocity implies: delta = velocity * 15 in the encoded units.

Only a failed verification raises the alarm, after which the game freezes in
a "cheat detected" state until Escape resets it. The built-in cheats are
speed boosts (Shift, Space), a freeze (Ctrl) and a mouse teleport, and each
of them breaks one of the constraints. In the source, a broken constraint
makes the prover's constraint checker panic inside the background task, and
polling that task resumes the panic in the game's system, so the game ends
instead of counting a failure; only a failed proof serialization is counted.
The model states that behaviour (`ProofSystem.DrainAsWritten`) and, for the
rest of the game, uses the contained reading in which a panicked task counts
as a failed verification (see Findings).

The model is split by the program's own files:

- `options.dfy` (`Options`): an `Option` datatype.
- `movement_trace.dfy` (`Traces`): the trace values and the
  `MovementTraceCollector` class with its sliding window of sealed traces;
  the function `Recorded` gives the collector's fields after one sample.
- `movement_air.dfy` (`Air`): the field, the row layout, the constraints as
  predicates, the position and velocity encodings, and the trace-matrix
  generator.
- `check_constraints.dfy` (`ConstraintCheck`): the row-by-row constraint
  checker, with its choice between failing and panicking.
- `proof_system.dfy` (`ProofSystem`): the proof task, the `ProofGenerator`
  class (active tasks, completed proofs, statistics) and the per-frame
  submit/poll system.
- `game.dfy` (`Game`): the per-frame systems of `main.rs` (input, speed
  cheat, teleport, movement, cheat detection, dismissal) over a `World`
  class, with the whole new state of a frame in each game state, and what
  honest play is: the windows and tasks of a game played
  without cheat keys or teleport stay honest, frame after frame.
- `honesty.dfy` (`Honesty`): end-to-end lemmas. An honest player's windows
  satisfy the AIR and are proved. Each cheat makes its window's task panic.

The clock is a parameter (`now`, integer milliseconds). Keyboard and mouse
state arrive as a `FrameInput` value. The prover's background threads are
represented by tasks whose status is set by `FinishTask`, given the
serialization outcome the prover library would produce.

## Model

| member | source | states |
|---|---|---|
| Traces.AddStep | src/movement_trace.rs:50-53 | the step is appended at the end, earlier steps are kept, the duration becomes the step's time minus the start time, and the start and first-after-reset flag are unchanged |
| Traces.EmptyTrace | src/movement_trace.rs:32-48 | a new trace has no steps and zero duration, starts at the given time, and carries the first-after-reset mark it is given |
| Traces.KeepNewest | src/movement_trace.rs:149-151 | dropping from the front until at most `max` remain keeps exactly the newest `min(max, |q|)` traces, as a suffix of the queue |
| Traces.IsComplete | src/movement_trace.rs:55-57 | a trace is complete once its duration reaches the target; the collector seals exactly the complete ones (see AddMovement and AddKeepsCoherent) |
| Traces.MovementTraceCollector.constructor | src/movement_trace.rs:71-79 | a new collector has no open trace, an empty queue, the given duration and bound, and marks the next trace as first after reset |
| Traces.MovementTraceCollector.StartNewTrace | src/movement_trace.rs:81-88 | opens an empty trace at the timestamp carrying the pending first-after-reset mark, and consumes the mark |
| Traces.MovementTraceCollector.MarkNextTraceAsFirstAfterReset | src/movement_trace.rs:90-92 | sets the mark and nothing else |
| Traces.MovementTraceCollector.CompleteCurrentTrace | src/movement_trace.rs:133-153 | the open trace is closed and appended to the queue, and the queue is trimmed to its newest `maxCompletedTraces` entries; with no open trace nothing changes |
| Traces.MovementTraceCollector.AddMovement | src/movement_trace.rs:94-131 | the new queue, open trace and first-after-reset mark are `Recorded` of the old ones: the sample is appended to the open trace (opening one carrying the pending mark if needed); when that trace reaches the duration it is sealed into the queue, the queue is trimmed, and a new trace starts with the same sample; the windowing invariant is kept |
| Traces.MovementTraceCollector.GetNextTraceForProving | src/movement_trace.rs:155-157 | removes and returns the oldest queued trace, or None on an empty queue |
| Traces.AddKeepsCoherent | src/movement_trace.rs:94-131 | the fields `Recorded` gives (grown, or sealed and reseeded) are coherent again: adding a sample keeps the windows chained (each window starts with the last sample of the one before), keeps every sealed window complete, and keeps the queue within its bound |
| Traces.SealKeepsCoherent | src/movement_trace.rs:119-129 | sealing a complete trace and reopening with its last sample keeps the windows chained after trimming |
| Air.EncodePosition | src/movement_air.rs:140-148 | a position encodes to a field element below 10^8 |
| Air.EncodeVelocity | src/movement_air.rs:146-150 | a velocity encodes to a field element below 2000 |
| Air.FlagsBoolean | src/movement_air.rs:37-41 | each of the four input flags of a row is 0 or 1 |
| Air.VelocityMatchesInputs | src/movement_air.rs:43-54 | each velocity column equals (right - left) * 200 + 1000, respectively (up - down) * 200 + 1000, in the field |
| Air.PositionContinues | src/movement_air.rs:56-74 | each position column of the next row equals this row's position plus (next velocity - 1000) * 15, in the field |
| Air.RowSatisfies | src/movement_air.rs:24-81 | a row satisfies the boolean and velocity constraints, and the transition into the next row unless it is the last |
| Air.SatisfiesAir | src/movement_air.rs:24-81 | every row of the matrix satisfies its constraints |
| Air.PositionEncodingInRange | src/movement_air.rs:140-148 | in the playable range the encoding is `x*1000 + 5*10^7` and decodes back to x |
| Air.VelocityEncodingInRange | src/movement_air.rs:146-150 | in the range [-1000, 1000) the encoding is `v + 1000` and decodes back to v |
| Air.PositionEncodingInjective | src/movement_air.rs:140-148 | two in-range positions have equal encodings exactly when they are equal |
| Air.PositionEncodingWraps | src/movement_air.rs:140-148 | for positions whose scaled `f32` product is exact, positions 100000 apart have the same encoding (the `% 10^8` wraps) |
| Air.NextPow2 | src/movement_air.rs:269-278 | the result is the least power of two that is at least n: a power of two, >= n, < 2n, and 1 for 0 |
| Air.NextPowerOf2 | src/movement_air.rs:269-278 | the doubling loop returns NextPow2(n) |
| Air.PowerOfTwoUnique | src/movement_air.rs:269-278 | only one power of two lies in [n, 2n), so the loop's result is the unique such value |
| Air.GenerateMovementTraceMatrix | src/movement_air.rs:108-235 | the built matrix equals the trace-matrix function: an origin violation for a first-after-reset trace that does not start at rest at the origin, otherwise one encoded row per step padded to the target height |
| Air.TraceMatrixOutcome | src/movement_air.rs:131-136 | the generator rejects exactly the traces that fail the origin check, and otherwise has exactly the target height |
| Air.TraceMatrixRows | src/movement_air.rs:200-232 | row i is exactly the encoded step i below the trace length; after it, a row with the last position, both velocities at the offset 1000 and all four flags 0; for an empty trace, all zeros |
| Air.EmptyTraceMatrixFails | src/movement_air.rs:212-232 | an empty trace leaves every row zero; row 0's velocity 0 is not the 1000 its zero flags demand, so the matrix cannot satisfy the AIR, whatever its height |
| Air.GenerateCheatDetectedMatrix | src/movement_air.rs:239-267 | every row has boolean flags and a velocity that disagrees with them, so a non-empty matrix never satisfies the AIR |
| ConstraintCheck.FirstFailure | src/check_constraints.rs:27-107 | a row has no failure exactly when it satisfies every constraint the AIR imposes on it |
| ConstraintCheck.CheckOrder | src/check_constraints.rs:27-107 | failures are reported in the checker's order: non-boolean flags first, then the velocity (X before Y), then the transition (X before Y) |
| ConstraintCheck.CheckRow | src/check_constraints.rs:16-107 | the checks on one row, run in the checker's order, report exactly that row's first failure |
| ConstraintCheck.CheckMovementConstraints | src/check_constraints.rs:10-112 | the checker passes exactly when the matrix satisfies the AIR; otherwise it stops at the first failing row, returning an error for non-boolean flags and panicking on velocity and transition violations |
| ProofSystem.TargetHeight | src/proof_system.rs:232 | the trace height is a power of two, at least 4, at least the trace length, and below twice the larger of the two |
| ProofSystem.GenerateProofAsync | src/proof_system.rs:227-260 | the task's outcome is the proof-outcome function: it panics exactly when the origin check fails or the matrix breaks the AIR (an origin panic exactly on an origin violation); otherwise it is a proof of the serialized size or a serialization failure |
| ProofSystem.ProofGenerator.constructor | src/proof_system.rs:143-152 | no active tasks, no completed proofs, all counters zero |
| ProofSystem.ProofGenerator.SubmitCompletedTraces | src/proof_system.rs:162-188 | the collector's queue is drained; each queued trace with more than one sample becomes a running task, in order, with consecutive ids starting at completed + active |
| ProofSystem.ProofGenerator.Spawn | src/proof_system.rs:163-187 | a popped window with more than one sample is appended as a running task whose id is completed + active; a shorter one is dropped |
| ProofSystem.ProvableTracesMembers | src/proof_system.rs:162-188 | only queued windows of more than one sample are given a task |
| ProofSystem.SpawnedNumbering | src/proof_system.rs:162-188 | the spawned tasks are the provable windows in queue order, numbered consecutively from the first id, all running |
| ProofSystem.DrainFinished | src/proof_system.rs:190-223 | in the contained reading, the index loop leaves exactly the unfinished tasks in order, appends one record per success in order, and adds every outcome, panics included, to the counters |
| ProofSystem.FirstPanicFrom | src/proof_system.rs:191-193 | the index found is at or after the start and holds a finished task whose proof panicked |
| ProofSystem.PanicIsFirst | src/proof_system.rs:191-193 | no task between the start and the first panic found (or the end) panicked |
| ProofSystem.DrainAsWritten | src/proof_system.rs:190-223 | the loop as written crashes exactly when some finished task panicked; it has then drained exactly the tasks before the first such task, which it neither removes nor counts; with no panic it drains everything |
| ProofSystem.PollOnce | src/proof_system.rs:192-222 | one pass of the loop as written: a panicked task crashes the system and changes nothing, any other is examined as in ExamineTask |
| ProofSystem.NoPanicAmong | src/proof_system.rs:190-223 | a prefix of tasks none of which panicked yields no panic outcome |
| ProofSystem.AsWrittenCountsOnlySerialization | src/proof_system.rs:214-217 | as written, every failure the poll counts before it stops is a serialization failure |
| ProofSystem.ExamineTask | src/proof_system.rs:192-222 | one pass of the loop: a finished task is removed and counted (a success also recorded), a running one is stepped over |
| ProofSystem.ProofGenerator.PollActiveTasks | src/proof_system.rs:191-223 | in the contained reading, finished tasks are removed and unfinished ones kept in order; each success appends a completed proof and counts as generated and successful; each failure, panics included, counts as a failed verification |
| ProofSystem.ProofGenerator.ProofGenerationSystem | src/proof_system.rs:154-225 | one frame of the prover: old running tasks followed by the newly spawned ones remain active, and proofs and counters reflect the tasks that had finished |
| ProofSystem.ProofGenerator.FinishTask | src/proof_system.rs:227-260 | a background task finishes with the proof-outcome function of its trace, and no other task changes |
| ProofSystem.DrainPartition | src/proof_system.rs:191-223 | every examined task is either kept running or yields exactly one outcome |
| ProofSystem.StillRunningMembers | src/proof_system.rs:191-223 | a task remains active exactly when it was active and unfinished |
| ProofSystem.OutcomesMembers | src/proof_system.rs:191-223 | an outcome is tallied exactly when some active task finished with it |
| ProofSystem.RecordsCountSuccesses | src/proof_system.rs:197-215 | one completed-proof record is created per successful outcome |
| ProofSystem.CountsCover | src/proof_system.rs:197-219 | every outcome is counted as either generated or failed |
| ProofSystem.CountsAppend | src/proof_system.rs:197-219 | the counts over two batches add up |
| ProofSystem.FailuresByKind | src/proof_system.rs:216-219 | in the contained reading, the failed count is the sum of origin panics, constraint panics and serialization failures |
| ProofSystem.CountsDependOnMultiset | src/proof_system.rs:191-223 | the counts do not depend on the order in which tasks finish |
| ProofSystem.TallyTwice | src/proof_system.rs:191-223 | polling two batches on two frames gives the same statistics as polling them together |
| ProofSystem.TraceIdsCanRepeat | src/proof_system.rs:169 | ids are completed + active, so a task that failed serialization, followed by a new submission, frees an id that is still active |
| Game.TruncDiv | src/main.rs:175-182 | Rust's truncating integer division: the remainder has the sign of the dividend and is smaller than the divisor |
| Game.MovementDelta | src/main.rs:175-182 | the distance moved along an axis per frame, (v * 15) / 1000 truncated toward zero; HonestMovementDelta and MovementDeltaOdd state its properties |
| Game.HeldVelocity | src/main.rs:114-128 | the velocity `player_input` sets from the held keys: +/-200 per axis, right over left, down over up; PlayerInput is proved to compute it and VelocityFollowsFlags ties it to the flags |
| Game.InputFlagsFor | src/main.rs:143-164 | the recorded flags never hold both directions of an axis |
| Game.SpeedControlled | src/main.rs:222-246 | no cheat key leaves the velocity alone, Ctrl freezes it to zero, and otherwise it is scaled by 2 for Space and by 3 for Shift: always the velocity times SpeedMultiplier |
| Game.VelocityFollowsFlags | src/main.rs:114-164 | with no cheat, the velocity set from the keys is exactly the one the recorded flags imply |
| Game.HonestMovementDelta | src/main.rs:175-182 | an honest velocity moves the player by velocity*15/1000 units, i.e. 3 per frame per axis |
| Game.MovementDeltaOdd | src/main.rs:175-182 | the movement rule is symmetric in the sign of the velocity |
| Game.HonestFrameExtendsWindow | src/main.rs:104-188 | a frame without cheat keys or teleport produces an honest sample that follows the previous one |
| Game.HonestSampleRecorded | src/main.rs:104-188 | the sample of such a frame is honest and follows the open window's last sample, which sits at the player's previous position |
| Game.CollectorStaysHonest | src/movement_trace.rs:94-131 | feeding an honest sample that follows the open window's last one keeps every window of `Recorded` honest |
| Game.GrowStaysHonest | src/movement_trace.rs:50-53 | appending an honest sample that follows an honest (or empty) trace gives an honest trace |
| Game.SealStaysHonest | src/movement_trace.rs:133-153 | queuing an honest trace behind honest ones and trimming leaves only honest traces |
| Game.HonestTasksAfterSubmission | src/proof_system.rs:154-225 | submitting honest windows and draining honest tasks leaves only honest tasks and an honest open window |
| Game.HonestAfterSubmission | src/proof_system.rs:154-225 | a world whose prover holds exactly those tasks and whose queue is empty has played honestly |
| Game.World.constructor | src/main.rs:85-102 | the player starts at rest at the origin in the Playing state, with a fresh collector (100 ms, 5 traces) and a fresh prover |
| Game.World.PlayerInput | src/main.rs:114-128 | the velocity is +/-200 on each axis following the held arrow keys, with right winning over left and down over up |
| Game.World.Teleport | src/main.rs:191-214 | a mouse click moves the player to the target and otherwise nothing moves |
| Game.World.SpeedControl | src/main.rs:217-247 | the velocity becomes the speed-controlled velocity |
| Game.World.UpdateInputState | src/main.rs:134-167 | the recorded flags are derived from the keys and exclusive on each axis |
| Game.World.Movement | src/main.rs:169-188 | the position advances by the movement delta of the velocity |
| Game.World.CheatDetection | src/main.rs:250-268 | the popup fires exactly when failures exist, none is showing and the game is playing; it then requests the CheatDetected state and discards the collector's windows; otherwise nothing changes; honest windows and tasks stay honest |
| Game.World.DismissCheatPopup | src/main.rs:309-358 | Escape on a showing popup resets the player, the collector (with the next trace first after reset), the active tasks and the failure count, and requests Playing; otherwise nothing changes; honest windows and tasks stay honest |
| Game.World.ApplyStateTransition | src/main.rs:8-13 | a requested state takes effect and the request is consumed |
| Game.World.MoveAndRecord | src/main.rs:68-76 | input, teleport, speed control, input recording, movement and trace collection run in order: the new velocity, flags and position are those of the keys and the teleport, the collector's queue, open trace and mark are `Recorded` of the old ones with the player's new sample (sealed or not), and a frame without cheat keys or teleport that ends in range keeps the collector's windows honest |
| Game.World.PlayingSystems | src/main.rs:68-77 | the Playing systems and then the prover run on one frame: the player's new state as in MoveAndRecord, the open trace and mark as `Recorded` gives them, an empty queue, and as active tasks the old unfinished ones followed by a task for each window `Recorded` sealed, numbered from completed + active; records and counters are the tally of the finished tasks; a frame without cheat keys or teleport that ends in range keeps every window and every task honest |
| Game.World.SubmitWindows | src/proof_system.rs:154-225 | `proof_generation_system` on the world: the queue is emptied into new tasks after the old unfinished ones, and the finished tasks are tallied; honesty is kept |
| Game.World.PlayingFrame | src/main.rs:68-81 | a Playing frame: the whole new state of PlayingSystems, then detection on the new failure count: when it fires, the popup and the CheatDetected request are set and the open trace is dropped, otherwise those stay as they were |
| Game.World.AlarmFrame | src/main.rs:78-80 | a CheatDetected frame: detection does not fire, and Escape on the popup resets the player, the collector (empty, next trace first after reset), the tasks and the counters and requests Playing; otherwise nothing changes |
| Game.World.Frame | src/main.rs:68-81 | one frame: the pending state takes effect; while Playing, the new player state, collector, tasks, records and counters are those of PlayingFrame, with the popup, the request and the open trace as detection leaves them; while CheatDetected, the dismissal's reset on Escape and otherwise nothing moves; the open window always ends at the player's state; with no failures, no tasks and no popup, no popup appears; honest frames keep every window and task honest |
| Honesty.HonestRowValid | src/movement_air.rs:37-56 | an honest sample's row passes the boolean and velocity constraints |
| Honesty.AxisContinues | src/movement_air.rs:58-74 | for in-range positions and an honest velocity, the field transition is exact integer arithmetic |
| Honesty.ContinuesIffFollows | src/movement_air.rs:58-74 | between two honest samples the transition constraint holds exactly when the second position is the first moved by the second velocity |
| Honesty.PaddingContinues | src/movement_air.rs:212-232 | padding rows after a trace satisfy every constraint |
| Honesty.HonestWindowSatisfiesAir | src/movement_air.rs:24-81 | every honest window that passes the origin check yields a matrix satisfying the AIR |
| Honesty.HonestWindowIsProved | src/proof_system.rs:227-260 | an honest window is proved whenever serialization succeeds |
| Honesty.HonestTasksAreProved | src/proof_system.rs:227-260 | in a game played honestly, every task that passes the origin check ends without a panic, and is proved when serialization succeeds |
| Honesty.ScaledAxisMismatch | src/main.rs:222-246 | scaling an honest non-zero axis by 2, 3 or 6, or zeroing it, breaks the velocity encoding the flags demand |
| Honesty.SpeedCheatViolatesVelocity | src/main.rs:222-246 | whenever a speed key changes the velocity, the sample's row violates the velocity constraint |
| Honesty.BadSampleRejectsWindow | src/movement_air.rs:40-56 | a window with one sample whose velocity disagrees with its flags makes its task panic on a constraint |
| Honesty.CheatIsCounted | src/proof_system.rs:190-223 | in the contained reading, a finished task holding such a window increases the failed count, which raises the alarm |
| Honesty.CheatCrashesAsWritten | src/proof_system.rs:190-223 | as written, the poll crashes at that task or an earlier panicked one, and what it has counted by then holds no constraint failure |
| Honesty.JumpRejectsWindow | src/movement_air.rs:58-74 | a window with honest samples where one does not follow the previous (a teleport) makes its task panic on a constraint |
| Honesty.HeldKeyAtResetFailsOriginCheck | src/movement_air.rs:131-136 | a first-after-reset window whose first sample already holds an arrow key fails the origin check, and its task panics |

## Left out

- Traces.AddStep: the trace is a value, so `add_step`'s in-place push on a trace owned by the collector is modelled as returning the extended trace.
- Traces.MovementStep: the constant `delta_time` of 0.016 s is only read into unused locals of the matrix generator's logging (src/movement_air.rs:167-169) and is dropped.
- Traces: timestamps are integer milliseconds, not `f64` seconds; float rounding of durations is not modelled.
- Traces.MovementTraceCollector.CompleteCurrentTrace: the teleport scan (distance > 50) sets an unused local and is dropped.
- `movement_trace_collection_system` (src/movement_trace.rs:161-185) is modelled by the `collector.AddMovement` call inside `Game.World.MoveAndRecord`; the `i32` to `f32` casts of the sample are taken as exact.
- Game.World.Movement: `i32` overflow of the position is not modelled (positions are unbounded integers).
- Game.World.Teleport: the cursor-to-world conversion and float-to-`i32` cast are outside the model; the input carries the target already as integers, and the finiteness checks are not modelled.
- Air: `MovementAir::new`, `width` and the `Borrow` row view are layout glue; the row is a datatype of eight field elements.
- Air: the AIR is checked on the rows by the predicates `SatisfiesAir` and `RowSatisfies`; Plonky3's polynomial machinery (quotients, FRI, commitments) is not modelled.
- ProofSystem.GenerateProofAsync: the task runs Plonky3's own constraint checker and `prove`; the model substitutes `CheckMovementConstraints`, which accepts exactly the matrices satisfying the same AIR, and the proof bytes are represented only by the serialization outcome given as a parameter.
- ProofSystem.GenerateProofAsync: an origin violation or a broken constraint panics in the prover's thread; the model records it as the outcome `Failed(OriginPanic)` or `Failed(ConstraintPanic)`, which `Panics` tells apart from the one `Err` result, `Failed(SerializationFailure)`.
- ProofSystem.DrainAsWritten: the model takes it that `poll_once` on a task whose future panicked resumes the panic (the task executor propagates it), which ends the game; the state after the crash is kept only as far as the loop had got. If the executor instead left a dead handle, the task would never be counted either.
- ProofSystem.FailuresByKind: in the source only serialization failures are counted (AsWrittenCountsOnlySerialization); the equation with both panic kinds holds in the contained reading that DrainFinished and the rest of the game use.
- ProofSystem: `create_stark_config` and `ProofSystemSettings` (src/proof_system.rs:38-72) build the Plonky3 configuration and the AIR's unused parameters; they are called by every task but hold nothing the constraints read, so they are not modelled. `generate_proof` and `verify_proof` are never called and are not modelled.
- ProofSystem: `pending_proofs` and `PendingProof` are unused and not modelled.
- ProofSystem: timings, latencies, averages and `success_rate` are floating point and left out; `total_proofs_verified` is never incremented by the source, and the model keeps it at zero.
- ProofSystem.ProofGenerator.ProofGenerationSystem: a task spawned in a frame is polled in that same frame only after its submission, so in the model it is still running at that poll; the thread pool's timing is not modelled.
- ProofSystem: `stats_logging_system`, the console logging and `fps_display.rs` are diagnostics and are not part of this model.
- Game: the Bevy ECS, rendering, the popup UI (`cheat_popup_system`) and despawning of entities are left out; `setup` is the `World` constructor.
- Game.World.DismissCheatPopup: the source assigns `proof_gen.completed_count = 0` (src/main.rs:344), but `ProofGenerator` declares no such field (src/proof_system.rs:77-82), so `main.rs` does not compile as written; the model leaves that statement out and resets the fields that do exist. `completed_proofs` is not cleared by the source, and the model keeps it too.
- Honesty.HeldKeyAtResetFailsOriginCheck: this shows that a player who holds an arrow key on the first frame after startup or reset makes the task panic (as written the game ends, contained it is reported as a cheat); the model does not correct this.
- ProofSystem.TraceIdsCanRepeat: after a task finishes, `completed + active` can repeat an id; the model keeps the source's numbering.
- Air.EncodePosition: the `f32` product `x * 1000.0` and its cast are taken as exact; they are exact only for |x| at most 134217, far outside the encoded range of +/-50000.
- Game.World.PlayedHonestly: the workers that finish tasks (`FinishTask`) change only a task's status, never its window, so they keep the tasks honest; this is not stated as a contract of the world.

## Findings

| source | as written | input that shows it | evidently intended | confidence | as-written member | corrected member |
|---|---|---|---|---|---|---|
| src/proof_system.rs:190-223 | a window that breaks a constraint makes Plonky3's `check_constraints` panic inside the task (src/proof_system.rs:242-243); nothing catches it, so `poll_once` resumes the panic in `proof_generation_system` and the game ends; `failed_verifications`, the only trigger of the alarm in `cheat_detection_system`, counts serialization failures only | a finished task whose window passes the origin check and holds one sample taken with Space held while moving right (velocity 400, flags demanding 200) | the constraint failure is contained and counted like the `Err` arm, so the alarm is raised and the popup shown | medium, not executed; it rests on the executor resuming the task's panic at the poll | ProofSystem.DrainAsWritten, Honesty.CheatCrashesAsWritten | ProofSystem.DrainFinished, Honesty.CheatIsCounted |
