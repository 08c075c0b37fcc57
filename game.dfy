/**
 * Model of the game rules and the integrity state machine of src/main.rs:
 * the per-frame systems that turn held keys into a velocity and input
 * flags, apply the speed cheats and the teleport cheat, move the player
 * with integer arithmetic, feed the collector and the prover, raise the
 * cheat alarm and reset the game when the alarm is acknowledged.
 *
 * Positions and velocities are the `i32` components of the source, taken
 * as unbounded integers; a frame's input (held keys, Escape, a mouse click
 * already turned into a target position) and the elapsed time are
 * parameters.
 */
module Game {
  import opened Options
  import opened Traces
  import opened Air
  import opened ProofSystem

  datatype GameState = Playing | CheatDetected

  /** The keys held during a frame; each direction is its arrow key or its WASD twin. */
  datatype Keys = Keys(
    left: bool, right: bool, up: bool, down: bool,
    shiftLeft: bool, space: bool, controlLeft: bool)

  /**
   * One frame of player input: the held keys, whether Escape was just
   * pressed, and where a mouse click teleports the player (the cursor's
   * world position cast to `i32`), if there was one.
   */
  datatype FrameInput = FrameInput(keys: Keys, escapePressed: bool, teleportTo: Option<Vec2>)

  /** `MovementTraceCollector::new(0.1, 5)` in `setup`, with time in milliseconds. */
  const TRACE_DURATION_MS: int := 100
  const MAX_COMPLETED_TRACES: nat := 5

  const CHEAT_MESSAGE: string := "CHEATER DETECTED!\nInvalid proof verification failed!\nPress ESC to continue"

  // ---------------------------------------------------------------------------
  // Rules of one frame
  // ---------------------------------------------------------------------------

  /** Rust's `/` on integers: the quotient truncated toward zero. */
  function TruncDiv(a: int, b: int): (q: int)
    requires b > 0
    ensures a >= 0 ==> 0 <= a - q * b < b
    ensures a < 0 ==> -b < a - q * b <= 0
  {
    if a >= 0 then a / b else -((-a) / b)
  }

  /** The distance `movement_system` moves along one axis at velocity `v`: `(v * 15) / 1000`. */
  function MovementDelta(v: int): int
  {
    TruncDiv(v * PHYSICS_FACTOR, 1000)
  }

  /** The position after `movement_system`. */
  function Moved(p: Vec2, v: Vec2): Vec2
  {
    Vec2(p.x + MovementDelta(v.x), p.y + MovementDelta(v.y))
  }

  /** What `player_input` sets: right wins over left, down wins over up. */
  function HeldVelocity(k: Keys): Vec2
  {
    Vec2(if k.right then MOVEMENT_SPEED else if k.left then -MOVEMENT_SPEED else 0,
         if k.down then -MOVEMENT_SPEED else if k.up then MOVEMENT_SPEED else 0)
  }

  /** What `update_input_state_after_modifications` records, with the same precedence. */
  function InputFlagsFor(k: Keys): (f: InputFlags)
    ensures !(f.left && f.right) && !(f.up && f.down)
  {
    InputFlags(k.left && !k.right, k.right, k.up && !k.down, k.down)
  }

  function Bit(b: bool): int
  {
    if b then 1 else 0
  }

  /** The velocity the constraint system demands of flags `f`, before the field bias. */
  function FlagVelocity(f: InputFlags): Vec2
  {
    Vec2((Bit(f.right) - Bit(f.left)) * MOVEMENT_SPEED, (Bit(f.up) - Bit(f.down)) * MOVEMENT_SPEED)
  }

  function Scale(v: Vec2, m: int): Vec2
  {
    Vec2(v.x * m, v.y * m)
  }

  /** The factor `speed_control_system` scales a velocity by under keys `k`. */
  function SpeedMultiplier(k: Keys): int
  {
    if k.controlLeft then 0 else (if k.space then 2 else 1) * (if k.shiftLeft then 3 else 1)
  }

  /**
   * What `speed_control_system` makes of velocity `v`: Space doubles a
   * nonzero velocity, Shift then triples it, and Ctrl stops the player,
   * overriding Shift.
   */
  function SpeedControlled(v: Vec2, k: Keys): (r: Vec2)
    ensures !k.shiftLeft && !k.space && !k.controlLeft ==> r == v
    ensures k.controlLeft ==> r == ORIGIN
    ensures r == Scale(v, SpeedMultiplier(k))
  {
    var boosted := if k.space && (v.x != 0 || v.y != 0) then Scale(v, 2) else v;
    var multiplier := if k.controlLeft then 0 else if k.shiftLeft then 3 else 1;
    if multiplier != 1 then Scale(boosted, multiplier) else boosted
  }

  // ---------------------------------------------------------------------------
  // Honest play
  // ---------------------------------------------------------------------------

  /**
   * A sample as the unmodified game records it: the velocity is the one its
   * flags demand, and the position lies in the range the encoding covers.
   */
  predicate HonestSample(s: MovementStep)
  {
    && s.velocity == FlagVelocity(s.inputs)
    && PositionInRange(s.position.x) && PositionInRange(s.position.y)
  }

  /** `b` was recorded one frame after `a`: the player moved by `b`'s velocity. */
  predicate Follows(a: MovementStep, b: MovementStep)
  {
    b.position == Moved(a.position, b.velocity)
  }

  /** A window of honest samples, each one frame after the one before. */
  predicate HonestWindow(t: MovementTrace)
  {
    && |t.steps| > 0
    && (forall i :: 0 <= i < |t.steps| ==> HonestSample(t.steps[i]))
    && (forall i :: 0 <= i < |t.steps| - 1 ==> Follows(t.steps[i], t.steps[i + 1]))
  }

  /** The sample the collector receives in a frame in which keys `k` are held at position `p`. */
  function FrameSample(p: Vec2, k: Keys, teleport: Option<Vec2>, now: int): MovementStep
  {
    var v := SpeedControlled(HeldVelocity(k), k);
    var start := if teleport.Some? then teleport.value else p;
    MovementStep(Moved(start, v), v, InputFlagsFor(k), now)
  }

  predicate NoCheatKeys(k: Keys)
  {
    !k.shiftLeft && !k.space && !k.controlLeft
  }

  /** Every window of `ws` is honest. */
  predicate AllHonest(ws: seq<MovementTrace>)
  {
    forall k :: 0 <= k < |ws| ==> HonestWindow(ws[k])
  }


  // ---------------------------------------------------------------------------
  // The world: the player entity and the game resources
  // ---------------------------------------------------------------------------

  class World {
    var position: Vec2
    var velocity: Vec2
    var lastInput: InputFlags
    /** The `CheatDetected` resource. */
    var cheatActive: bool
    var cheatMessage: string
    var state: GameState
    /** A state requested with `NextState::set`, applied at the start of the next frame. */
    var nextState: Option<GameState>
    const collector: MovementTraceCollector
    const prover: ProofGenerator

    /** The collector is valid, and its open window ends with the player's current sample. */
    ghost predicate Valid()
      reads this, collector
    {
      && collector.Valid()
      && (collector.currentTrace.Some? ==>
            var steps := collector.currentTrace.value.steps;
            && |steps| > 0
            && Last(steps).position == position && Last(steps).velocity == velocity
            && Last(steps).inputs == lastInput)
    }

    /** Every window the collector holds and every window the prover works on is honest. */
    ghost predicate PlayedHonestly()
      reads this, collector, prover
    {
      && AllHonest(Windows(collector.completedTraces, collector.currentTrace))
      && forall k :: 0 <= k < |prover.activeTasks| ==> HonestWindow(prover.activeTasks[k].trace)
    }

    /** `setup` and the default resources: the player at rest at the origin, the game Playing. */
    constructor ()
      ensures fresh(collector) && fresh(prover)
      ensures position == ORIGIN && velocity == ORIGIN && lastInput == NO_INPUT
      ensures !cheatActive && cheatMessage == [] && state == Playing && nextState == None
      ensures collector.traceDuration == TRACE_DURATION_MS && collector.maxCompletedTraces == MAX_COMPLETED_TRACES
      ensures collector.currentTrace == None && collector.completedTraces == [] && collector.nextTraceIsFirstAfterReset
      ensures prover.activeTasks == [] && prover.completedProofs == [] && prover.stats == DEFAULT_STATS
      ensures Valid() && collector.WellFormed() && prover.Consistent()
    {
      position := ORIGIN;
      velocity := ORIGIN;
      lastInput := NO_INPUT;
      cheatActive := false;
      cheatMessage := [];
      state := Playing;
      nextState := None;
      collector := new MovementTraceCollector(TRACE_DURATION_MS, MAX_COMPLETED_TRACES);
      prover := new ProofGenerator();
    }

    /** `player_input`: reset the velocity, then let each held direction set its axis in turn. */
    method PlayerInput(keys: Keys)
      modifies this`velocity
      ensures velocity == HeldVelocity(keys)
    {
      velocity := Vec2(0, 0);
      if keys.left {
        velocity := velocity.(x := -MOVEMENT_SPEED);
      }
      if keys.right {
        velocity := velocity.(x := MOVEMENT_SPEED);
      }
      if keys.up {
        velocity := velocity.(y := MOVEMENT_SPEED);
      }
      if keys.down {
        velocity := velocity.(y := -MOVEMENT_SPEED);
      }
    }

    /** `mouse_teleport_system`: a click overwrites the position. */
    method Teleport(target: Option<Vec2>)
      modifies this`position
      ensures position == if target.Some? then target.value else old(position)
    {
      if target.Some? {
        position := target.value;
      }
    }

    /** `speed_control_system`. */
    method SpeedControl(keys: Keys)
      modifies this`velocity
      ensures velocity == SpeedControlled(old(velocity), keys)
    {
      var speedMultiplier := 1;
      if keys.shiftLeft {
        speedMultiplier := 3;
      }
      if keys.space {
        if velocity.x != 0 || velocity.y != 0 {
          velocity := Vec2(velocity.x * 2, velocity.y * 2);
        }
      }
      if keys.controlLeft {
        speedMultiplier := 0;
      }
      if speedMultiplier != 1 {
        velocity := Vec2(velocity.x * speedMultiplier, velocity.y * speedMultiplier);
      }
    }

    /** `update_input_state_after_modifications`: the flags, with the precedence of `player_input`. */
    method UpdateInputState(keys: Keys)
      modifies this`lastInput
      ensures lastInput == InputFlagsFor(keys)
      ensures !(lastInput.left && lastInput.right) && !(lastInput.up && lastInput.down)
    {
      lastInput := NO_INPUT;
      if keys.left {
        lastInput := lastInput.(left := true);
      }
      if keys.right {
        lastInput := lastInput.(right := true, left := false);
      }
      if keys.up {
        lastInput := lastInput.(up := true);
      }
      if keys.down {
        lastInput := lastInput.(down := true, up := false);
      }
    }

    /** `movement_system`: integer movement by `(v * 15) / 1000` per axis. */
    method Movement()
      modifies this`position
      ensures position == Moved(old(position), velocity)
    {
      var deltaX := TruncDiv(velocity.x * PHYSICS_FACTOR, 1000);
      var deltaY := TruncDiv(velocity.y * PHYSICS_FACTOR, 1000);
      position := Vec2(position.x + deltaX, position.y + deltaY);
    }

    /**
     * `cheat_detection_system`: any failed proof while Playing and not yet
     * alarmed raises the alarm, requests CheatDetected and drops all windows.
     */
    method CheatDetection()
      requires Valid()
      modifies this`cheatActive, this`cheatMessage, this`nextState,
               collector`currentTrace, collector`completedTraces
      ensures Valid()
      ensures if prover.stats.failedVerifications > 0 && !old(cheatActive) && state == Playing then
                && cheatActive && cheatMessage == CHEAT_MESSAGE && nextState == Some(CheatDetected)
                && collector.currentTrace == None && collector.completedTraces == []
              else
                && cheatActive == old(cheatActive) && cheatMessage == old(cheatMessage)
                && nextState == old(nextState)
                && collector.currentTrace == old(collector.currentTrace)
                && collector.completedTraces == old(collector.completedTraces)
      ensures old(collector.WellFormed()) ==> collector.WellFormed()
      ensures old(PlayedHonestly()) ==> PlayedHonestly()
    {
      if prover.stats.failedVerifications > 0 && !cheatActive && state == Playing {
        cheatActive := true;
        cheatMessage := CHEAT_MESSAGE;
        nextState := Some(CheatDetected);
        collector.currentTrace := None;
        collector.completedTraces := [];
      }
    }

    /**
     * `dismiss_cheat_popup_system` (state logic): Escape while alarmed resets
     * the player, the windows and the prover's tasks and counters, and
     * requests Playing. `completed_proofs` is kept.
     */
    method DismissCheatPopup(escapePressed: bool)
      requires Valid()
      modifies this`position, this`velocity, this`cheatActive, this`cheatMessage, this`nextState,
               collector`currentTrace, collector`completedTraces, collector`nextTraceIsFirstAfterReset,
               prover`activeTasks, prover`stats
      ensures Valid()
      ensures if escapePressed && old(cheatActive) then
                && position == ORIGIN && velocity == ORIGIN
                && !cheatActive && cheatMessage == [] && nextState == Some(Playing)
                && collector.currentTrace == None && collector.completedTraces == []
                && collector.nextTraceIsFirstAfterReset
                && prover.activeTasks == [] && prover.stats == DEFAULT_STATS
                && collector.WellFormed()
              else
                && position == old(position) && velocity == old(velocity)
                && cheatActive == old(cheatActive) && cheatMessage == old(cheatMessage)
                && nextState == old(nextState)
                && collector.currentTrace == old(collector.currentTrace)
                && collector.completedTraces == old(collector.completedTraces)
                && collector.nextTraceIsFirstAfterReset == old(collector.nextTraceIsFirstAfterReset)
                && prover.activeTasks == old(prover.activeTasks) && prover.stats == old(prover.stats)
      ensures old(prover.Consistent()) ==> prover.Consistent()
      ensures old(PlayedHonestly()) ==> PlayedHonestly()
    {
      if escapePressed && cheatActive {
        cheatActive := false;
        cheatMessage := [];
        position := ORIGIN;
        velocity := ORIGIN;
        collector.completedTraces := [];
        collector.currentTrace := None;
        collector.MarkNextTraceAsFirstAfterReset();
        prover.activeTasks := [];
        prover.stats := DEFAULT_STATS;
        prover.stats := prover.stats.(failedVerifications := 0);
        nextState := Some(Playing);
      }
    }

    /** The state the frame's systems see: the requested one, if any, else the current one. */
    function StateAfterTransition(): GameState
      reads this
    {
      if nextState.Some? then nextState.value else state
    }

    /** The state transition the engine performs before the frame's systems run. */
    method ApplyStateTransition()
      modifies this`state, this`nextState
      ensures state == old(StateAfterTransition())
      ensures nextState == None
    {
      if nextState.Some? {
        state := nextState.value;
        nextState := None;
      }
    }

    /**
     * The systems that run only while Playing, in their chained order, up to
     * the collector: the input, the cheats, the movement and the sample.
     */
    method MoveAndRecord(input: FrameInput, now: int)
      requires Valid()
      modifies this`position, this`velocity, this`lastInput,
               collector`currentTrace, collector`completedTraces, collector`nextTraceIsFirstAfterReset
      ensures Valid()
      ensures velocity == SpeedControlled(HeldVelocity(input.keys), input.keys)
      ensures lastInput == InputFlagsFor(input.keys)
      ensures position == Moved(if input.teleportTo.Some? then input.teleportTo.value else old(position), velocity)
      ensures var step := MovementStep(position, velocity, lastInput, now);
              collector.currentTrace.Some? && |collector.currentTrace.value.steps| > 0 &&
              Last(collector.currentTrace.value.steps) == step
      // The collector records the frame's sample exactly as `add_movement` does.
      ensures collector.Snapshot() == Recorded(old(collector.Snapshot()), MovementStep(position, velocity, lastInput, now),
                                               collector.traceDuration, collector.maxCompletedTraces)
      ensures old(collector.WellFormed()) ==> collector.WellFormed()
      // A frame without cheat keys or teleport, ending in range, records an honest sample.
      ensures (old(AllHonest(Windows(collector.completedTraces, collector.currentTrace))) &&
               NoCheatKeys(input.keys) && input.teleportTo.None? &&
               PositionInRange(position.x) && PositionInRange(position.y)) ==>
              AllHonest(Windows(collector.completedTraces, collector.currentTrace))
    {
      ghost var queue0, current0, flag0 := collector.completedTraces, collector.currentTrace, collector.nextTraceIsFirstAfterReset;
      ghost var honest0 := AllHonest(Windows(queue0, current0));
      ghost var position0 := position;
      PlayerInput(input.keys);
      Teleport(input.teleportTo);
      SpeedControl(input.keys);
      UpdateInputState(input.keys);
      Movement();
      if honest0 && NoCheatKeys(input.keys) && input.teleportTo.None? &&
         PositionInRange(position.x) && PositionInRange(position.y) {
        HonestSampleRecorded(current0, position0, input.keys, now);
        CollectorStaysHonest(queue0, current0, flag0, MovementStep(position, velocity, lastInput, now),
                             collector.traceDuration, collector.maxCompletedTraces);
      }
      collector.AddMovement(position, velocity, lastInput, now);
    }

    /** The systems that run only while Playing, in their chained order. */
    method PlayingSystems(input: FrameInput, now: int)
      requires Valid()
      modifies this`position, this`velocity, this`lastInput,
               collector`currentTrace, collector`completedTraces, collector`nextTraceIsFirstAfterReset,
               prover
      ensures Valid()
      ensures velocity == SpeedControlled(HeldVelocity(input.keys), input.keys)
      ensures lastInput == InputFlagsFor(input.keys)
      ensures position == Moved(if input.teleportTo.Some? then input.teleportTo.value else old(position), velocity)
      ensures var step := MovementStep(position, velocity, lastInput, now);
              collector.currentTrace.Some? && |collector.currentTrace.value.steps| > 0 &&
              Last(collector.currentTrace.value.steps) == step
      // The sample is recorded, and every window the recording sealed is handed to the prover.
      ensures var recorded := Recorded(old(collector.Snapshot()), MovementStep(position, velocity, lastInput, now),
                                       collector.traceDuration, collector.maxCompletedTraces);
              && collector.Snapshot() == recorded.(queue := [])
              && prover.activeTasks == StillRunning(old(prover.activeTasks)) +
                   Spawned(recorded.queue, |old(prover.completedProofs)| + |old(prover.activeTasks)|, now)
      ensures prover.stats == Tally(old(prover.stats), Outcomes(old(prover.activeTasks)))
      ensures prover.completedProofs == old(prover.completedProofs) + NewlyCompleted(old(prover.activeTasks), now)
      ensures old(collector.WellFormed()) ==> collector.WellFormed()
      ensures old(prover.Consistent()) ==> prover.Consistent()
      // A frame without cheat keys or teleport, ending in range, keeps every window honest.
      ensures (old(PlayedHonestly()) && NoCheatKeys(input.keys) && input.teleportTo.None? &&
               PositionInRange(position.x) && PositionInRange(position.y)) ==> PlayedHonestly()
    {
      MoveAndRecord(input, now);
      SubmitWindows(now);
    }

    /** `proof_generation_system` on the world's resources: the sealed windows go to the prover, which is then polled. */
    method SubmitWindows(now: int)
      requires Valid()
      modifies collector`completedTraces, prover
      ensures Valid()
      ensures collector.Snapshot() == old(collector.Snapshot()).(queue := [])
      ensures prover.activeTasks == StillRunning(old(prover.activeTasks)) +
                Spawned(old(collector.completedTraces), |old(prover.completedProofs)| + |old(prover.activeTasks)|, now)
      ensures prover.stats == Tally(old(prover.stats), Outcomes(old(prover.activeTasks)))
      ensures prover.completedProofs == old(prover.completedProofs) + NewlyCompleted(old(prover.activeTasks), now)
      ensures old(collector.WellFormed()) ==> collector.WellFormed()
      ensures old(prover.Consistent()) ==> prover.Consistent()
      ensures old(PlayedHonestly()) ==> PlayedHonestly()
    {
      ghost var honest0 := PlayedHonestly();
      ghost var active0, queue0 := prover.activeTasks, collector.completedTraces;
      ghost var firstId := |prover.completedProofs| + |prover.activeTasks|;
      prover.ProofGenerationSystem(collector, now);
      if honest0 {
        HonestAfterSubmission(this, active0, queue0, firstId, now);
      }
    }

    /**
     * A frame in the Playing state: the playing systems, then detection on
     * the counters they leave (the dismissal's run condition is false).
     */
    method PlayingFrame(input: FrameInput, now: int)
      requires Valid() && state == Playing
      modifies this`position, this`velocity, this`lastInput, this`cheatActive, this`cheatMessage, this`nextState,
               collector`currentTrace, collector`completedTraces, collector`nextTraceIsFirstAfterReset,
               prover
      ensures Valid()
      ensures var recorded := Recorded(old(collector.Snapshot()), MovementStep(position, velocity, lastInput, now),
                                       collector.traceDuration, collector.maxCompletedTraces);
              var alarm := prover.stats.failedVerifications > 0 && !old(cheatActive);
              && velocity == SpeedControlled(HeldVelocity(input.keys), input.keys)
              && lastInput == InputFlagsFor(input.keys)
              && position == Moved(if input.teleportTo.Some? then input.teleportTo.value else old(position), velocity)
              && prover.activeTasks == StillRunning(old(prover.activeTasks)) +
                   Spawned(recorded.queue, |old(prover.completedProofs)| + |old(prover.activeTasks)|, now)
              && prover.stats == Tally(old(prover.stats), Outcomes(old(prover.activeTasks)))
              && prover.completedProofs == old(prover.completedProofs) + NewlyCompleted(old(prover.activeTasks), now)
              && collector.completedTraces == []
              && collector.nextTraceIsFirstAfterReset == recorded.firstAfterReset
              && cheatActive == (alarm || old(cheatActive))
              && cheatMessage == (if alarm then CHEAT_MESSAGE else old(cheatMessage))
              && nextState == (if alarm then Some(CheatDetected) else old(nextState))
              && collector.currentTrace == (if alarm then None else recorded.current)
      ensures old(collector.WellFormed()) ==> collector.WellFormed()
      ensures old(prover.Consistent()) ==> prover.Consistent()
      ensures (old(PlayedHonestly()) && NoCheatKeys(input.keys) && input.teleportTo.None? &&
               PositionInRange(position.x) && PositionInRange(position.y)) ==> PlayedHonestly()
    {
      PlayingSystems(input, now);
      CheatDetection();
    }

    /**
     * A frame in the CheatDetected state: detection, whose run condition
     * inside the system is false, then the dismissal.
     */
    method AlarmFrame(escapePressed: bool)
      requires Valid() && state == CheatDetected
      modifies this`position, this`velocity, this`cheatActive, this`cheatMessage, this`nextState,
               collector`currentTrace, collector`completedTraces, collector`nextTraceIsFirstAfterReset,
               prover`activeTasks, prover`stats
      ensures Valid()
      ensures if escapePressed && old(cheatActive) then
                && position == ORIGIN && velocity == ORIGIN
                && !cheatActive && cheatMessage == [] && nextState == Some(Playing)
                && collector.Snapshot() == Recording([], None, true)
                && prover.activeTasks == [] && prover.stats == DEFAULT_STATS
              else
                && position == old(position) && velocity == old(velocity)
                && cheatActive == old(cheatActive) && cheatMessage == old(cheatMessage)
                && nextState == old(nextState)
                && collector.Snapshot() == old(collector.Snapshot())
                && prover.activeTasks == old(prover.activeTasks) && prover.stats == old(prover.stats)
      ensures old(collector.WellFormed()) ==> collector.WellFormed()
      ensures old(prover.Consistent()) ==> prover.Consistent()
      ensures old(PlayedHonestly()) ==> PlayedHonestly()
    {
      CheatDetection();
      DismissCheatPopup(escapePressed);
    }

    /**
     * One frame: the pending state change, then the systems in the order
     * the `Update` schedule chains them, each under its run condition. A
     * requested state takes effect only at the next frame, so the state is
     * fixed for the frame and the run conditions select one of two chains.
     */
    method Frame(input: FrameInput, now: int)
      requires Valid()
      modifies this, collector, prover
      ensures Valid()
      ensures state == old(StateAfterTransition())
      ensures old(collector.WellFormed()) ==> collector.WellFormed()
      ensures old(prover.Consistent()) ==> prover.Consistent()
      // A Playing frame runs the playing systems, then detection on the counters they leave.
      ensures old(StateAfterTransition()) == Playing ==>
                var recorded := Recorded(old(collector.Snapshot()), MovementStep(position, velocity, lastInput, now),
                                         collector.traceDuration, collector.maxCompletedTraces);
                var alarm := prover.stats.failedVerifications > 0 && !old(cheatActive);
                && velocity == SpeedControlled(HeldVelocity(input.keys), input.keys)
                && lastInput == InputFlagsFor(input.keys)
                && position == Moved(if input.teleportTo.Some? then input.teleportTo.value else old(position), velocity)
                && prover.activeTasks == StillRunning(old(prover.activeTasks)) +
                     Spawned(recorded.queue, |old(prover.completedProofs)| + |old(prover.activeTasks)|, now)
                && prover.stats == Tally(old(prover.stats), Outcomes(old(prover.activeTasks)))
                && prover.completedProofs == old(prover.completedProofs) + NewlyCompleted(old(prover.activeTasks), now)
                && collector.completedTraces == []
                && collector.nextTraceIsFirstAfterReset == recorded.firstAfterReset
                && cheatActive == (alarm || old(cheatActive))
                && cheatMessage == (if alarm then CHEAT_MESSAGE else old(cheatMessage))
                && nextState == (if alarm then Some(CheatDetected) else None)
                && collector.currentTrace == (if alarm then None else recorded.current)
      // A CheatDetected frame runs only detection, which cannot fire, and the dismissal.
      ensures old(StateAfterTransition()) == CheatDetected ==>
                && lastInput == old(lastInput)
                && prover.completedProofs == old(prover.completedProofs)
                && if input.escapePressed && old(cheatActive) then
                     && position == ORIGIN && velocity == ORIGIN
                     && !cheatActive && cheatMessage == [] && nextState == Some(Playing)
                     && collector.Snapshot() == Recording([], None, true)
                     && prover.activeTasks == [] && prover.stats == DEFAULT_STATS
                   else
                     && position == old(position) && velocity == old(velocity)
                     && cheatActive == old(cheatActive) && cheatMessage == old(cheatMessage)
                     && nextState == None
                     && collector.Snapshot() == old(collector.Snapshot())
                     && prover.activeTasks == old(prover.activeTasks) && prover.stats == old(prover.stats)
      // While the alarm is up nothing moves and no proof work is done, until it is acknowledged.
      ensures state == CheatDetected && !(input.escapePressed && old(cheatActive)) ==>
                && position == old(position) && velocity == old(velocity)
                && prover.activeTasks == old(prover.activeTasks)
                && prover.completedProofs == old(prover.completedProofs)
                && prover.stats == old(prover.stats)
                && cheatActive == old(cheatActive)
      // A frame that starts with no failure counted and no task in flight cannot raise the alarm.
      ensures old(prover.stats.failedVerifications) == 0 && old(prover.activeTasks) == [] && !old(cheatActive) ==>
                !cheatActive
      // Honest play, a frame at a time, leaves only honest windows to record and to prove.
      ensures (old(PlayedHonestly()) && NoCheatKeys(input.keys) && input.teleportTo.None? &&
               PositionInRange(position.x) && PositionInRange(position.y)) ==> PlayedHonestly()
    {
      ApplyStateTransition();
      if state == Playing {
        PlayingFrame(input, now);
      } else {
        AlarmFrame(input.escapePressed);
      }
    }
  }

  // ---------------------------------------------------------------------------
  // Properties of the rules
  // ---------------------------------------------------------------------------

  /** A frame played without cheat keys or teleport records an honest sample one frame after the last. */
  lemma HonestFrameExtendsWindow(prev: MovementStep, k: Keys, now: int)
    requires NoCheatKeys(k)
    requires var s := FrameSample(prev.position, k, None, now);
             PositionInRange(s.position.x) && PositionInRange(s.position.y)
    ensures HonestSample(FrameSample(prev.position, k, None, now))
    ensures Follows(prev, FrameSample(prev.position, k, None, now))
  {
    VelocityFollowsFlags(k);
  }

  /**
   * Collecting an honest sample one frame after the open window's last one
   * keeps every window the collector holds honest, whether `add_movement`
   * grows the open window or seals it and seeds the next (the two outcomes
   * of `MovementTraceCollector.AddMovement`).
   */
  lemma CollectorStaysHonest(queue: seq<MovementTrace>, current: Option<MovementTrace>, flag: bool,
                             step: MovementStep, duration: int, max: nat)
    requires AllHonest(Windows(queue, current))
    requires HonestSample(step)
    requires current.Some? ==> |current.value.steps| > 0 && Follows(Last(current.value.steps), step)
    ensures var after := Recorded(Recording(queue, current, flag), step, duration, max);
            AllHonest(Windows(after.queue, after.current))
  {
    WindowsHonest(queue, current);
    var open := OpenTrace(current, flag, step.timestamp);
    var grown := AddStep(open, step);
    GrowStaysHonest(open, step);
    var after := Recorded(Recording(queue, current, flag), step, duration, max);
    if IsComplete(grown, duration) {
      SealStaysHonest(queue, grown, max);
      assert HonestWindow(MovementTrace([step], step.timestamp, 0, current.Some? && flag));
      assert after.queue == KeepNewest(queue + [grown], max);
    } else {
      assert after.queue == queue && after.current == Some(grown);
    }
    WindowsHonest(after.queue, after.current);
  }

  /** An honest sample one frame after the end of an honest (or empty) window extends it honestly. */
  lemma GrowStaysHonest(open: MovementTrace, step: MovementStep)
    requires open.steps == [] || HonestWindow(open)
    requires HonestSample(step)
    requires |open.steps| > 0 ==> Follows(Last(open.steps), step)
    ensures HonestWindow(AddStep(open, step))
  {
    var grown := AddStep(open, step);
    var n := |open.steps|;
    assert forall i :: 0 <= i < n ==> grown.steps[i] == open.steps[i];
    forall i | 0 <= i < |grown.steps| - 1
      ensures Follows(grown.steps[i], grown.steps[i + 1])
    {
      if i + 1 < n {
        assert grown.steps[i + 1] == open.steps[i + 1];
      }
    }
  }

  /** Queuing an honest window behind honest ones and keeping the newest leaves only honest windows. */
  lemma SealStaysHonest(queue: seq<MovementTrace>, sealed: MovementTrace, max: nat)
    requires AllHonest(queue) && HonestWindow(sealed)
    ensures AllHonest(KeepNewest(queue + [sealed], max))
  {
    var all := queue + [sealed];
    var kept := KeepNewest(all, max);
    assert AllHonest(all) by {
      WindowsHonest(queue, Some(sealed));
    }
    forall k | 0 <= k < |kept| ensures HonestWindow(kept[k]) {
      assert kept[k] == all[|all| - |kept| + k];
    }
  }


  /**
   * The sample an honest frame hands the collector: honest, and one frame
   * after the open window's last sample, which ends at the player's
   * position before the frame.
   */
  lemma HonestSampleRecorded(current: Option<MovementTrace>, p: Vec2, k: Keys, now: int)
    requires NoCheatKeys(k)
    requires current.Some? ==> |current.value.steps| > 0 && Last(current.value.steps).position == p
    requires var s := FrameSample(p, k, None, now);
             PositionInRange(s.position.x) && PositionInRange(s.position.y)
    ensures HonestSample(FrameSample(p, k, None, now))
    ensures current.Some? ==> Follows(Last(current.value.steps), FrameSample(p, k, None, now))
  {
    if current.Some? {
      HonestFrameExtendsWindow(Last(current.value.steps), k, now);
    } else {
      HonestFrameExtendsWindow(MovementStep(p, ORIGIN, NO_INPUT, now), k, now);
    }
  }

  /** The windows of a collector are honest exactly when its queue and its open window are. */
  lemma WindowsHonest(queue: seq<MovementTrace>, current: Option<MovementTrace>)
    ensures AllHonest(Windows(queue, current)) <==> AllHonest(queue) && (current.Some? ==> HonestWindow(current.value))
  {
    var ws := Windows(queue, current);
    assert forall k :: 0 <= k < |queue| ==> ws[k] == queue[k];
    if current.Some? {
      assert ws[|queue|] == current.value;
    }
  }

  /**
   * Draining honest tasks and spawning tasks for the honest windows of the
   * queue leaves only honest tasks and an honest open window: what
   * `proof_generation_system` does to the task list and the collector.
   */
  lemma HonestTasksAfterSubmission(active: seq<Task>, queue: seq<MovementTrace>, current: Option<MovementTrace>,
                                   firstId: nat, now: int)
    requires forall k :: 0 <= k < |active| ==> HonestWindow(active[k].trace)
    requires AllHonest(Windows(queue, current))
    ensures AllHonest(Windows([], current))
    ensures var tasks := StillRunning(active) + Spawned(queue, firstId, now);
            forall k :: 0 <= k < |tasks| ==> HonestWindow(tasks[k].trace)
  {
    WindowsHonest(queue, current);
    WindowsHonest([], current);
    var running := StillRunning(active);
    var spawned := Spawned(queue, firstId, now);
    var tasks := running + spawned;
    SpawnedNumbering(queue, firstId, now);
    ProvableTracesMembers(queue);
    forall k | 0 <= k < |tasks| ensures HonestWindow(tasks[k].trace) {
      if k < |running| {
        StillRunningMembers(active, tasks[k]);
        assert tasks[k] in running;
      } else {
        assert tasks[k] == spawned[k - |running|];
        assert tasks[k].trace in queue;
      }
    }
  }

  /** A world whose prover took over honest tasks and honest windows, leaving the queue empty, played honestly. */
  lemma HonestAfterSubmission(w: World, active: seq<Task>, queue: seq<MovementTrace>, firstId: nat, now: int)
    requires forall k :: 0 <= k < |active| ==> HonestWindow(active[k].trace)
    requires AllHonest(Windows(queue, w.collector.currentTrace))
    requires w.collector.completedTraces == []
    requires w.prover.activeTasks == StillRunning(active) + Spawned(queue, firstId, now)
    ensures w.PlayedHonestly()
  {
    HonestTasksAfterSubmission(active, queue, w.collector.currentTrace, firstId, now);
  }

  /** The recorded flags demand exactly the velocity `player_input` set. */
  lemma VelocityFollowsFlags(k: Keys)
    ensures HeldVelocity(k) == FlagVelocity(InputFlagsFor(k))
  {
  }

  /** Honest speeds move 3 units per frame: the truncating quotient is exact. */
  lemma HonestMovementDelta(v: int)
    requires v == -MOVEMENT_SPEED || v == 0 || v == MOVEMENT_SPEED
    ensures MovementDelta(v) * 1000 == v * PHYSICS_FACTOR
    ensures MovementDelta(v) == v / MOVEMENT_SPEED * 3
  {
  }

  /** Truncation is symmetric about zero, unlike floor division. */
  lemma MovementDeltaOdd(v: int)
    ensures MovementDelta(-v) == -MovementDelta(v)
  {
  }
}
