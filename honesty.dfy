/**
 * What the integrity check guarantees, stated across the game rules, the
 * collector's windows, the arithmetization and the prover: a window the
 * unmodified game records is accepted, and each cheat of the game (a speed
 * change, a teleport) makes the window's matrix violate a constraint, so
 * that the task proving it panics. What becomes of that panic is stated
 * both as written (the poll crashes) and contained (a failure is counted).
 */
module Honesty {
  import opened Options
  import opened Traces
  import opened Air
  import opened ProofSystem
  import opened Game

  // ---------------------------------------------------------------------------
  // One row, one transition
  // ---------------------------------------------------------------------------

  lemma HonestVelocity(f: InputFlags)
    ensures var v := FlagVelocity(f);
            && (v.x == -MOVEMENT_SPEED || v.x == 0 || v.x == MOVEMENT_SPEED)
            && (v.y == -MOVEMENT_SPEED || v.y == 0 || v.y == MOVEMENT_SPEED)
  {
  }

  /** The row of an honest sample satisfies the boolean and the velocity constraints. */
  lemma HonestRowValid(s: MovementStep)
    requires HonestSample(s)
    ensures FlagsBoolean(EncodeStep(s)) && VelocityMatchesInputs(EncodeStep(s))
  {
    HonestVelocity(s.inputs);
    VelocityEncodingInRange(s.velocity.x);
    VelocityEncodingInRange(s.velocity.y);
  }

  /** One axis of the transition constraint between two in-range positions. */
  lemma AxisContinues(x: int, next: int, v: int)
    requires PositionInRange(x) && PositionInRange(next)
    requires v == -MOVEMENT_SPEED || v == 0 || v == MOVEMENT_SPEED
    ensures EncodePosition(next) == Fe(EncodePosition(x) + (EncodeVelocity(v) - VELOCITY_OFFSET) * PHYSICS_FACTOR)
            <==> next == x + MovementDelta(v)
  {
    PositionEncodingInRange(x);
    PositionEncodingInRange(next);
    VelocityEncodingInRange(v);
    HonestMovementDelta(v);
    var raw := EncodePosition(x) + (EncodeVelocity(v) - VELOCITY_OFFSET) * PHYSICS_FACTOR;
    assert raw == x * POSITION_SCALE + POSITION_BIAS + v * PHYSICS_FACTOR;
    if raw >= 0 {
      assert Fe(raw) == raw;
    } else {
      assert Fe(raw) == raw + P;
    }
  }

  /**
   * Between the rows of two honest samples the transition constraint holds
   * exactly when the second was recorded one frame after the first.
   */
  lemma ContinuesIffFollows(a: MovementStep, b: MovementStep)
    requires HonestSample(a) && HonestSample(b)
    ensures PositionContinues(EncodeStep(a), EncodeStep(b)) <==> Follows(a, b)
  {
    HonestVelocity(b.inputs);
    var ra, rb := EncodeStep(a), EncodeStep(b);
    assert rb.positionX == ExpectedNextX(ra, rb) <==> b.position.x == a.position.x + MovementDelta(b.velocity.x) by {
      AxisContinues(a.position.x, b.position.x, b.velocity.x);
    }
    assert rb.positionY == ExpectedNextY(ra, rb) <==> b.position.y == a.position.y + MovementDelta(b.velocity.y) by {
      AxisContinues(a.position.y, b.position.y, b.velocity.y);
    }
  }

  /** Padding rows hold the last position still, so every transition into or between them holds. */
  lemma PaddingContinues(last: MovementStep)
    ensures PositionContinues(EncodeStep(last), PaddingRow(last))
    ensures PositionContinues(PaddingRow(last), PaddingRow(last))
    ensures FlagsBoolean(PaddingRow(last)) && VelocityMatchesInputs(PaddingRow(last))
  {
  }

  // ---------------------------------------------------------------------------
  // Honest play is accepted
  // ---------------------------------------------------------------------------

  /** The headline property: the matrix of an honest window satisfies every constraint. */
  lemma HonestWindowSatisfiesAir(t: MovementTrace, h: nat)
    requires HonestWindow(t) && !OriginCheckFails(t) && |t.steps| <= h
    ensures TraceMatrix(t, h).Matrix? && SatisfiesAir(TraceMatrix(t, h).rows)
  {
    var rows := TraceMatrix(t, h).rows;
    var n := |t.steps|;
    forall i | 0 <= i < h
      ensures RowSatisfies(rows, i)
    {
      assert rows[i] == RowAt(t, i);
      if i < n {
        HonestRowValid(t.steps[i]);
        if i + 1 < h {
          assert rows[i + 1] == RowAt(t, i + 1);
          if i + 1 < n {
            ContinuesIffFollows(t.steps[i], t.steps[i + 1]);
          } else {
            PaddingContinues(Last(t.steps));
          }
        }
      } else {
        PaddingContinues(Last(t.steps));
        if i + 1 < h {
          assert rows[i + 1] == RowAt(t, i + 1);
        }
      }
    }
  }

  /** An honest window is proved, whatever height the prover chooses, once serialisation succeeds. */
  lemma HonestWindowIsProved(t: MovementTrace, size: nat)
    requires HonestWindow(t) && !OriginCheckFails(t)
    ensures ProofOutcomeOf(t, Serialized(size)) == Proved(size)
  {
    HonestWindowSatisfiesAir(t, TargetHeight(|t.steps|));
  }

  /**
   * Every task of honest play that passes the origin check ends without a
   * panic, whatever serialisation does, and is proved when it succeeds.
   */
  lemma HonestTasksAreProved(w: World, k: nat, s: Serialization)
    requires w.PlayedHonestly() && k < |w.prover.activeTasks|
    requires !OriginCheckFails(w.prover.activeTasks[k].trace)
    ensures !Panics(ProofOutcomeOf(w.prover.activeTasks[k].trace, s))
    ensures s.Serialized? ==> ProofOutcomeOf(w.prover.activeTasks[k].trace, s) == Proved(s.size)
  {
    var t := w.prover.activeTasks[k].trace;
    HonestWindowSatisfiesAir(t, TargetHeight(|t.steps|));
  }

  // ---------------------------------------------------------------------------
  // Cheats are rejected
  // ---------------------------------------------------------------------------

  /** A speed multiplier other than 1 moves an honest velocity component off its encoding. */
  lemma ScaledAxisMismatch(v: int, m: int)
    requires v == -MOVEMENT_SPEED || v == 0 || v == MOVEMENT_SPEED
    requires m == 0 || m == 2 || m == 3 || m == 6
    requires v * m != v
    ensures EncodeVelocity(v * m) != v + VELOCITY_OFFSET
  {
    var c := v * m;
    if v == MOVEMENT_SPEED {
      assert c == 0 || c == 400 || c == 600 || c == 1200;
      ScaledEncodings(c);
    } else {
      assert v == -MOVEMENT_SPEED;
      assert c == 0 || c == -400 || c == -600 || c == -1200;
      ScaledEncodings(c);
    }
  }

  /** The encodings of the speeds a cheat can produce. */
  lemma ScaledEncodings(c: int)
    ensures c == 0 ==> EncodeVelocity(c) == 1000
    ensures c == 400 ==> EncodeVelocity(c) == 1400
    ensures c == 600 ==> EncodeVelocity(c) == 1600
    ensures c == 1200 ==> EncodeVelocity(c) == 200
    ensures c == -400 ==> EncodeVelocity(c) == 600
    ensures c == -600 ==> EncodeVelocity(c) == 400
    ensures c == -1200 ==> EncodeVelocity(c) == 1416
  {
  }

  /**
   * A speed cheat that changes the velocity makes the recorded row violate
   * the velocity constraint, wherever the player is.
   */
  lemma SpeedCheatViolatesVelocity(p: Vec2, k: Keys, teleport: Option<Vec2>, now: int)
    requires SpeedControlled(HeldVelocity(k), k) != HeldVelocity(k)
    ensures !VelocityMatchesInputs(EncodeStep(FrameSample(p, k, teleport, now)))
  {
    var held := HeldVelocity(k);
    var f := InputFlagsFor(k);
    VelocityFollowsFlags(k);
    HonestVelocity(f);
    var m := SpeedMultiplier(k);
    assert SpeedControlled(held, k) == Scale(held, m);
    var row := EncodeStep(FrameSample(p, k, teleport, now));
    VelocityEncodingInRange(held.x);
    VelocityEncodingInRange(held.y);
    assert ExpectedVelocityX(row) == held.x + VELOCITY_OFFSET;
    assert ExpectedVelocityY(row) == held.y + VELOCITY_OFFSET;
    if held.x * m != held.x {
      ScaledAxisMismatch(held.x, m);
    } else {
      ScaledAxisMismatch(held.y, m);
    }
  }

  /** A window whose sample `i` breaks the velocity constraint is not proved. */
  lemma BadSampleRejectsWindow(t: MovementTrace, i: nat, s: Serialization)
    requires !OriginCheckFails(t) && i < |t.steps|
    requires !VelocityMatchesInputs(EncodeStep(t.steps[i]))
    ensures ProofOutcomeOf(t, s) == Failed(ConstraintPanic)
  {
    var rows := TraceMatrix(t, TargetHeight(|t.steps|)).rows;
    assert rows[i] == RowAt(t, i);
    assert !RowSatisfies(rows, i);
  }

  /**
   * A window with an honest pair of samples in which the second was not
   * reached by one frame of movement (a teleport) is not proved.
   */
  lemma JumpRejectsWindow(t: MovementTrace, i: nat, s: Serialization)
    requires !OriginCheckFails(t) && i + 1 < |t.steps|
    requires HonestSample(t.steps[i]) && HonestSample(t.steps[i + 1])
    requires !Follows(t.steps[i], t.steps[i + 1])
    ensures ProofOutcomeOf(t, s) == Failed(ConstraintPanic)
  {
    var rows := TraceMatrix(t, TargetHeight(|t.steps|)).rows;
    assert rows[i] == RowAt(t, i);
    assert rows[i + 1] == RowAt(t, i + 1);
    ContinuesIffFollows(t.steps[i], t.steps[i + 1]);
    assert !RowSatisfies(rows, i);
  }

  /**
   * The contained drain counts a finished task whose window holds a sample
   * that breaks the velocity constraint (a speed cheat) as a failed
   * verification, which is what `cheat_detection_system` raises the alarm on.
   */
  lemma CheatIsCounted(active: seq<Task>, m: nat, i: nat, s: Serialization, stats0: ProofStats)
    requires m < |active| && active[m].status == Some(ProofOutcomeOf(active[m].trace, s))
    requires !OriginCheckFails(active[m].trace) && i < |active[m].trace.steps|
    requires !VelocityMatchesInputs(EncodeStep(active[m].trace.steps[i]))
    ensures Tally(stats0, Outcomes(active)).failedVerifications > stats0.failedVerifications
  {
    BadSampleRejectsWindow(active[m].trace, i, s);
    var os := Outcomes(active);
    OutcomesMembers(active, Failed(ConstraintPanic));
    assert StatusesOf(active)[m] == Some(Failed(ConstraintPanic));
    FailuresByKind(os);
  }

  /**
   * As written, the same task never reaches the counters: the drain stops
   * with a panic (the game ends) at it or at an earlier panicked task, and
   * what it has counted by then holds no constraint failure.
   */
  lemma CheatCrashesAsWritten(active: seq<Task>, m: nat, i: nat, s: Serialization)
    requires m < |active| && active[m].status == Some(ProofOutcomeOf(active[m].trace, s))
    requires !OriginCheckFails(active[m].trace) && i < |active[m].trace.steps|
    requires !VelocityMatchesInputs(EncodeStep(active[m].trace.steps[i]))
    ensures FirstPanic(active).Some? && DrainedBeforePanic(active) <= m
    ensures Failed(ConstraintPanic) !in OutcomesAmong(active, DrainedBeforePanic(active))
  {
    BadSampleRejectsWindow(active[m].trace, i, s);
    assert PanickedTask(active[m]);
    PanicIsFirst(active, 0);
    NoPanicAmong(active, DrainedBeforePanic(active));
  }

  /**
   * An honest player who holds a direction key on the first recorded frame
   * after a reset (or after start-up) is at one step from the origin and
   * moving, so the origin check rejects the window as a structural violation.
   */
  lemma HeldKeyAtResetFailsOriginCheck(t: MovementTrace, k: Keys, now: int, s: Serialization)
    requires NoCheatKeys(k) && HeldVelocity(k) != ORIGIN
    requires t.isFirstTraceAfterReset && |t.steps| > 0
    requires t.steps[0] == FrameSample(ORIGIN, k, None, now)
    ensures OriginCheckFails(t)
    ensures ProofOutcomeOf(t, s) == Failed(OriginPanic)
  {
  }
}
