/**
 * Model of src/check_constraints.rs: an executable restatement of the AIR of
 * `Air` over a concrete matrix. A non-boolean flag is reported as an error
 * value; a velocity or position mismatch aborts (the source panics). Rows are
 * checked in order, and within a row the checks run in a fixed order, so the
 * outcome names the first failing row and the first failing check in it.
 */
module ConstraintCheck {
  import opened Options
  import opened Air

  datatype Flag = Left | Right | Up | Down

  datatype Violation = VelocityX | VelocityY | PositionX | PositionY

  datatype RowFailure = NotBoolean(flag: Flag) | Mismatch(violation: Violation)

  /** `Ok(())`, the `Err` of a non-boolean flag, or the panic of a velocity or position mismatch. */
  datatype CheckOutcome = Passed | Rejected(row: nat, flag: Flag) | Panicked(row: nat, violation: Violation)

  /** The first check that row `i` fails, in the order the checker runs them. */
  function FirstFailure(m: seq<MovementRow>, i: nat): (f: Option<RowFailure>)
    requires i < |m|
    ensures f.None? <==> RowSatisfies(m, i)
  {
    var local := m[i];
    if !IsBool(local.inputLeft) then Some(NotBoolean(Left))
    else if !IsBool(local.inputRight) then Some(NotBoolean(Right))
    else if !IsBool(local.inputUp) then Some(NotBoolean(Up))
    else if !IsBool(local.inputDown) then Some(NotBoolean(Down))
    else if local.velocityX != ExpectedVelocityX(local) then Some(Mismatch(VelocityX))
    else if local.velocityY != ExpectedVelocityY(local) then Some(Mismatch(VelocityY))
    else if i == |m| - 1 then None
    else if m[i + 1].positionX != ExpectedNextX(local, m[i + 1]) then Some(Mismatch(PositionX))
    else if m[i + 1].positionY != ExpectedNextY(local, m[i + 1]) then Some(Mismatch(PositionY))
    else None
  }

  /**
   * Within a row the flag checks come first and yield `Err`; the velocity
   * checks come next and the transition checks last, both aborting.
   */
  lemma CheckOrder(m: seq<MovementRow>, i: nat)
    requires i < |m|
    ensures var f := FirstFailure(m, i);
            (f.Some? && f.value.NotBoolean?) <==> !FlagsBoolean(m[i])
    ensures var f := FirstFailure(m, i);
            (f == Some(Mismatch(VelocityX)) || f == Some(Mismatch(VelocityY)))
            <==> FlagsBoolean(m[i]) && !VelocityMatchesInputs(m[i])
    ensures var f := FirstFailure(m, i);
            (f == Some(Mismatch(PositionX)) || f == Some(Mismatch(PositionY)))
            <==> FlagsBoolean(m[i]) && VelocityMatchesInputs(m[i]) && i < |m| - 1 && !PositionContinues(m[i], m[i + 1])
  {
  }

  /** `check_movement_constraints`: the row loop with its early returns and panics. */
  method CheckMovementConstraints(m: seq<MovementRow>) returns (r: CheckOutcome)
    ensures r.Passed? <==> SatisfiesAir(m)
    ensures |m| == 0 ==> r == Passed
    ensures r.Rejected? ==>
      && r.row < |m| && FirstFailure(m, r.row) == Some(NotBoolean(r.flag))
      && forall j :: 0 <= j < r.row ==> RowSatisfies(m, j)
    ensures r.Panicked? ==>
      && r.row < |m| && FirstFailure(m, r.row) == Some(Mismatch(r.violation))
      && forall j :: 0 <= j < r.row ==> RowSatisfies(m, j)
  {
    var height := |m|;
    for rowIndex := 0 to height
      invariant forall j :: 0 <= j < rowIndex ==> RowSatisfies(m, j)
    {
      var f := CheckRow(m, rowIndex);
      if f.Some? {
        if f.value.NotBoolean? {
          return Rejected(rowIndex, f.value.flag);
        }
        return Panicked(rowIndex, f.value.violation);
      }
    }
    return Passed;
  }

  /** The body of the row loop: the checks on row `rowIndex`, in the checker's order. */
  method CheckRow(m: seq<MovementRow>, rowIndex: nat) returns (f: Option<RowFailure>)
    requires rowIndex < |m|
    ensures f == FirstFailure(m, rowIndex)
  {
    var height := |m|;
    var local := m[rowIndex];
    var next := m[(rowIndex + 1) % height];

    // Constraint 1: boolean inputs
    if local.inputLeft != 0 && local.inputLeft != 1 {
      return Some(NotBoolean(Left));
    }
    if local.inputRight != 0 && local.inputRight != 1 {
      return Some(NotBoolean(Right));
    }
    if local.inputUp != 0 && local.inputUp != 1 {
      return Some(NotBoolean(Up));
    }
    if local.inputDown != 0 && local.inputDown != 1 {
      return Some(NotBoolean(Down));
    }

    // Constraint 2: velocity from inputs
    var expectedVelX := Fe((local.inputRight - local.inputLeft) * MOVEMENT_SPEED + VELOCITY_OFFSET);
    var expectedVelY := Fe((local.inputUp - local.inputDown) * MOVEMENT_SPEED + VELOCITY_OFFSET);
    assert expectedVelX == ExpectedVelocityX(local) && expectedVelY == ExpectedVelocityY(local);
    if local.velocityX != expectedVelX {
      return Some(Mismatch(VelocityX));
    }
    if local.velocityY != expectedVelY {
      return Some(Mismatch(VelocityY));
    }

    // Constraint 3: position continuity, skipped on the last row
    if rowIndex != height - 1 {
      assert next == m[rowIndex + 1] by { assert (rowIndex + 1) % height == rowIndex + 1; }
      var expectedNextX := Fe(local.positionX + (next.velocityX - VELOCITY_OFFSET) * PHYSICS_FACTOR);
      var expectedNextY := Fe(local.positionY + (next.velocityY - VELOCITY_OFFSET) * PHYSICS_FACTOR);
      assert expectedNextX == ExpectedNextX(local, next) && expectedNextY == ExpectedNextY(local, next);
      if next.positionX != expectedNextX {
        return Some(Mismatch(PositionX));
      }
      if next.positionY != expectedNextY {
        return Some(Mismatch(PositionY));
      }
    }
    return None;
  }
}
