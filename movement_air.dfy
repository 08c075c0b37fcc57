/**
 * Model of src/movement_air.rs: the eight-column row layout, the fixed-point
 * encoding of a window into BabyBear field elements, the three AIR
 * constraints, the generator of the trace matrix (with its structural origin
 * check and padding), the deliberately failing "cheat" matrix and
 * `next_power_of_2`.
 */
module Air {
  import opened Traces

  /** The BabyBear prime, 15 * 2^27 + 1. */
  const P: int := 2013265921

  /** A canonical BabyBear element. */
  type Felt = x: int | 0 <= x < P

  /** Reduction of an integer into the field (Dafny's `%` is Euclidean, so this is the field's residue). */
  function Fe(x: int): Felt
  {
    x % P
  }

  const NUM_MOVEMENT_COLS: nat := 8
  const POSITION_SCALE: int := 1000
  const POSITION_BIAS: int := 50000000
  const POSITION_RANGE: int := 100000000
  const VELOCITY_OFFSET: int := 1000
  const VELOCITY_RANGE: int := 2000
  const MOVEMENT_SPEED: int := 200
  const PHYSICS_FACTOR: int := 15
  /** The `as u64` cast of a negative `i64` adds 2^64. */
  const U64_MODULUS: int := 0x1_0000_0000_0000_0000

  /** One row of the trace matrix, in the column order of `MovementRow`. */
  datatype MovementRow = MovementRow(
    positionX: Felt, positionY: Felt,
    velocityX: Felt, velocityY: Felt,
    inputLeft: Felt, inputRight: Felt, inputUp: Felt, inputDown: Felt)

  const ZERO_ROW: MovementRow := MovementRow(0, 0, 0, 0, 0, 0, 0, 0)

  // ---------------------------------------------------------------------------
  // The constraint system (`MovementAir::eval`)
  // ---------------------------------------------------------------------------

  /** Constraint 1 for one flag; over the prime field `x * (x - 1) == 0` holds exactly for 0 and 1. */
  predicate IsBool(x: Felt)
  {
    x == 0 || x == 1
  }

  predicate FlagsBoolean(r: MovementRow)
  {
    IsBool(r.inputLeft) && IsBool(r.inputRight) && IsBool(r.inputUp) && IsBool(r.inputDown)
  }

  /** Constraint 2: the velocity the flags of this row demand, `(right - left) * 200 + 1000` in the field. */
  function ExpectedVelocityX(r: MovementRow): Felt
  {
    Fe((r.inputRight - r.inputLeft) * MOVEMENT_SPEED + VELOCITY_OFFSET)
  }

  function ExpectedVelocityY(r: MovementRow): Felt
  {
    Fe((r.inputUp - r.inputDown) * MOVEMENT_SPEED + VELOCITY_OFFSET)
  }

  predicate VelocityMatchesInputs(r: MovementRow)
  {
    r.velocityX == ExpectedVelocityX(r) && r.velocityY == ExpectedVelocityY(r)
  }

  /** Constraint 3: the next position is this one moved by the NEXT row's velocity times 15. */
  function ExpectedNextX(local: MovementRow, next: MovementRow): Felt
  {
    Fe(local.positionX + (next.velocityX - VELOCITY_OFFSET) * PHYSICS_FACTOR)
  }

  function ExpectedNextY(local: MovementRow, next: MovementRow): Felt
  {
    Fe(local.positionY + (next.velocityY - VELOCITY_OFFSET) * PHYSICS_FACTOR)
  }

  predicate PositionContinues(local: MovementRow, next: MovementRow)
  {
    next.positionX == ExpectedNextX(local, next) && next.positionY == ExpectedNextY(local, next)
  }

  /** All constraints on row `i`; the transition is enforced on every row but the last (`when_transition`). */
  predicate RowSatisfies(m: seq<MovementRow>, i: int)
    requires 0 <= i < |m|
  {
    && FlagsBoolean(m[i])
    && VelocityMatchesInputs(m[i])
    && (i < |m| - 1 ==> PositionContinues(m[i], m[i + 1]))
  }

  /** The matrix satisfies the AIR. */
  predicate SatisfiesAir(m: seq<MovementRow>)
  {
    forall i :: 0 <= i < |m| ==> RowSatisfies(m, i)
  }

  // ---------------------------------------------------------------------------
  // Encoding of a window
  // ---------------------------------------------------------------------------

  /** Position column: scale by 1000, bias by 50 000 000, cast to `u64`, reduce modulo 10^8. */
  function EncodePosition(coordinate: int): (e: Felt)
    ensures e < POSITION_RANGE
  {
    ((coordinate * POSITION_SCALE + POSITION_BIAS) % U64_MODULUS) % POSITION_RANGE
  }

  /** Velocity column: bias by 1000, cast to `u64`, reduce modulo 2000. */
  function EncodeVelocity(v: int): (e: Felt)
    ensures e < VELOCITY_RANGE
  {
    ((v + VELOCITY_OFFSET) % U64_MODULUS) % VELOCITY_RANGE
  }

  function FlagElement(b: bool): Felt
  {
    if b then 1 else 0
  }

  /** The inverse of `EncodePosition` on its documented range. */
  function DecodePosition(e: int): int
  {
    (e - POSITION_BIAS) / POSITION_SCALE
  }

  function DecodeVelocity(e: int): int
  {
    e - VELOCITY_OFFSET
  }

  /** The documented range of position coordinates (|scaled position| below half the modulus). */
  predicate PositionInRange(coordinate: int)
  {
    -50000 <= coordinate < 50000
  }

  /** The range of velocities the bias covers. */
  predicate VelocityInRange(v: int)
  {
    -VELOCITY_OFFSET <= v < VELOCITY_OFFSET
  }

  /** A real row: the encoded sample. */
  function EncodeStep(s: MovementStep): MovementRow
  {
    MovementRow(
      EncodePosition(s.position.x), EncodePosition(s.position.y),
      EncodeVelocity(s.velocity.x), EncodeVelocity(s.velocity.y),
      FlagElement(s.inputs.left), FlagElement(s.inputs.right),
      FlagElement(s.inputs.up), FlagElement(s.inputs.down))
  }

  /** A padding row: the last position, zero velocity (encoded 1000), no input. */
  function PaddingRow(last: MovementStep): MovementRow
  {
    MovementRow(EncodePosition(last.position.x), EncodePosition(last.position.y),
                VELOCITY_OFFSET, VELOCITY_OFFSET, 0, 0, 0, 0)
  }

  /** The structural check on a first-after-reset window: its first sample must be at rest at the origin. */
  predicate OriginCheckFails(t: MovementTrace)
  {
    t.isFirstTraceAfterReset && |t.steps| > 0 &&
    (t.steps[0].position != ORIGIN || t.steps[0].velocity != ORIGIN)
  }

  /** The outcome of matrix generation: a matrix, or the panic of the origin check. */
  datatype Generated = Matrix(rows: seq<MovementRow>) | OriginViolation

  /** Row `i` of the matrix for window `t`. */
  function RowAt(t: MovementTrace, i: int): MovementRow
  {
    if 0 <= i < |t.steps| then EncodeStep(t.steps[i])
    else if |t.steps| > 0 then PaddingRow(Last(t.steps))
    else ZERO_ROW
  }

  /** What `generate_movement_trace_matrix` produces for window `t` at height `h`. */
  function TraceMatrix(t: MovementTrace, h: nat): Generated
  {
    if OriginCheckFails(t) then OriginViolation else Matrix(seq(h, i => RowAt(t, i)))
  }

  // ---------------------------------------------------------------------------
  // Powers of two
  // ---------------------------------------------------------------------------

  predicate IsPowerOfTwo(n: nat)
  {
    n == 1 || (n >= 2 && n % 2 == 0 && IsPowerOfTwo(n / 2))
  }

  /** The least power of two that is at least `n` (1 for `n == 0`). */
  function NextPow2(n: nat): (r: nat)
    ensures IsPowerOfTwo(r) && r >= n && r >= 1
    ensures n > 0 ==> r < 2 * n
    ensures n == 0 ==> r == 1
  {
    if n <= 1 then 1
    else
      var half := NextPow2((n + 1) / 2);
      assert n % 2 == 0 ==> (n + 1) / 2 == n / 2;
      assert IsPowerOfTwo(2 * half) by { assert (2 * half) / 2 == half; }
      2 * half
  }

  /** `next_power_of_2`: double from 1 until `n` is reached. */
  method NextPowerOf2(n: nat) returns (power: nat)
    ensures power == NextPow2(n)
    ensures n == 0 ==> power == 1
    ensures IsPowerOfTwo(power) && power >= n
    ensures n > 0 ==> power < 2 * n
  {
    if n == 0 {
      return 1;
    }
    power := 1;
    while power < n
      invariant IsPowerOfTwo(power) && power < 2 * n
    {
      power := 2 * power;
    }
    PowerOfTwoUnique(power, NextPow2(n), n);
  }

  /** For a power of two `a` below the power of two `b`, `b` is at least `2 * a`. */
  lemma {:induction false} PowerOfTwoGap(a: nat, b: nat)
    requires IsPowerOfTwo(a) && IsPowerOfTwo(b) && a < b
    ensures 2 * a <= b
  {
    if a != 1 {
      PowerOfTwoGap(a / 2, b / 2);
    }
  }

  /** There is exactly one power of two in `[n, 2n)`. */
  lemma PowerOfTwoUnique(a: nat, b: nat, n: nat)
    requires IsPowerOfTwo(a) && IsPowerOfTwo(b)
    requires n <= a < 2 * n && n <= b < 2 * n
    ensures a == b
  {
    if a < b {
      PowerOfTwoGap(a, b);
    } else if b < a {
      PowerOfTwoGap(b, a);
    }
  }

  // ---------------------------------------------------------------------------
  // Matrix generation
  // ---------------------------------------------------------------------------

  /**
   * `generate_movement_trace_matrix`: fill the rows buffer with the encoded
   * samples (checking the origin on row 0 of a first-after-reset window),
   * then pad with the last position at rest.
   */
  method GenerateMovementTraceMatrix(trace: MovementTrace, targetHeight: nat) returns (g: Generated)
    requires IsPowerOfTwo(targetHeight)
    requires |trace.steps| <= targetHeight
    ensures g == TraceMatrix(trace, targetHeight)
    ensures g.Matrix? ==> |g.rows| == targetHeight
  {
    var rows := new MovementRow[targetHeight](_ => ZERO_ROW);
    var n := |trace.steps|;
    for i := 0 to n
      invariant forall k :: 0 <= k < i ==> rows[k] == EncodeStep(trace.steps[k])
      invariant forall k :: i <= k < targetHeight ==> rows[k] == ZERO_ROW
      invariant i > 0 ==> !OriginCheckFails(trace)
    {
      var step := trace.steps[i];
      if trace.isFirstTraceAfterReset && i == 0 {
        if step.position.x != 0 || step.position.y != 0 || step.velocity.x != 0 || step.velocity.y != 0 {
          return OriginViolation;
        }
      }
      rows[i] := EncodeStep(step);
    }
    if n > 0 {
      var last := trace.steps[n - 1];
      for i := n to targetHeight
        invariant forall k :: 0 <= k < n ==> rows[k] == EncodeStep(trace.steps[k])
        invariant forall k :: n <= k < i ==> rows[k] == PaddingRow(last)
      {
        rows[i] := PaddingRow(last);
      }
    }
    assert rows[..] == seq(targetHeight, i => RowAt(trace, i));
    g := Matrix(rows[..]);
  }

  /** The row every line of the deliberately failing matrix holds. */
  const CHEAT_ROW: MovementRow := MovementRow(50000000, 50000000, 9999, 9999, 0, 0, 0, 0)

  /** `generate_cheat_detected_matrix`: every row has velocity 9999 with no input flag set. */
  method GenerateCheatDetectedMatrix(targetHeight: nat) returns (m: seq<MovementRow>)
    ensures |m| == targetHeight
    ensures forall i :: 0 <= i < |m| ==> m[i] == CHEAT_ROW && FlagsBoolean(m[i]) && !VelocityMatchesInputs(m[i])
    ensures targetHeight > 0 ==> !SatisfiesAir(m)
  {
    var rows := new MovementRow[targetHeight](_ => ZERO_ROW);
    for i := 0 to targetHeight
      invariant forall k :: 0 <= k < i ==> rows[k] == CHEAT_ROW
    {
      rows[i] := CHEAT_ROW;
    }
    m := rows[..];
    assert targetHeight > 0 ==> !RowSatisfies(m, 0);
  }

  // ---------------------------------------------------------------------------
  // Properties of the encoding and of the generated matrix
  // ---------------------------------------------------------------------------

  /** On its documented range the position encoding is the plain bias, and decoding inverts it. */
  lemma PositionEncodingInRange(x: int)
    requires PositionInRange(x)
    ensures EncodePosition(x) == x * POSITION_SCALE + POSITION_BIAS
    ensures DecodePosition(EncodePosition(x)) == x
  {
  }

  /** On its range the velocity encoding is the plain bias, and decoding inverts it. */
  lemma VelocityEncodingInRange(v: int)
    requires VelocityInRange(v)
    ensures EncodeVelocity(v) == v + VELOCITY_OFFSET
    ensures DecodeVelocity(EncodeVelocity(v)) == v
  {
  }

  /** The position encoding is injective on its documented range. */
  lemma PositionEncodingInjective(x: int, y: int)
    requires PositionInRange(x) && PositionInRange(y)
    ensures EncodePosition(x) == EncodePosition(y) <==> x == y
  {
    PositionEncodingInRange(x);
    PositionEncodingInRange(y);
  }

  /**
   * Outside that range the encoding wraps: positions 100 000 pixels apart
   * are indistinguishable. The bound on `x` keeps `x + 100000` within the
   * coordinates whose `f32` product with 1000.0 is exact (at most 134 217).
   */
  lemma PositionEncodingWraps(x: int)
    requires PositionInRange(x) && x <= 34217
    ensures EncodePosition(x + 100000) == EncodePosition(x)
  {
    var a := x * POSITION_SCALE + POSITION_BIAS;
    assert (x + 100000) * POSITION_SCALE + POSITION_BIAS == a + POSITION_RANGE;
    assert 0 <= a < POSITION_RANGE;
  }

  /** Generation fails structurally exactly when the origin check fails; otherwise it has `h` rows. */
  lemma TraceMatrixOutcome(t: MovementTrace, h: nat)
    ensures TraceMatrix(t, h).OriginViolation? <==> OriginCheckFails(t)
    ensures TraceMatrix(t, h).Matrix? ==> |TraceMatrix(t, h).rows| == h
  {
  }

  /**
   * The rows of a generated matrix: real rows encode the samples, padding rows
   * repeat the last position at rest with no input, and an empty window gives
   * all-zero rows.
   */
  lemma TraceMatrixRows(t: MovementTrace, h: nat, i: nat)
    requires !OriginCheckFails(t) && i < h
    ensures var row := TraceMatrix(t, h).rows[i];
            && (i < |t.steps| ==> row == EncodeStep(t.steps[i]))
            && (|t.steps| <= i && |t.steps| > 0 ==>
                  && row.positionX == EncodePosition(Last(t.steps).position.x)
                  && row.positionY == EncodePosition(Last(t.steps).position.y)
                  && row.velocityX == VELOCITY_OFFSET && row.velocityY == VELOCITY_OFFSET
                  && row.inputLeft == 0 && row.inputRight == 0 && row.inputUp == 0 && row.inputDown == 0)
            && (|t.steps| == 0 ==> row == ZERO_ROW)
  {
  }

  /** The matrix of an empty window violates the velocity constraint on every row. */
  lemma EmptyTraceMatrixFails(t: MovementTrace, h: nat)
    requires |t.steps| == 0 && h > 0
    ensures TraceMatrix(t, h).Matrix? && !SatisfiesAir(TraceMatrix(t, h).rows)
  {
    assert !RowSatisfies(TraceMatrix(t, h).rows, 0);
  }
}
