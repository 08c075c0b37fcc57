/**
 * Model of src/movement_trace.rs: per-tick movement samples, the time-bounded
 * windows ("traces") they are grouped into, and the collector that seals
 * windows, seeds the next window with the sealing sample and keeps a bounded
 * FIFO of sealed windows.
 *
 * Timestamps are whole milliseconds; positions and velocities are integers
 * (the game keeps them as `i32` and converts to `f32` only to record them).
 */
module Traces {
  import opened Options

  /** A pair of integer coordinates. */
  datatype Vec2 = Vec2(x: int, y: int)

  const ORIGIN: Vec2 := Vec2(0, 0)

  /** The four movement inputs recorded with a sample. */
  datatype InputFlags = InputFlags(left: bool, right: bool, up: bool, down: bool)

  const NO_INPUT: InputFlags := InputFlags(false, false, false, false)

  /** One recorded tick: where the player is, how fast it moves, what was held, and when. */
  datatype MovementStep = MovementStep(position: Vec2, velocity: Vec2, inputs: InputFlags, timestamp: int)

  /** A window of consecutive samples, proved as one unit. */
  datatype MovementTrace = MovementTrace(
    steps: seq<MovementStep>,
    startTime: int,
    duration: int,
    isFirstTraceAfterReset: bool)

  function Last<T>(s: seq<T>): T
    requires |s| > 0
  {
    s[|s| - 1]
  }

  /** An empty window starting at `startTime` (`MovementTrace::new` and `new_first_after_reset`). */
  function EmptyTrace(startTime: int, firstAfterReset: bool): MovementTrace
  {
    MovementTrace([], startTime, 0, firstAfterReset)
  }

  /** `add_step`: the sample goes at the end and the duration is measured from the window's start. */
  function AddStep(t: MovementTrace, step: MovementStep): (r: MovementTrace)
    ensures |r.steps| == |t.steps| + 1
    ensures r.steps[..|t.steps|] == t.steps && Last(r.steps) == step
    ensures r.duration == step.timestamp - t.startTime
    ensures r.startTime == t.startTime && r.isFirstTraceAfterReset == t.isFirstTraceAfterReset
  {
    t.(steps := t.steps + [step], duration := step.timestamp - t.startTime)
  }

  /** `is_complete`: a window is sealed once its duration reaches the target. */
  predicate IsComplete(t: MovementTrace, targetDuration: int)
  {
    t.duration >= targetDuration
  }

  /** The queue after dropping the oldest windows until at most `max` remain. */
  function KeepNewest(q: seq<MovementTrace>, max: nat): (r: seq<MovementTrace>)
    ensures |r| <= max && |r| <= |q|
    ensures |q| <= max ==> r == q
    ensures |q| > max ==> |r| == max
    ensures r == q[|q| - |r|..]
  {
    if |q| <= max then q else q[|q| - max..]
  }

  /** The window a new sample is appended to: the current one, or a fresh one. */
  function OpenTrace(current: Option<MovementTrace>, firstAfterReset: bool, timestamp: int): MovementTrace
  {
    if current.Some? then current.value else EmptyTrace(timestamp, firstAfterReset)
  }

  /**
   * Boundary continuity of a sequence of windows: none is empty, and each
   * window starts with the very sample that ended the one before it.
   */
  ghost predicate Chained(ws: seq<MovementTrace>)
  {
    && (forall k :: 0 <= k < |ws| ==> |ws[k].steps| > 0)
    && (forall k :: 0 <= k < |ws| - 1 ==> Joins(ws[k], ws[k + 1]))
  }

  /** `b` starts with the sample that ends `a`. */
  ghost predicate Joins(a: MovementTrace, b: MovementTrace)
  {
    |a.steps| > 0 && |b.steps| > 0 && b.steps[0] == Last(a.steps)
  }

  /** The windows held by a collector, oldest first, the open one last. */
  function Windows(queue: seq<MovementTrace>, current: Option<MovementTrace>): seq<MovementTrace>
  {
    queue + if current.Some? then [current.value] else []
  }

  /** The collector's changing fields: the sealed queue, the open window and the one-shot flag. */
  datatype Recording = Recording(queue: seq<MovementTrace>, current: Option<MovementTrace>, firstAfterReset: bool)

  /**
   * The fields after `add_movement` records `step`: the sample grows the open
   * window (a new one carrying the pending flag when none is open); a window
   * that is then complete is queued, the queue is cut to its newest `max`,
   * and a new window starts with the same sample and the flag still pending.
   */
  function Recorded(before: Recording, step: MovementStep, duration: int, max: nat): Recording
  {
    var grown := AddStep(OpenTrace(before.current, before.firstAfterReset, step.timestamp), step);
    var flagLeft := before.current.Some? && before.firstAfterReset;
    if IsComplete(grown, duration) then
      Recording(KeepNewest(before.queue + [grown], max), Some(MovementTrace([step], step.timestamp, 0, flagLeft)), false)
    else
      Recording(before.queue, Some(grown), flagLeft)
  }

  /**
   * The state a collector is in whenever samples reach it only through
   * `add_movement`: the queue respects its bound, an open window exists once
   * anything was queued, every queued window is sealed, and consecutive
   * windows share their boundary sample.
   */
  ghost predicate Coherent(queue: seq<MovementTrace>, current: Option<MovementTrace>, duration: int, max: nat)
  {
    && |queue| <= max
    && (current.None? ==> queue == [])
    && (forall k :: 0 <= k < |queue| ==> IsComplete(queue[k], duration))
    && Chained(Windows(queue, current))
  }

  class MovementTraceCollector {
    var currentTrace: Option<MovementTrace>
    var completedTraces: seq<MovementTrace>
    const traceDuration: int
    const maxCompletedTraces: nat
    var nextTraceIsFirstAfterReset: bool

    /** The queue of sealed windows respects its bound. */
    ghost predicate Valid()
      reads this
    {
      |completedTraces| <= maxCompletedTraces
    }

    /** The collector's fields are `Coherent` (see below). */
    ghost predicate WellFormed()
      reads this
    {
      Coherent(completedTraces, currentTrace, traceDuration, maxCompletedTraces)
    }

    /** The fields `add_movement` changes, as one value. */
    ghost function Snapshot(): Recording
      reads this
    {
      Recording(completedTraces, currentTrace, nextTraceIsFirstAfterReset)
    }

    /** `MovementTraceCollector::new`. */
    constructor (traceDuration: int, maxCompletedTraces: nat)
      ensures Valid() && WellFormed()
      ensures this.traceDuration == traceDuration && this.maxCompletedTraces == maxCompletedTraces
      ensures currentTrace == None && completedTraces == [] && nextTraceIsFirstAfterReset
    {
      this.traceDuration := traceDuration;
      this.maxCompletedTraces := maxCompletedTraces;
      currentTrace := None;
      completedTraces := [];
      nextTraceIsFirstAfterReset := true;
    }

    /** `start_new_trace`: the new window inherits the one-shot flag, which is then cleared. */
    method StartNewTrace(timestamp: int)
      modifies this`currentTrace, this`nextTraceIsFirstAfterReset
      ensures currentTrace == Some(EmptyTrace(timestamp, old(nextTraceIsFirstAfterReset)))
      ensures !nextTraceIsFirstAfterReset
    {
      if nextTraceIsFirstAfterReset {
        currentTrace := Some(EmptyTrace(timestamp, true));
        nextTraceIsFirstAfterReset := false;
      } else {
        currentTrace := Some(EmptyTrace(timestamp, false));
      }
    }

    /** `mark_next_trace_as_first_after_reset`: sets the flag and nothing else. */
    method MarkNextTraceAsFirstAfterReset()
      modifies this`nextTraceIsFirstAfterReset
      ensures nextTraceIsFirstAfterReset
    {
      nextTraceIsFirstAfterReset := true;
    }

    /** `complete_current_trace`: queue the open window, then drop the oldest down to the bound. */
    method CompleteCurrentTrace()
      requires Valid()
      modifies this`currentTrace, this`completedTraces
      ensures Valid() && currentTrace == None
      ensures old(currentTrace).None? ==> completedTraces == old(completedTraces)
      ensures old(currentTrace).Some? ==>
        completedTraces == KeepNewest(old(completedTraces) + [old(currentTrace).value], maxCompletedTraces)
    {
      if currentTrace.Some? {
        var trace := currentTrace.value;
        currentTrace := None;
        completedTraces := completedTraces + [trace];
        ghost var queued := completedTraces;
        while |completedTraces| > maxCompletedTraces
          invariant currentTrace == None
          invariant |completedTraces| <= |queued|
          invariant completedTraces == queued[|queued| - |completedTraces|..]
          invariant |queued| <= maxCompletedTraces ==> completedTraces == queued
          invariant |queued| > maxCompletedTraces ==> |completedTraces| >= maxCompletedTraces
          decreases |completedTraces|
        {
          completedTraces := completedTraces[1..];
        }
      }
    }

    /** `add_movement`: record one sample; seal the window when it is complete and seed the next. */
    method AddMovement(position: Vec2, velocity: Vec2, inputs: InputFlags, timestamp: int)
      requires Valid()
      modifies this`currentTrace, this`completedTraces, this`nextTraceIsFirstAfterReset
      ensures Valid()
      ensures var step := MovementStep(position, velocity, inputs, timestamp);
              currentTrace.Some? && |currentTrace.value.steps| > 0 && Last(currentTrace.value.steps) == step
      ensures Snapshot() == Recorded(old(Snapshot()), MovementStep(position, velocity, inputs, timestamp),
                                     traceDuration, maxCompletedTraces)
      ensures old(WellFormed()) ==> WellFormed()
    {
      ghost var wasWellFormed := WellFormed();
      ghost var queue0, current0, flag0 := completedTraces, currentTrace, nextTraceIsFirstAfterReset;
      ghost var grown := AddStep(OpenTrace(current0, flag0, timestamp), MovementStep(position, velocity, inputs, timestamp));
      ghost var after := Recorded(Snapshot(), MovementStep(position, velocity, inputs, timestamp),
                                  traceDuration, maxCompletedTraces);
      if currentTrace.None? {
        StartNewTrace(timestamp);
      }
      assert currentTrace == Some(OpenTrace(current0, flag0, timestamp));
      assert nextTraceIsFirstAfterReset == (current0.Some? && flag0);
      var step := MovementStep(position, velocity, inputs, timestamp);
      var trace := AddStep(currentTrace.value, step);
      assert trace == grown;
      currentTrace := Some(trace);
      if IsComplete(trace, traceDuration) {
        assert after.queue == KeepNewest(queue0 + [grown], maxCompletedTraces);
        CompleteCurrentTrace();
        StartNewTrace(timestamp);
        currentTrace := Some(AddStep(currentTrace.value, step));
        assert currentTrace == after.current;
      } else {
        assert after == Recording(queue0, Some(grown), current0.Some? && flag0);
      }
      if wasWellFormed {
        AddKeepsCoherent(queue0, current0, flag0, step, traceDuration, maxCompletedTraces);
      }
    }

    /** `get_next_trace_for_proving`: FIFO removal of the oldest sealed window. */
    method GetNextTraceForProving() returns (t: Option<MovementTrace>)
      requires Valid()
      modifies this`completedTraces
      ensures Valid()
      ensures old(completedTraces) == [] ==> t == None && completedTraces == []
      ensures old(completedTraces) != [] ==>
        t == Some(old(completedTraces)[0]) && completedTraces == old(completedTraces)[1..]
      ensures old(WellFormed()) ==> WellFormed()
    {
      if completedTraces == [] {
        t := None;
      } else {
        t := Some(completedTraces[0]);
        ghost var queue0 := completedTraces;
        completedTraces := completedTraces[1..];
        if old(WellFormed()) {
          ChainedSuffix(Windows(queue0, currentTrace), 1);
          assert Windows(queue0, currentTrace)[1..] == Windows(completedTraces, currentTrace);
        }
      }
    }
  }

  /** One `add_movement` keeps a coherent collector coherent, whether or not it seals the window. */
  lemma AddKeepsCoherent(queue: seq<MovementTrace>, current: Option<MovementTrace>, flag: bool,
                         step: MovementStep, duration: int, max: nat)
    requires Coherent(queue, current, duration, max)
    ensures var after := Recorded(Recording(queue, current, flag), step, duration, max);
            Coherent(after.queue, after.current, duration, max)
  {
    var grown := AddStep(OpenTrace(current, flag, step.timestamp), step);
    GrowKeepsCoherent(queue, current, grown, duration, max);
    if IsComplete(grown, duration) {
      SealKeepsCoherent(queue, grown, MovementTrace([step], step.timestamp, 0, current.Some? && flag), duration, max);
    }
  }

  /** Appending a sample to the open window (or opening one) keeps the collector coherent. */
  lemma GrowKeepsCoherent(queue: seq<MovementTrace>, current: Option<MovementTrace>, grown: MovementTrace,
                          duration: int, max: nat)
    requires Coherent(queue, current, duration, max)
    requires current.Some? ==> |grown.steps| > |current.value.steps| && grown.steps[..|current.value.steps|] == current.value.steps
    requires |grown.steps| > 0
    ensures Coherent(queue, Some(grown), duration, max)
  {
    if current.Some? {
      ChainedReplaceLast(queue, current.value, grown);
    } else {
      assert queue + [grown] == [grown];
    }
    assert Windows(queue, Some(grown)) == queue + [grown];
  }

  /** Sealing a complete open window and seeding the next with its last sample keeps the collector coherent. */
  lemma SealKeepsCoherent(queue: seq<MovementTrace>, sealed: MovementTrace, seed: MovementTrace, duration: int, max: nat)
    requires Coherent(queue, Some(sealed), duration, max) && IsComplete(sealed, duration)
    requires |sealed.steps| > 0 && seed.steps == [Last(sealed.steps)]
    ensures Coherent(KeepNewest(queue + [sealed], max), Some(seed), duration, max)
  {
    var all := queue + [sealed];
    var kept := KeepNewest(all, max);
    var n := |all| - |kept|;
    assert kept == all[n..];
    assert Chained(all) by { assert Windows(queue, Some(sealed)) == all; }
    ChainedSuffix(all, n);
    forall k | 0 <= k < |all| ensures IsComplete(all[k], duration) {
      if k < |queue| { assert all[k] == queue[k]; }
    }
    CompleteSuffix(all, n, duration);
    assert |kept| > 0 ==> Last(kept) == sealed;
    ChainedSnoc(kept, seed);
    assert Windows(kept, Some(seed)) == kept + [seed];
  }

  /** Dropping windows from the front keeps them all sealed. */
  lemma CompleteSuffix(ws: seq<MovementTrace>, n: nat, duration: int)
    requires n <= |ws|
    requires forall k :: 0 <= k < |ws| ==> IsComplete(ws[k], duration)
    ensures forall k :: 0 <= k < |ws[n..]| ==> IsComplete(ws[n..][k], duration)
  {
    forall k | 0 <= k < |ws[n..]| ensures IsComplete(ws[n..][k], duration) {
      assert ws[n..][k] == ws[n + k];
    }
  }

  /** Dropping windows from the front keeps the rest chained. */
  lemma ChainedSuffix(ws: seq<MovementTrace>, n: nat)
    requires Chained(ws) && n <= |ws|
    ensures Chained(ws[n..])
  {
    forall k | 0 <= k < |ws[n..]| - 1 ensures Joins(ws[n..][k], ws[n..][k + 1]) {
      assert ws[n..][k] == ws[n + k] && ws[n..][k + 1] == ws[n + k + 1];
    }
  }

  /** Replacing the open window by a longer one with the same first sample keeps the chain. */
  lemma ChainedReplaceLast(q: seq<MovementTrace>, c: MovementTrace, g: MovementTrace)
    requires Chained(q + [c])
    requires |g.steps| > |c.steps| && g.steps[..|c.steps|] == c.steps
    ensures Chained(q + [g])
  {
    var before, after := q + [c], q + [g];
    assert |c.steps| > 0 by { assert before[|q|] == c; }
    assert g.steps[0] == c.steps[0] by { assert g.steps[..|c.steps|][0] == g.steps[0]; }
    forall k | 0 <= k < |after| - 1 ensures Joins(after[k], after[k + 1]) {
      assert after[k] == before[k];
      if k + 1 < |q| { assert after[k + 1] == before[k + 1]; } else { assert before[k + 1] == c; }
    }
    forall k | 0 <= k < |after| ensures |after[k].steps| > 0 {
      if k < |q| { assert after[k] == before[k]; }
    }
  }

  /** Appending a window that starts with the last sample of the chain extends the chain. */
  lemma ChainedSnoc(ws: seq<MovementTrace>, w: MovementTrace)
    requires Chained(ws) && |w.steps| > 0
    requires |ws| > 0 ==> w.steps[0] == Last(Last(ws).steps)
    ensures Chained(ws + [w])
  {
    var after := ws + [w];
    forall k | 0 <= k < |after| - 1 ensures Joins(after[k], after[k + 1]) {
      assert after[k] == ws[k];
      if k + 1 < |ws| { assert after[k + 1] == ws[k + 1]; }
    }
    forall k | 0 <= k < |after| ensures |after[k].steps| > 0 {
      if k < |ws| { assert after[k] == ws[k]; }
    }
  }
}
