/**
 * The out-of-memory retry loops of BitmapUtil all have one shape: attempt
 * at factor s; if the attempt runs out of memory, double s and, while s is
 * still within a ceiling, attempt again. decodeImage and
 * decodeSampledBitmapRegion use the ceiling 512, the public cropBitmap 16
 * and cropBitmapObjectHandleOOM 8. This module specifies that loop once.
 */
module RetryLadder {
  import opened SampleSize

  /**
   * How a retry loop ends: an attempt at `factor` did not run out of memory
   * (it succeeded or failed otherwise), or the factor was doubled to
   * `factor`, past the ceiling, after the last attempt ran out of memory.
   */
  datatype LadderEnd = Stopped(factor: int) | Exhausted(factor: int)

  /** The factors attempted, in order, and how the loop ended. */
  datatype LadderRun = LadderRun(tried: seq<int>, end: LadderEnd)

  function Last(s: seq<int>): int
    requires |s| > 0
  {
    s[|s| - 1]
  }

  /**
   * `do { attempt(s); if it did not run out of memory, stop; s *= 2; } while (s <= ceiling)`.
   * The attempts are s, 2s, 4s, ...; every attempt but the last ran out of
   * memory; the loop stops at the first that does not, and gives up when
   * doubling passes the ceiling. The first attempt happens whatever s is.
   */
  function Ladder(s: int, ceiling: int, outOfMemory: int -> bool): (r: LadderRun)
    requires s >= 1
    ensures |r.tried| >= 1 && r.tried[0] == s
    ensures forall i :: 0 <= i < |r.tried| - 1 ==> outOfMemory(r.tried[i])
    ensures forall i :: 1 <= i < |r.tried| ==> r.tried[i] <= ceiling
    ensures r.end.Stopped? <==> !outOfMemory(Last(r.tried))
    ensures r.end.Stopped? ==> r.end.factor == Last(r.tried)
    ensures r.end.Exhausted? ==> r.end.factor == 2 * Last(r.tried) && r.end.factor > ceiling
    decreases if s <= ceiling then ceiling - s + 1 else 0
  {
    if !outOfMemory(s) then LadderRun([s], Stopped(s))
    else if 2 * s <= ceiling then
      var rest := Ladder(2 * s, ceiling, outOfMemory);
      LadderRun([s] + rest.tried, rest.end)
    else LadderRun([s], Exhausted(2 * s))
  }

  /** The i-th attempt is at s times 2 to the i: no factor is skipped. */
  lemma {:induction false} LadderPowers(s: int, ceiling: int, outOfMemory: int -> bool, i: nat)
    requires s >= 1
    requires i < |Ladder(s, ceiling, outOfMemory).tried|
    ensures Ladder(s, ceiling, outOfMemory).tried[i] == s * Pow2(i)
    decreases i
  {
    if i > 0 {
      var rest := Ladder(2 * s, ceiling, outOfMemory).tried;
      assert Ladder(s, ceiling, outOfMemory).tried == [s] + rest;
      LadderPowers(2 * s, ceiling, outOfMemory, i - 1);
      DoubleShift(s, Pow2(i - 1));
    }
  }

  /** Each attempt is at double the factor of the one before. */
  lemma LadderDoubles(s: int, ceiling: int, outOfMemory: int -> bool)
    requires s >= 1
    ensures var t := Ladder(s, ceiling, outOfMemory).tried;
      forall i :: 0 <= i < |t| - 1 ==> t[i + 1] == 2 * t[i]
  {
    var t := Ladder(s, ceiling, outOfMemory).tried;
    forall i | 0 <= i < |t| - 1
      ensures t[i + 1] == 2 * t[i]
    {
      LadderPowers(s, ceiling, outOfMemory, i);
      LadderPowers(s, ceiling, outOfMemory, i + 1);
      DoubleShift(s, Pow2(i));
    }
  }

  /** Every attempted factor is at most the larger of the start and the ceiling. */
  lemma LadderBounded(s: int, ceiling: int, outOfMemory: int -> bool)
    requires s >= 1
    ensures forall i :: 0 <= i < |Ladder(s, ceiling, outOfMemory).tried| ==>
      s <= Ladder(s, ceiling, outOfMemory).tried[i] <= Max(s, ceiling)
  {
    var t := Ladder(s, ceiling, outOfMemory).tried;
    forall i | 0 <= i < |t| ensures s <= t[i] {
      LadderPowers(s, ceiling, outOfMemory, i);
      assert Pow2(i) >= 1;
      MulAtLeast(s, Pow2(i));
    }
  }

  /** Arithmetic hint for LadderPowers and LadderDoubles: moving a factor 2 between the operands of a product. */
  lemma DoubleShift(s: int, p: int)
    ensures s * (2 * p) == (2 * s) * p == 2 * (s * p)
  {
  }

  /** Sequence hint for the loops tied to Ladder (DecodeLadder, RegionLadder, CropRung, ClimbedLadder, CropCallsSnoc): appending regroups. */
  lemma AppendAssoc<T>(a: seq<T>, b: seq<T>, c: seq<T>)
    ensures a + (b + c) == (a + b) + c
  {
  }

  /** One step of the loop: the ladder from s is the attempt at s followed by the ladder from 2s. */
  lemma LadderStep(s: int, ceiling: int, outOfMemory: int -> bool)
    requires s >= 1 && outOfMemory(s) && 2 * s <= ceiling
    ensures Ladder(s, ceiling, outOfMemory).tried == [s] + Ladder(2 * s, ceiling, outOfMemory).tried
    ensures Ladder(s, ceiling, outOfMemory).end == Ladder(2 * s, ceiling, outOfMemory).end
  {
  }

  /**
   * A loop that started at `start` has reached s after the attempts `done`:
   * each ran out of memory, was within the ceiling when attempted after the
   * first, and was doubled to the next.
   */
  ghost predicate Climbed(start: int, s: int, ceiling: int, outOfMemory: int -> bool, done: seq<int>)
    decreases |done|
  {
    if done == [] then s == start
    else
      var p := Last(done);
      p >= 1 && 2 * p == s && s <= ceiling && outOfMemory(p) &&
      Climbed(start, p, ceiling, outOfMemory, done[..|done| - 1])
  }

  /** An attempt at s that runs out of memory, with 2s within the ceiling, climbs one rung. */
  lemma ClimbedStep(start: int, s: int, ceiling: int, outOfMemory: int -> bool, done: seq<int>)
    requires s >= 1 && Climbed(start, s, ceiling, outOfMemory, done)
    requires outOfMemory(s) && 2 * s <= ceiling
    ensures Climbed(start, 2 * s, ceiling, outOfMemory, done + [s])
  {
    assert (done + [s])[..|done|] == done;
  }

  /** Having climbed from start to s, the ladder from start is the rungs climbed followed by the ladder from s. */
  lemma {:induction false} ClimbedLadder(start: int, s: int, ceiling: int, outOfMemory: int -> bool, done: seq<int>)
    requires start >= 1 && Climbed(start, s, ceiling, outOfMemory, done)
    ensures s >= 1
    ensures Ladder(start, ceiling, outOfMemory).tried == done + Ladder(s, ceiling, outOfMemory).tried
    ensures Ladder(start, ceiling, outOfMemory).end == Ladder(s, ceiling, outOfMemory).end
    decreases |done|
  {
    if done == [] {
      assert done + Ladder(s, ceiling, outOfMemory).tried == Ladder(s, ceiling, outOfMemory).tried;
    } else {
      var p := Last(done);
      var earlier := done[..|done| - 1];
      ClimbedLadder(start, p, ceiling, outOfMemory, earlier);
      LadderStep(p, ceiling, outOfMemory);
      AppendAssoc(earlier, [p], Ladder(s, ceiling, outOfMemory).tried);
      assert earlier + [p] == done;
    }
  }

  /** Starting from a power of two, every attempt and the final factor are powers of two. */
  lemma {:induction false} LadderPow2(s: int, ceiling: int, outOfMemory: int -> bool)
    requires IsPow2(s)
    ensures forall i :: 0 <= i < |Ladder(s, ceiling, outOfMemory).tried| ==> IsPow2(Ladder(s, ceiling, outOfMemory).tried[i])
    ensures IsPow2(Ladder(s, ceiling, outOfMemory).end.factor)
    decreases if s <= ceiling then ceiling - s + 1 else 0
  {
    assert IsPow2(2 * s) by {
      assert (2 * s) % 2 == 0 && (2 * s) / 2 == s;
    }
    if outOfMemory(s) && 2 * s <= ceiling {
      LadderPow2(2 * s, ceiling, outOfMemory);
      var rest := Ladder(2 * s, ceiling, outOfMemory).tried;
      assert forall i :: 1 <= i < |rest| + 1 ==> ([s] + rest)[i] == rest[i - 1];
    }
  }

  /** Arithmetic hint for LadderBounded, RegionStart, CropFromFullDecode and DecodeSampledBitmapRegion: a product with a positive factor is at least the other factor. */
  lemma MulAtLeast(s: int, p: int)
    requires s >= 1 && p >= 1
    ensures s <= s * p
  {
  }

  /**
   * The ladder of the public cropBitmap (start 1, ceiling 16) gives up exactly
   * when the attempts at 1, 2, 4, 8 and 16 all run out of memory, and then it
   * has made those five attempts and ends at 32.
   */
  lemma CropLadderExhausted(outOfMemory: int -> bool)
    ensures Ladder(1, 16, outOfMemory).end.Exhausted? <==>
      outOfMemory(1) && outOfMemory(2) && outOfMemory(4) && outOfMemory(8) && outOfMemory(16)
    ensures Ladder(1, 16, outOfMemory).end.Exhausted? ==>
      Ladder(1, 16, outOfMemory) == LadderRun([1, 2, 4, 8, 16], Exhausted(32))
  {
    var f := outOfMemory;
    assert Ladder(16, 16, f) == LadderRun([16], if f(16) then Exhausted(32) else Stopped(16));
    assert Ladder(8, 16, f).end == if f(8) then Ladder(16, 16, f).end else Stopped(8);
    assert Ladder(4, 16, f).end == if f(4) then Ladder(8, 16, f).end else Stopped(4);
    assert Ladder(2, 16, f).end == if f(2) then Ladder(4, 16, f).end else Stopped(2);
    assert Ladder(1, 16, f).end == if f(1) then Ladder(2, 16, f).end else Stopped(1);
  }

  /**
   * The ladder of cropBitmapObjectHandleOOM (start 1, ceiling 8) gives up
   * exactly when the attempts at 1, 2, 4 and 8 all run out of memory, after
   * those four attempts.
   */
  lemma ScaleLadderExhausted(outOfMemory: int -> bool)
    ensures Ladder(1, 8, outOfMemory).end.Exhausted? <==>
      outOfMemory(1) && outOfMemory(2) && outOfMemory(4) && outOfMemory(8)
    ensures Ladder(1, 8, outOfMemory).end.Exhausted? ==>
      Ladder(1, 8, outOfMemory) == LadderRun([1, 2, 4, 8], Exhausted(16))
  {
    var f := outOfMemory;
    assert Ladder(8, 8, f) == LadderRun([8], if f(8) then Exhausted(16) else Stopped(8));
    assert Ladder(4, 8, f).end == if f(4) then Ladder(8, 8, f).end else Stopped(4);
    assert Ladder(2, 8, f).end == if f(2) then Ladder(4, 8, f).end else Stopped(2);
    assert Ladder(1, 8, f).end == if f(1) then Ladder(2, 8, f).end else Stopped(1);
  }

  /** Starting from 1 under the ceiling 512 the decode ladders make at most ten attempts. */
  lemma DecodeLadderAttempts(outOfMemory: int -> bool)
    ensures |Ladder(1, 512, outOfMemory).tried| <= 10
  {
    var n := |Ladder(1, 512, outOfMemory).tried|;
    if n >= 2 {
      LadderPowers(1, 512, outOfMemory, n - 1);
      Pow2AtLeast1024(n - 1);
    }
  }

  lemma {:induction false} Pow2AtLeast1024(k: nat)
    ensures k >= 10 ==> Pow2(k) >= 1024
  {
    if k > 10 {
      Pow2AtLeast1024(k - 1);
    } else if k == 10 {
      assert Pow2(10) == 1024;
    }
  }

  // ---------------------------------------------------------------------
  // The loop as written, step by step, for any starting factor

  /** The loop after a number of steps: still about to attempt at `factor`, or finished. */
  datatype LoopState = Running(factor: int) | Finished(end: LadderEnd)

  /**
   * The same loop taken literally, `steps` attempts at a time, without
   * assuming the start is positive.
   */
  function RunSteps(s: int, ceiling: int, outOfMemory: int -> bool, steps: nat): LoopState
    decreases steps
  {
    if steps == 0 then Running(s)
    else if !outOfMemory(s) then Finished(Stopped(s))
    else if 2 * s <= ceiling then RunSteps(2 * s, ceiling, outOfMemory, steps - 1)
    else Finished(Exhausted(2 * s))
  }

  /** From a positive start the literal loop finishes after the attempts `Ladder` lists, as `Ladder` says. */
  lemma {:induction false} RunStepsAgrees(s: int, ceiling: int, outOfMemory: int -> bool)
    requires s >= 1
    ensures RunSteps(s, ceiling, outOfMemory, |Ladder(s, ceiling, outOfMemory).tried|)
         == Finished(Ladder(s, ceiling, outOfMemory).end)
    decreases if s <= ceiling then ceiling - s + 1 else 0
  {
    if outOfMemory(s) && 2 * s <= ceiling {
      RunStepsAgrees(2 * s, ceiling, outOfMemory);
    }
  }

  /**
   * From a start of 0, doubling never grows the factor: if the attempt at 0
   * runs out of memory the loop is still running after any number of steps.
   */
  lemma {:induction false} ZeroStartNeverFinishes(ceiling: int, outOfMemory: int -> bool, steps: nat)
    requires ceiling >= 0 && outOfMemory(0)
    ensures RunSteps(0, ceiling, outOfMemory, steps) == Running(0)
    decreases steps
  {
    if steps > 0 {
      ZeroStartNeverFinishes(ceiling, outOfMemory, steps - 1);
    }
  }
}
