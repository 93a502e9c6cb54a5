/**
 * The debounce decision of the button-monitoring loops: an edge counts as a
 * press only when the wait that ended with it lasted strictly longer than
 * the configured number of milliseconds.  Elapsed waits are Go
 * `time.Duration`s, i.e. nanoseconds, compared with `thresholdMs * time.Millisecond`.
 */
module Debounce {

  const NanosPerMilli: int := 1_000_000

  /** Does a wait of `elapsedNs` nanoseconds confirm a press against a threshold of `thresholdMs` milliseconds? */
  predicate IsConfirmedPress(elapsedNs: nat, thresholdMs: int): (confirmed: bool)
    ensures thresholdMs < 0 ==> confirmed
    ensures elapsedNs == 0 ==> (confirmed <==> thresholdMs < 0)
    ensures 0 <= thresholdMs && elapsedNs <= thresholdMs * NanosPerMilli ==> !confirmed
  {
    elapsedNs > thresholdMs * NanosPerMilli
  }

  /** How many of the waits in `elapsed` confirm a press. */
  function ConfirmedCount(elapsed: seq<nat>, thresholdMs: int): (n: nat)
    ensures n <= |elapsed|
    ensures thresholdMs < 0 ==> n == |elapsed|
  {
    if elapsed == [] then 0
    else
      ConfirmedCount(elapsed[..|elapsed| - 1], thresholdMs)
      + (if IsConfirmedPress(elapsed[|elapsed| - 1], thresholdMs) then 1 else 0)
  }

  /** The positions of the confirming waits, an independent description of the same count. */
  function ConfirmedPositions(elapsed: seq<nat>, thresholdMs: int): set<nat> {
    set i: nat | i < |elapsed| && IsConfirmedPress(elapsed[i], thresholdMs)
  }

  /** A wait of exactly the threshold is discarded; one nanosecond more is a press. */
  lemma ThresholdIsExclusive(thresholdMs: nat)
    ensures !IsConfirmedPress(thresholdMs * NanosPerMilli, thresholdMs)
    ensures IsConfirmedPress(thresholdMs * NanosPerMilli + 1, thresholdMs)
  {
  }

  /** A longer wait never turns a press into noise. */
  lemma ConfirmationIsMonotone(e1: nat, e2: nat, thresholdMs: int)
    requires e1 <= e2 && IsConfirmedPress(e1, thresholdMs)
    ensures IsConfirmedPress(e2, thresholdMs)
  {
  }

  lemma {:induction false} ConfirmedCountIsPositionCount(elapsed: seq<nat>, thresholdMs: int)
    ensures ConfirmedCount(elapsed, thresholdMs) == |ConfirmedPositions(elapsed, thresholdMs)|
    decreases |elapsed|
  {
    if elapsed != [] {
      var n := |elapsed| - 1;
      var init := elapsed[..n];
      ConfirmedCountIsPositionCount(init, thresholdMs);
      var before := ConfirmedPositions(init, thresholdMs);
      var after := ConfirmedPositions(elapsed, thresholdMs);
      if IsConfirmedPress(elapsed[n], thresholdMs) {
        assert after == before + {n};
      } else {
        assert after == before;
      }
    }
  }

  lemma {:induction false} ConfirmedCountAppend(a: seq<nat>, b: seq<nat>, thresholdMs: int)
    ensures ConfirmedCount(a + b, thresholdMs) == ConfirmedCount(a, thresholdMs) + ConfirmedCount(b, thresholdMs)
    decreases |b|
  {
    if b == [] {
      assert a + b == a;
    } else {
      assert (a + b)[..|a + b| - 1] == a + b[..|b| - 1];
      ConfirmedCountAppend(a, b[..|b| - 1], thresholdMs);
    }
  }

  /** Raising the threshold can only discard more edges. */
  lemma {:induction false} ConfirmedCountAntitone(elapsed: seq<nat>, lower: int, higher: int)
    requires lower <= higher
    ensures ConfirmedCount(elapsed, higher) <= ConfirmedCount(elapsed, lower) <= |elapsed|
    decreases |elapsed|
  {
    if elapsed != [] {
      ConfirmedCountAntitone(elapsed[..|elapsed| - 1], lower, higher);
    }
  }

  /** With threshold 0 every edge after a non-zero wait is a press. */
  lemma {:induction false} ZeroThresholdConfirmsEveryWait(elapsed: seq<nat>)
    requires forall i :: 0 <= i < |elapsed| ==> elapsed[i] > 0
    ensures ConfirmedCount(elapsed, 0) == |elapsed|
    decreases |elapsed|
  {
    if elapsed != [] {
      ZeroThresholdConfirmsEveryWait(elapsed[..|elapsed| - 1]);
    }
  }
}
