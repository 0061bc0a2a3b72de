/**
 * The tuning fork's signal path: a phase accumulator driving a triangle
 * wave, and the linear volume ramps applied when the tone starts and stops.
 * Samples and gains are `real`; single-precision rounding is not modelled.
 */
module Oscillator {

  /** Fixed gain applied to every sample so that the tone cannot clip. */
  const SampleGain: real := 0.25

  /** Number of steps in each volume ramp (20 steps, plus the starting value). */
  const FadeSteps: nat := 20

  /** Volume the fade-in ends at. */
  const ToneVolume: real := 0.3

  /** One sample step: add the increment, and take one off once the phase reaches 1. */
  function Advance(phase: real, increment: real): (p: real)
    ensures 0.0 <= phase < 1.0 && 0.0 <= increment < 1.0 ==> 0.0 <= p < 1.0
  {
    if phase + increment >= 1.0 then phase + increment - 1.0 else phase + increment
  }

  /** The phase after `n` samples, starting from `phase`. */
  function PhaseAfter(phase: real, increment: real, n: nat): real
  {
    if n == 0 then phase else Advance(PhaseAfter(phase, increment, n - 1), increment)
  }

  /** The triangle waveform `2|2p - 1| - 1` at phase `p`, scaled by the fixed gain. */
  function TriangleSample(phase: real): real
  {
    SampleGain * (2.0 * (if 2.0 * phase - 1.0 < 0.0 then 1.0 - 2.0 * phase else 2.0 * phase - 1.0) - 1.0)
  }

  /** A phase that starts in [0, 1) stays there as long as the increment is in [0, 1). */
  lemma {:induction false} PhaseStaysInRange(phase: real, increment: real, n: nat)
    requires 0.0 <= phase < 1.0
    requires 0.0 <= increment < 1.0
    ensures 0.0 <= PhaseAfter(phase, increment, n) < 1.0
  {
    if n > 0 {
      PhaseStaysInRange(phase, increment, n - 1);
    }
  }

  /** Every sample taken at a phase in [0, 1] lies within [-0.25, 0.25]. */
  lemma SampleIsBounded(phase: real)
    requires 0.0 <= phase <= 1.0
    ensures -SampleGain <= TriangleSample(phase) <= SampleGain
  {
  }

  /**
   * Every sample rendered from phase 0 with `0 <= frequency / sampleRate < 1`
   * lies within [-0.25, 0.25], however many samples have been rendered.
   */
  lemma RenderedSampleIsBounded(increment: real, n: nat)
    requires 0.0 <= increment < 1.0
    ensures -SampleGain <= TriangleSample(PhaseAfter(0.0, increment, n)) <= SampleGain
  {
    PhaseStaysInRange(0.0, increment, n);
    SampleIsBounded(PhaseAfter(0.0, increment, n));
  }

  /** The fade-in volumes, in the order they are applied: 0, 0.015, ..., 0.3. */
  method FadeInSchedule() returns (gains: seq<real>)
    ensures |gains| == FadeSteps + 1
    ensures gains[0] == 0.0 && gains[FadeSteps] == ToneVolume
    ensures forall i :: 0 <= i < FadeSteps ==> gains[i + 1] == gains[i] + ToneVolume / FadeSteps as real
    ensures forall i :: 0 <= i < |gains| ==> 0.0 <= gains[i] <= ToneVolume
  {
    var volumeStep := ToneVolume / FadeSteps as real;
    gains := [];
    for i := 0 to FadeSteps + 1
      invariant |gains| == i
      invariant forall k :: 0 <= k < i ==> gains[k] == k as real * volumeStep
    {
      gains := gains + [i as real * volumeStep];
    }
  }

  /** The fade-out volumes from `initialVolume` down to 0, in the order they are applied. */
  method FadeOutSchedule(initialVolume: real) returns (gains: seq<real>)
    ensures |gains| == FadeSteps + 1
    ensures gains[0] == initialVolume && gains[FadeSteps] == 0.0
    ensures forall i :: 0 <= i < FadeSteps ==> gains[i + 1] == gains[i] - initialVolume / FadeSteps as real
    ensures initialVolume >= 0.0 ==> forall i :: 0 <= i < |gains| ==> 0.0 <= gains[i] <= initialVolume
  {
    var volumeStep := initialVolume / FadeSteps as real;
    gains := [];
    for i := 0 to FadeSteps + 1
      invariant |gains| == i
      invariant forall k :: 0 <= k < i ==> gains[k] == initialVolume - k as real * volumeStep
    {
      gains := gains + [initialVolume - i as real * volumeStep];
    }
  }
}
