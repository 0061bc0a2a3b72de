/**
 * The tuner's pitch arithmetic: the peak FFT bin as a frequency, the
 * accepted frequency range, and the mapping of a frequency to the nearest
 * equal-tempered note (note number 69 is A4 at a fixed 440 Hz) with the
 * deviation in cents.
 *
 * `log2` and `pow(2, _)` are not defined here: they are parameters, and
 * `IsLog2`/`IsPow2` state the laws of the real functions that the
 * properties below depend on.
 */
module Pitch {
  import opened Common
  import NoteNames

  /** Sample rate the detector assumes, in Hz. */
  const SampleRate: real := 44100.0

  /** The fixed reference: A4 is 440 Hz, note number 69. */
  const ReferenceA4: real := 440.0
  const ReferenceNote: int := 69

  /** Frequencies outside (20, 4000) Hz are taken as "no signal". */
  const LowestAccepted: real := 20.0
  const HighestAccepted: real := 4000.0

  /** A deviation under 5 cents either way counts as in tune. */
  const InTuneCents: real := 5.0

  predicate Accepted(frequency: real)
  {
    LowestAccepted < frequency < HighestAccepted
  }

  /**
   * The frequency of spectrum bin `peakBin` in a frame of `frames` samples.
   * It is never negative; bin 0 is 0 Hz, which the range guard rejects, and
   * every bin of the half spectrum lies below half the sample rate.
   */
  function BinFrequency(peakBin: nat, frames: nat): (f: real)
    requires frames > 0
    ensures f >= 0.0
    ensures f == 0.0 <==> peakBin == 0
    ensures peakBin == 0 ==> !Accepted(f)
    ensures 2 * peakBin < frames ==> f < SampleRate / 2.0
  {
    peakBin as real * SampleRate / frames as real
  }

  /** Higher bins are higher frequencies. */
  lemma BinFrequencyIncreasing(lower: nat, higher: nat, frames: nat)
    requires frames > 0 && lower < higher
    ensures BinFrequency(lower, frames) < BinFrequency(higher, frames)
  {
    var d := frames as real;
    assert lower as real * SampleRate < higher as real * SampleRate;
    assert lower as real * SampleRate / d < higher as real * SampleRate / d;
  }

  /**
   * `x * y`, named so that the product law below is used only where a proof
   * mentions `log2(Times(x, y))` explicitly.
   */
  function Times(x: real, y: real): real
  {
    x * y
  }

  /** The laws of the base-2 logarithm that the classifier depends on. */
  ghost predicate IsLog2(log2: real -> real)
  {
    && log2(2.0) == 1.0
    && (forall x: real, y: real :: 0.0 < x && 0.0 < y ==> log2(Times(x, y)) == log2(x) + log2(y))
    && (forall x: real, y: real :: 0.0 < x < y ==> log2(x) < log2(y))
  }

  /** `pow2` is positive and inverse to `log2`. */
  ghost predicate IsPow2(log2: real -> real, pow2: real -> real)
  {
    forall e: real :: 0.0 < pow2(e) && log2(pow2(e)) == e
  }

  function Power(x: real, k: nat): real
  {
    if k == 0 then 1.0 else x * Power(x, k - 1)
  }

  lemma {:induction false} PowerPositive(x: real, k: nat)
    requires x > 0.0
    ensures Power(x, k) > 0.0
  {
    if k > 0 {
      PowerPositive(x, k - 1);
    }
  }

  lemma Log2One(log2: real -> real)
    requires IsLog2(log2)
    ensures log2(1.0) == 0.0
  {
    assert log2(Times(1.0, 1.0)) == log2(1.0) + log2(1.0);
  }

  lemma Log2Quotient(log2: real -> real, x: real, y: real)
    requires IsLog2(log2)
    requires 0.0 < x && 0.0 < y
    ensures log2(x / y) == log2(x) - log2(y)
  {
    assert (x / y) * y == x;
    assert log2(Times(x / y, y)) == log2(x / y) + log2(y);
  }

  lemma {:induction false} Log2Power(log2: real -> real, x: real, k: nat)
    requires IsLog2(log2)
    requires x > 0.0
    ensures log2(Power(x, k)) == k as real * log2(x)
  {
    if k == 0 {
      Log2One(log2);
    } else {
      var rest := Power(x, k - 1);
      PowerPositive(x, k - 1);
      Log2Power(log2, x, k - 1);
      assert log2(Times(x, rest)) == log2(x) + log2(rest);
      assert (k - 1) as real * log2(x) + log2(x) == k as real * log2(x);
    }
  }

  /** 12 log2(f / 440) + 69: the note number of `frequency` before rounding. */
  function ExactNoteNumber(log2: real -> real, frequency: real): real
  {
    12.0 * log2(frequency / ReferenceA4) + ReferenceNote as real
  }

  /** 440 * 2^((n - 69) / 12): the frequency of the equal-tempered note `n`. */
  function NoteFrequency(pow2: real -> real, note: int): real
  {
    ReferenceA4 * pow2((note - ReferenceNote) as real / 12.0)
  }

  /** 1200 log2(frequency / f0): the distance of `frequency` from the note `n`, in cents. */
  function CentsFrom(log2: real -> real, pow2: real -> real, frequency: real, note: int): real
    requires IsPow2(log2, pow2)
  {
    1200.0 * log2(frequency / NoteFrequency(pow2, note))
  }

  /** The deviation from note `n` in cents is 100 times the distance in note numbers. */
  lemma CentsAreNoteDistance(log2: real -> real, pow2: real -> real, frequency: real, note: int)
    requires IsLog2(log2) && IsPow2(log2, pow2)
    requires frequency > 0.0
    ensures CentsFrom(log2, pow2, frequency, note) == 100.0 * (ExactNoteNumber(log2, frequency) - note as real)
  {
    var e := (note - ReferenceNote) as real / 12.0;
    var p := pow2(e);
    assert frequency / (ReferenceA4 * p) == (frequency / ReferenceA4) / p;
    Log2Quotient(log2, frequency / ReferenceA4, p);
  }

  /** Every accepted frequency lies between notes 15 and 107 (D#0 and B7) once rounded. */
  lemma AcceptedNoteRange(log2: real -> real, frequency: real)
    requires IsLog2(log2)
    requires Accepted(frequency)
    ensures 15.0 < ExactNoteNumber(log2, frequency) < 107.5
    ensures 15 <= Round(ExactNoteNumber(log2, frequency)) <= 107
  {
    var ratio := frequency / ReferenceA4;
    // Lower end: 22^4 < 2^18 = 64^3, so log2(22) < 4.5 and log2(1/22) > -4.5.
    Log2Power(log2, 2.0, 6);
    assert Power(2.0, 6) == 64.0;
    Log2Power(log2, 64.0, 3);
    assert Power(64.0, 3) == 262144.0;
    Log2Power(log2, 22.0, 4);
    assert Power(22.0, 4) == 234256.0;
    assert log2(22.0) < 4.5;
    Log2Quotient(log2, 1.0, 22.0);
    Log2One(log2);
    assert 1.0 / 22.0 < ratio;
    assert log2(ratio) > -4.5;
    // Upper end: (100/11)^5 < 2^16 = 256^2, so log2(100/11) < 3.2.
    Log2Power(log2, 2.0, 8);
    assert Power(2.0, 8) == 256.0;
    Log2Power(log2, 256.0, 2);
    assert Power(256.0, 2) == 65536.0;
    Log2Power(log2, 100.0 / 11.0, 5);
    assert Power(100.0 / 11.0, 5) == 10000000000.0 / 161051.0;
    assert log2(100.0 / 11.0) < 3.2;
    assert ratio < 100.0 / 11.0;
    assert log2(ratio) < 3.2;
  }

  /** The tuner's reading of one accepted frequency. */
  datatype Reading = Reading(frequency: real, noteNumber: int, centsOff: real, inTune: bool, noteName: string)

  /**
   * The nearest equal-tempered note to `frequency`, its name, the deviation in
   * cents and whether that deviation is under 5 cents.
   */
  function Classify(log2: real -> real, pow2: real -> real, frequency: real): (r: Reading)
    requires IsLog2(log2) && IsPow2(log2, pow2)
    requires Accepted(frequency)
    ensures r.frequency == frequency
    ensures -0.5 <= ExactNoteNumber(log2, frequency) - r.noteNumber as real <= 0.5
    ensures 15 <= r.noteNumber <= 107
    ensures r.centsOff == 100.0 * (ExactNoteNumber(log2, frequency) - r.noteNumber as real)
    ensures -50.0 <= r.centsOff <= 50.0
    ensures r.inTune <==> Abs(r.centsOff) < InTuneCents
    ensures NoteNames.ParseNoteName(r.noteName) == Some(r.noteNumber)
  {
    var noteNumber := ExactNoteNumber(log2, frequency);
    var closest := Round(noteNumber);
    AcceptedNoteRange(log2, frequency);
    var cents := CentsFrom(log2, pow2, frequency, closest);
    CentsAreNoteDistance(log2, pow2, frequency, closest);
    NoteNames.NoteNameRoundTrip(closest);
    Reading(frequency, closest, cents, Abs(cents) < InTuneCents, NoteNames.NoteName(closest))
  }

  /** Concert A reads as "A4", exactly in tune. */
  lemma ConcertA(log2: real -> real, pow2: real -> real)
    requires IsLog2(log2) && IsPow2(log2, pow2)
    ensures Classify(log2, pow2, 440.0) == Reading(440.0, 69, 0.0, true, "A4")
  {
    Log2One(log2);
    assert ExactNoteNumber(log2, 440.0) == 69.0;
  }
}
