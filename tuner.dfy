/**
 * The tuner's published state and its update from a detected peak. The
 * windowing, FFT and peak search are not modelled: the peak bin is an input.
 */
module Tuner {
  import opened Common
  import opened Pitch
  import NoteNames

  class AudioProcessor {
    var currentFrequency: real
    var closestNote: string
    var centsOff: real
    var isInTune: bool

    /** The logarithm and power functions the classifier uses. */
    const log2: real -> real
    const pow2: real -> real

    /** Whether a frequency has been accepted since construction. */
    ghost var hasReading: bool

    ghost predicate Valid()
      reads this
    {
      && IsLog2(log2) && IsPow2(log2, pow2)
      && (hasReading ==>
            && Accepted(currentFrequency)
            && closestNote == Classify(log2, pow2, currentFrequency).noteName
            && centsOff == Classify(log2, pow2, currentFrequency).centsOff
            && isInTune == Classify(log2, pow2, currentFrequency).inTune)
    }

    /** The tuner before any signal: 440 Hz, "A4", 0 cents, not in tune. */
    constructor (log2: real -> real, pow2: real -> real)
      requires IsLog2(log2) && IsPow2(log2, pow2)
      ensures Valid() && !hasReading
      ensures currentFrequency == 440.0 && closestNote == "A4" && centsOff == 0.0 && !isInTune
    {
      this.log2, this.pow2 := log2, pow2;
      currentFrequency, closestNote, centsOff, isInTune := 440.0, "A4", 0.0, false;
      hasReading := false;
    }

    /**
     * Publish a new reading for `frequency`, or, outside (20, 4000) Hz, leave
     * all four published fields as they were.
     */
    method UpdateWithFrequency(frequency: real)
      requires Valid()
      modifies this`currentFrequency, this`closestNote, this`centsOff, this`isInTune, this`hasReading
      ensures Valid()
      ensures !Accepted(frequency) ==>
        && currentFrequency == old(currentFrequency) && closestNote == old(closestNote)
        && centsOff == old(centsOff) && isInTune == old(isInTune) && hasReading == old(hasReading)
      ensures Accepted(frequency) ==> hasReading && currentFrequency == frequency
      ensures hasReading ==>
        && (isInTune <==> Abs(centsOff) < InTuneCents)
        && -50.0 <= centsOff <= 50.0
        && exists n :: 15 <= n <= 107 && NoteNames.ParseNoteName(closestNote) == Some(n)
    {
      if !(frequency > LowestAccepted && frequency < HighestAccepted) {
        return;
      }
      currentFrequency := frequency;
      var reading := Classify(log2, pow2, frequency);
      centsOff := reading.centsOff;
      isInTune := Abs(centsOff) < InTuneCents;
      closestNote := reading.noteName;
      hasReading := true;
    }

    /**
     * The end of one microphone frame of `frames` samples whose spectrum peaks
     * at `peakBin`: convert the bin to a frequency and update the reading.
     */
    method ProcessPeak(peakBin: nat, frames: nat)
      requires Valid()
      requires frames > 0 && 2 * peakBin < frames
      modifies this`currentFrequency, this`closestNote, this`centsOff, this`isInTune, this`hasReading
      ensures Valid()
      ensures peakBin == 0 ==>
        && currentFrequency == old(currentFrequency) && closestNote == old(closestNote)
        && centsOff == old(centsOff) && isInTune == old(isInTune)
      ensures !Accepted(BinFrequency(peakBin, frames)) ==>
        && currentFrequency == old(currentFrequency) && closestNote == old(closestNote)
        && centsOff == old(centsOff) && isInTune == old(isInTune)
      ensures Accepted(BinFrequency(peakBin, frames)) ==> hasReading && currentFrequency == BinFrequency(peakBin, frames)
    {
      UpdateWithFrequency(BinFrequency(peakBin, frames));
    }
  }
}
