# Beet metronome and tuner: a Dafny model

Beet is an iOS metronome and tuner. This project models the three parts
of it that hold logic:

- **The metronome scheduler and tuning-fork tone** (`AudioEngine`). A display-refresh
  probe calls back often. Each callback compares the media clock with an
  absolute deadline `nextClickTime`. Once the deadline has passed, it plays one click
  and moves the deadline on by exactly one beat (60 / bpm seconds).
  The first beat of each bar plays the accent ("hi") sample; the other beats play the normal ("lo") sample.
  A tempo change made while playing is debounced. It silences the probe and
  schedules a cancellable resume, and a later change replaces that resume. A
  time-signature change stops and restarts at once. The tuning fork is a
  triangle-wave phase accumulator, faded in and out by linear volume ramps.
- **The tuner's post-processing** (`AudioProcessor`). The peak bin of the
  spectrum becomes a frequency. Frequencies outside (20, 4000) Hz are ignored.
  Any other frequency is mapped to the nearest equal-tempered note (note
  number 69 is A4 at 440 Hz). The tuner publishes that note's name, the deviation in cents and
  whether the deviation is under 5 cents.
- **Tap tempo** (`TapTempoButton`). The button keeps the last tap time and up to four of the most
  recent intervals between taps. A pause over two seconds starts a new sequence. From two
  intervals on, the tempo becomes 60 over their mean, rounded, but only if that
  lies in [40, 240]. The new tempo is then passed to the metronome while it plays.

Modules, one per component: `Engine` (class `AudioEngine`),
`Oscillator` (the phase accumulator and the fade schedules), `Pitch` (bin to
frequency, the note mapping), `NoteNames` (the integer note-name table),
`Tuner` (class `AudioProcessor`), `TapTempo` (class `TapTempoButton`),
`Settings` (the `Subdivision` enum) and `Common` (`Option`, Swift's `round`
and `abs`).

How the host is represented:

- Time is an explicit `now: real` argument wherever the code reads
  `CACurrentMediaTime()` or `Date()`.
- The display link is the boolean `probeActive`. Its callback `HandleTick`
  can be called only while the probe is registered.
- The pending `DispatchWorkItem` is the field `resumeWorkItem`. The dispatch
  queue running it is `FireResume(now)`. A resume installed by
  `updateBPMWithPause` carries its own arguments (`ResumeWith`). The one
  installed by `pauseTemporarily` reads the engine's tempo and bar length
  only when it runs, in quarter notes (`ResumeCurrent`). After a work item has
  run it cannot run again, so the model clears the field.
- Whether each click sample loaded is fixed at construction. Every click
  handed to the player is appended to the ghost log `clicks`.
- `log2` and `pow(2, _)` are function parameters. The predicates `IsLog2` and
  `IsPow2` state the laws the proofs use: `log2(2) = 1`, the product rule,
  strict monotonicity, and that `log2` undoes `pow2`.
- Swift's truncating `/` and `%` on `Int` are written out (`TruncDiv`,
  `TruncRem`). They agree with Dafny's operators for non-negative note numbers, and every
  accepted frequency gives one.
- Every tempo passed to the engine lies in [40, 240]. The views clamp the ±1 steps
  to that range, and tap tempo checks it. Every bar length is at least 1 (the
  picker offers 1 to 16). Both are preconditions of the engine's methods.
- Tap times strictly increase, so every kept interval is positive.

## Behaviour of the code worth knowing

- `playMetronomeClick` computes `interval`, a beat scaled by the subdivision
  (Beet/Services/AudioEngine.swift:66-76), and never reads it. Every deadline
  moves by 60 / bpm whatever the subdivision.
- `playMetronomeClick` first sets `nextClickTime` to the current time (line 79)
  and then plays the first click (line 82). The deadline has therefore
  already passed when the probe first calls back, so a second click follows at
  once (`FirstTickRepeatsStartClick`).
- `playMetronomeClick` neither resets the beat nor cancels a pending resume
  (lines 54-90).
- `updateBPMWithPause` never clears `isPlaying` (lines 258-284). The flag stays
  true while the probe is down and the resume is pending.
- The settings store a reference pitch, `referenceFrequency`
  (Beet/Models/Settings.swift:8). `updateWithFrequency` never reads it and
  uses 440 Hz throughout (Beet/Services/AudioProcessor.swift:111-113).

## Model

| member | source | states |
|---|---|---|
| `Common.Round` | Beet/Services/AudioProcessor.swift:112 | Swift `round`: the result is within one half of the argument, halfway cases away from zero |
| `Common.RoundIsNearest` | Beet/Views/TapTempoButton.swift:51 | no integer is nearer to the argument than its rounding |
| `Engine.BeatPeriod` | Beet/Services/AudioEngine.swift:97 | one beat at a tempo in [40, 240] lasts between 0.25 s and 1.5 s |
| `Engine.SubdivisionMultiplier` | Beet/Services/AudioEngine.swift:67-74 | the subdivision factor is in (0, 1], and it is 1 exactly for quarter notes |
| `Engine.SelectedClick` | Beet/Services/AudioEngine.swift:102 | the accent sample is chosen exactly on beat 1 |
| `Engine.NextBeat` | Beet/Services/AudioEngine.swift:109-112 | the beat goes up by one or wraps to 1, and stays in [1, beatsPerMeasure] when it starts there |
| `Engine.BeatCycles` | Beet/Services/AudioEngine.swift:101-113 | from beat 1, after k clicks the beat is k mod beatsPerMeasure + 1, so the accent falls exactly on every beatsPerMeasure-th click |
| `Engine.AudioEngine.constructor` | Beet/Services/AudioEngine.swift:10-16 | a new engine is on beat 1 at 120 bpm in 4/4, stopped, with no probe and no pending resume |
| `Engine.AudioEngine.PlayClick` | Beet/Services/AudioEngine.swift:101-113 | plays the accent on beat 1 and the normal click otherwise, then advances the beat; if that sample is missing, nothing is played and the beat stays |
| `Engine.AudioEngine.PlayMetronomeClick` | Beet/Services/AudioEngine.swift:54-90 | adopts tempo and bar length, plays one click, sets the deadline to `now`, registers the probe and sets `isPlaying`; the subdivision affects nothing, and the beat and any pending resume are kept |
| `Engine.AudioEngine.HandleTick` | Beet/Services/AudioEngine.swift:92-99 | at most one click per call, and only once `now` reaches the deadline; the deadline then moves by exactly 60 / currentBPM, and the deadline always equals start + k · 60 / bpm after k passed deadlines |
| `Engine.AudioEngine.Stop` | Beet/Services/AudioEngine.swift:115-125 | clears the pending resume, deregisters the probe, sets beat 1 and clears `isPlaying`; nothing else changes |
| `Engine.AudioEngine.UpdateBPMWithPause` | Beet/Services/AudioEngine.swift:258-284 | always cancels the pending resume; only while playing it drops the probe and installs a resume with its own arguments; always adopts the tempo; `isPlaying` and the beat stay |
| `Engine.AudioEngine.UpdateTimeSignature` | Beet/Services/AudioEngine.swift:286-289 | stop then restart: nothing pending, playing at the new tempo and bar length, and the first click is an accent when that sample loaded |
| `Engine.AudioEngine.PauseTemporarily` | Beet/Services/AudioEngine.swift:291-315 | drops the probe and replaces any pending resume with one that restarts at the tempo and bar length current when it fires |
| `Engine.AudioEngine.FireResume` | Beet/Services/AudioEngine.swift:271-280 | a pending resume restarts playback with its tempo and bar length (or the current ones), and then none is pending; with none pending, nothing changes |
| `Engine.AudioEngine.StartTuningFork` | Beet/Services/AudioEngine.swift:190-234 | the tone starts at the given frequency with phase 0, and its volume rises from 0 to 0.3 in 20 equal steps of 0.3 / 20 (21 values) |
| `Engine.AudioEngine.StopTuningFork` | Beet/Services/AudioEngine.swift:236-256 | without a tone nothing happens; otherwise the volume falls from its current value v to 0 in 20 equal steps of v / 20, staying within [0, v] when v ≥ 0, and the tone is detached |
| `Engine.AudioEngine.Render` | Beet/Services/AudioEngine.swift:196-215 | frame k of the buffer receives the triangle sample at the phase after k steps, the phase ends after frameCount steps, and the rest of the buffer is untouched |
| `Engine.FirstTickRepeatsStartClick` | Beet/Services/AudioEngine.swift:78-98 | starting on beat 1 with both samples loaded, the first probe callback at or after the start plays a second click: accent then normal, and only then is the deadline one beat ahead |
| `Engine.DebouncedUpdates` | Beet/Services/AudioEngine.swift:258-284 | two tempo changes while playing leave one resume; it restarts playback at the second tempo and the given bar length with at most one click, and exactly the click for the beat the engine was on when both samples loaded, and a second firing finds nothing pending |
| `Engine.StopSilences` | Beet/Services/AudioEngine.swift:115-125 | after `stop` a firing of the dispatch queue plays no click |
| `Oscillator.Advance` | Beet/Services/AudioEngine.swift:208-211 | one phase step keeps the phase in [0, 1) when the increment is in [0, 1) |
| `Oscillator.PhaseStaysInRange` | Beet/Services/AudioEngine.swift:204-212 | the phase stays in [0, 1) over any number of samples when it starts there and the increment is in [0, 1) |
| `Oscillator.SampleIsBounded` | Beet/Services/AudioEngine.swift:205-206 | a sample written at a phase in [0, 1] lies in [-0.25, 0.25] |
| `Oscillator.RenderedSampleIsBounded` | Beet/Services/AudioEngine.swift:194-212 | from phase 0 with 0 ≤ frequency / sampleRate < 1, every rendered sample lies in [-0.25, 0.25] |
| `Oscillator.FadeInSchedule` | Beet/Services/AudioEngine.swift:222-232 | 21 fade-in volumes from 0 to 0.3 in equal steps of 0.3 / 20 |
| `Oscillator.FadeOutSchedule` | Beet/Services/AudioEngine.swift:239-250 | 21 fade-out volumes from the initial volume v down to 0 in equal steps of v / 20, all within [0, v] when v ≥ 0 |
| `NoteNames.TruncDiv` | Beet/Services/AudioProcessor.swift:125 | Swift's truncating division agrees with the Euclidean one for non-negative note numbers |
| `NoteNames.TruncRem` | Beet/Services/AudioProcessor.swift:126 | the remainder has the dividend's sign, recombines with the quotient to the dividend, and agrees with Euclidean `%` for non-negative numbers |
| `NoteNames.NatToStringRoundTrip` | Beet/Services/AudioProcessor.swift:127 | reading back the decimal digits of a natural number gives the number |
| `NoteNames.IntToStringRoundTrip` | Beet/Services/AudioProcessor.swift:127 | reading back the interpolated octave (minus sign included) gives the octave |
| `NoteNames.NoteNameRoundTrip` | Beet/Services/AudioProcessor.swift:123-128 | the note number can be read back from its name: name-table entry followed by octave n / 12 − 1 |
| `NoteNames.NoteNameInjective` | Beet/Services/AudioProcessor.swift:123-128 | distinct note numbers have distinct names |
| `NoteNames.NoteNameOfNatural` | Beet/Services/AudioProcessor.swift:125-126 | for n ≥ 0 the table index is n mod 12 and the octave n / 12 − 1 in Dafny's own operators |
| `NoteNames.NoteNameExamples` | Beet/Services/AudioProcessor.swift:124-127 | 69 is "A4", 60 is "C4", 70 is "A#4" |
| `Pitch.BinFrequency` | Beet/Services/AudioProcessor.swift:97 | the peak frequency is never negative, is 0 Hz exactly for bin 0 (which the guard rejects), and is below half the sample rate for bins of the half spectrum |
| `Pitch.BinFrequencyIncreasing` | Beet/Services/AudioProcessor.swift:97 | higher bins give higher frequencies |
| `Pitch.AcceptedNoteRange` | Beet/Services/AudioProcessor.swift:106-112 | every accepted frequency rounds to a note number in [15, 107], so the name index is in [0, 11] and the octave in [0, 7] |
| `Pitch.CentsAreNoteDistance` | Beet/Services/AudioProcessor.swift:111-116 | the deviation from a note in cents is 100 times the distance in note numbers |
| `Pitch.Classify` | Beet/Services/AudioProcessor.swift:108-120 | the reading keeps the input frequency and picks the nearest note in [15, 107]; its cents lie in [-50, 50], it is in tune exactly when they are under 5 in magnitude, and the name reads back as the note |
| `Pitch.ConcertA` | Beet/Services/AudioProcessor.swift:111-120 | 440 Hz reads as note 69, "A4", 0 cents, in tune |
| `Tuner.AudioProcessor.constructor` | Beet/Services/AudioProcessor.swift:10-13 | the tuner starts at 440 Hz, "A4", 0 cents, not in tune |
| `Tuner.AudioProcessor.UpdateWithFrequency` | Beet/Services/AudioProcessor.swift:105-121 | outside (20, 4000) Hz all four fields stay; otherwise all four are updated together from `Classify`, and the frequency is the input |
| `Tuner.AudioProcessor.ProcessPeak` | Beet/Services/AudioProcessor.swift:94-102 | a peak whose frequency falls outside (20, 4000) Hz, bin 0 included, leaves all four published fields unchanged; an accepted peak frequency becomes the current frequency, and the reading is then the classification of it |
| `TapTempo.SumBounds` | Beet/Views/TapTempoButton.swift:50 | the sum of kept intervals is positive and at most 2 s per interval |
| `TapTempo.RecordInterval` | Beet/Views/TapTempoButton.swift:39-42 | appending to at most four intervals leaves at most four, with the new interval last |
| `TapTempo.RecordIntervalKeepsNewest` | Beet/Views/TapTempoButton.swift:39-42 | what is kept is the newest part of the history with the new interval appended, in arrival order |
| `TapTempo.RecordIntervalPlausible` | Beet/Views/TapTempoButton.swift:35-42 | every stored interval stays in (0, 2] s |
| `TapTempo.NextIntervalsPlausible` | Beet/Views/TapTempoButton.swift:32-44 | after any tap the history holds at most four intervals, each in (0, 2] s |
| `TapTempo.Estimate` | Beet/Views/TapTempoButton.swift:49-51 | an estimate exists exactly from two intervals on, and it is at least 30 bpm |
| `TapTempo.TempoUpdate` | Beet/Views/TapTempoButton.swift:49-53 | the tempo is updated exactly when the estimate exists and lies in [40, 240], so estimates of 30 to 39 are discarded |
| `TapTempo.SteadyHalfSeconds` | Beet/Views/TapTempoButton.swift:50-52 | two or more intervals of 0.5 s set the tempo to 120 |
| `TapTempo.SteadyTappingReads120` | Beet/Views/TapTempoButton.swift:29-63 | tapping every 0.5 s from a fresh button leaves the tempo alone for two taps and sets 120 from the third on |
| `TapTempo.FirstTwoTapsKeepTempo` | Beet/Views/TapTempoButton.swift:32-51 | the tap that starts a sequence and the one after it never change the tempo |
| `TapTempo.TapTempoButton.constructor` | Beet/Views/TapTempoButton.swift:4-11 | a fresh button has no last tap, no intervals and a tap count of 0 |
| `TapTempo.TapTempoButton.RecordTap` | Beet/Views/TapTempoButton.swift:30-47 | a gap over 2 s empties the history and leaves the count at 1; otherwise the interval is recorded (a gap of exactly 2 s included); the first tap records nothing; every tap sets the last tap time to now |
| `TapTempo.TapTempoButton.HandleTap` | Beet/Views/TapTempoButton.swift:29-63 | records the tap as `RecordTap` does; the tempo becomes the estimate exactly when one in [40, 240] exists, and stays otherwise; the metronome's tempo change is invoked with it only while playing (a playing engine has its probe dropped and a resume at that tempo pending; a stopped engine is left with no probe and nothing pending), and otherwise the engine is untouched; the engine's beat, clicks, bar length and deadline are never changed |

## Left out

- Audio graph setup, audio session configuration, the screen and volume
  observers, `deinit` and `updateBackgroundAudioMode`. These are platform
  calls with no logic of their own.
- Loading the two WAV files. The model keeps only whether each one loaded.
- The `AVAudioPlayerNode` itself. Scheduling a buffer "with interrupts" and
  `player.stop()` cutting a click short are outside the model; a click is an
  entry in the ghost log.
- The unused `timer` field. It is never set, so invalidating it does nothing.
- Real timing and threading: the 0.5 s resume delay, the 2.5 ms spacing
  of fade steps, the display link's 120 Hz rate, and main-queue hops. They are explicit
  calls here, run one at a time.
- Engine.AudioEngine.StartTuningFork: the fade steps are returned in order and
  the final volume is stored. The volume between steps is not modelled. A
  second start while a tone plays leaves the first oscillator node attached in
  the code; the model simply replaces the tone state.
- Engine.AudioEngine.StopTuningFork: the detach happens at the end of the fade;
  the model does it at once.
- Microphone permission, `startProcessing`, `stopProcessing` and the input
  tap: these are I/O.
- The Hann window, the FFT, the magnitude spectrum and the peak search are library
  numerics. The peak bin is an input of `ProcessPeak`.
- Single-precision `Float` and `Double` rounding: all arithmetic is on `real`.
- `log2` and `pow` are parameters whose laws are assumed as preconditions.
  Concrete readings of other frequencies (466.16 Hz as "A#4", 450 Hz as +38.9 cents) need
  their values and are not stated.
- Pitch.AcceptedNoteRange: the bounds are proved from the stated laws. They
  hold for the real logarithm.
- The SwiftUI views, including the ±1 tempo steps. Their clamping to
  [40, 240] appears only as the engine's precondition on the tempo.
- Settings persistence and the idle-timer side effect.
