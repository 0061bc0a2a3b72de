/** The user settings the core reads: only the beat subdivision is needed. */
module Settings {

  /** Settings.Subdivision: how many clicks the user asked for per beat. */
  datatype Subdivision = Quarter | Eighth | Sixteenth | Triplet
}
