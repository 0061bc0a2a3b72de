/**
 * The tuner's integer note-name table: MIDI-style note number to a name such
 * as "A4". Swift's `/` and `%` on `Int` truncate toward zero, so they are
 * written out here; the name table is subscripted by the truncated remainder,
 * which is out of range (a trap) for negative numbers that are not multiples
 * of 12. A parser for the names is given as the table's inverse.
 */
module NoteNames {
  import opened Common

  /** The twelve chromatic note names, starting at C. */
  const Names: seq<string> := ["C", "C#", "D", "D#", "E", "F", "F#", "G", "G#", "A", "A#", "B"]

  /** Integer division truncating toward zero, as Swift's `/` on `Int`. */
  function TruncDiv(a: int, b: int): (q: int)
    requires b > 0
    ensures a >= 0 ==> q == a / b
    ensures a <= 0 ==> q <= 0
  {
    if a >= 0 then a / b else -((-a) / b)
  }

  /** Remainder with the sign of the dividend, as Swift's `%` on `Int`. */
  function TruncRem(a: int, b: int): (r: int)
    requires b > 0
    ensures a == TruncDiv(a, b) * b + r
    ensures a >= 0 ==> 0 <= r < b && r == a % b
    ensures a <= 0 ==> -b < r <= 0
  {
    a - TruncDiv(a, b) * b
  }

  /** The name table may be subscripted with the remainder of `n`. */
  predicate HasNoteName(n: int)
  {
    TruncRem(n, 12) >= 0
  }

  function DigitChar(d: nat): (c: char)
    requires d < 10
    ensures '0' <= c <= '9' && c as int - '0' as int == d
  {
    ('0' as int + d) as char
  }

  predicate IsDigit(c: char)
  {
    '0' <= c <= '9'
  }

  /** A non-empty string of decimal digits. */
  predicate IsNumeral(s: string)
  {
    |s| >= 1 && forall i :: 0 <= i < |s| ==> IsDigit(s[i])
  }

  /** Decimal digits of a natural number, most significant first, without leading zeros. */
  function NatToString(k: nat): (s: string)
    ensures IsNumeral(s)
  {
    if k < 10 then [DigitChar(k)] else NatToString(k / 10) + [DigitChar(k % 10)]
  }

  /** Swift's string interpolation of an `Int`: a minus sign for negative values. */
  function IntToString(i: int): (s: string)
    ensures |s| >= 1 && (IsDigit(s[0]) || s[0] == '-')
  {
    if i < 0 then "-" + NatToString(-i) else NatToString(i)
  }

  /** The value of a string of decimal digits. */
  function DigitsValue(s: string): nat
    requires IsNumeral(s)
  {
    assert IsDigit(s[|s| - 1]);
    var last := s[|s| - 1] as int - '0' as int;
    if |s| == 1 then last else DigitsValue(s[..|s| - 1]) * 10 + last
  }

  /** Parses an unsigned decimal integer. */
  function ParseNat(s: string): Option<nat>
  {
    if IsNumeral(s) then Some(DigitsValue(s)) else None
  }

  /** Parses an optionally negative decimal integer. */
  function ParseInt(s: string): Option<int>
  {
    if |s| >= 1 && s[0] == '-' then
      match ParseNat(s[1..])
      case Some(k) => Some(-(k as int))
      case None => None
    else
      match ParseNat(s)
      case Some(k) => Some(k)
      case None => None
  }

  lemma {:induction false} NatToStringRoundTrip(k: nat)
    ensures ParseNat(NatToString(k)) == Some(k)
  {
    if k >= 10 {
      var s := NatToString(k);
      assert s[..|s| - 1] == NatToString(k / 10);
      NatToStringRoundTrip(k / 10);
    }
  }

  /** Reading back the decimal rendering of an integer gives the integer. */
  lemma IntToStringRoundTrip(i: int)
    ensures ParseInt(IntToString(i)) == Some(i)
  {
    if i < 0 {
      var digits := NatToString(-i);
      var s := IntToString(i);
      assert s[1..] == digits;
      NatToStringRoundTrip(-i);
    } else {
      NatToStringRoundTrip(i);
    }
  }

  /** `noteNumberToNoteName`: the note's name followed by its octave, octave -1 holding notes 0 to 11. */
  function NoteName(n: int): (s: string)
    requires HasNoteName(n)
    ensures |s| >= 2
  {
    Names[TruncRem(n, 12)] + IntToString(TruncDiv(n, 12) - 1)
  }

  /** The position of a name in the table. */
  function NameIndex(name: string): (r: Option<nat>)
    ensures r.Some? ==> r.value < 12 && Names[r.value] == name
  {
    FindName(name, 0)
  }

  function FindName(name: string, from: nat): (r: Option<nat>)
    requires from <= 12
    ensures r.Some? ==> from <= r.value < 12 && Names[r.value] == name
    ensures r.None? ==> forall j :: from <= j < 12 ==> Names[j] != name
    decreases 12 - from
  {
    if from == 12 then None else if Names[from] == name then Some(from) else FindName(name, from + 1)
  }

  /** The inverse of `NoteName`: split off the name (one letter and an optional '#') and the octave. */
  function ParseNoteName(s: string): Option<int>
  {
    var nameLength := if |s| >= 2 && s[1] == '#' then 2 else 1;
    if |s| <= nameLength then None
    else
      match (NameIndex(s[..nameLength]), ParseInt(s[nameLength..]))
      case (Some(index), Some(octave)) => Some(12 * (octave + 1) + index)
      case _ => None
  }

  /** Every name in the table is found at its own position. */
  lemma NameIndexOfName(i: nat)
    requires i < 12
    ensures NameIndex(Names[i]) == Some(i)
  {
    var r := NameIndex(Names[i]);
    assert r.Some?;
    assert Names[r.value] == Names[i];
  }

  /** Parsing a note name gives back the note number. */
  lemma NoteNameRoundTrip(n: int)
    requires HasNoteName(n)
    ensures ParseNoteName(NoteName(n)) == Some(n)
  {
    var index, octave := TruncRem(n, 12), TruncDiv(n, 12) - 1;
    var name, digits := Names[index], IntToString(octave);
    var s := NoteName(n);
    assert s == name + digits;
    var nameLength := if |s| >= 2 && s[1] == '#' then 2 else 1;
    assert nameLength == |name| by {
      assert |name| == 1 || |name| == 2;
      assert |name| == 2 ==> name[1] == '#';
      assert |name| == 1 ==> s[1] == digits[0];
    }
    assert s[..nameLength] == name && s[nameLength..] == digits;
    NameIndexOfName(index);
    IntToStringRoundTrip(octave);
  }

  /** Distinct note numbers have distinct names. */
  lemma NoteNameInjective(m: int, n: int)
    requires HasNoteName(m) && HasNoteName(n)
    requires NoteName(m) == NoteName(n)
    ensures m == n
  {
    NoteNameRoundTrip(m);
    NoteNameRoundTrip(n);
  }

  /** For non-negative numbers the truncating and the Euclidean operators agree. */
  lemma NoteNameOfNatural(n: int)
    requires n >= 0
    ensures HasNoteName(n)
    ensures NoteName(n) == Names[n % 12] + IntToString(n / 12 - 1)
  {
  }

  /** Concert A, middle C and the sharp above concert A. */
  lemma NoteNameExamples()
    ensures NoteName(69) == "A4" && NoteName(60) == "C4" && NoteName(70) == "A#4"
  {
  }
}
