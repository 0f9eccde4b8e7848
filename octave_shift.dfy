/**
  `shiftOctave` of both utility modules (the two copies are the same code):
  keep every character of the note text but the last, read the last character
  as the octave, and append the decimal text of octave + shift. The function is
  total, as the JavaScript is: when the last character is not a digit (or the
  text is empty), `parseInt` yields NaN and the result ends in "NaN".
*/
module OctaveShift {
  import opened Optional
  import opened Pitches

  /** `note.slice(0, -1)`: everything but the last character. */
  function Base(note: string): (b: string)
    ensures |note| > 0 ==> note == b + [note[|note| - 1]]
    ensures |note| == 0 ==> b == []
  {
    if |note| == 0 then [] else note[..|note| - 1]
  }

  /** `parseInt(note.slice(-1))`: the value of the last character when it is
      a digit; None stands for NaN. */
  function LastDigit(note: string): (d: Option<nat>)
    ensures d.Some? <==> |note| > 0 && IsDigit(note[|note| - 1])
    ensures d.Some? ==> d.value < 10 && note[|note| - 1] == DigitChar(d.value)
  {
    if |note| > 0 && IsDigit(note[|note| - 1]) then Some(DigitValue(note[|note| - 1])) else None
  }

  /** `Number.prototype.toString` on an integer: a '-' for negatives, then
      the decimal digits of the magnitude. */
  function IntText(n: int): (s: string)
    ensures n >= 0 ==> s == Decimal(n)
    ensures n < 0 ==> |s| >= 2 && s[0] == '-' && s[1..] == Decimal(-n)
  {
    if n < 0 then "-" + Decimal(-n) else Decimal(n)
  }

  /** `shiftOctave(note, shift)`. */
  function ShiftOctave(note: string, shift: int): string
  {
    Base(note) + match LastDigit(note)
      case None => "NaN"
      case Some(d) => IntText(d + shift)
  }

  /** All but the last character are kept; when the octave digit plus the
      shift is again a digit, exactly the last character changes, to that
      digit; a text without a trailing digit gets "NaN" instead. */
  lemma ShiftOctaveRewritesLastDigit(note: string, shift: int)
    ensures ShiftOctave(note, shift)[..|Base(note)|] == Base(note)
    ensures LastDigit(note).Some? && 0 <= LastDigit(note).value + shift < 10 ==>
      ShiftOctave(note, shift) == Base(note) + [DigitChar(LastDigit(note).value + shift)] &&
      |ShiftOctave(note, shift)| == |note|
    ensures LastDigit(note).None? ==> ShiftOctave(note, shift) == Base(note) + "NaN"
  {
  }

  /** Shifting by zero returns a text ending in a digit unchanged. */
  lemma {:induction false} ShiftOctaveZero(note: string)
    requires LastDigit(note).Some?
    ensures ShiftOctave(note, 0) == note
  {
    var d := LastDigit(note).value;
    assert Decimal(d) == [DigitChar(d)];
  }

  /** Two shifts compose into one, as long as the intermediate octave is
      still a single digit. */
  lemma {:induction false} ShiftOctaveCompose(note: string, a: int, b: int)
    requires LastDigit(note).Some? && 0 <= LastDigit(note).value + a < 10
    ensures ShiftOctave(ShiftOctave(note, a), b) == ShiftOctave(note, a + b)
  {
    var d := LastDigit(note).value;
    var m := ShiftOctave(note, a);
    assert Decimal(d + a) == [DigitChar(d + a)];
    assert m == Base(note) + [DigitChar(d + a)];
    assert Base(m) == Base(note);
    assert LastDigit(m) == Some(d + a);
  }

  /** Shifting back undoes a shift whose octave stays a single digit. */
  lemma ShiftOctaveRoundTrip(note: string, k: int)
    requires LastDigit(note).Some? && 0 <= LastDigit(note).value + k < 10
    ensures ShiftOctave(ShiftOctave(note, k), -k) == note
  {
    ShiftOctaveCompose(note, k, -k);
    ShiftOctaveZero(note);
  }

  /** On the text of a pitch with a single-digit octave, shifting is moving
      the pitch by whole octaves: the class is kept and the octave moves by
      `k`, whatever number of digits the new octave has. */
  lemma {:induction false} ShiftOctaveOfName(p: Pitch, k: int)
    requires p.octave < 10 && p.octave + k >= 0
    ensures ShiftOctave(Name(p), k) == Name(Pitch(p.cls, p.octave + k))
  {
    var s := Name(p);
    assert Decimal(p.octave) == [DigitChar(p.octave)];
    assert s == ChromaticNames[p.cls] + [DigitChar(p.octave)];
    assert Base(s) == ChromaticNames[p.cls];
    assert LastDigit(s) == Some(p.octave);
  }

  /** The cases of the utility modules' own tests. */
  lemma ShiftOctaveExamples()
    ensures ShiftOctave("D4", 1) == "D5"
    ensures ShiftOctave("F#4", 1) == "F#5"
    ensures ShiftOctave("G4", -1) == "G3"
    ensures ShiftOctave("A#5", -1) == "A#4"
    ensures ShiftOctave("C3", 2) == "C5"
  {
    assert ShiftOctave("D4", 1) == "D" + Decimal(5);
    assert ShiftOctave("F#4", 1) == "F#" + Decimal(5);
    assert ShiftOctave("G4", -1) == "G" + Decimal(3);
    assert ShiftOctave("A#5", -1) == "A#" + Decimal(4);
    assert ShiftOctave("C3", 2) == "C" + Decimal(5);
  }
}
