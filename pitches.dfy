/**
  Pitch arithmetic: the sharps-only chromatic table, pitches as (class, octave)
  pairs, their absolute semitone number, the note sounding at a fret of a string,
  and the canonical text "<class><octave>" used by the fretboard components.
*/
module Pitches {
  import opened Optional

  /** Index into the chromatic table: C = 0, C# = 1, ..., B = 11. */
  type PitchClass = c: int | 0 <= c < 12

  /** A pitch. The octave is the decimal number after the class name; the
      source reads it with the pattern \d+, so it is never negative. */
  datatype Pitch = Pitch(cls: PitchClass, octave: nat)

  /** The table `chromaticNotes` of both fretboard components. */
  const ChromaticNames: seq<string> :=
    ["C", "C#", "D", "D#", "E", "F", "F#", "G", "G#", "A", "A#", "B"]

  /** Absolute height of a pitch in semitones: octave * 12 + class index. */
  function Semitone(p: Pitch): nat
  {
    p.octave * 12 + p.cls
  }

  /** The pitch with a given absolute semitone number. */
  function FromSemitone(n: nat): (p: Pitch)
    ensures Semitone(p) == n
  {
    Pitch(n % 12, n / 12)
  }

  /** A pitch is determined by its semitone number. */
  lemma SemitoneInjective(p: Pitch, q: Pitch)
    requires Semitone(p) == Semitone(q)
    ensures p == q
  {
    assert p.cls == Semitone(p) % 12 && p.octave == Semitone(p) / 12;
    assert q.cls == Semitone(q) % 12 && q.octave == Semitone(q) / 12;
  }

  lemma FromSemitoneOfSemitone(p: Pitch)
    ensures FromSemitone(Semitone(p)) == p
  {
    SemitoneInjective(FromSemitone(Semitone(p)), p);
  }

  /** `getNoteAtFret`: add the fret to the class index; the class is the sum
      modulo 12 and the octave grows by the sum divided by 12 (rounded down). */
  function NoteAtFret(open: Pitch, fret: nat): (r: Pitch)
    ensures Semitone(r) == Semitone(open) + fret
  {
    var total := open.cls + fret;
    Pitch(total % 12, open.octave + total / 12)
  }

  /** The fret arithmetic is the same as moving up `fret` semitones. */
  lemma NoteAtFretIsTransposition(open: Pitch, fret: nat)
    ensures NoteAtFret(open, fret) == FromSemitone(Semitone(open) + fret)
  {
    SemitoneInjective(NoteAtFret(open, fret), FromSemitone(Semitone(open) + fret));
  }

  /** The open string sounds its own pitch, and the twelfth fret the same
      class one octave up. */
  lemma NoteAtFretZeroAndTwelve(open: Pitch)
    ensures NoteAtFret(open, 0) == open
    ensures NoteAtFret(open, 12) == Pitch(open.cls, open.octave + 1)
  {
    SemitoneInjective(NoteAtFret(open, 0), open);
    SemitoneInjective(NoteAtFret(open, 12), Pitch(open.cls, open.octave + 1));
  }

  /** Distinct frets of one string sound distinct pitches. */
  lemma NoteAtFretInjective(open: Pitch, f1: nat, f2: nat)
    requires NoteAtFret(open, f1) == NoteAtFret(open, f2)
    ensures f1 == f2
  {
  }

  // ---------------------------------------------------------------------------
  // Canonical text

  predicate IsDigit(c: char)
  {
    '0' <= c <= '9'
  }

  function DigitChar(d: nat): (c: char)
    requires d < 10
    ensures IsDigit(c)
  {
    ('0' as int + d) as char
  }

  function DigitValue(c: char): (d: nat)
    requires IsDigit(c)
    ensures d < 10
  {
    c as int - '0' as int
  }

  predicate AllDigits(s: string)
  {
    forall i :: 0 <= i < |s| ==> IsDigit(s[i])
  }

  /** Decimal text of a natural number (JavaScript's `toString()` on it). */
  function Decimal(n: nat): (s: string)
    ensures |s| >= 1 && AllDigits(s)
    decreases n
  {
    if n < 10 then [DigitChar(n)] else Decimal(n / 10) + [DigitChar(n % 10)]
  }

  /** Value of a string of decimal digits (`parseInt` on such a string). */
  function DigitsValue(s: string): nat
    requires AllDigits(s)
    decreases |s|
  {
    if s == [] then 0 else DigitsValue(s[..|s| - 1]) * 10 + DigitValue(s[|s| - 1])
  }

  lemma {:induction false} DigitsValueOfDecimal(n: nat)
    ensures DigitsValue(Decimal(n)) == n
    decreases n
  {
    if n >= 10 {
      var s := Decimal(n / 10) + [DigitChar(n % 10)];
      assert s[..|s| - 1] == Decimal(n / 10);
      DigitsValueOfDecimal(n / 10);
    }
  }

  /** Decimal text never repeats: two numbers with the same text are equal. */
  lemma DecimalInjective(m: nat, n: nat)
    requires Decimal(m) == Decimal(n)
    ensures m == n
  {
    DigitsValueOfDecimal(m);
    DigitsValueOfDecimal(n);
  }

  /** Canonical text of a pitch, e.g. "C#4": the form `getNoteAtFret` returns
      and the form the chord notes are compared with. */
  function Name(p: Pitch): string
  {
    ChromaticNames[p.cls] + Decimal(p.octave)
  }

  /** `chromaticNotes.indexOf(name)`, with None in place of -1. */
  function ClassIndex(name: string): (r: Option<PitchClass>)
    ensures r.Some? ==> ChromaticNames[r.value] == name
    ensures r.None? ==> name !in ChromaticNames
  {
    ClassIndexFrom(name, 0)
  }

  function ClassIndexFrom(name: string, i: nat): (r: Option<PitchClass>)
    requires i <= 12
    ensures r.Some? ==> i <= r.value && ChromaticNames[r.value] == name
    ensures r.Some? ==> forall j :: i <= j < r.value ==> ChromaticNames[j] != name
    ensures r.None? ==> forall j :: i <= j < 12 ==> ChromaticNames[j] != name
    decreases 12 - i
  {
    if i == 12 then None
    else if ChromaticNames[i] == name then Some(i)
    else ClassIndexFrom(name, i + 1)
  }

  /** The twelve names are pairwise distinct, so the lookup finds each name at
      its own index. */
  lemma ClassIndexOfName(c: PitchClass)
    ensures ClassIndex(ChromaticNames[c]) == Some(c)
  {
    assert ClassIndex(ChromaticNames[c]).Some?;
  }

  /** Reading a canonical pitch text back (the start-note parsing of
      `getNoteAtFret`, restricted to well-formed text): a class name of one
      letter, optionally followed by '#', then one or more decimal digits. */
  function ParseName(s: string): (r: Option<Pitch>)
  {
    var k := if |s| >= 2 && s[1] == '#' then 2 else 1;
    if |s| <= k || !AllDigits(s[k..]) then None
    else match ClassIndex(s[..k])
      case None => None
      case Some(c) => Some(Pitch(c, DigitsValue(s[k..])))
  }

  /** Round trip: the canonical text of a pitch reads back as that pitch. */
  lemma {:induction false} ParseNameOfName(p: Pitch)
    ensures ParseName(Name(p)) == Some(p)
  {
    var s := Name(p);
    var nm := ChromaticNames[p.cls];
    var k := if |s| >= 2 && s[1] == '#' then 2 else 1;
    assert |nm| == 1 || (|nm| == 2 && nm[1] == '#');
    assert k == |nm| by {
      if |nm| == 1 {
        assert s[1] == Decimal(p.octave)[0];
      }
    }
    assert s[..k] == nm;
    assert s[k..] == Decimal(p.octave);
    ClassIndexOfName(p.cls);
    DigitsValueOfDecimal(p.octave);
  }

  /** Distinct pitches have distinct texts: comparing texts, as the source
      does, is comparing pitches. */
  lemma NameInjective(p: Pitch, q: Pitch)
    requires Name(p) == Name(q)
    ensures p == q
  {
    ParseNameOfName(p);
    ParseNameOfName(q);
  }
}
