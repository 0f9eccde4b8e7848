/**
  Instruments as data: an ordered sequence of open-string pitches and the number
  of frets drawn and searched on every string (frets 0 .. fretCount - 1), plus the
  question both assignment policies ask of a string: at which fret, if any, does
  a given note text sound?
*/
module Fretboard {
  import opened Optional
  import opened Pitches

  /** Chord notes are texts such as "F#4"; the components compare them with the
      text of the note at each fret. */
  type Note = string

  /** String 0 first; the order is the assignment priority. */
  datatype Instrument = Instrument(opens: seq<Pitch>, fretCount: nat)

  /** The ukulele of `Ukulele.tsx`: G4, C4, E4, A4, frets 0..13. */
  const Ukulele: Instrument :=
    Instrument([Pitch(7, 4), Pitch(0, 4), Pitch(4, 4), Pitch(9, 4)], 14)

  /** The five-string guitar of `FiveStringsGuitar.tsx`: D4, A4, E5, A5, D6,
      frets 0..13. */
  const FiveStringGuitar: Instrument :=
    Instrument([Pitch(2, 4), Pitch(9, 4), Pitch(4, 5), Pitch(9, 5), Pitch(2, 6)], 14)

  /** One highlighted position, the components' "stringIndex-fret" key. */
  datatype Position = Position(stringIndex: nat, fret: nat)

  /** Text of the note sounding on a string with open pitch `open` at `fret`. */
  function FretName(open: Pitch, fret: nat): Note
  {
    Name(NoteAtFret(open, fret))
  }

  /** The open string (fret 0) sounds its open pitch. */
  lemma FretZeroIsOpen(open: Pitch)
    ensures FretName(open, 0) == Name(open)
  {
    NoteAtFretZeroAndTwelve(open);
  }


  /** The ukulele's strings, open, sound G4, C4, E4, A4. */
  lemma UkuleleOpenNames()
    ensures |Ukulele.opens| == 4 && Ukulele.fretCount == 14
    ensures Name(Ukulele.opens[0]) == "G4" && Name(Ukulele.opens[1]) == "C4"
    ensures Name(Ukulele.opens[2]) == "E4" && Name(Ukulele.opens[3]) == "A4"
  {
    assert Name(Pitch(7, 4)) == "G4";
    assert Name(Pitch(0, 4)) == "C4";
    assert Name(Pitch(4, 4)) == "E4";
    assert Name(Pitch(9, 4)) == "A4";
  }

  /** The five-string guitar's strings, open, sound D4, A4, E5, A5, D6. */
  lemma FiveStringOpenNames()
    ensures |FiveStringGuitar.opens| == 5 && FiveStringGuitar.fretCount == 14
    ensures Name(FiveStringGuitar.opens[0]) == "D4" && Name(FiveStringGuitar.opens[1]) == "A4"
    ensures Name(FiveStringGuitar.opens[2]) == "E5" && Name(FiveStringGuitar.opens[3]) == "A5"
    ensures Name(FiveStringGuitar.opens[4]) == "D6"
  {
    assert Name(Pitch(2, 4)) == "D4";
    assert Name(Pitch(9, 4)) == "A4";
    assert Name(Pitch(4, 5)) == "E5";
    assert Name(Pitch(9, 5)) == "A5";
    assert Name(Pitch(2, 6)) == "D6";
  }

  /** The lowest fret in from .. count - 1 at which a string sounds `note`,
      where `noteAt(open, fret)` is the note a string with open note `open`
      sounds at `fret`: the fret loop of both components, which stops at the
      first match. */
  function FirstFretFrom<S, N(==)>(noteAt: (S, nat) -> N, open: S, note: N, from: nat, count: nat): Option<nat>
    decreases count - from
  {
    if from >= count then None
    else if noteAt(open, from) == note then Some(from)
    else FirstFretFrom(noteAt, open, note, from + 1, count)
  }

  function FirstFret<S, N(==)>(noteAt: (S, nat) -> N, open: S, note: N, count: nat): Option<nat>
  {
    FirstFretFrom(noteAt, open, note, 0, count)
  }

  lemma {:induction false} FirstFretFromIsLeast<S, N>(noteAt: (S, nat) -> N, open: S, note: N, from: nat, count: nat)
    ensures FirstFretFrom(noteAt, open, note, from, count).Some? ==>
      var f := FirstFretFrom(noteAt, open, note, from, count).value;
      from <= f < count && noteAt(open, f) == note &&
      forall g :: from <= g < f ==> noteAt(open, g) != note
    ensures FirstFretFrom(noteAt, open, note, from, count).None? ==>
      forall g :: from <= g < count ==> noteAt(open, g) != note
    decreases count - from
  {
    if from < count && noteAt(open, from) != note {
      FirstFretFromIsLeast(noteAt, open, note, from + 1, count);
    }
  }

  /** Independent description of `FirstFret`: the least matching fret of the
      window, and None exactly when no fret of the window matches. */
  lemma FirstFretIsLeast<S, N>(noteAt: (S, nat) -> N, open: S, note: N, count: nat)
    ensures FirstFret(noteAt, open, note, count).Some? ==>
      FirstFret(noteAt, open, note, count).value < count &&
      noteAt(open, FirstFret(noteAt, open, note, count).value) == note &&
      forall g :: 0 <= g < FirstFret(noteAt, open, note, count).value ==> noteAt(open, g) != note
    ensures FirstFret(noteAt, open, note, count).None? ==>
      forall g :: 0 <= g < count ==> noteAt(open, g) != note
  {
    FirstFretFromIsLeast(noteAt, open, note, 0, count);
  }

  /** The absolute semitone number sounding on a string with open pitch
      `open` at `fret`: the arithmetic of `getNoteAtFret` before the result is
      turned into a text. */
  function SemitoneAtFret(open: Pitch, fret: nat): (n: nat)
    ensures n == Semitone(NoteAtFret(open, fret))
  {
    Semitone(open) + fret
  }

  /** On semitone numbers, a fret is found exactly when the note lies
      0 .. count - 1 semitones above the open string, and it is that distance. */
  lemma FirstFretOfSemitone(open: Pitch, n: nat, count: nat)
    ensures FirstFret(SemitoneAtFret, open, n, count) ==
      if Semitone(open) <= n < Semitone(open) + count then Some(n - Semitone(open)) else None
  {
    FirstFretIsLeast(SemitoneAtFret, open, n, count);
    if Semitone(open) <= n < Semitone(open) + count {
      assert SemitoneAtFret(open, n - Semitone(open)) == n;
    }
  }

  /** A pitch at or above the open string sounds at the fret equal to its
      semitone distance from it. */
  lemma FretOfPitch(open: Pitch, p: Pitch)
    ensures Semitone(open) <= Semitone(p) ==>
      FretName(open, Semitone(p) - Semitone(open)) == Name(p)
  {
    if Semitone(open) <= Semitone(p) {
      SemitoneInjective(NoteAtFret(open, Semitone(p) - Semitone(open)), p);
    }
  }

  /** A fret is found if and only if the note is the text of a pitch lying
      0 .. count - 1 semitones above the open string, and the fret found is that
      distance. A text that names no pitch (such as "X1") is never found. */
  lemma FirstFretBySemitones(open: Pitch, note: Note, count: nat)
    ensures FirstFret(FretName, open, note, count) ==
      match ParseName(note)
      case Some(p) =>
        if Name(p) == note && Semitone(open) <= Semitone(p) < Semitone(open) + count
        then Some(Semitone(p) - Semitone(open)) else None
      case None => None
  {
    FirstFretIsLeast(FretName, open, note, count);
    var r := FirstFret(FretName, open, note, count);
    if r.Some? {
      var q := NoteAtFret(open, r.value);
      ParseNameOfName(q);
    } else if ParseName(note).Some? {
      FretOfPitch(open, ParseName(note).value);
    }
  }

  /** For the text of a pitch: found exactly at its semitone distance from the
      open string, when that distance fits the fret window. */
  lemma FirstFretOfName(open: Pitch, p: Pitch, count: nat)
    ensures FirstFret(FretName, open, Name(p), count) ==
      if Semitone(open) <= Semitone(p) < Semitone(open) + count
      then Some(Semitone(p) - Semitone(open)) else None
  {
    FirstFretBySemitones(open, Name(p), count);
    ParseNameOfName(p);
  }

  /** A text that does not read as a pitch (such as "X1") is sounded by no
      string at any fret. */
  lemma NonPitchNeverSounds(note: Note, open: Pitch, fret: nat)
    requires ParseName(note).None?
    ensures FretName(open, fret) != note
  {
    ParseNameOfName(NoteAtFret(open, fret));
  }
}
