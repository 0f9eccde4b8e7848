/**
  The texts of the semitone numbers that the concrete chords of the scenario
  modules use (C0 is semitone 0, so D4 is 4 * 12 + 2 = 50).
*/
module NoteNames {
  import opened Pitches
  import opened Renaming

  lemma NamesOfC4D4E4()
    ensures SemitoneName(48) == "C4" && SemitoneName(50) == "D4" && SemitoneName(52) == "E4"
  {
    SemitoneNameOfPitch(Pitch(0, 4));
    SemitoneNameOfPitch(Pitch(2, 4));
    SemitoneNameOfPitch(Pitch(4, 4));
    assert Name(Pitch(0, 4)) == "C4";
    assert Name(Pitch(2, 4)) == "D4";
    assert Name(Pitch(4, 4)) == "E4";
  }

  lemma NamesOfFs4G4A4()
    ensures SemitoneName(54) == "F#4" && SemitoneName(55) == "G4" && SemitoneName(57) == "A4"
  {
    SemitoneNameOfPitch(Pitch(6, 4));
    SemitoneNameOfPitch(Pitch(7, 4));
    SemitoneNameOfPitch(Pitch(9, 4));
    assert Name(Pitch(6, 4)) == "F#4";
    assert Name(Pitch(7, 4)) == "G4";
    assert Name(Pitch(9, 4)) == "A4";
  }

  lemma NamesOfCs5E5Gs5()
    ensures SemitoneName(61) == "C#5" && SemitoneName(64) == "E5" && SemitoneName(68) == "G#5"
  {
    SemitoneNameOfPitch(Pitch(1, 5));
    SemitoneNameOfPitch(Pitch(4, 5));
    SemitoneNameOfPitch(Pitch(8, 5));
    assert Name(Pitch(1, 5)) == "C#5";
    assert Name(Pitch(4, 5)) == "E5";
    assert Name(Pitch(8, 5)) == "G#5";
  }

  lemma NamesOfA5As5D6()
    ensures SemitoneName(69) == "A5" && SemitoneName(70) == "A#5" && SemitoneName(74) == "D6"
  {
    SemitoneNameOfPitch(Pitch(9, 5));
    SemitoneNameOfPitch(Pitch(10, 5));
    SemitoneNameOfPitch(Pitch(2, 6));
    assert Name(Pitch(9, 5)) == "A5";
    assert Name(Pitch(10, 5)) == "A#5";
    assert Name(Pitch(2, 6)) == "D6";
  }
}
