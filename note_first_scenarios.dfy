/**
  Concrete runs of the note-first assignment of the five-string guitar: the
  chords of the component's own tests. As for the best-fit runs, each chord is
  worked out on semitone numbers (D4 50, F#4 54, A4 57, A5 69, D6 74; open
  strings D4 50, A4 57, E5 64, A5 69, D6 74), one search at a time (the
  `Find` lemmas), chained by `NoteFirstEngine.PlaceTrace`, and
  carried over to the note texts by `Renaming.HighlightedOnSemitones`.
*/
module NoteFirstScenarios {
  import opened Optional
  import opened Pitches
  import opened Fretboard
  import opened NoteFirstEngine
  import opened Renaming
  import opened NoteNames

  /** The open strings' semitone numbers, string by string. */
  lemma OpenSemitones()
    ensures |FiveStringGuitar.opens| == 5
    ensures Semitone(FiveStringGuitar.opens[0]) == 50 && Semitone(FiveStringGuitar.opens[1]) == 57
    ensures Semitone(FiveStringGuitar.opens[2]) == 64 && Semitone(FiveStringGuitar.opens[3]) == 69
    ensures Semitone(FiveStringGuitar.opens[4]) == 74
  {
  }

  /** Strings 1 to 4 are all tuned above F#4 (54). */
  lemma UpperStringsAboveFs4(t: nat)
    requires 1 <= t < |FiveStringGuitar.opens|
    ensures Semitone(FiveStringGuitar.opens[t]) >= 57
  {
    OpenSemitones();
    if t == 1 {} else if t == 2 {} else if t == 3 {} else {}
  }

  // ---------------------------------------------------------------------------
  // One search at a time, from a given set of used strings

  /** D4 with no string used: string 0, open. */
  lemma FindD4OnFreeStrings()
    ensures Find(SemitoneAtFret, FiveStringGuitar.opens, 14, {}, 50) == Some(Position(0, 0))
  {
    OpenSemitones();
    FindIsUnique(SemitoneAtFret, FiveStringGuitar.opens, 14, {}, 50, 0, 0);
  }

  /** D4 once string 0 is used: no other string reaches down to it. */
  lemma FindD4WithString0Used()
    ensures Find(SemitoneAtFret, FiveStringGuitar.opens, 14, {0}, 50) == None
  {
    var o := FiveStringGuitar.opens;
    forall f: nat, t: nat | f < 14 ensures !Fits(SemitoneAtFret, o, {0}, 50, t, f) {
      if 1 <= t < |o| { UpperStringsAboveFs4(t); }
    }
    FindIsLeftmost(SemitoneAtFret, o, 14, {0}, 50);
  }

  /** A4 once string 0 is used: string 1, open. */
  lemma FindA4WithString0Used()
    ensures Find(SemitoneAtFret, FiveStringGuitar.opens, 14, {0}, 57) == Some(Position(1, 0))
  {
    var o := FiveStringGuitar.opens;
    OpenSemitones();
    forall f: nat, t: nat | Before(f, t, 0, 1) ensures !Fits(SemitoneAtFret, o, {0}, 57, t, f) {
      assert f == 0 && t == 0;
    }
    FindIsUnique(SemitoneAtFret, o, 14, {0}, 57, 1, 0);
  }

  /** F#4 once strings 0 and 1 are used: nothing else reaches down to it. */
  lemma FindFs4WithStrings01Used()
    ensures Find(SemitoneAtFret, FiveStringGuitar.opens, 14, {0, 1}, 54) == None
  {
    var o := FiveStringGuitar.opens;
    forall f: nat, t: nat | f < 14 ensures !Fits(SemitoneAtFret, o, {0, 1}, 54, t, f) {
      if 2 <= t < |o| { UpperStringsAboveFs4(t); }
    }
    FindIsLeftmost(SemitoneAtFret, o, 14, {0, 1}, 54);
  }

  /** F#4 with no string used: no string sounds it below fret 4, and at fret 4
      string 0 does. */
  lemma FindFs4OnFreeStrings()
    ensures Find(SemitoneAtFret, FiveStringGuitar.opens, 14, {}, 54) == Some(Position(0, 4))
  {
    var o := FiveStringGuitar.opens;
    OpenSemitones();
    forall f: nat, t: nat | Before(f, t, 4, 0) ensures !Fits(SemitoneAtFret, o, {}, 54, t, f) {
      if 1 <= t < |o| { UpperStringsAboveFs4(t); }
    }
    FindIsUnique(SemitoneAtFret, o, 14, {}, 54, 0, 4);
  }

  /** A5 once strings 0 and 1 are used: string 3, open (string 2, E5, does
      not sound it at fret 0). */
  lemma FindA5WithStrings01Used()
    ensures Find(SemitoneAtFret, FiveStringGuitar.opens, 14, {0, 1}, 69) == Some(Position(3, 0))
  {
    var o := FiveStringGuitar.opens;
    OpenSemitones();
    forall f: nat, t: nat | Before(f, t, 0, 3) ensures !Fits(SemitoneAtFret, o, {0, 1}, 69, t, f) {
      assert f == 0 && t < 3;
    }
    FindIsUnique(SemitoneAtFret, o, 14, {0, 1}, 69, 3, 0);
  }

  /** D6 once strings 0, 1 and 3 are used: string 4, open. */
  lemma FindD6WithStrings013Used()
    ensures Find(SemitoneAtFret, FiveStringGuitar.opens, 14, {0, 1, 3}, 74) == Some(Position(4, 0))
  {
    var o := FiveStringGuitar.opens;
    OpenSemitones();
    forall f: nat, t: nat | Before(f, t, 0, 4) ensures !Fits(SemitoneAtFret, o, {0, 1, 3}, 74, t, f) {
      assert f == 0 && t < 4;
    }
    FindIsUnique(SemitoneAtFret, o, 14, {0, 1, 3}, 74, 4, 0);
  }

  // ---------------------------------------------------------------------------
  // D4 A4 F#4 A5 D6 ('highlights only leftmost occurrence of each note')

  const TestChord: seq<nat> := [50, 57, 54, 69, 74]

  /** What each note's search returns: F#4 sounds only on string 0, which D4
      took, so it finds nothing. */
  const TestChordFound: seq<Option<Position>> :=
    [Some(Position(0, 0)), Some(Position(1, 0)), None, Some(Position(3, 0)), Some(Position(4, 0))]

  /** The state before each note, and after the last. */
  const TestChordPlaced: seq<Placed> := [
    Placed({}, {}),
    Placed({Position(0, 0)}, {0}),
    Placed({Position(0, 0), Position(1, 0)}, {0, 1}),
    Placed({Position(0, 0), Position(1, 0)}, {0, 1}),
    Placed({Position(0, 0), Position(1, 0), Position(3, 0)}, {0, 1, 3}),
    Placed({Position(0, 0), Position(1, 0), Position(3, 0), Position(4, 0)}, {0, 1, 3, 4})
  ]

  lemma TestChordFinds(k: nat)
    requires k < 5
    ensures Find(SemitoneAtFret, FiveStringGuitar.opens, 14, TestChordPlaced[k].used, TestChord[k]) == TestChordFound[k]
  {
    if k == 0 { FindD4OnFreeStrings(); }
    else if k == 1 { FindA4WithString0Used(); }
    else if k == 2 { FindFs4WithStrings01Used(); }
    else if k == 3 { FindA5WithStrings01Used(); }
    else { FindD6WithStrings013Used(); }
  }

  lemma TestChordMarks(k: nat)
    requires k < 5
    ensures TestChordPlaced[k + 1] == Mark(TestChordPlaced[k], TestChordFound[k])
  {
    if k == 0 {} else if k == 1 {} else if k == 2 {} else if k == 3 {} else {}
  }

  lemma TestChordOnSemitones()
    ensures Highlighted(SemitoneAtFret, FiveStringGuitar.opens, 14, TestChord) ==
      {Position(0, 0), Position(1, 0), Position(3, 0), Position(4, 0)}
  {
    forall k | 0 <= k < 5
      ensures Find(SemitoneAtFret, FiveStringGuitar.opens, 14, TestChordPlaced[k].used, TestChord[k]) == TestChordFound[k]
      ensures TestChordPlaced[k + 1] == Mark(TestChordPlaced[k], TestChordFound[k])
    {
      TestChordFinds(k);
      TestChordMarks(k);
    }
    PlaceTrace(SemitoneAtFret, FiveStringGuitar.opens, 14, TestChord, TestChordFound, TestChordPlaced, 5);
    assert TestChord[..5] == TestChord;
  }

  /** The component's test expects five highlighted positions for this chord;
      the code lights four: F#4 is dropped because its only string is taken. */
  lemma TestChordHighlights()
    ensures Highlighted(FretName, FiveStringGuitar.opens, FiveStringGuitar.fretCount, ["D4", "A4", "F#4", "A5", "D6"]) ==
      {Position(0, 0), Position(1, 0), Position(3, 0), Position(4, 0)}
    ensures |Highlighted(FretName, FiveStringGuitar.opens, FiveStringGuitar.fretCount, ["D4", "A4", "F#4", "A5", "D6"])| == 4
  {
    HighlightedOnSemitones(FiveStringGuitar.opens, 14, TestChord);
    TestChordOnSemitones();
    TestChordNames();
  }

  lemma TestChordNames()
    ensures Rename(SemitoneName, TestChord) == ["D4", "A4", "F#4", "A5", "D6"]
  {
    NamesOfC4D4E4();
    NamesOfFs4G4A4();
    NamesOfA5As5D6();
  }

  /** Why no policy with one note per string can light five: on this tuning
      D4 and F#4 both sound on string 0 only. */
  lemma D4AndFs4OnlyOnString0(t: nat, f: nat)
    requires t < |FiveStringGuitar.opens|
    ensures FretName(FiveStringGuitar.opens[t], f) == "D4" ==> t == 0 && f == 0
    ensures FretName(FiveStringGuitar.opens[t], f) == "F#4" ==> t == 0 && f == 4
  {
    SemitoneTextsAreNames();
    NamesOfC4D4E4();
    NamesOfFs4G4A4();
    OpenSemitones();
    if t > 0 {
      UpperStringsAboveFs4(t);
    }
  }

  // ---------------------------------------------------------------------------
  // D4 ('highlights single note correctly')

  const SingleNote: seq<nat> := [50]

  lemma SingleNotePlace()
    ensures Place(SemitoneAtFret, FiveStringGuitar.opens, 14, SingleNote) == Placed({Position(0, 0)}, {0})
  {
    PlaceSingle(SemitoneAtFret, FiveStringGuitar.opens, 14, SingleNote);
    FindD4OnFreeStrings();
  }

  lemma SingleNoteHighlights()
    ensures Highlighted(FretName, FiveStringGuitar.opens, FiveStringGuitar.fretCount, ["D4"]) == {Position(0, 0)}
  {
    HighlightedOnSemitones(FiveStringGuitar.opens, 14, SingleNote);
    SingleNotePlace();
    NamesOfC4D4E4();
    assert Rename(SemitoneName, SingleNote) == ["D4"];
  }

  // ---------------------------------------------------------------------------
  // D4 D4 A4 ('handles duplicate notes in chord')

  const RepeatedChord: seq<nat> := [50, 50, 57]

  /** The second D4 finds its only string used and is dropped. */
  const RepeatedChordFound: seq<Option<Position>> := [Some(Position(0, 0)), None, Some(Position(1, 0))]

  const RepeatedChordPlaced: seq<Placed> := [
    Placed({}, {}),
    Placed({Position(0, 0)}, {0}),
    Placed({Position(0, 0)}, {0}),
    Placed({Position(0, 0), Position(1, 0)}, {0, 1})
  ]

  lemma RepeatedChordFinds(k: nat)
    requires k < 3
    ensures Find(SemitoneAtFret, FiveStringGuitar.opens, 14, RepeatedChordPlaced[k].used, RepeatedChord[k]) ==
      RepeatedChordFound[k]
  {
    if k == 0 { FindD4OnFreeStrings(); }
    else if k == 1 { FindD4WithString0Used(); }
    else { FindA4WithString0Used(); }
  }

  lemma RepeatedChordMarks(k: nat)
    requires k < 3
    ensures RepeatedChordPlaced[k + 1] == Mark(RepeatedChordPlaced[k], RepeatedChordFound[k])
  {
    if k == 0 {} else if k == 1 {} else {}
  }

  lemma RepeatedChordOnSemitones()
    ensures Highlighted(SemitoneAtFret, FiveStringGuitar.opens, 14, RepeatedChord) ==
      {Position(0, 0), Position(1, 0)}
  {
    forall k | 0 <= k < 3
      ensures Find(SemitoneAtFret, FiveStringGuitar.opens, 14, RepeatedChordPlaced[k].used, RepeatedChord[k]) ==
        RepeatedChordFound[k]
      ensures RepeatedChordPlaced[k + 1] == Mark(RepeatedChordPlaced[k], RepeatedChordFound[k])
    {
      RepeatedChordFinds(k);
      RepeatedChordMarks(k);
    }
    PlaceTrace(SemitoneAtFret, FiveStringGuitar.opens, 14, RepeatedChord, RepeatedChordFound, RepeatedChordPlaced, 3);
    assert RepeatedChord[..3] == RepeatedChord;
  }

  /** Two positions, as the test expects. */
  lemma RepeatedChordHighlights()
    ensures Highlighted(FretName, FiveStringGuitar.opens, FiveStringGuitar.fretCount, ["D4", "D4", "A4"]) ==
      {Position(0, 0), Position(1, 0)}
  {
    HighlightedOnSemitones(FiveStringGuitar.opens, 14, RepeatedChord);
    RepeatedChordOnSemitones();
    RepeatedChordNames();
  }

  lemma RepeatedChordNames()
    ensures Rename(SemitoneName, RepeatedChord) == ["D4", "D4", "A4"]
  {
    NamesOfC4D4E4();
    NamesOfFs4G4A4();
  }

  // ---------------------------------------------------------------------------
  // F#4 ('prioritizes leftmost position across all strings')

  const LowNote: seq<nat> := [54]

  /** A chord of F#4 alone lights string 0 at fret 4. */
  lemma LowNotePlace(chord: seq<nat>)
    requires |chord| == 1 && chord[0] == 54
    ensures Place(SemitoneAtFret, FiveStringGuitar.opens, 14, chord) == Placed({Position(0, 4)}, {0})
  {
    PlaceSingle(SemitoneAtFret, FiveStringGuitar.opens, 14, chord);
    FindFs4OnFreeStrings();
  }

  lemma LowNoteHighlights()
    ensures Highlighted(FretName, FiveStringGuitar.opens, FiveStringGuitar.fretCount, ["F#4"]) == {Position(0, 4)}
  {
    HighlightedOnSemitones(FiveStringGuitar.opens, 14, LowNote);
    LowNotePlace(LowNote);
    NamesOfFs4G4A4();
    assert Rename(SemitoneName, LowNote) == ["F#4"];
  }

  // ---------------------------------------------------------------------------
  // X1 Y2 ('handles non-existent notes gracefully')

  /** "X1" and "Y2" read as no pitch: "X" and "Y" are not note names. */
  lemma UnknownTextsNameNoPitch()
    ensures ParseName("X1").None? && ParseName("Y2").None?
  {
    assert "X1"[..1] == "X" && "Y2"[..1] == "Y";
    assert "X" !in ChromaticNames && "Y" !in ChromaticNames;
  }

  /** Texts that name no pitch light nothing, on any tuning. */
  lemma {:induction false} NonPitchTextsPlaceNothing(opens: seq<Pitch>, count: nat, chord: seq<Note>)
    requires forall i :: 0 <= i < |chord| ==> ParseName(chord[i]).None?
    ensures Place(FretName, opens, count, chord) == Placed({}, {})
    decreases |chord|
  {
    if chord != [] {
      var n := |chord| - 1;
      NonPitchTextsPlaceNothing(opens, count, chord[..n]);
      forall f: nat, t: nat | t < |opens| ensures FretName(opens[t], f) != chord[n] {
        NonPitchNeverSounds(chord[n], opens[t], f);
      }
      FindIsLeftmost(FretName, opens, count, {}, chord[n]);
    }
  }

  /** "X1" and "Y2" light nothing. */
  lemma UnknownNotesHighlights()
    ensures Highlighted(FretName, FiveStringGuitar.opens, FiveStringGuitar.fretCount, ["X1", "Y2"]) == {}
  {
    UnknownNotesPlaceNothing();
  }

  lemma UnknownNotesPlaceNothing()
    ensures Place(FretName, FiveStringGuitar.opens, FiveStringGuitar.fretCount, ["X1", "Y2"]) == Placed({}, {})
  {
    UnknownTextsNameNoPitch();
    NonPitchTextsPlaceNothing(FiveStringGuitar.opens, FiveStringGuitar.fretCount, ["X1", "Y2"]);
  }
}
