/**
  Concrete runs of the best-fit assignment (the ukulele's policy). Each run is
  worked out on semitone numbers (C0 = 0, so D4 = 50), where the fret of a note
  on a string is a subtraction, and then carried over to the note texts the
  component compares by `Renaming.AssignOnSemitones`. Each string's choice is
  shown first for any string of that tuning (`...Facts`), then for the string
  itself.

  Semitones used: C4 48, D4 50, E4 52, F#4 54, G4 55, A4 57, C#5 61, E5 64,
  G#5 68, A5 69, A#5 70, D6 74. Open strings: ukulele G4 55, C4 48, E4 52,
  A4 57; five-string guitar D4 50, A4 57, E5 64, A5 69, D6 74.
*/
module BestFitScenarios {
  import opened Optional
  import opened Pitches
  import opened Fretboard
  import opened OrderedSets
  import opened BestFitEngine
  import opened Renaming
  import opened NoteNames

  // ---------------------------------------------------------------------------
  // Five-string guitar, chord D4 F#4 A4 C#5 E5

  /** A string tuned to D4 reaches D4 at 0, F#4 at 4, A4 at 7, C#5 at 11, not E5;
      D4 wins. */
  lemma FiveNotesString0Facts(o: Pitch)
    requires Semitone(o) == 50
    ensures IsBestAt(SemitoneAtFret, o, [50, 54, 57, 61, 64], 14, 0, 0)
  {
    FirstFretOfSemitone(o, 50, 14);
    FirstFretOfSemitone(o, 54, 14);
    FirstFretOfSemitone(o, 57, 14);
    FirstFretOfSemitone(o, 61, 14);
    FirstFretOfSemitone(o, 64, 14);
  }

  lemma FiveNotesString0At()
    ensures IsBestAt(SemitoneAtFret, FiveStringGuitar.opens[0], [50, 54, 57, 61, 64], 14, 0, 0)
  {
    FiveNotesString0Facts(FiveStringGuitar.opens[0]);
  }

  lemma FiveNotesString0()
    ensures Best(SemitoneAtFret, FiveStringGuitar.opens[0], [50, 54, 57, 61, 64], 14) == Some(Choice(50, 0))
  {
    FiveNotesString0At();
    BestIsUnique(SemitoneAtFret, FiveStringGuitar.opens[0], [50, 54, 57, 61, 64], 14, 0, 0);
  }

  /** A string tuned to A4 reaches A4 at 0, C#5 at 4, E5 at 7, not F#4; A4 wins. */
  lemma FiveNotesString1Facts(o: Pitch)
    requires Semitone(o) == 57
    ensures IsBestAt(SemitoneAtFret, o, [54, 57, 61, 64], 14, 1, 0)
  {
    FirstFretOfSemitone(o, 54, 14);
    FirstFretOfSemitone(o, 57, 14);
    FirstFretOfSemitone(o, 61, 14);
    FirstFretOfSemitone(o, 64, 14);
  }

  lemma FiveNotesString1At()
    ensures IsBestAt(SemitoneAtFret, FiveStringGuitar.opens[1], [54, 57, 61, 64], 14, 1, 0)
  {
    FiveNotesString1Facts(FiveStringGuitar.opens[1]);
  }

  lemma FiveNotesString1()
    ensures Best(SemitoneAtFret, FiveStringGuitar.opens[1], [54, 57, 61, 64], 14) == Some(Choice(57, 0))
  {
    FiveNotesString1At();
    BestIsUnique(SemitoneAtFret, FiveStringGuitar.opens[1], [54, 57, 61, 64], 14, 1, 0);
  }

  /** A string tuned to E5 reaches only E5, at 0. */
  lemma FiveNotesString2Facts(o: Pitch)
    requires Semitone(o) == 64
    ensures IsBestAt(SemitoneAtFret, o, [54, 61, 64], 14, 2, 0)
  {
    FirstFretOfSemitone(o, 54, 14);
    FirstFretOfSemitone(o, 61, 14);
    FirstFretOfSemitone(o, 64, 14);
  }

  lemma FiveNotesString2At()
    ensures IsBestAt(SemitoneAtFret, FiveStringGuitar.opens[2], [54, 61, 64], 14, 2, 0)
  {
    FiveNotesString2Facts(FiveStringGuitar.opens[2]);
  }

  lemma FiveNotesString2()
    ensures Best(SemitoneAtFret, FiveStringGuitar.opens[2], [54, 61, 64], 14) == Some(Choice(64, 0))
  {
    FiveNotesString2At();
    BestIsUnique(SemitoneAtFret, FiveStringGuitar.opens[2], [54, 61, 64], 14, 2, 0);
  }

  /** F#4 and C#5 lie below strings 3 (A5) and 4 (D6). */
  lemma FiveNotesHighStrings(k: nat)
    requires k == 3 || k == 4
    ensures Best(SemitoneAtFret, FiveStringGuitar.opens[k], [54, 61], 14) == None
  {
    var o := FiveStringGuitar.opens[k];
    assert Semitone(o) >= 69;
    FirstFretOfSemitone(o, 54, 14);
    FirstFretOfSemitone(o, 61, 14);
    BestNoneIffUnreachable(SemitoneAtFret, o, [54, 61], 14);
  }

  const FiveNotesChoices: seq<Option<Choice<nat>>> :=
    [Some(Choice(50, 0)), Some(Choice(57, 0)), Some(Choice(64, 0)), None, None]
  const FiveNotesPools: seq<seq<nat>> :=
    [[50, 54, 57, 61, 64], [54, 57, 61, 64], [54, 61, 64], [54, 61], [54, 61], [54, 61]]

  lemma FiveNotesBest()
    ensures forall k :: 0 <= k < 5 ==>
      Best(SemitoneAtFret, FiveStringGuitar.opens[k], FiveNotesPools[k], 14) == FiveNotesChoices[k]
  {
    forall k | 0 <= k < 5
      ensures Best(SemitoneAtFret, FiveStringGuitar.opens[k], FiveNotesPools[k], 14) == FiveNotesChoices[k]
    {
      if k == 0 { FiveNotesString0(); }
      else if k == 1 { FiveNotesString1(); }
      else if k == 2 { FiveNotesString2(); }
      else { FiveNotesHighStrings(k); }
    }
  }

  lemma FiveNotesWithout()
    ensures forall k :: 0 <= k < 5 ==>
      FiveNotesPools[k + 1] == if FiveNotesChoices[k].Some?
        then Without(FiveNotesPools[k], FiveNotesChoices[k].value.note) else FiveNotesPools[k]
  {
    assert Without(FiveNotesPools[0], 50) == FiveNotesPools[1];
    assert Without(FiveNotesPools[1], 57) == FiveNotesPools[2];
    assert Without(FiveNotesPools[2], 64) == FiveNotesPools[3];
  }

  lemma FiveNotesRun()
    ensures Run(SemitoneAtFret, FiveStringGuitar.opens, 14, FiveNotesPools[0]) ==
      Pass(FiveNotesChoices, FiveNotesPools[5])
  {
    var o := FiveStringGuitar.opens;
    FiveNotesBest();
    FiveNotesWithout();
    RunTrace(SemitoneAtFret, o, 14, FiveNotesChoices, FiveNotesPools, 5);
    assert o[..5] == o && FiveNotesChoices[..5] == FiveNotesChoices;
  }

  lemma FiveNotesDistinct()
    ensures Dedup(FiveNotesPools[0]) == FiveNotesPools[0]
  {
    assert NoDup(FiveNotesPools[0]);
    DedupOfNoDup(FiveNotesPools[0]);
  }

  lemma FiveNotesOnSemitones()
    ensures Assign(SemitoneAtFret, FiveStringGuitar.opens, 14, FiveNotesPools[0]) ==
      Assignment(FiveNotesChoices, FiveNotesPools[5])
  {
    FiveNotesDistinct();
    FiveNotesRun();
  }

  lemma FiveNotesNames()
    ensures Rename(SemitoneName, FiveNotesPools[0]) == ["D4", "F#4", "A4", "C#5", "E5"]
    ensures Rename(SemitoneName, FiveNotesPools[5]) == ["F#4", "C#5"]
    ensures RenameChoices(SemitoneName, FiveNotesChoices) ==
      [Some(Choice("D4", 0)), Some(Choice("A4", 0)), Some(Choice("E5", 0)), None, None]
    ensures PositionsOf(FiveNotesChoices) == {Position(0, 0), Position(1, 0), Position(2, 0)}
  {
    NamesOfC4D4E4();
    NamesOfFs4G4A4();
    NamesOfCs5E5Gs5();
    var r := PositionsOf(FiveNotesChoices);
    assert FiveNotesChoices[0].Some? && FiveNotesChoices[1].Some? && FiveNotesChoices[2].Some?;
    assert Position(0, 0) in r && Position(1, 0) in r && Position(2, 0) in r;
  }

  /** D4 F#4 A4 C#5 E5 on the five-string guitar: D4, A4 and E5 take the open
      strings 0, 1 and 2; A5 and D6 are above every note left; F#4 and C#5
      are reported unassigned. */
  lemma FiveNotesAssignment()
    ensures Assign(FretName, FiveStringGuitar.opens, FiveStringGuitar.fretCount, ["D4", "F#4", "A4", "C#5", "E5"]) ==
      Assignment([Some(Choice("D4", 0)), Some(Choice("A4", 0)), Some(Choice("E5", 0)), None, None], ["F#4", "C#5"])
    ensures PositionsOf(Assign(FretName, FiveStringGuitar.opens, FiveStringGuitar.fretCount,
                               ["D4", "F#4", "A4", "C#5", "E5"]).choices) ==
      {Position(0, 0), Position(1, 0), Position(2, 0)}
  {
    AssignOnSemitones(FiveStringGuitar.opens, 14, FiveNotesPools[0]);
    FiveNotesOnSemitones();
    FiveNotesNames();
  }

  // ---------------------------------------------------------------------------
  // Ukulele, chord G4 G#5 A#5: the greedy pass leaves a note that fits

  /** A string tuned to G4 reaches G4 at 0 and G#5 at 13, not A#5; G4 wins. */
  lemma ThreeNotesString0Facts(o: Pitch)
    requires Semitone(o) == 55
    ensures IsBestAt(SemitoneAtFret, o, [55, 68, 70], 14, 0, 0)
  {
    FirstFretOfSemitone(o, 55, 14);
    FirstFretOfSemitone(o, 68, 14);
    FirstFretOfSemitone(o, 70, 14);
  }

  lemma ThreeNotesString0At()
    ensures IsBestAt(SemitoneAtFret, Ukulele.opens[0], [55, 68, 70], 14, 0, 0)
  {
    ThreeNotesString0Facts(Ukulele.opens[0]);
  }

  lemma ThreeNotesString0()
    ensures Best(SemitoneAtFret, Ukulele.opens[0], [55, 68, 70], 14) == Some(Choice(55, 0))
  {
    ThreeNotesString0At();
    BestIsUnique(SemitoneAtFret, Ukulele.opens[0], [55, 68, 70], 14, 0, 0);
  }

  /** G#5 and A#5 lie above the window of strings 1 (C4) and 2 (E4). */
  lemma ThreeNotesMiddleStrings(k: nat)
    requires k == 1 || k == 2
    ensures Best(SemitoneAtFret, Ukulele.opens[k], [68, 70], 14) == None
  {
    var o := Ukulele.opens[k];
    assert Semitone(o) <= 52;
    FirstFretOfSemitone(o, 68, 14);
    FirstFretOfSemitone(o, 70, 14);
    BestNoneIffUnreachable(SemitoneAtFret, o, [68, 70], 14);
  }

  /** A string tuned to A4 reaches G#5 at 11 and A#5 at 13; G#5 wins. */
  lemma ThreeNotesString3Facts(o: Pitch)
    requires Semitone(o) == 57
    ensures IsBestAt(SemitoneAtFret, o, [68, 70], 14, 0, 11)
  {
    FirstFretOfSemitone(o, 68, 14);
    FirstFretOfSemitone(o, 70, 14);
  }

  lemma ThreeNotesString3At()
    ensures IsBestAt(SemitoneAtFret, Ukulele.opens[3], [68, 70], 14, 0, 11)
  {
    ThreeNotesString3Facts(Ukulele.opens[3]);
  }

  lemma ThreeNotesString3()
    ensures Best(SemitoneAtFret, Ukulele.opens[3], [68, 70], 14) == Some(Choice(68, 11))
  {
    ThreeNotesString3At();
    BestIsUnique(SemitoneAtFret, Ukulele.opens[3], [68, 70], 14, 0, 11);
  }

  const ThreeNotesChoices: seq<Option<Choice<nat>>> := [Some(Choice(55, 0)), None, None, Some(Choice(68, 11))]
  const ThreeNotesPools: seq<seq<nat>> := [[55, 68, 70], [68, 70], [68, 70], [68, 70], [70]]

  lemma ThreeNotesBest()
    ensures forall k :: 0 <= k < 4 ==>
      Best(SemitoneAtFret, Ukulele.opens[k], ThreeNotesPools[k], 14) == ThreeNotesChoices[k]
  {
    forall k | 0 <= k < 4
      ensures Best(SemitoneAtFret, Ukulele.opens[k], ThreeNotesPools[k], 14) == ThreeNotesChoices[k]
    {
      if k == 0 { ThreeNotesString0(); }
      else if k == 3 { ThreeNotesString3(); }
      else { ThreeNotesMiddleStrings(k); }
    }
  }

  lemma ThreeNotesWithout()
    ensures forall k :: 0 <= k < 4 ==>
      ThreeNotesPools[k + 1] == if ThreeNotesChoices[k].Some?
        then Without(ThreeNotesPools[k], ThreeNotesChoices[k].value.note) else ThreeNotesPools[k]
  {
    assert Without(ThreeNotesPools[0], 55) == ThreeNotesPools[1];
    assert Without(ThreeNotesPools[3], 68) == ThreeNotesPools[4];
  }

  lemma ThreeNotesRun()
    ensures Run(SemitoneAtFret, Ukulele.opens, 14, ThreeNotesPools[0]) == Pass(ThreeNotesChoices, ThreeNotesPools[4])
  {
    var o := Ukulele.opens;
    ThreeNotesBest();
    ThreeNotesWithout();
    RunTrace(SemitoneAtFret, o, 14, ThreeNotesChoices, ThreeNotesPools, 4);
    assert o[..4] == o && ThreeNotesChoices[..4] == ThreeNotesChoices;
  }

  lemma ThreeNotesOnSemitones()
    ensures Assign(SemitoneAtFret, Ukulele.opens, 14, ThreeNotesPools[0]) ==
      Assignment(ThreeNotesChoices, ThreeNotesPools[4])
  {
    assert NoDup(ThreeNotesPools[0]);
    DedupOfNoDup(ThreeNotesPools[0]);
    ThreeNotesRun();
  }

  lemma ThreeNotesNames()
    ensures Rename(SemitoneName, ThreeNotesPools[0]) == ["G4", "G#5", "A#5"]
    ensures Rename(SemitoneName, ThreeNotesPools[4]) == ["A#5"]
    ensures RenameChoices(SemitoneName, ThreeNotesChoices) == [Some(Choice("G4", 0)), None, None, Some(Choice("G#5", 11))]
    ensures PositionsOf(ThreeNotesChoices) == {Position(0, 0), Position(3, 11)}
  {
    NamesOfFs4G4A4();
    NamesOfCs5E5Gs5();
    NamesOfA5As5D6();
    var r := PositionsOf(ThreeNotesChoices);
    assert ThreeNotesChoices[0].Some? && ThreeNotesChoices[3].Some?;
    assert Position(0, 0) in r && Position(3, 11) in r;
  }

  /** G4 G#5 A#5 on the ukulele: string 0 takes G4 open (its lowest fret), the
      C4 and E4 strings cannot reach what is left, string 3 takes G#5 at 11,
      and A#5 is reported unassigned. */
  lemma ThreeNotesAssignment()
    ensures Assign(FretName, Ukulele.opens, Ukulele.fretCount, ["G4", "G#5", "A#5"]) ==
      Assignment([Some(Choice("G4", 0)), None, None, Some(Choice("G#5", 11))], ["A#5"])
    ensures PositionsOf(Assign(FretName, Ukulele.opens, Ukulele.fretCount, ["G4", "G#5", "A#5"]).choices) ==
      {Position(0, 0), Position(3, 11)}
  {
    AssignOnSemitones(Ukulele.opens, 14, ThreeNotesPools[0]);
    ThreeNotesOnSemitones();
    ThreeNotesNames();
  }

  /** Yet all three notes fit on three different strings: G4 on string 1 (C4)
      at fret 7, G#5 on string 0 (G4) at fret 13, A#5 on string 3 (A4) at fret
      13. The per-string greedy choice is not a maximum placement. */
  lemma ThreeNotesAllFit()
    ensures 13 < Ukulele.fretCount
    ensures FretName(Ukulele.opens[1], 7) == "G4"
    ensures FretName(Ukulele.opens[0], 13) == "G#5"
    ensures FretName(Ukulele.opens[3], 13) == "A#5"
  {
    SemitoneTextsAreNames();
    assert SemitoneAtFret(Ukulele.opens[1], 7) == 55;
    assert SemitoneAtFret(Ukulele.opens[0], 13) == 68;
    assert SemitoneAtFret(Ukulele.opens[3], 13) == 70;
    NamesOfFs4G4A4();
    NamesOfCs5E5Gs5();
    NamesOfA5As5D6();
  }

  // ---------------------------------------------------------------------------
  // Five-string guitar, the component test's chord D4 A4 F#4 A5 D6

  /** A string tuned to D4 reaches D4 at 0, A4 at 7, F#4 at 4, not A5 or D6;
      D4 wins. */
  lemma TestChordString0Facts(o: Pitch)
    requires Semitone(o) == 50
    ensures IsBestAt(SemitoneAtFret, o, [50, 57, 54, 69, 74], 14, 0, 0)
  {
    FirstFretOfSemitone(o, 50, 14);
    FirstFretOfSemitone(o, 57, 14);
    FirstFretOfSemitone(o, 54, 14);
    FirstFretOfSemitone(o, 69, 14);
    FirstFretOfSemitone(o, 74, 14);
  }

  lemma TestChordString0At()
    ensures IsBestAt(SemitoneAtFret, FiveStringGuitar.opens[0], [50, 57, 54, 69, 74], 14, 0, 0)
  {
    TestChordString0Facts(FiveStringGuitar.opens[0]);
  }

  lemma TestChordString0()
    ensures Best(SemitoneAtFret, FiveStringGuitar.opens[0], [50, 57, 54, 69, 74], 14) == Some(Choice(50, 0))
  {
    TestChordString0At();
    BestIsUnique(SemitoneAtFret, FiveStringGuitar.opens[0], [50, 57, 54, 69, 74], 14, 0, 0);
  }

  /** A string tuned to A4 reaches A4 at 0 and A5 at 12, not F#4 or D6; A4 wins. */
  lemma TestChordString1Facts(o: Pitch)
    requires Semitone(o) == 57
    ensures IsBestAt(SemitoneAtFret, o, [57, 54, 69, 74], 14, 0, 0)
  {
    FirstFretOfSemitone(o, 57, 14);
    FirstFretOfSemitone(o, 54, 14);
    FirstFretOfSemitone(o, 69, 14);
    FirstFretOfSemitone(o, 74, 14);
  }

  lemma TestChordString1At()
    ensures IsBestAt(SemitoneAtFret, FiveStringGuitar.opens[1], [57, 54, 69, 74], 14, 0, 0)
  {
    TestChordString1Facts(FiveStringGuitar.opens[1]);
  }

  lemma TestChordString1()
    ensures Best(SemitoneAtFret, FiveStringGuitar.opens[1], [57, 54, 69, 74], 14) == Some(Choice(57, 0))
  {
    TestChordString1At();
    BestIsUnique(SemitoneAtFret, FiveStringGuitar.opens[1], [57, 54, 69, 74], 14, 0, 0);
  }

  /** A string tuned to E5 reaches A5 at 5 and D6 at 10, not F#4; A5 wins. */
  lemma TestChordString2Facts(o: Pitch)
    requires Semitone(o) == 64
    ensures IsBestAt(SemitoneAtFret, o, [54, 69, 74], 14, 1, 5)
  {
    FirstFretOfSemitone(o, 54, 14);
    FirstFretOfSemitone(o, 69, 14);
    FirstFretOfSemitone(o, 74, 14);
  }

  lemma TestChordString2At()
    ensures IsBestAt(SemitoneAtFret, FiveStringGuitar.opens[2], [54, 69, 74], 14, 1, 5)
  {
    TestChordString2Facts(FiveStringGuitar.opens[2]);
  }

  lemma TestChordString2()
    ensures Best(SemitoneAtFret, FiveStringGuitar.opens[2], [54, 69, 74], 14) == Some(Choice(69, 5))
  {
    TestChordString2At();
    BestIsUnique(SemitoneAtFret, FiveStringGuitar.opens[2], [54, 69, 74], 14, 1, 5);
  }

  /** A string tuned to A5 reaches D6 at 5, not F#4. */
  lemma TestChordString3Facts(o: Pitch)
    requires Semitone(o) == 69
    ensures IsBestAt(SemitoneAtFret, o, [54, 74], 14, 1, 5)
  {
    FirstFretOfSemitone(o, 54, 14);
    FirstFretOfSemitone(o, 74, 14);
  }

  lemma TestChordString3At()
    ensures IsBestAt(SemitoneAtFret, FiveStringGuitar.opens[3], [54, 74], 14, 1, 5)
  {
    TestChordString3Facts(FiveStringGuitar.opens[3]);
  }

  lemma TestChordString3()
    ensures Best(SemitoneAtFret, FiveStringGuitar.opens[3], [54, 74], 14) == Some(Choice(74, 5))
  {
    TestChordString3At();
    BestIsUnique(SemitoneAtFret, FiveStringGuitar.opens[3], [54, 74], 14, 1, 5);
  }

  /** String 4 (D6) cannot reach F#4. */
  lemma TestChordString4()
    ensures Best(SemitoneAtFret, FiveStringGuitar.opens[4], [54], 14) == None
  {
    var o := FiveStringGuitar.opens[4];
    assert Semitone(o) == 74;
    FirstFretOfSemitone(o, 54, 14);
    BestNoneIffUnreachable(SemitoneAtFret, o, [54], 14);
  }

  const TestChordChoices: seq<Option<Choice<nat>>> :=
    [Some(Choice(50, 0)), Some(Choice(57, 0)), Some(Choice(69, 5)), Some(Choice(74, 5)), None]
  const TestChordPools: seq<seq<nat>> :=
    [[50, 57, 54, 69, 74], [57, 54, 69, 74], [54, 69, 74], [54, 74], [54], [54]]

  lemma TestChordBest()
    ensures forall k :: 0 <= k < 5 ==>
      Best(SemitoneAtFret, FiveStringGuitar.opens[k], TestChordPools[k], 14) == TestChordChoices[k]
  {
    forall k | 0 <= k < 5
      ensures Best(SemitoneAtFret, FiveStringGuitar.opens[k], TestChordPools[k], 14) == TestChordChoices[k]
    {
      if k == 0 { TestChordString0(); }
      else if k == 1 { TestChordString1(); }
      else if k == 2 { TestChordString2(); }
      else if k == 3 { TestChordString3(); }
      else { TestChordString4(); }
    }
  }

  lemma TestChordWithout()
    ensures forall k :: 0 <= k < 5 ==>
      TestChordPools[k + 1] == if TestChordChoices[k].Some?
        then Without(TestChordPools[k], TestChordChoices[k].value.note) else TestChordPools[k]
  {
    assert Without(TestChordPools[0], 50) == TestChordPools[1];
    assert Without(TestChordPools[1], 57) == TestChordPools[2];
    assert Without(TestChordPools[2], 69) == TestChordPools[3];
    assert Without(TestChordPools[3], 74) == TestChordPools[4];
  }

  lemma TestChordRun()
    ensures Run(SemitoneAtFret, FiveStringGuitar.opens, 14, TestChordPools[0]) ==
      Pass(TestChordChoices, TestChordPools[5])
  {
    var o := FiveStringGuitar.opens;
    TestChordBest();
    TestChordWithout();
    RunTrace(SemitoneAtFret, o, 14, TestChordChoices, TestChordPools, 5);
    assert o[..5] == o && TestChordChoices[..5] == TestChordChoices;
  }

  lemma TestChordDistinct()
    ensures Dedup(TestChordPools[0]) == TestChordPools[0]
  {
    assert NoDup(TestChordPools[0]);
    DedupOfNoDup(TestChordPools[0]);
  }

  lemma TestChordNames()
    ensures Rename(SemitoneName, TestChordPools[0]) == ["D4", "A4", "F#4", "A5", "D6"]
    ensures Rename(SemitoneName, TestChordPools[5]) == ["F#4"]
    ensures PositionsOf(TestChordChoices) == {Position(0, 0), Position(1, 0), Position(2, 5), Position(3, 5)}
  {
    NamesOfC4D4E4();
    NamesOfFs4G4A4();
    NamesOfA5As5D6();
    var r := PositionsOf(TestChordChoices);
    assert TestChordChoices[0].Some? && TestChordChoices[1].Some?;
    assert TestChordChoices[2].Some? && TestChordChoices[3].Some?;
    assert Position(0, 0) in r && Position(1, 0) in r && Position(2, 5) in r && Position(3, 5) in r;
  }

  /** Under the best-fit policy the test chord D4 A4 F#4 A5 D6 would light
      (0, 0), (1, 0), (2, 5), (3, 5) and leave F#4 unassigned: four positions,
      as under the note-first policy, but not the same ones. */
  lemma TestChordAssignment()
    ensures Assign(FretName, FiveStringGuitar.opens, FiveStringGuitar.fretCount, ["D4", "A4", "F#4", "A5", "D6"]).unassigned ==
      ["F#4"]
    ensures PositionsOf(Assign(FretName, FiveStringGuitar.opens, FiveStringGuitar.fretCount,
                               ["D4", "A4", "F#4", "A5", "D6"]).choices) ==
      {Position(0, 0), Position(1, 0), Position(2, 5), Position(3, 5)}
  {
    AssignOnSemitones(FiveStringGuitar.opens, 14, TestChordPools[0]);
    TestChordDistinct();
    TestChordRun();
    TestChordNames();
  }
}
