# Five-string guitar and ukulele fretboards, modelled in Dafny

The repository draws two fretboards, a ukulele (G4 C4 E4 A4) and a
five-string guitar (D4 A4 E5 A5 D6), and highlights where the notes of a
chord are played. This project models the logic behind those pictures.

- **Pitch arithmetic.** `getNoteAtFret` gives the note at a fret. It uses a
  sharps-only chromatic table, so the note text is the class name followed by
  the octave number. `shiftOctave` rewrites the trailing octave digit of a
  note text.
- **Best-fit assignment.** This is the ukulele component's effect body. The
  chord is reduced to its distinct notes in first-occurrence order. Each
  string, in order, takes the still unassigned note it reaches at the lowest
  fret among frets 0..13; a tie goes to the earlier note. The notes left over
  are reported.
- **Note-first assignment.** This is the five-string component's
  `getHighlightedPositions`. Each chord note, in input order and with
  duplicates kept, takes the first free position in scan order: frets
  ascending, then strings in order. Its string is then used. A note that
  finds no position is dropped.
- **Voicings.** `spreadVoicing` and `spreadVoicingUkulele` turn a three- or
  four-note chord into a fixed pattern of its tones, some moved up by whole
  octaves. Any other chord is returned unchanged.

Both assignment engines are written once, over any tuning. A string is
described by its open note, and `noteAt(open, fret)` gives the note it
sounds at a fret. Each engine is a loop program (`method`) proved equal to a
function, and lemmas state what that function guarantees. The two
components' tunings are constants (`Fretboard.Ukulele`,
`Fretboard.FiveStringGuitar`), with 14 frets each.

The components compare note texts. `Renaming` proves that running an engine
on the names of notes, under any injective naming, is the same as running
it on the notes and naming the result. The concrete chords of the
components' own tests are therefore worked out on semitone numbers and then
carried over to texts.

Modules, one per file:

| file | module | contents |
|---|---|---|
| optional.dfy | Optional | `Option` |
| pitches.dfy | Pitches | chromatic table, `Pitch`, semitones, `NoteAtFret`, decimal text, `Name`/`ParseName` |
| fretboard.dfy | Fretboard | instruments, `FretName`, `FirstFret` (the fret loop) |
| ordered_sets.dfy | OrderedSets | JavaScript `Set`s as duplicate-free sequences in insertion order |
| best_fit.dfy | BestFitEngine | the best-fit engine: `Best`, `Run`, `Assign`, the loop methods |
| best_fit_props.dfy | BestFitProperties | what the best-fit assignment guarantees |
| note_first.dfy | NoteFirstEngine | the note-first engine: `Find`, `Place`, `Highlighted`, the loop method |
| renaming.dfy | Renaming | engines commute with injective naming |
| note_names.dfy | NoteNames | texts of the semitone numbers used below |
| best_fit_scenarios.dfy | BestFitScenarios | concrete best-fit runs |
| note_first_scenarios.dfy | NoteFirstScenarios | concrete note-first runs, the component's test cases |
| octave_shift.dfy | OctaveShift | `shiftOctave` |
| voicings.dfy | Voicings | `spreadVoicing`, `spreadVoicingUkulele` |

## Model

| member | source | states |
|---|---|---|
| Pitches.NoteAtFret | src/Ukulele/Ukulele.tsx:43-51 | the note at a fret lies exactly `fret` semitones above the open note |
| Pitches.Name | src/Ukulele/Ukulele.tsx:43-51 | the text `getNoteAtFret` builds for a pitch: the class name from the chromatic table, then the octave in decimal; characterised by `NameInjective` (distinct pitches, distinct texts) and `ParseNameOfName` (the text reads back as the pitch) |
| Pitches.ParseName | src/Ukulele/Ukulele.tsx:44-46 | the start-note reading: the class name before the digits, looked up in the table, and the octave read from the digits; None for a name outside the table or a text without a trailing octave, where the source falls back instead (see Left out). `ParseNameOfName` makes it the inverse of `Name`; `UnknownTextsNameNoPitch` shows a rejection |
| Pitches.NoteAtFretIsTransposition | src/FiveStringsGuitar/FiveStringsGuitar.tsx:21-32 | the class-index-plus-fret arithmetic (sum mod 12, octave plus sum div 12) is transposition by `fret` semitones |
| Pitches.NoteAtFretZeroAndTwelve | src/Ukulele/Ukulele.tsx:43-51 | fret 0 gives the open note; fret 12 gives the same class one octave up |
| Pitches.NoteAtFretInjective | src/Ukulele/Ukulele.tsx:76-86 | distinct frets of one string sound distinct notes, so the first match of the fret loop is the only one |
| Pitches.FromSemitone | src/Ukulele/Ukulele.tsx:47-49 | the class/octave split of a semitone number gives back that number |
| Pitches.SemitoneInjective | src/Ukulele/Ukulele.tsx:47-49 | a pitch is determined by its semitone number |
| Pitches.FromSemitoneOfSemitone | src/Ukulele/Ukulele.tsx:47-49 | splitting the semitone number of a pitch gives the pitch back |
| Pitches.Decimal | src/Ukulele/Ukulele.tsx:50 | the decimal text of the octave is a non-empty digit string |
| Pitches.DigitsValueOfDecimal | src/Ukulele/Ukulele.tsx:45 | reading the decimal text of a number back (`parseInt`) gives the number |
| Pitches.DecimalInjective | src/Ukulele/Ukulele.tsx:50 | distinct octaves get distinct texts |
| Pitches.ClassIndex | src/Ukulele/Ukulele.tsx:46 | `chromaticNotes.indexOf`: a found index holds the name; nothing found means the name is not in the table |
| Pitches.ClassIndexFrom | src/Ukulele/Ukulele.tsx:46 | the table search from index `i` finds the first matching index at or after `i`, or none |
| Pitches.ClassIndexOfName | src/Ukulele/Ukulele.tsx:21 | the twelve names are distinct, so each is found at its own index |
| Pitches.ParseNameOfName | src/Ukulele/Ukulele.tsx:44-46 | round trip: reading the class and octave of a note's text gives the note back |
| Pitches.NameInjective | src/Ukulele/Ukulele.tsx:50 | distinct pitches have distinct texts, so comparing texts, as both components do, is comparing pitches |
| Fretboard.FretName | src/Ukulele/Ukulele.tsx:43-51 | `getNoteAtFret(startNote, fret)` as text, the `Name` of `NoteAtFret`; characterised by `FretZeroIsOpen`, `FretOfPitch` and `FirstFretBySemitones` |
| Fretboard.FirstFretFrom | src/Ukulele/Ukulele.tsx:76-86 | the fret loop resumed at fret `from`, stopping at the first fret that sounds the note; characterised by `FirstFretFromIsLeast` |
| Fretboard.FirstFret | src/Ukulele/Ukulele.tsx:76-86 | the whole fret loop of one note on one string, with its `break`; characterised by `FirstFretIsLeast` |
| Fretboard.FretZeroIsOpen | src/Ukulele/Ukulele.tsx:43-51 | fret 0 of any string sounds the text of its open note |
| Fretboard.UkuleleOpenNames | src/Ukulele/Ukulele.tsx:14-19 | the tuning constant `Fretboard.Ukulele`: four strings whose open notes sound G4, C4, E4, A4, with 14 frets (the `fret < 14` of line 76) |
| Fretboard.FiveStringOpenNames | src/FiveStringsGuitar/FiveStringsGuitar.tsx:9-15 | the tuning constant `Fretboard.FiveStringGuitar`: five strings whose open notes sound D4, A4, E5, A5, D6, with 14 frets (line 45) |
| Fretboard.FirstFretIsLeast | src/Ukulele/Ukulele.tsx:76-86 | the fret loop that stops at the first match returns the least matching fret below the count, or None exactly when no fret matches |
| Fretboard.FirstFretFromIsLeast | src/Ukulele/Ukulele.tsx:76-86 | the same for the loop resumed at fret `from` |
| Fretboard.SemitoneAtFret | src/Ukulele/Ukulele.tsx:47-49 | the semitone number sounding at a fret is that of the note at the fret |
| Fretboard.FirstFretOfSemitone | src/Ukulele/Ukulele.tsx:76-86 | on semitone numbers a note is found exactly when it lies 0..count-1 semitones above the open string, at that distance |
| Fretboard.FretOfPitch | src/Ukulele/Ukulele.tsx:43-51 | a pitch at or above the open note sounds at the fret equal to its semitone distance |
| Fretboard.FirstFretBySemitones | src/Ukulele/Ukulele.tsx:76-78 | a text is found if and only if it names a pitch 0..count-1 semitones above the open note, at that distance; other texts are never found |
| Fretboard.FirstFretOfName | src/FiveStringsGuitar/FiveStringsGuitar.tsx:45-52 | for the text of a pitch, the fret found is its semitone distance from the open string when that distance is inside the window |
| Fretboard.NonPitchNeverSounds | src/FiveStringsGuitar/FiveStringsGuitar.tsx:51-52 | a text that names no pitch (such as "X1") equals no fret's note |
| OrderedSets.Dedup | src/Ukulele/Ukulele.tsx:61 | `[...new Set(chord)]`; characterised by `DedupSpec` and `DedupOfNoDup` |
| OrderedSets.Without | src/Ukulele/Ukulele.tsx:94 | `unassignedNotes.delete(note)`; characterised by `WithoutSplit`, `WithoutAbsent` and `WithoutKeep` |
| OrderedSets.Keep | src/Ukulele/Ukulele.tsx:73-74 | the notes still on offer after skipping the assigned ones; characterised by `KeepSpec`, `KeepNothing`, `KeepSnoc` and `KeepKeepsOrder` |
| OrderedSets.FirstIndex | src/Ukulele/Ukulele.tsx:61 | the index of the first occurrence holds the element and nothing before it does |
| OrderedSets.DedupSpec | src/Ukulele/Ukulele.tsx:61 | `new Set(chord)`: each note of the chord exactly once, in first-occurrence order |
| OrderedSets.DedupOfNoDup | src/Ukulele/Ukulele.tsx:61 | deduplicating a duplicate-free list changes nothing |
| OrderedSets.WithoutSplit | src/Ukulele/Ukulele.tsx:94 | `Set.delete` of an element present once removes exactly that element |
| OrderedSets.WithoutAbsent | src/Ukulele/Ukulele.tsx:94 | deleting an absent element changes nothing |
| OrderedSets.KeepSpec | src/Ukulele/Ukulele.tsx:73-74 | the notes not yet taken are exactly the pool minus the taken ones, still duplicate-free |
| OrderedSets.WithoutKeep | src/Ukulele/Ukulele.tsx:93-94 | deleting a note from the remaining pool is the same as marking it taken |
| OrderedSets.KeepNothing | src/Ukulele/Ukulele.tsx:62 | with nothing taken, the whole pool remains |
| OrderedSets.KeepDisjoint | src/Ukulele/Ukulele.tsx:73-74 | filtering out notes none of which is in the pool changes nothing |
| OrderedSets.KeepSnoc | src/Ukulele/Ukulele.tsx:73-74 | filtering the pool works element by element, in order |
| OrderedSets.OrderCons | src/Ukulele/Ukulele.tsx:99 | putting a note that occurs earlier in the chord in front keeps first-occurrence order |
| OrderedSets.KeepKeepsOrder | src/Ukulele/Ukulele.tsx:99 | removing notes keeps first-occurrence order |
| BestFitEngine.Assign | src/Ukulele/Ukulele.tsx:59-101 | the effect body as a value: an empty chord highlights nothing and reports nothing; otherwise the string pass over the distinct notes, whose positions are highlighted and whose leftover pool is reported. Characterised by `AssignIsGreedy`, `ChoiceIsSound`, `NotesAreDistinct`, `PositionsAreSound` and `UnassignedPartition`; `AssignBestFit` is the loop program proved equal to it |
| BestFitEngine.Best | src/Ukulele/Ukulele.tsx:73-87 | a chosen note is in the pool and the string sounds it at the chosen fret, which is its first fret |
| BestFitEngine.BestNoneIffUnreachable | src/Ukulele/Ukulele.tsx:71-91 | a string gets no note exactly when no remaining note is reachable on it |
| BestFitEngine.BestIndex | src/Ukulele/Ukulele.tsx:71-87 | a chosen note sits at an index of the pool where it is the best fit: lowest first fret, and every earlier note strictly higher |
| BestFitEngine.BestIsBestFit | src/Ukulele/Ukulele.tsx:71-87 | the choice for a string is None exactly when nothing is reachable, and otherwise the lowest-fret note with ties going to the earlier note (strict `<`) |
| BestFitEngine.BestIsUnique | src/Ukulele/Ukulele.tsx:71-87 | conversely, any note and fret meeting that description are the ones chosen |
| BestFitEngine.BestSnoc | src/Ukulele/Ukulele.tsx:81-83 | one more candidate replaces the best so far only at a strictly lower fret |
| BestFitEngine.Run | src/Ukulele/Ukulele.tsx:70-96 | the string loop makes one choice per string |
| BestFitEngine.AssignedNotesPrefix | src/Ukulele/Ukulele.tsx:93 | the notes assigned by the first strings are among those assigned by all |
| BestFitEngine.AppendChoice | src/Ukulele/Ukulele.tsx:91-95 | one more string adds its note to the assigned set and its position to the highlights |
| BestFitEngine.RunPool | src/Ukulele/Ukulele.tsx:93-94 | the pool after the pass is the starting pool minus the notes assigned, order kept |
| BestFitEngine.RunPrefix | src/Ukulele/Ukulele.tsx:70 | the first `i` strings make the first `i` choices |
| BestFitEngine.RunChoices | src/Ukulele/Ukulele.tsx:70-95 | string `i` takes the best fit among the notes strings 0..i-1 left |
| BestFitEngine.RunTrace | src/Ukulele/Ukulele.tsx:70-96 | conversely, choices and pools that follow the loop step by step are the pass |
| BestFitEngine.BestFitOnString | src/Ukulele/Ukulele.tsx:71-88 | the candidate loop, skipping assigned notes and breaking at each note's first matching fret, returns `Best` of the notes not yet assigned |
| BestFitEngine.DistinctNotes | src/Ukulele/Ukulele.tsx:61 | the loop building `new Set(chord)` returns the deduplicated chord |
| BestFitEngine.AssignBestFit | src/Ukulele/Ukulele.tsx:59-101 | the effect body returns the highlighted positions and the unassigned list of `Assign` |
| BestFitProperties.PoolBeforeInChord | src/Ukulele/Ukulele.tsx:61 | every note still on offer to a string comes from the chord |
| BestFitProperties.EmptyChord | src/Ukulele/Ukulele.tsx:64-67 | an empty (or absent) chord highlights nothing and reports an empty list |
| BestFitProperties.AssignIsGreedy | src/Ukulele/Ukulele.tsx:70-95 | for a non-empty chord every string is visited and takes the lowest-fret remaining note (earliest on a tie), or nothing exactly when none is reachable |
| BestFitProperties.ChoiceIsSound | src/Ukulele/Ukulele.tsx:76-82 | a note given to a string is in the chord, at a fret in 0..count-1 where the string sounds it |
| BestFitProperties.NotesAreDistinct | src/Ukulele/Ukulele.tsx:73-74 | no note is given to two strings |
| BestFitProperties.PositionsAreSound | src/Ukulele/Ukulele.tsx:92 | at most one highlight per string, each on an existing string, inside the window, sounding a chord note |
| BestFitProperties.UnassignedPartition | src/Ukulele/Ukulele.tsx:99 | the report is the deduplicated chord minus the assigned notes, duplicate-free and in first-occurrence order; assigned and unassigned notes partition the chord's notes |
| BestFitProperties.DedupOrder | src/Ukulele/Ukulele.tsx:61 | the distinct notes come in first-occurrence order |
| BestFitProperties.UnreachableIsUnassigned | src/Ukulele/Ukulele.tsx:76-78 | a note no string reaches in the window is always reported unassigned |
| BestFitProperties.SingleNoteChoices | src/Ukulele/Ukulele.tsx:61 | with a one-note chord only that note can be assigned |
| BestFitProperties.SingleReachableNoteIsTaken | src/Ukulele/Ukulele.tsx:70-95 | a one-note chord reachable on some string is assigned |
| BestFitProperties.SingleReachableNoteIsPlaced | src/Ukulele/Ukulele.tsx:70-99 | such a note goes to exactly one string, where that string sounds it, and nothing is reported |
| BestFitScenarios.FiveNotesAssignment | src/Ukulele/Ukulele.tsx:59-101 | on the five-string tuning, D4 F#4 A4 C#5 E5 puts D4, A4, E5 on strings 0-2 at fret 0 and reports [F#4, C#5] |
| BestFitScenarios.ThreeNotesAssignment | src/Ukulele/Ukulele.tsx:59-101 | on the ukulele, G4 G#5 A#5 puts G4 on string 0 at fret 0 and G#5 on string 3 at fret 11, and reports [A#5] |
| BestFitScenarios.ThreeNotesAllFit | src/Ukulele/Ukulele.tsx:76 | yet all three notes fit on distinct strings inside the window (G4 on string 1 at 7, G#5 on string 0 at 13, A#5 on string 3 at 13): the greedy pass is not a maximum matching |
| BestFitScenarios.TestChordAssignment | src/FiveStringsGuitar/FiveStringsGuitar.test.tsx:19-25 | under best fit, the five-string test chord D4 A4 F#4 A5 D6 lights (0,0), (1,0), (2,5), (3,5) and reports [F#4] |
| NoteFirstEngine.Scan | src/FiveStringsGuitar/FiveStringsGuitar.tsx:44-59 | the scan for one note from (fret, string): frets ascending, strings in order, the first string not yet used that sounds the note; characterised by `ScanIsLeast` |
| NoteFirstEngine.Find | src/FiveStringsGuitar/FiveStringsGuitar.tsx:44-58 | the whole scan for one note, with `break outerLoop` at the first hit; characterised by `FindIsLeftmost` and `FindIsUnique` |
| NoteFirstEngine.Mark | src/FiveStringsGuitar/FiveStringsGuitar.tsx:54-56 | a found position is highlighted and its string used; no position changes nothing; see `NoteTakesLeftmostFree` and `NoteWithoutFreeFitIsDropped` |
| NoteFirstEngine.Place | src/FiveStringsGuitar/FiveStringsGuitar.tsx:42-62 | the state after the note loop over a chord prefix; characterised by `PlaceOnUsedStrings`, `PlaceOnePerString`, `PlaceCount` and `PlaceTrace` |
| NoteFirstEngine.Highlighted | src/FiveStringsGuitar/FiveStringsGuitar.tsx:35-65 | `getHighlightedPositions`: empty for an empty chord, otherwise the highlights the note loop leaves; characterised by `HighlightsAreSound`, `HighlightCount` and `EmptyChordHighlightsNothing`; `HighlightedPositions` is the loop program proved equal to it |
| NoteFirstEngine.ScanIsLeast | src/FiveStringsGuitar/FiveStringsGuitar.tsx:45-59 | the resumed scan returns the first fitting free position from its starting point on, or None when there is none |
| NoteFirstEngine.FindIsLeftmost | src/FiveStringsGuitar/FiveStringsGuitar.tsx:45-59 | a note's scan stops at the least (fret, string) pair on a free string that sounds it; it finds nothing exactly when no free string sounds it in the window |
| NoteFirstEngine.FindIsUnique | src/FiveStringsGuitar/FiveStringsGuitar.tsx:45-59 | conversely, the first fitting position in scan order is the one found |
| NoteFirstEngine.PlaceOnUsedStrings | src/FiveStringsGuitar/FiveStringsGuitar.tsx:54-56 | every highlight is on an existing, used string, inside the window, sounding a chord note |
| NoteFirstEngine.PlaceOnePerString | src/FiveStringsGuitar/FiveStringsGuitar.tsx:37 | at most one highlight per string |
| NoteFirstEngine.PlaceCount | src/FiveStringsGuitar/FiveStringsGuitar.tsx:42-59 | as many highlights as used strings, at most one per chord note |
| NoteFirstEngine.FewerThanBound | src/FiveStringsGuitar/FiveStringsGuitar.tsx:47 | there are no more used strings than strings |
| NoteFirstEngine.HighlightCount | src/FiveStringsGuitar/FiveStringsGuitar.tsx:42-59 | no more highlights than chord notes and than strings |
| NoteFirstEngine.HighlightsAreSound | src/FiveStringsGuitar/FiveStringsGuitar.tsx:49-56 | at most one highlight per string, each on an existing string at a fret in 0..count-1 where the string sounds a chord note |
| NoteFirstEngine.EmptyChordHighlightsNothing | src/FiveStringsGuitar/FiveStringsGuitar.tsx:39 | an empty (or absent) chord highlights nothing |
| NoteFirstEngine.NoteTakesLeftmostFree | src/FiveStringsGuitar/FiveStringsGuitar.tsx:42-58 | a note that some free string sounds takes the first such position in scan order and uses its string; earlier notes claim first |
| NoteFirstEngine.NoteWithoutFreeFitIsDropped | src/FiveStringsGuitar/FiveStringsGuitar.tsx:42-61 | a note that no free string sounds in the window changes nothing |
| NoteFirstEngine.PlaceSingle | src/FiveStringsGuitar/FiveStringsGuitar.tsx:42-58 | a one-note chord is placed by one scan over all strings: it lights the first position that sounds it, or nothing |
| NoteFirstEngine.PlaceTrace | src/FiveStringsGuitar/FiveStringsGuitar.tsx:42-62 | states that follow the note loop step by step are the loop's states |
| NoteFirstEngine.HighlightedPositions | src/FiveStringsGuitar/FiveStringsGuitar.tsx:35-65 | the loop program with `break outerLoop` returns `Highlighted` |
| NoteFirstScenarios.TestChordHighlights | src/FiveStringsGuitar/FiveStringsGuitar.test.tsx:19-25 | D4 A4 F#4 A5 D6 lights exactly (0,0), (1,0), (3,0), (4,0): four positions, not the five the test expects |
| NoteFirstScenarios.D4AndFs4OnlyOnString0 | src/FiveStringsGuitar/FiveStringsGuitar.tsx:9-15 | on this tuning D4 and F#4 sound only on string 0 (at 0 and 4), so no one-note-per-string placement lights both |
| NoteFirstScenarios.SingleNoteHighlights | src/FiveStringsGuitar/FiveStringsGuitar.test.tsx:27-33 | D4 lights exactly (0,0) |
| NoteFirstScenarios.RepeatedChordHighlights | src/FiveStringsGuitar/FiveStringsGuitar.test.tsx:35-41 | D4 D4 A4 lights exactly (0,0) and (1,0): the second D4 is dropped |
| NoteFirstScenarios.NonPitchTextsPlaceNothing | src/FiveStringsGuitar/FiveStringsGuitar.tsx:51-52 | on any tuning, texts that name no pitch light nothing |
| NoteFirstScenarios.UnknownTextsNameNoPitch | src/FiveStringsGuitar/FiveStringsGuitar.test.tsx:44 | "X1" and "Y2" name no pitch |
| NoteFirstScenarios.UnknownNotesHighlights | src/FiveStringsGuitar/FiveStringsGuitar.test.tsx:43-49 | X1 Y2 lights nothing |
| NoteFirstScenarios.LowNoteHighlights | src/FiveStringsGuitar/FiveStringsGuitar.test.tsx:51-57 | F#4 lights exactly (0,4), the least fret of any string |
| Renaming.Rename | src/Ukulele/Ukulele.tsx:50 | naming a sequence names each element in place |
| Renaming.RenameChoices | src/Ukulele/Ukulele.tsx:82 | naming choices names each one in place |
| Renaming.RenameIn | src/Ukulele/Ukulele.tsx:78 | under an injective naming a name is in the named list exactly when the note is in the list |
| Renaming.RenameFirstFret | src/Ukulele/Ukulele.tsx:76-86 | the fret loop on names finds the same fret as on notes |
| Renaming.RenameBest | src/Ukulele/Ukulele.tsx:73-87 | the best fit on names is the named best fit on notes |
| Renaming.RenameWithout | src/Ukulele/Ukulele.tsx:94 | deleting a name is deleting the note, then naming |
| Renaming.RenameDedup | src/Ukulele/Ukulele.tsx:61 | deduplicating names is deduplicating notes, then naming |
| Renaming.RenameRun | src/Ukulele/Ukulele.tsx:70-96 | the string pass on names makes the named choices and leaves the named pool |
| Renaming.RenamePositions | src/Ukulele/Ukulele.tsx:92 | naming keeps the positions |
| Renaming.RenameAssign | src/Ukulele/Ukulele.tsx:59-101 | best fit on the names of a chord is best fit on the chord, named: same positions, named choices, named report |
| Renaming.RenameScan | src/FiveStringsGuitar/FiveStringsGuitar.tsx:45-59 | the note-first scan on a name finds what it finds on the note |
| Renaming.RenamePlace | src/FiveStringsGuitar/FiveStringsGuitar.tsx:42-62 | the note loop on names leaves the same state as on notes |
| Renaming.RenameHighlighted | src/FiveStringsGuitar/FiveStringsGuitar.tsx:35-65 | note-first highlights of the names of a chord are those of the chord |
| Renaming.SemitoneNameOfPitch | src/Ukulele/Ukulele.tsx:47-50 | the text of a pitch is the text of its semitone number |
| Renaming.SemitoneTextsAreNames | src/Ukulele/Ukulele.tsx:43-51 | texts of semitone numbers are an injective naming, and the note text at a fret is the name of the semitone number there |
| Renaming.AssignOnSemitones | src/Ukulele/Ukulele.tsx:59-101 | best fit on a chord of pitch texts is best fit on their semitone numbers, named |
| Renaming.HighlightedOnSemitones | src/FiveStringsGuitar/FiveStringsGuitar.tsx:35-65 | note-first highlights of pitch texts are those of their semitone numbers |
| OctaveShift.ShiftOctave | src/FiveStringsGuitar/FiveStringsGuitar.utils.tsx:3-7 | `shiftOctave` (the same code is at src/Ukulele/Ukulele.utils.tsx:3-7): the text without its last character, followed by the text of that digit plus `shift`, or "NaN" when the last character is no digit; characterised by `ShiftOctaveRewritesLastDigit`, `ShiftOctaveRoundTrip` and `ShiftOctaveOfName` |
| OctaveShift.Base | src/FiveStringsGuitar/FiveStringsGuitar.utils.tsx:4 | `note.slice(0, -1)`: the note is the base followed by its last character; empty for empty text |
| OctaveShift.LastDigit | src/FiveStringsGuitar/FiveStringsGuitar.utils.tsx:5 | `parseInt` of the last character is a number exactly when that character is a digit, and it is that digit's value |
| OctaveShift.IntText | src/FiveStringsGuitar/FiveStringsGuitar.utils.tsx:6 | `toString` of an integer: its decimal digits, after a '-' when negative |
| OctaveShift.ShiftOctaveRewritesLastDigit | src/FiveStringsGuitar/FiveStringsGuitar.utils.tsx:3-7 | all but the last character are kept; a digit `d` with `d + shift` in 0..9 becomes that digit; no trailing digit gives base + "NaN" |
| OctaveShift.ShiftOctaveZero | src/Ukulele/Ukulele.utils.tsx:3-7 | shifting by 0 leaves a text with a trailing digit unchanged |
| OctaveShift.ShiftOctaveCompose | src/Ukulele/Ukulele.utils.tsx:3-7 | two shifts make one while the intermediate octave is a single digit |
| OctaveShift.ShiftOctaveRoundTrip | src/FiveStringsGuitar/FiveStringsGuitar.utils.tsx:3-7 | shifting by `k` then `-k` gives the note back when the shifted octave stays in 0..9 |
| OctaveShift.ShiftOctaveOfName | src/FiveStringsGuitar/FiveStringsGuitar.utils.tsx:3-7 | on a pitch text with a one-digit octave, shifting by `k` moves the pitch `k` octaves, class kept |
| OctaveShift.ShiftOctaveExamples | src/Ukulele/Ukulele.utils.test.tsx:5-19 | D4+1 = D5, F#4+1 = F#5, G4-1 = G3, A#5-1 = A#4, C3+2 = C5 |
| Voicings.SpreadVoicing | src/FiveStringsGuitar/FiveStringsGuitar.utils.tsx:9-39 | output length 5 for a triad, 6 for a tetrad, and otherwise the chord itself; the bass is the first chord tone |
| Voicings.SpreadVoicingUkulele | src/Ukulele/Ukulele.utils.tsx:9-32 | output length 4 for a triad or tetrad and the chord's length otherwise; the output starts with the whole chord, so a tetrad or any other size comes back unchanged |
| Voicings.Up | src/FiveStringsGuitar/FiveStringsGuitar.utils.tsx:18-20 | moving up `k` octaves keeps the class and adds 12k semitones |
| Voicings.Texts | src/FiveStringsGuitar/FiveStringsGuitar.utils.tsx:12 | the texts of a list of pitches, element by element |
| Voicings.SpreadVoicingOfTexts | src/FiveStringsGuitar/FiveStringsGuitar.utils.tsx:10-34 | for any naming under which `shiftOctave` by 1 or 2 moves a tone that many octaves up, `spreadVoicing` of the names is the named reference voicing |
| Voicings.SpreadTriadOfTexts | src/FiveStringsGuitar/FiveStringsGuitar.utils.tsx:10-21 | the same for the triad pattern [i1, i3, i2+1, i3+1, i1+2] |
| Voicings.SpreadTetradOfTexts | src/FiveStringsGuitar/FiveStringsGuitar.utils.tsx:22-34 | the same for the tetrad pattern [i1, i3, i2+1, i4+1, i3+1, i1+2] |
| Voicings.SpreadVoicingOfPitches | src/FiveStringsGuitar/FiveStringsGuitar.utils.tsx:9-39 | on texts of pitches with one-digit octaves, `spreadVoicing` is the reference voicing on pitches |
| Voicings.SpreadPitchesKeepsTones | src/FiveStringsGuitar/FiveStringsGuitar.utils.tsx:10-34 | only octaves change: each voice is a chord tone moved up 0-2 octaves, every tone is voiced, the bass is the root and the top voice is the root two octaves up |
| Voicings.SpreadTriadAscends | src/FiveStringsGuitar/FiveStringsGuitar.utils.tsx:10-21 | a close-position triad spreads into strictly ascending voices |
| Voicings.SpreadTetradIsDistinct | src/FiveStringsGuitar/FiveStringsGuitar.utils.tsx:22-34 | a close-position tetrad spreads into distinct voices within two octaves of the root, not in ascending order |
| Voicings.SpreadVoicingUkuleleOfPitches | src/Ukulele/Ukulele.utils.tsx:10-31 | on pitch texts, a triad gets its root one octave up appended (when the root, the only tone shifted, has a one-digit octave); any other chord is returned as it is |
| Voicings.SpreadTriadExample | src/Ukulele/Ukulele.utils.test.tsx:22-32 | D4 F#4 A4 becomes D4 A4 F#5 A5 D6 |
| Voicings.SpreadTetradExample | src/Ukulele/Ukulele.utils.test.tsx:34-45 | D4 F#4 A4 C5 becomes D4 A4 F#5 C6 A5 D6 |
| Voicings.SpreadOtherSizesExample | src/Ukulele/Ukulele.utils.test.tsx:47-53 | five- and two-note chords come back unchanged |
| Voicings.UkuleleTriadExample | src/Ukulele/Ukulele.utils.tsx:10-18 | C4 E4 G4 becomes C4 E4 G4 C5 |

## Left out

- Rendering is not modelled: the SVG drawing, colours (`noteColors`, `getNoteColor`), inlays, layout constants and string thickness. They compute nothing that the assignment uses.
- React state and effects are not modelled. The best-fit effect is modelled as returning the highlighted positions and the unassigned list (`BestFitEngine.AssignBestFit`), instead of calling `setHighlightedPositions` and `onUnassignedNotes`.
- An absent chord is modelled as the empty chord; both components treat the two the same way.
- Positions are pairs (`Fretboard.Position`), not the "string-fret" key texts; the key texts are one-to-one with the pairs.
- The start-note parsing fallbacks of `getNoteAtFret` are not modelled: the default octave '4' when the text has no digits, and `indexOf` returning -1. Tunings are `Pitch` values, and every tuning in both components is a well-formed note text.
- `getNoteAtFret` and `shiftOctave` each appear twice in the source with the same code. Each is modelled once: `Pitches.NoteAtFret`/`Fretboard.FretName` and `OctaveShift.ShiftOctave`.
- The `console.warn` of both voicing functions is left out.
- Both components search 14 frets. The engines take the fret count as a parameter, and the instruments fix it to 14.
- Pitch octaves are natural numbers. The source reads them with `\d+`, so they are never negative.
- OctaveShift.ShiftOctaveOfName: shown only for pitch texts with a single-digit octave. `shiftOctave` reads only the last character, so a text with a two-digit octave is not shifted as a pitch (the general lemma `ShiftOctaveRewritesLastDigit` states what happens to any text).
- Voicings.SpreadVoicingOfPitches: stated for chords whose octaves are single digits, for the same reason.
- Voicings.SpreadVoicingUkuleleOfPitches: for a triad, the root (the only tone shifted) must have a single-digit octave, for the same reason.
- OctaveShift.ShiftOctave: the shift is an integer. A fractional, NaN or very large JavaScript number, where `toString` would print a fraction or exponent notation, is not modelled; every caller passes 1, 2 or -1.
- The test at src/FiveStringsGuitar/FiveStringsGuitar.test.tsx:19-25 expects five highlights for D4 A4 F#4 A5 D6, but the code lights four. `NoteFirstScenarios.TestChordHighlights` proves the four. `NoteFirstScenarios.D4AndFs4OnlyOnString0` shows that D4 and F#4 both sound only on string 0, so no placement with one note per string can reach five. This is a wrong test expectation, not a defect of the code.
