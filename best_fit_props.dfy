/**
  What the best-fit assignment guarantees, for every chord and every
  instrument: sound positions, one note per string, no note on two strings,
  the per-string best fit with ties to the earlier note, and a report of
  unassigned notes that is exactly the rest of the chord in first-occurrence
  order.
*/
module BestFitProperties {
  import opened Optional
  import opened Fretboard
  import opened BestFitEngine
  import opened OrderedSets

  /** The notes still unassigned when string `i` is reached. */
  function PoolBefore<S, N(==)>(noteAt: (S, nat) -> N, opens: seq<S>, count: nat, chord: seq<N>, i: nat): seq<N>
    requires i <= |Assign(noteAt, opens, count, chord).choices|
  {
    Keep(Dedup(chord), AssignedNotes(Assign(noteAt, opens, count, chord).choices[..i]))
  }

  /** What is left for string `i` comes from the chord. */
  lemma PoolBeforeInChord<S, N>(noteAt: (S, nat) -> N, opens: seq<S>, count: nat, chord: seq<N>, i: nat, x: N)
    requires i <= |Assign(noteAt, opens, count, chord).choices|
    requires x in PoolBefore(noteAt, opens, count, chord, i)
    ensures x in chord
  {
    var gone := AssignedNotes(Assign(noteAt, opens, count, chord).choices[..i]);
    assert PoolBefore(noteAt, opens, count, chord, i) == Keep(Dedup(chord), gone);
    KeepSpec(Dedup(chord), gone);
    assert x in Dedup(chord);
    DedupSpec(chord);
  }

  /** An empty (or absent) chord highlights nothing and reports nothing. */
  lemma EmptyChord<S, N>(noteAt: (S, nat) -> N, opens: seq<S>, count: nat)
    ensures PositionsOf(Assign(noteAt, opens, count, []).choices) == {}
    ensures Assign(noteAt, opens, count, []).unassigned == []
  {
  }

  /** For a non-empty chord every string is visited, and string `i` takes the
      best fit among the notes that strings 0 .. i - 1 left: None exactly when
      none of them is reachable within the fret window, otherwise the note with
      the lowest reachable fret, the earliest such note on a tie. */
  lemma AssignIsGreedy<S, N>(noteAt: (S, nat) -> N, opens: seq<S>, count: nat, chord: seq<N>, i: nat)
    requires |chord| > 0 && i < |opens|
    ensures |Assign(noteAt, opens, count, chord).choices| == |opens|
    ensures Assign(noteAt, opens, count, chord).choices[i] == Best(noteAt, opens[i], PoolBefore(noteAt, opens, count, chord, i), count)
    ensures Assign(noteAt, opens, count, chord).choices[i].None? <==>
      forall j :: 0 <= j < |PoolBefore(noteAt, opens, count, chord, i)| ==>
        FirstFret(noteAt, opens[i], PoolBefore(noteAt, opens, count, chord, i)[j], count).None?
    ensures Assign(noteAt, opens, count, chord).choices[i].Some? ==>
      exists k: nat :: k < |PoolBefore(noteAt, opens, count, chord, i)| &&
        PoolBefore(noteAt, opens, count, chord, i)[k] == Assign(noteAt, opens, count, chord).choices[i].value.note &&
        IsBestAt(noteAt, opens[i], PoolBefore(noteAt, opens, count, chord, i), count, k,
                 Assign(noteAt, opens, count, chord).choices[i].value.fret)
  {
    RunChoices(noteAt, opens, count, Dedup(chord), i);
    BestIsBestFit(noteAt, opens[i], PoolBefore(noteAt, opens, count, chord, i), count);
  }

  /** A note committed to string `i` is a note of the chord, and the string
      sounds it at the committed fret, which lies in 0 .. fretCount - 1. */
  lemma ChoiceIsSound<S, N>(noteAt: (S, nat) -> N, opens: seq<S>, count: nat, chord: seq<N>, i: nat)
    requires i < |Assign(noteAt, opens, count, chord).choices| && Assign(noteAt, opens, count, chord).choices[i].Some?
    ensures i < |opens|
    ensures Assign(noteAt, opens, count, chord).choices[i].value.note in chord
    ensures Assign(noteAt, opens, count, chord).choices[i].value.fret < count
    ensures noteAt(opens[i], Assign(noteAt, opens, count, chord).choices[i].value.fret) ==
      Assign(noteAt, opens, count, chord).choices[i].value.note
  {
    var c := Assign(noteAt, opens, count, chord).choices[i].value;
    AssignIsGreedy(noteAt, opens, count, chord, i);
    PoolBeforeInChord(noteAt, opens, count, chord, i, c.note);
    FirstFretIsLeast(noteAt, opens[i], c.note, count);
  }

  /** No note is committed to two strings. */
  lemma NotesAreDistinct<S, N>(noteAt: (S, nat) -> N, opens: seq<S>, count: nat, chord: seq<N>, i: nat, j: nat)
    requires i < j < |Assign(noteAt, opens, count, chord).choices|
    requires Assign(noteAt, opens, count, chord).choices[i].Some? && Assign(noteAt, opens, count, chord).choices[j].Some?
    ensures Assign(noteAt, opens, count, chord).choices[i].value.note != Assign(noteAt, opens, count, chord).choices[j].value.note
  {
    var cs := Assign(noteAt, opens, count, chord).choices;
    AssignIsGreedy(noteAt, opens, count, chord, j);
    assert cs[..j][i] == cs[i];
    assert cs[i].value.note in AssignedNotes(cs[..j]);
    KeepSpec(Dedup(chord), AssignedNotes(cs[..j]));
  }

  /** The highlighted positions: at most one per string, each on an existing
      string, at a fret of the window where the string sounds a chord note. */
  lemma PositionsAreSound<S, N>(noteAt: (S, nat) -> N, opens: seq<S>, count: nat, chord: seq<N>)
    ensures forall p, q ::
      (p in PositionsOf(Assign(noteAt, opens, count, chord).choices) && q in PositionsOf(Assign(noteAt, opens, count, chord).choices) &&
       p.stringIndex == q.stringIndex) ==> p == q
    ensures forall p :: p in PositionsOf(Assign(noteAt, opens, count, chord).choices) ==>
      p.stringIndex < |opens| && p.fret < count &&
      noteAt(opens[p.stringIndex], p.fret) in chord
  {
    var cs := Assign(noteAt, opens, count, chord).choices;
    forall p | p in PositionsOf(cs)
      ensures p.stringIndex < |opens| && p.fret < count
      ensures noteAt(opens[p.stringIndex], p.fret) in chord
      ensures cs[p.stringIndex].Some? && cs[p.stringIndex].value.fret == p.fret
    {
      var i :| 0 <= i < |cs| && cs[i].Some? && Position(i, cs[i].value.fret) == p;
      ChoiceIsSound(noteAt, opens, count, chord, i);
    }
  }

  /** Assigned and unassigned notes partition the distinct notes of the chord;
      the report lists each unassigned note once, in first-occurrence order. */
  lemma UnassignedPartition<S, N>(noteAt: (S, nat) -> N, opens: seq<S>, count: nat, chord: seq<N>)
    ensures Assign(noteAt, opens, count, chord).unassigned ==
      Keep(Dedup(chord), AssignedNotes(Assign(noteAt, opens, count, chord).choices))
    ensures NoDup(Assign(noteAt, opens, count, chord).unassigned)
    ensures forall x :: x in Assign(noteAt, opens, count, chord).unassigned <==>
      x in chord && x !in AssignedNotes(Assign(noteAt, opens, count, chord).choices)
    ensures forall x :: x in AssignedNotes(Assign(noteAt, opens, count, chord).choices) ==> x in chord
    ensures InFirstOccurrenceOrder(chord, Assign(noteAt, opens, count, chord).unassigned)
  {
    var a := Assign(noteAt, opens, count, chord);
    DedupSpec(chord);
    if |chord| == 0 {
      assert AssignedNotes<N>([]) == {};
    } else {
      RunPool(noteAt, opens, count, Dedup(chord));
      forall x | x in AssignedNotes(a.choices) ensures x in chord {
        var i :| 0 <= i < |a.choices| && a.choices[i].Some? && a.choices[i].value.note == x;
        ChoiceIsSound(noteAt, opens, count, chord, i);
      }
    }
    KeepSpec(Dedup(chord), AssignedNotes(a.choices));
    KeepKeepsOrder(chord, Dedup(chord), AssignedNotes(a.choices));
  }

  /** The distinct notes of the chord come in first-occurrence order. */
  lemma DedupOrder<N>(chord: seq<N>)
    ensures InFirstOccurrenceOrder(chord, Dedup(chord))
  {
    DedupSpec(chord);
  }

  /** A note that no string reaches within the fret window is always reported
      as unassigned. */
  lemma UnreachableIsUnassigned<S, N>(noteAt: (S, nat) -> N, opens: seq<S>, count: nat, chord: seq<N>, x: N)
    requires x in chord
    requires forall i :: 0 <= i < |opens| ==> FirstFret(noteAt, opens[i], x, count).None?
    ensures x in Assign(noteAt, opens, count, chord).unassigned
  {
    var a := Assign(noteAt, opens, count, chord);
    UnassignedPartition(noteAt, opens, count, chord);
    if x in AssignedNotes(a.choices) {
      var i :| 0 <= i < |a.choices| && a.choices[i].Some? && a.choices[i].value.note == x;
      ChoiceIsSound(noteAt, opens, count, chord, i);
      AssignIsGreedy(noteAt, opens, count, chord, i);
      assert false;
    }
  }

  /** With a one-note chord, only that note can be committed. */
  lemma SingleNoteChoices<S, N>(noteAt: (S, nat) -> N, opens: seq<S>, count: nat, x: N)
    ensures Dedup([x]) == [x]
    ensures forall y :: y in AssignedNotes(Assign(noteAt, opens, count, [x]).choices) ==> y == x
  {
    assert [x][..0] == [];
    UnassignedPartition(noteAt, opens, count, [x]);
  }

  /** A one-note chord whose note is reachable on string `s` is placed. */
  lemma SingleReachableNoteIsTaken<S, N>(noteAt: (S, nat) -> N, opens: seq<S>, count: nat, x: N, s: nat)
    requires s < |opens| && FirstFret(noteAt, opens[s], x, count).Some?
    ensures x in AssignedNotes(Assign(noteAt, opens, count, [x]).choices)
  {
    var a := Assign(noteAt, opens, count, [x]);
    SingleNoteChoices(noteAt, opens, count, x);
    if x !in AssignedNotes(a.choices) {
      AssignIsGreedy(noteAt, opens, count, [x], s);
      AssignedNotesPrefix(a.choices, s);
      assert AssignedNotes(a.choices[..s]) == {};
      KeepNothing([x]);
      assert false;
    }
  }

  /** A single note reachable on at least one string is placed on exactly one
      string, at a fret where that string sounds it, and nothing is reported. */
  lemma SingleReachableNoteIsPlaced<S, N>(noteAt: (S, nat) -> N, opens: seq<S>, count: nat, x: N, s: nat)
    requires s < |opens| && FirstFret(noteAt, opens[s], x, count).Some?
    ensures Assign(noteAt, opens, count, [x]).unassigned == []
    ensures exists i ::
      && 0 <= i < |opens|
      && Assign(noteAt, opens, count, [x]).choices[i].Some?
      && Assign(noteAt, opens, count, [x]).choices[i].value.note == x
      && noteAt(opens[i], Assign(noteAt, opens, count, [x]).choices[i].value.fret) == x
      && (forall j :: 0 <= j < |opens| && j != i ==> Assign(noteAt, opens, count, [x]).choices[j].None?)
  {
    var a := Assign(noteAt, opens, count, [x]);
    SingleNoteChoices(noteAt, opens, count, x);
    SingleReachableNoteIsTaken(noteAt, opens, count, x, s);
    UnassignedPartition(noteAt, opens, count, [x]);
    assert a.unassigned == [];
    var i :| 0 <= i < |a.choices| && a.choices[i].Some? && a.choices[i].value.note == x;
    ChoiceIsSound(noteAt, opens, count, [x], i);
    forall j | 0 <= j < |opens| && j != i ensures a.choices[j].None? {
      if a.choices[j].Some? {
        assert a.choices[j].value.note in AssignedNotes(a.choices);
        if i < j {
          NotesAreDistinct(noteAt, opens, count, [x], i, j);
        } else {
          NotesAreDistinct(noteAt, opens, count, [x], j, i);
        }
      }
    }
  }
}
