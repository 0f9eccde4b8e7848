/**
  The note-first assignment of the five-string guitar component
  (`getHighlightedPositions`), written once for any tuning in the same way as
  the best-fit engine (open notes of type `S`, notes of type `N`, and
  `noteAt` for the note at a fret). The chord is
  taken as given, duplicates included. Each note in turn claims the first
  position of the scan order (frets ascending, and at each fret the strings in
  order) where a string not yet used sounds it; that string is then used.
  Notes that find no such position are dropped silently.

  `HighlightedPositions` is the loop program; `Place` is the same computation
  as a function, and the lemmas below state what the result means.
*/
module NoteFirstEngine {
  import opened Optional
  import opened Fretboard

  /** String `s` is not used yet and sounds `note` at `fret`. */
  predicate Fits<S, N(==)>(noteAt: (S, nat) -> N, opens: seq<S>, used: set<nat>, note: N, s: nat, fret: nat)
  {
    s < |opens| && s !in used && noteAt(opens[s], fret) == note
  }

  /** Position (f, t) comes strictly before position (fret, s) in the scan
      order: lower fret first, then lower string. */
  predicate Before(f: nat, t: nat, fret: nat, s: nat)
  {
    f < fret || (f == fret && t < s)
  }

  /** The scan for one chord note, resumed at fret `fret`, string `s`. */
  function Scan<S, N(==)>(noteAt: (S, nat) -> N, opens: seq<S>, count: nat, used: set<nat>, note: N, fret: nat, s: nat): Option<Position>
    decreases count - fret, |opens| - s
  {
    if fret >= count then None
    else if s >= |opens| then Scan(noteAt, opens, count, used, note, fret + 1, 0)
    else if s !in used && noteAt(opens[s], fret) == note then Some(Position(s, fret))
    else Scan(noteAt, opens, count, used, note, fret, s + 1)
  }

  /** The whole scan for one chord note. */
  function Find<S, N(==)>(noteAt: (S, nat) -> N, opens: seq<S>, count: nat, used: set<nat>, note: N): Option<Position>
  {
    Scan(noteAt, opens, count, used, note, 0, 0)
  }

  lemma {:induction false} ScanIsLeast<S, N>(noteAt: (S, nat) -> N, opens: seq<S>, count: nat, used: set<nat>, note: N, fret: nat, s: nat)
    ensures Scan(noteAt, opens, count, used, note, fret, s).Some? ==>
      var p := Scan(noteAt, opens, count, used, note, fret, s).value;
      p.fret < count && !Before(p.fret, p.stringIndex, fret, s) &&
      Fits(noteAt, opens, used, note, p.stringIndex, p.fret) &&
      forall f: nat, t: nat :: !Before(f, t, fret, s) && Before(f, t, p.fret, p.stringIndex) ==>
        !Fits(noteAt, opens, used, note, t, f)
    ensures Scan(noteAt, opens, count, used, note, fret, s).None? ==>
      forall f: nat, t: nat :: !Before(f, t, fret, s) && f < count ==> !Fits(noteAt, opens, used, note, t, f)
    decreases count - fret, |opens| - s
  {
    if fret < count {
      if s >= |opens| {
        ScanIsLeast(noteAt, opens, count, used, note, fret + 1, 0);
      } else if !(s !in used && noteAt(opens[s], fret) == note) {
        ScanIsLeast(noteAt, opens, count, used, note, fret, s + 1);
      }
    }
  }

  /** A note's scan ends at the first free position, in scan order, where a
      string sounds it; it finds nothing exactly when no free string sounds it
      at any fret of the window. */
  lemma FindIsLeftmost<S, N>(noteAt: (S, nat) -> N, opens: seq<S>, count: nat, used: set<nat>, note: N)
    ensures Find(noteAt, opens, count, used, note).Some? ==>
      var p := Find(noteAt, opens, count, used, note).value;
      p.fret < count && Fits(noteAt, opens, used, note, p.stringIndex, p.fret) &&
      forall f: nat, t: nat :: Before(f, t, p.fret, p.stringIndex) ==> !Fits(noteAt, opens, used, note, t, f)
    ensures Find(noteAt, opens, count, used, note).None? <==>
      forall f: nat, t: nat :: f < count ==> !Fits(noteAt, opens, used, note, t, f)
  {
    ScanIsLeast(noteAt, opens, count, used, note, 0, 0);
  }

  /** Conversely, the first fitting position in scan order is the one found. */
  lemma FindIsUnique<S, N>(noteAt: (S, nat) -> N, opens: seq<S>, count: nat, used: set<nat>, note: N, s: nat, fret: nat)
    requires fret < count && Fits(noteAt, opens, used, note, s, fret)
    requires forall f: nat, t: nat :: Before(f, t, fret, s) ==> !Fits(noteAt, opens, used, note, t, f)
    ensures Find(noteAt, opens, count, used, note) == Some(Position(s, fret))
  {
    FindIsLeftmost(noteAt, opens, count, used, note);
    var p := Find(noteAt, opens, count, used, note).value;
    assert !Before(p.fret, p.stringIndex, fret, s);
    assert !Before(fret, s, p.fret, p.stringIndex);
  }

  // ---------------------------------------------------------------------------
  // The pass over the chord

  /** The two sets of the source: highlighted positions and used strings. */
  datatype Placed = Placed(highlights: set<Position>, used: set<nat>)

  /** The note loop: each note, in input order, claims what `Find` returns. */
  function Place<S, N(==)>(noteAt: (S, nat) -> N, opens: seq<S>, count: nat, chord: seq<N>): Placed
    decreases |chord|
  {
    if chord == [] then Placed({}, {})
    else
      var prev := Place(noteAt, opens, count, chord[..|chord| - 1]);
      Mark(prev, Find(noteAt, opens, count, prev.used, chord[|chord| - 1]))
  }

  /** One chord note's effect: a found position is highlighted and its string
      used; a note that found none leaves everything as it was. */
  function Mark(prev: Placed, found: Option<Position>): Placed
  {
    match found
    case None => prev
    case Some(p) => Placed(prev.highlights + {p}, prev.used + {p.stringIndex})
  }

  /** `getHighlightedPositions` for any instrument; an empty (or absent) chord
      returns at once. */
  function Highlighted<S, N(==)>(noteAt: (S, nat) -> N, opens: seq<S>, count: nat, chord: seq<N>): set<Position>
  {
    if |chord| == 0 then {} else Place(noteAt, opens, count, chord).highlights
  }

  /** After any prefix of the chord, every position is on an existing string
      that is marked used, at a fret of the window where that string sounds a
      note of the chord, and every used string exists. */
  lemma {:induction false} PlaceOnUsedStrings<S, N>(noteAt: (S, nat) -> N, opens: seq<S>, count: nat, chord: seq<N>)
    ensures forall p :: p in Place(noteAt, opens, count, chord).highlights ==>
      p.stringIndex in Place(noteAt, opens, count, chord).used &&
      p.stringIndex < |opens| && p.fret < count &&
      noteAt(opens[p.stringIndex], p.fret) in chord
    ensures forall s :: s in Place(noteAt, opens, count, chord).used ==> s < |opens|
    decreases |chord|
  {
    if chord != [] {
      var n := |chord| - 1;
      var prev := Place(noteAt, opens, count, chord[..n]);
      PlaceOnUsedStrings(noteAt, opens, count, chord[..n]);
      assert forall x :: x in chord[..n] ==> x in chord;
      FindIsLeftmost(noteAt, opens, count, prev.used, chord[n]);
    }
  }

  /** A string carries at most one highlighted position. */
  lemma {:induction false} PlaceOnePerString<S, N>(noteAt: (S, nat) -> N, opens: seq<S>, count: nat, chord: seq<N>)
    ensures forall p, q ::
      (p in Place(noteAt, opens, count, chord).highlights && q in Place(noteAt, opens, count, chord).highlights &&
       p.stringIndex == q.stringIndex) ==> p == q
    decreases |chord|
  {
    if chord != [] {
      var n := |chord| - 1;
      var prev := Place(noteAt, opens, count, chord[..n]);
      PlaceOnePerString(noteAt, opens, count, chord[..n]);
      PlaceOnUsedStrings(noteAt, opens, count, chord[..n]);
      FindIsLeftmost(noteAt, opens, count, prev.used, chord[n]);
    }
  }

  /** There are as many positions as used strings, at most one per note. */
  lemma {:induction false} PlaceCount<S, N>(noteAt: (S, nat) -> N, opens: seq<S>, count: nat, chord: seq<N>)
    ensures |Place(noteAt, opens, count, chord).highlights| == |Place(noteAt, opens, count, chord).used| <= |chord|
    decreases |chord|
  {
    if chord != [] {
      var n := |chord| - 1;
      var prev := Place(noteAt, opens, count, chord[..n]);
      PlaceCount(noteAt, opens, count, chord[..n]);
      PlaceOnUsedStrings(noteAt, opens, count, chord[..n]);
      FindIsLeftmost(noteAt, opens, count, prev.used, chord[n]);
      match Find(noteAt, opens, count, prev.used, chord[n])
      case None =>
      case Some(p) =>
        assert p !in prev.highlights;
    }
  }

  /** Each used string index is below `n`: there are at most `n` of them. */
  lemma {:induction false} FewerThanBound(u: set<nat>, n: nat)
    requires forall s :: s in u ==> s < n
    ensures |u| <= n
    decreases n
  {
    if n > 0 {
      FewerThanBound(u - {n - 1}, n - 1);
    }
  }

  /** No more highlights than chord notes, and no more than strings. */
  lemma HighlightCount<S, N>(noteAt: (S, nat) -> N, opens: seq<S>, count: nat, chord: seq<N>)
    ensures |Highlighted(noteAt, opens, count, chord)| <= |chord|
    ensures |Highlighted(noteAt, opens, count, chord)| <= |opens|
  {
    PlaceOnUsedStrings(noteAt, opens, count, chord);
    PlaceCount(noteAt, opens, count, chord);
    FewerThanBound(Place(noteAt, opens, count, chord).used, |opens|);
  }

  /** The highlighted positions: at most one per string, each on an existing
      string, at a fret of the window where that string sounds a chord note. */
  lemma HighlightsAreSound<S, N>(noteAt: (S, nat) -> N, opens: seq<S>, count: nat, chord: seq<N>)
    ensures forall p, q ::
      (p in Highlighted(noteAt, opens, count, chord) && q in Highlighted(noteAt, opens, count, chord) &&
       p.stringIndex == q.stringIndex) ==> p == q
    ensures forall p :: p in Highlighted(noteAt, opens, count, chord) ==>
      p.stringIndex < |opens| && p.fret < count &&
      noteAt(opens[p.stringIndex], p.fret) in chord
  {
    PlaceOnUsedStrings(noteAt, opens, count, chord);
    PlaceOnePerString(noteAt, opens, count, chord);
  }

  /** An empty (or absent) chord highlights nothing. */
  lemma EmptyChordHighlightsNothing<S, N>(noteAt: (S, nat) -> N, opens: seq<S>, count: nat)
    ensures Highlighted<S, N>(noteAt, opens, count, []) == {}
  {
  }

  /** Note `k` of the chord, when some string left free by the notes before
      it sounds it, takes the first such position in scan order and uses its
      string. */
  lemma NoteTakesLeftmostFree<S, N>(noteAt: (S, nat) -> N, opens: seq<S>, count: nat, chord: seq<N>, k: nat, s: nat, fret: nat)
    requires k < |chord| && fret < count
    requires Fits(noteAt, opens, Place(noteAt, opens, count, chord[..k]).used, chord[k], s, fret)
    requires forall f: nat, t: nat :: Before(f, t, fret, s) ==>
      !Fits(noteAt, opens, Place(noteAt, opens, count, chord[..k]).used, chord[k], t, f)
    ensures Place(noteAt, opens, count, chord[..k + 1]) ==
      Placed(Place(noteAt, opens, count, chord[..k]).highlights + {Position(s, fret)},
             Place(noteAt, opens, count, chord[..k]).used + {s})
  {
    assert chord[..k + 1][..k] == chord[..k];
    FindIsUnique(noteAt, opens, count, Place(noteAt, opens, count, chord[..k]).used, chord[k], s, fret);
  }

  /** Note `k` of the chord, when no string left free sounds it at any fret of
      the window, changes nothing: it is dropped. */
  lemma NoteWithoutFreeFitIsDropped<S, N>(noteAt: (S, nat) -> N, opens: seq<S>, count: nat, chord: seq<N>, k: nat)
    requires k < |chord|
    requires forall f: nat, t: nat :: f < count ==>
      !Fits(noteAt, opens, Place(noteAt, opens, count, chord[..k]).used, chord[k], t, f)
    ensures Place(noteAt, opens, count, chord[..k + 1]) == Place(noteAt, opens, count, chord[..k])
  {
    assert chord[..k + 1][..k] == chord[..k];
    FindIsLeftmost(noteAt, opens, count, Place(noteAt, opens, count, chord[..k]).used, chord[k]);
  }

  /** A one-note chord is placed by a single scan over free strings. */
  lemma PlaceSingle<S, N>(noteAt: (S, nat) -> N, opens: seq<S>, count: nat, chord: seq<N>)
    requires |chord| == 1
    ensures Place(noteAt, opens, count, chord) == Mark(Placed({}, {}), Find(noteAt, opens, count, {}, chord[0]))
  {
    assert chord[..0] == [];
  }

  /** A whole run read off its steps: when `placed[k]` is the state before
      note `k`, `found[k]` what the search for note `k` returns from that
      state, and `placed[k + 1]` the state it leaves, then `placed[n]` is the
      state after the first `n` notes. */
  lemma {:induction false} PlaceTrace<S, N>(noteAt: (S, nat) -> N, opens: seq<S>, count: nat, chord: seq<N>,
                                            found: seq<Option<Position>>, placed: seq<Placed>, n: nat)
    requires |found| == |chord| && |placed| == |chord| + 1 && n <= |chord|
    requires placed[0] == Placed({}, {})
    requires forall k :: 0 <= k < |chord| ==> Find(noteAt, opens, count, placed[k].used, chord[k]) == found[k]
    requires forall k :: 0 <= k < |chord| ==> placed[k + 1] == Mark(placed[k], found[k])
    ensures Place(noteAt, opens, count, chord[..n]) == placed[n]
  {
    if n > 0 {
      PlaceTrace(noteAt, opens, count, chord, found, placed, n - 1);
      assert chord[..n][..n - 1] == chord[..n - 1];
    }
  }

  // ---------------------------------------------------------------------------
  // The loop program

  /** `getHighlightedPositions`: for each chord note, frets ascending (outer
      loop), strings in order (inner loop), used strings skipped; the first
      match is highlighted, its string used, and the search for that note
      ends (`break outerLoop`). */
  method HighlightedPositions<S, N(==)>(noteAt: (S, nat) -> N, opens: seq<S>, count: nat, chord: seq<N>) returns (highlighted: set<Position>)
    ensures highlighted == Highlighted(noteAt, opens, count, chord)
  {
    highlighted := {};
    var usedStrings: set<nat> := {};
    if |chord| == 0 {
      return;
    }
    for k := 0 to |chord|
      invariant Place(noteAt, opens, count, chord[..k]) == Placed(highlighted, usedStrings)
    {
      assert chord[..k + 1][..k] == chord[..k];
      var chordNote := chord[k];
      ghost var found := Find(noteAt, opens, count, usedStrings, chordNote);
      ghost var h0, u0 := highlighted, usedStrings;
      label outerLoop:
      for fret := 0 to count
        invariant highlighted == h0 && usedStrings == u0
        invariant Scan(noteAt, opens, count, usedStrings, chordNote, fret, 0) == found
      {
        for stringIndex := 0 to |opens|
          invariant highlighted == h0 && usedStrings == u0
          invariant Scan(noteAt, opens, count, usedStrings, chordNote, fret, stringIndex) == found
        {
          if stringIndex in usedStrings {
            continue;
          }
          if noteAt(opens[stringIndex], fret) == chordNote {
            highlighted := highlighted + {Position(stringIndex, fret)};
            usedStrings := usedStrings + {stringIndex};
            break outerLoop;
          }
        }
      }
    }
    assert chord[..|chord|] == chord;
  }
}
