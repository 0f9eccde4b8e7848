/**
  The per-string best-fit assignment of the ukulele component (the effect body
  of `Ukulele`), written once for any instrument. The chord is reduced to its
  distinct notes in first-occurrence order; then, string by string, the still
  unassigned note with the lowest reachable fret is committed to the string
  (ties go to the note met first). What remains is reported as unassigned.

  The engine is written once for any tuning: strings are described by values
  of a type `S` (their open notes), notes by values of a type `N`, and
  `noteAt(open, fret)` is the note a string sounds at a fret (the source's
  `getNoteAtFret`, which `Fretboard.FretName` models). Only equality of notes
  is used.

  `AssignBestFit` is the loop program; `Assign` is the same computation as a
  function, and the lemmas below state what the result means.
*/
module BestFitEngine {
  import opened Optional
  import opened Fretboard
  import opened OrderedSets

  /** A note committed to a string, at the fret where that string sounds it. */
  datatype Choice<N> = Choice(note: N, fret: nat)

  /** Result of the assignment: the choice made for each string (None when no
      note fits it) and the notes left over, in first-occurrence order. */
  datatype Assignment<N> = Assignment(choices: seq<Option<Choice<N>>>, unassigned: seq<N>)

  // ---------------------------------------------------------------------------
  // Choosing the note for one string

  /** The candidate loop over the pool for one string: a note replaces the
      current best only if its first fret is strictly lower. */
  function Best<S, N(==)>(noteAt: (S, nat) -> N, open: S, pool: seq<N>, count: nat): (r: Option<Choice<N>>)
    ensures r.Some? ==> r.value.note in pool && FirstFret(noteAt, open, r.value.note, count) == Some(r.value.fret)
    decreases |pool|
  {
    if pool == [] then None
    else
      var best := Best(noteAt, open, pool[..|pool| - 1], count);
      match FirstFret(noteAt, open, pool[|pool| - 1], count)
      case None => best
      case Some(f) =>
        if best.None? || f < best.value.fret then Some(Choice(pool[|pool| - 1], f)) else best
  }

  /** The note at index `k` of the pool is the best fit at fret `f`: it is
      reachable at `f`, no note of the pool is reachable lower, and every note
      before it is reachable only strictly higher (ties go to the earlier note). */
  ghost predicate IsBestAt<S, N>(noteAt: (S, nat) -> N, open: S, pool: seq<N>, count: nat, k: nat, f: nat)
  {
    && k < |pool|
    && FirstFret(noteAt, open, pool[k], count) == Some(f)
    && (forall j :: 0 <= j < |pool| && FirstFret(noteAt, open, pool[j], count).Some? ==>
          f <= FirstFret(noteAt, open, pool[j], count).value)
    && (forall j :: 0 <= j < k && FirstFret(noteAt, open, pool[j], count).Some? ==>
          f < FirstFret(noteAt, open, pool[j], count).value)
  }

  /** `Best` finds nothing exactly when no note of the pool is reachable on
      the string. */
  lemma {:induction false} BestNoneIffUnreachable<S, N>(noteAt: (S, nat) -> N, open: S, pool: seq<N>, count: nat)
    ensures Best(noteAt, open, pool, count).None? <==>
      forall j :: 0 <= j < |pool| ==> FirstFret(noteAt, open, pool[j], count).None?
    decreases |pool|
  {
    if pool != [] {
      var n := |pool| - 1;
      BestNoneIffUnreachable(noteAt, open, pool[..n], count);
      assert forall j :: 0 <= j < n ==> pool[j] == pool[..n][j];
    }
  }

  /** When `Best` finds a note, it sits at an index `k` of the pool where it is
      the best fit in the above sense. */
  lemma {:induction false} BestIndex<S, N>(noteAt: (S, nat) -> N, open: S, pool: seq<N>, count: nat) returns (k: nat)
    requires Best(noteAt, open, pool, count).Some?
    ensures IsBestAt(noteAt, open, pool, count, k, Best(noteAt, open, pool, count).value.fret)
    ensures pool[k] == Best(noteAt, open, pool, count).value.note
    decreases |pool|
  {
    var n := |pool| - 1;
    var p := pool[..n];
    var best := Best(noteAt, open, p, count);
    assert forall j :: 0 <= j < n ==> pool[j] == p[j];
    match FirstFret(noteAt, open, pool[n], count)
    case None =>
      k := BestIndex(noteAt, open, p, count);
    case Some(f) =>
      if best.None? || f < best.value.fret {
        if best.Some? {
          var previous := BestIndex(noteAt, open, p, count);
        } else {
          BestNoneIffUnreachable(noteAt, open, p, count);
        }
        k := n;
      } else {
        k := BestIndex(noteAt, open, p, count);
      }
  }

  /** `Best` agrees with its description: None exactly when no note of the pool
      is reachable on the string, otherwise the best fit in the above sense. */
  lemma BestIsBestFit<S, N>(noteAt: (S, nat) -> N, open: S, pool: seq<N>, count: nat)
    ensures Best(noteAt, open, pool, count).None? <==>
      forall j :: 0 <= j < |pool| ==> FirstFret(noteAt, open, pool[j], count).None?
    ensures Best(noteAt, open, pool, count).Some? ==>
      exists k: nat :: IsBestAt(noteAt, open, pool, count, k, Best(noteAt, open, pool, count).value.fret) &&
        pool[k] == Best(noteAt, open, pool, count).value.note
  {
    BestNoneIffUnreachable(noteAt, open, pool, count);
    if Best(noteAt, open, pool, count).Some? {
      var k := BestIndex(noteAt, open, pool, count);
    }
  }

  /** The description determines the choice: whatever note and fret satisfy it
      are the ones `Best` returns. */
  lemma BestIsUnique<S, N>(noteAt: (S, nat) -> N, open: S, pool: seq<N>, count: nat, k: nat, f: nat)
    requires IsBestAt(noteAt, open, pool, count, k, f)
    ensures Best(noteAt, open, pool, count) == Some(Choice(pool[k], f))
  {
    BestIsBestFit(noteAt, open, pool, count);
    var b := Best(noteAt, open, pool, count);
    var k': nat :| IsBestAt(noteAt, open, pool, count, k', b.value.fret) && pool[k'] == b.value.note;
    assert FirstFret(noteAt, open, pool[k], count) == Some(f);
    assert FirstFret(noteAt, open, pool[k'], count) == Some(b.value.fret);
    assert f == b.value.fret;
    if k' < k {
      assert false;
    } else if k < k' {
      assert false;
    }
  }

  // ---------------------------------------------------------------------------
  // The pass over the strings

  /** State after some strings: the choices made so far and the notes still in
      the pool (the source's `unassignedNotes`). */
  datatype Pass<N> = Pass(choices: seq<Option<Choice<N>>>, pool: seq<N>)

  /** The string loop: each string takes `Best` of what is left. */
  function Run<S, N(==)>(noteAt: (S, nat) -> N, opens: seq<S>, count: nat, pool: seq<N>): (r: Pass<N>)
    ensures |r.choices| == |opens|
    decreases |opens|
  {
    if opens == [] then Pass([], pool)
    else
      var prev := Run(noteAt, opens[..|opens| - 1], count, pool);
      var b := Best(noteAt, opens[|opens| - 1], prev.pool, count);
      Pass(prev.choices + [b], if b.Some? then Without(prev.pool, b.value.note) else prev.pool)
  }

  /** The notes committed to some string. */
  function AssignedNotes<N>(choices: seq<Option<Choice<N>>>): set<N>
  {
    set i | 0 <= i < |choices| && choices[i].Some? :: choices[i].value.note
  }

  /** The highlighted positions, one per string that received a note. */
  function PositionsOf<N>(choices: seq<Option<Choice<N>>>): set<Position>
  {
    set i | 0 <= i < |choices| && choices[i].Some? :: Position(i, choices[i].value.fret)
  }

  lemma AssignedNotesPrefix<N>(choices: seq<Option<Choice<N>>>, i: nat)
    requires i <= |choices|
    ensures AssignedNotes(choices[..i]) <= AssignedNotes(choices)
  {
    forall x | x in AssignedNotes(choices[..i]) ensures x in AssignedNotes(choices) {
      var k :| 0 <= k < i && choices[..i][k].Some? && choices[..i][k].value.note == x;
      assert choices[k] == choices[..i][k];
    }
  }

  lemma AppendChoice<N>(choices: seq<Option<Choice<N>>>, b: Option<Choice<N>>)
    ensures AssignedNotes(choices + [b]) ==
      AssignedNotes(choices) + (if b.Some? then {b.value.note} else {})
    ensures PositionsOf(choices + [b]) ==
      PositionsOf(choices) + (if b.Some? then {Position(|choices|, b.value.fret)} else {})
  {
    var c := choices + [b];
    assert forall i :: 0 <= i < |choices| ==> c[i] == choices[i];
    var extra := if b.Some? then {b.value.note} else {};
    forall x | x in AssignedNotes(c) ensures x in AssignedNotes(choices) + extra {
      var i :| 0 <= i < |c| && c[i].Some? && c[i].value.note == x;
      if i < |choices| {
        assert choices[i].Some? && choices[i].value.note == x;
      }
    }
    forall x | x in AssignedNotes(choices) + extra ensures x in AssignedNotes(c) {
      if x in AssignedNotes(choices) {
        var i :| 0 <= i < |choices| && choices[i].Some? && choices[i].value.note == x;
        assert c[i] == choices[i];
      } else {
        assert c[|choices|] == b;
      }
    }
    var extraPos := if b.Some? then {Position(|choices|, b.value.fret)} else {};
    forall x | x in PositionsOf(c) ensures x in PositionsOf(choices) + extraPos {
      var i :| 0 <= i < |c| && c[i].Some? && Position(i, c[i].value.fret) == x;
      if i < |choices| {
        assert choices[i].Some? && Position(i, choices[i].value.fret) == x;
      }
    }
    forall x | x in PositionsOf(choices) + extraPos ensures x in PositionsOf(c) {
      if x in PositionsOf(choices) {
        var i :| 0 <= i < |choices| && choices[i].Some? && Position(i, choices[i].value.fret) == x;
        assert c[i] == choices[i];
      } else {
        assert c[|choices|] == b;
      }
    }
  }

  /** The pool left after the pass is the starting pool minus the notes the
      strings took, order kept. */
  lemma {:induction false} RunPool<S, N>(noteAt: (S, nat) -> N, opens: seq<S>, count: nat, pool: seq<N>)
    ensures Run(noteAt, opens, count, pool).pool == Keep(pool, AssignedNotes(Run(noteAt, opens, count, pool).choices))
    decreases |opens|
  {
    if opens == [] {
      assert AssignedNotes<N>([]) == {};
      KeepNothing(pool);
    } else {
      var n := |opens| - 1;
      var prev := Run(noteAt, opens[..n], count, pool);
      RunPool(noteAt, opens[..n], count, pool);
      var b := Best(noteAt, opens[n], prev.pool, count);
      assert Run(noteAt, opens, count, pool) ==
        Pass(prev.choices + [b], if b.Some? then Without(prev.pool, b.value.note) else prev.pool);
      AppendChoice(prev.choices, b);
      if b.Some? {
        WithoutKeep(pool, AssignedNotes(prev.choices), b.value.note);
        assert AssignedNotes(prev.choices + [b]) == AssignedNotes(prev.choices) + {b.value.note};
      } else {
        assert AssignedNotes(prev.choices + [b]) == AssignedNotes(prev.choices);
      }
    }
  }

  /** Running over a prefix of the strings gives a prefix of the choices. */
  lemma {:induction false} RunPrefix<S, N>(noteAt: (S, nat) -> N, opens: seq<S>, count: nat, pool: seq<N>, i: nat)
    requires i <= |opens|
    ensures Run(noteAt, opens[..i], count, pool).choices == Run(noteAt, opens, count, pool).choices[..i]
    decreases |opens|
  {
    if i < |opens| {
      var n := |opens| - 1;
      RunPrefix(noteAt, opens[..n], count, pool, i);
      assert opens[..n][..i] == opens[..i];
    } else {
      assert opens[..i] == opens;
    }
  }

  /** Each string took the best fit among the notes that the earlier strings
      left in the pool. */
  lemma RunChoices<S, N>(noteAt: (S, nat) -> N, opens: seq<S>, count: nat, pool: seq<N>, i: nat)
    requires i < |opens|
    ensures Run(noteAt, opens, count, pool).choices[i] ==
      Best(noteAt, opens[i], Keep(pool, AssignedNotes(Run(noteAt, opens, count, pool).choices[..i])), count)
  {
    var prev := Run(noteAt, opens[..i], count, pool);
    RunPrefix(noteAt, opens, count, pool, i + 1);
    RunPrefix(noteAt, opens, count, pool, i);
    RunPool(noteAt, opens[..i], count, pool);
    assert opens[..i + 1][..i] == opens[..i];
    assert Run(noteAt, opens[..i + 1], count, pool).choices == prev.choices + [Best(noteAt, opens[i], prev.pool, count)];
  }

  /** Conversely, a sequence of choices and pools in which every string takes
      the best fit of the pool before it, and every choice removes its note
      from the pool, is the pass: `pools[k]` is the pool string `k` sees. */
  lemma {:induction false} RunTrace<S, N>(noteAt: (S, nat) -> N, opens: seq<S>, count: nat,
                                          choices: seq<Option<Choice<N>>>, pools: seq<seq<N>>, n: nat)
    requires |choices| == |opens| && |pools| == |opens| + 1 && n <= |opens|
    requires forall k :: 0 <= k < |opens| ==> Best(noteAt, opens[k], pools[k], count) == choices[k]
    requires forall k :: 0 <= k < |opens| ==>
      pools[k + 1] == if choices[k].Some? then Without(pools[k], choices[k].value.note) else pools[k]
    ensures Run(noteAt, opens[..n], count, pools[0]) == Pass(choices[..n], pools[n])
  {
    if n > 0 {
      RunTrace(noteAt, opens, count, choices, pools, n - 1);
      assert opens[..n][..n - 1] == opens[..n - 1];
      assert choices[..n] == choices[..n - 1] + [choices[n - 1]];
    }
  }

  /** The whole assignment; an empty (or absent) chord returns at once. */
  function Assign<S, N(==)>(noteAt: (S, nat) -> N, opens: seq<S>, count: nat, chord: seq<N>): Assignment<N>
  {
    if |chord| == 0 then Assignment([], [])
    else
      var p := Run(noteAt, opens, count, Dedup(chord));
      Assignment(p.choices, p.pool)
  }

  // ---------------------------------------------------------------------------
  // The loop program

  /** One more candidate at the end of the pool: it replaces the best so far
      only when its first fret is strictly lower. */
  lemma BestSnoc<S, N>(noteAt: (S, nat) -> N, open: S, pool: seq<N>, x: N, count: nat)
    ensures Best(noteAt, open, pool + [x], count) ==
      match FirstFret(noteAt, open, x, count)
      case None => Best(noteAt, open, pool, count)
      case Some(f) =>
        if Best(noteAt, open, pool, count).None? || f < Best(noteAt, open, pool, count).value.fret
        then Some(Choice(x, f)) else Best(noteAt, open, pool, count)
  {
    assert (pool + [x])[..|pool|] == pool;
  }

  /** The candidate loop for one string: notes already taken are skipped, the
      frets of each other note are scanned upwards until the first match, and a
      match replaces the best so far only at a strictly lower fret. */
  method BestFitOnString<S, N(==)>(noteAt: (S, nat) -> N, open: S, pool: seq<N>, taken: set<N>, count: nat)
    returns (bestFit: Option<Choice<N>>)
    ensures bestFit == Best(noteAt, open, Keep(pool, taken), count)
  {
    bestFit := None;
    for j := 0 to |pool|
      invariant bestFit == Best(noteAt, open, Keep(pool[..j], taken), count)
    {
      assert pool[..j + 1] == pool[..j] + [pool[j]];
      KeepSnoc(pool[..j], taken, pool[j]);
      var note := pool[j];
      if note in taken {
        assert Keep(pool[..j + 1], taken) == Keep(pool[..j], taken);
        continue;
      }
      BestSnoc(noteAt, open, Keep(pool[..j], taken), note, count);
      assert Keep(pool[..j + 1], taken) == Keep(pool[..j], taken) + [note];
      ghost var prior := bestFit;
      var fret := 0;
      while fret < count
        invariant fret <= count && bestFit == prior
        invariant FirstFretFrom(noteAt, open, note, fret, count) == FirstFret(noteAt, open, note, count)
      {
        if noteAt(open, fret) == note {
          if bestFit.None? || fret < bestFit.value.fret {
            bestFit := Some(Choice(note, fret));
          }
          break;
        }
        fret := fret + 1;
      }
    }
    assert pool[..|pool|] == pool;
  }

  /** `new Set(chord)`: the chord's notes, each once, in first-occurrence
      order. */
  method DistinctNotes<N(==)>(chord: seq<N>) returns (pool: seq<N>)
    ensures pool == Dedup(chord)
  {
    pool := [];
    for k := 0 to |chord|
      invariant pool == Dedup(chord[..k])
    {
      assert chord[..k + 1][..k] == chord[..k];
      if chord[k] !in pool {
        pool := pool + [chord[k]];
      }
    }
    assert chord[..|chord|] == chord;
  }

  /** The effect body of the ukulele component, for any instrument: returns the
      highlighted positions and the list handed to `onUnassignedNotes`. */
  method AssignBestFit<S, N(==)>(noteAt: (S, nat) -> N, opens: seq<S>, count: nat, chord: seq<N>)
    returns (highlighted: set<Position>, unassigned: seq<N>)
    ensures highlighted == PositionsOf(Assign(noteAt, opens, count, chord).choices)
    ensures unassigned == Assign(noteAt, opens, count, chord).unassigned
  {
    var pool := DistinctNotes(chord);
    var taken: set<N> := {};
    if |chord| == 0 {
      return {}, [];
    }
    DedupSpec(chord);
    KeepNothing(pool);
    ghost var start := pool;
    ghost var choices: seq<Option<Choice<N>>> := [];
    highlighted := {};
    for i := 0 to |opens|
      invariant Run(noteAt, opens[..i], count, start) == Pass(choices, pool)
      invariant highlighted == PositionsOf(choices)
      invariant taken == AssignedNotes(choices)
      invariant pool == Keep(start, taken) && NoDup(pool)
    {
      KeepSpec(start, taken);
      KeepDisjoint(pool, taken);
      var bestFit := BestFitOnString(noteAt, opens[i], pool, taken, count);
      assert opens[..i + 1][..i] == opens[..i];
      AppendChoice(choices, bestFit);
      if bestFit.Some? {
        WithoutKeep(start, taken, bestFit.value.note);
        highlighted := highlighted + {Position(i, bestFit.value.fret)};
        taken := taken + {bestFit.value.note};
        pool := Without(pool, bestFit.value.note);
      }
      choices := choices + [bestFit];
      KeepSpec(start, taken);
    }
    assert opens[..|opens|] == opens;
    unassigned := pool;
  }
}
