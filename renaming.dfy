/**
  Both components compare note texts: a chord note is matched against the
  text of the pitch sounding at each fret. This module shows that the
  engines only depend on which notes are equal, so that running them on the
  names of pitches, under any injective naming, is running them on the
  pitches and naming the result. With `Pitches.Name` (injective by
  `Pitches.NameInjective`) this lets a chord of texts be computed as a chord
  of pitches.
*/
module Renaming {
  import opened Optional
  import opened Pitches
  import opened Fretboard
  import opened OrderedSets
  import opened BestFitEngine
  import opened NoteFirstEngine

  /** `s` with every element named by `f`. */
  function Rename<N, M>(f: N -> M, s: seq<N>): (r: seq<M>)
    ensures |r| == |s| && forall i :: 0 <= i < |s| ==> r[i] == f(s[i])
  {
    seq(|s|, i requires 0 <= i < |s| => f(s[i]))
  }

  function RenameChoice<N, M>(f: N -> M, c: Option<Choice<N>>): Option<Choice<M>>
  {
    match c
    case None => None
    case Some(ch) => Some(Choice(f(ch.note), ch.fret))
  }

  function RenameChoices<N, M>(f: N -> M, cs: seq<Option<Choice<N>>>): (r: seq<Option<Choice<M>>>)
    ensures |r| == |cs| && forall i :: 0 <= i < |cs| ==> r[i] == RenameChoice(f, cs[i])
  {
    seq(|cs|, i requires 0 <= i < |cs| => RenameChoice(f, cs[i]))
  }

  /** Distinct notes get distinct names. */
  ghost predicate Injective<N(!new), M>(f: N -> M)
  {
    forall a, b :: f(a) == f(b) ==> a == b
  }

  /** `named` is `plain` followed by the naming `f`: a string sounds, at every
      fret, the name of what it sounds under `plain`. */
  ghost predicate Names<S(!new), N, M>(named: (S, nat) -> M, f: N -> M, plain: (S, nat) -> N)
  {
    forall open, fret :: named(open, fret) == f(plain(open, fret))
  }

  lemma RenameIn<N(!new), M>(f: N -> M, s: seq<N>, x: N)
    requires Injective(f)
    ensures f(x) in Rename(f, s) <==> x in s
  {
    if x in s {
      var i :| 0 <= i < |s| && s[i] == x;
      assert Rename(f, s)[i] == f(x);
    }
  }

  lemma RenamePrefix<N, M>(f: N -> M, s: seq<N>, n: nat)
    requires n <= |s|
    ensures Rename(f, s)[..n] == Rename(f, s[..n])
  {
  }

  lemma RenameSnoc<N, M>(f: N -> M, s: seq<N>, x: N)
    ensures Rename(f, s + [x]) == Rename(f, s) + [f(x)]
  {
  }

  // ---------------------------------------------------------------------------
  // The best-fit engine

  lemma {:induction false} RenameFirstFretFrom<S(!new), N(!new), M>(named: (S, nat) -> M, f: N -> M, plain: (S, nat) -> N,
                                                                    open: S, x: N, from: nat, count: nat)
    requires Injective(f) && Names(named, f, plain)
    ensures FirstFretFrom(named, open, f(x), from, count) == FirstFretFrom(plain, open, x, from, count)
    decreases count - from
  {
    if from < count {
      assert named(open, from) == f(plain(open, from));
      RenameFirstFretFrom(named, f, plain, open, x, from + 1, count);
    }
  }

  lemma RenameFirstFret<S(!new), N(!new), M>(named: (S, nat) -> M, f: N -> M, plain: (S, nat) -> N,
                                             open: S, x: N, count: nat)
    requires Injective(f) && Names(named, f, plain)
    ensures FirstFret(named, open, f(x), count) == FirstFret(plain, open, x, count)
  {
    RenameFirstFretFrom(named, f, plain, open, x, 0, count);
  }

  lemma {:induction false} RenameBest<S(!new), N(!new), M>(named: (S, nat) -> M, f: N -> M, plain: (S, nat) -> N,
                                                           open: S, pool: seq<N>, count: nat)
    requires Injective(f) && Names(named, f, plain)
    ensures Best(named, open, Rename(f, pool), count) == RenameChoice(f, Best(plain, open, pool, count))
    decreases |pool|
  {
    if pool != [] {
      var n := |pool| - 1;
      RenamePrefix(f, pool, n);
      RenameBest(named, f, plain, open, pool[..n], count);
      RenameFirstFret(named, f, plain, open, pool[n], count);
    }
  }

  lemma {:induction false} RenameWithout<N(!new), M>(f: N -> M, s: seq<N>, x: N)
    requires Injective(f)
    ensures Without(Rename(f, s), f(x)) == Rename(f, Without(s, x))
    decreases |s|
  {
    if s != [] {
      assert Rename(f, s)[1..] == Rename(f, s[1..]);
      RenameWithout(f, s[1..], x);
      if s[0] != x {
        assert Rename(f, [s[0]] + Without(s[1..], x)) == [f(s[0])] + Rename(f, Without(s[1..], x));
      }
    }
  }

  lemma {:induction false} RenameDedup<N(!new), M>(f: N -> M, s: seq<N>)
    requires Injective(f)
    ensures Dedup(Rename(f, s)) == Rename(f, Dedup(s))
    decreases |s|
  {
    if s != [] {
      var n := |s| - 1;
      RenamePrefix(f, s, n);
      RenameDedup(f, s[..n]);
      RenameIn(f, Dedup(s[..n]), s[n]);
      RenameSnoc(f, Dedup(s[..n]), s[n]);
    }
  }

  lemma RenameChoicesSnoc<N, M>(f: N -> M, cs: seq<Option<Choice<N>>>, c: Option<Choice<N>>)
    ensures RenameChoices(f, cs + [c]) == RenameChoices(f, cs) + [RenameChoice(f, c)]
  {
  }

  lemma {:induction false} RenameRun<S(!new), N(!new), M>(named: (S, nat) -> M, f: N -> M, plain: (S, nat) -> N,
                                                          opens: seq<S>, count: nat, pool: seq<N>)
    requires Injective(f) && Names(named, f, plain)
    ensures Run(named, opens, count, Rename(f, pool)).choices == RenameChoices(f, Run(plain, opens, count, pool).choices)
    ensures Run(named, opens, count, Rename(f, pool)).pool == Rename(f, Run(plain, opens, count, pool).pool)
    decreases |opens|
  {
    if opens != [] {
      var n := |opens| - 1;
      var prev := Run(plain, opens[..n], count, pool);
      RenameRun(named, f, plain, opens[..n], count, pool);
      RenameBest(named, f, plain, opens[n], prev.pool, count);
      var b := Best(plain, opens[n], prev.pool, count);
      RenameChoicesSnoc(f, prev.choices, b);
      if b.Some? {
        RenameWithout(f, prev.pool, b.value.note);
      }
    }
  }

  /** Naming keeps the positions. */
  lemma RenamePositions<N, M>(f: N -> M, cs: seq<Option<Choice<N>>>)
    ensures PositionsOf(RenameChoices(f, cs)) == PositionsOf(cs)
  {
    var r := RenameChoices(f, cs);
    forall p | p in PositionsOf(r) ensures p in PositionsOf(cs) {
      var i :| 0 <= i < |r| && r[i].Some? && Position(i, r[i].value.fret) == p;
      assert cs[i].Some? && cs[i].value.fret == r[i].value.fret;
    }
    forall p | p in PositionsOf(cs) ensures p in PositionsOf(r) {
      var i :| 0 <= i < |cs| && cs[i].Some? && Position(i, cs[i].value.fret) == p;
      assert r[i].Some? && cs[i].value.fret == r[i].value.fret;
    }
  }

  /** The best-fit assignment on the names of a chord is the assignment of the
      chord, named: the same positions, each string given the name of the
      note it was given, and the names of the unassigned notes. */
  lemma RenameAssign<S(!new), N(!new), M>(named: (S, nat) -> M, f: N -> M, plain: (S, nat) -> N,
                                          opens: seq<S>, count: nat, chord: seq<N>)
    requires Injective(f) && Names(named, f, plain)
    ensures Assign(named, opens, count, Rename(f, chord)).choices ==
      RenameChoices(f, Assign(plain, opens, count, chord).choices)
    ensures Assign(named, opens, count, Rename(f, chord)).unassigned ==
      Rename(f, Assign(plain, opens, count, chord).unassigned)
    ensures PositionsOf(Assign(named, opens, count, Rename(f, chord)).choices) ==
      PositionsOf(Assign(plain, opens, count, chord).choices)
  {
    if |chord| > 0 {
      RenameDedup(f, chord);
      RenameRun(named, f, plain, opens, count, Dedup(chord));
    }
    RenamePositions(f, Assign(plain, opens, count, chord).choices);
  }

  // ---------------------------------------------------------------------------
  // The note-first engine

  lemma {:induction false} RenameScan<S(!new), N(!new), M>(named: (S, nat) -> M, f: N -> M, plain: (S, nat) -> N,
                                                           opens: seq<S>, count: nat, used: set<nat>, x: N, fret: nat, s: nat)
    requires Injective(f) && Names(named, f, plain)
    ensures Scan(named, opens, count, used, f(x), fret, s) == Scan(plain, opens, count, used, x, fret, s)
    decreases count - fret, |opens| - s
  {
    if fret < count {
      if s >= |opens| {
        RenameScan(named, f, plain, opens, count, used, x, fret + 1, 0);
      } else {
        assert named(opens[s], fret) == f(plain(opens[s], fret));
        RenameScan(named, f, plain, opens, count, used, x, fret, s + 1);
      }
    }
  }

  lemma {:induction false} RenamePlace<S(!new), N(!new), M>(named: (S, nat) -> M, f: N -> M, plain: (S, nat) -> N,
                                                            opens: seq<S>, count: nat, chord: seq<N>)
    requires Injective(f) && Names(named, f, plain)
    ensures Place(named, opens, count, Rename(f, chord)) == Place(plain, opens, count, chord)
    decreases |chord|
  {
    if chord != [] {
      var n := |chord| - 1;
      RenamePrefix(f, chord, n);
      RenamePlace(named, f, plain, opens, count, chord[..n]);
      RenameScan(named, f, plain, opens, count, Place(plain, opens, count, chord[..n]).used, chord[n], 0, 0);
    }
  }

  /** The note-first highlights of the names of a chord are those of the
      chord. */
  lemma RenameHighlighted<S(!new), N(!new), M>(named: (S, nat) -> M, f: N -> M, plain: (S, nat) -> N,
                                               opens: seq<S>, count: nat, chord: seq<N>)
    requires Injective(f) && Names(named, f, plain)
    ensures Highlighted(named, opens, count, Rename(f, chord)) == Highlighted(plain, opens, count, chord)
  {
    RenamePlace(named, f, plain, opens, count, chord);
  }

  // ---------------------------------------------------------------------------
  // The components' naming

  /** The text of the pitch with absolute semitone number `n`. */
  function SemitoneName(n: nat): Note
  {
    Name(FromSemitone(n))
  }

  /** The text of a pitch is the name of its semitone number. */
  lemma SemitoneNameOfPitch(p: Pitch)
    ensures SemitoneName(Semitone(p)) == Name(p)
  {
    SemitoneInjective(FromSemitone(Semitone(p)), p);
  }

  /** Semitone numbers named as texts are an injective naming, and the text
      sounding at a fret is the name of the semitone number sounding there:
      chords of pitch texts can be computed as chords of semitone numbers. */
  lemma SemitoneTextsAreNames()
    ensures Injective(SemitoneName)
    ensures Names(FretName, SemitoneName, SemitoneAtFret)
  {
    forall a: nat, b: nat | SemitoneName(a) == SemitoneName(b) ensures a == b {
      NameInjective(FromSemitone(a), FromSemitone(b));
    }
    forall open: Pitch, fret: nat ensures FretName(open, fret) == SemitoneName(SemitoneAtFret(open, fret)) {
      SemitoneNameOfPitch(NoteAtFret(open, fret));
    }
  }

  /** The best-fit assignment of a chord of pitch texts, for any tuning and
      fret window, is the assignment of their semitone numbers, named. */
  lemma AssignOnSemitones(opens: seq<Pitch>, count: nat, chord: seq<nat>)
    ensures Assign(FretName, opens, count, Rename(SemitoneName, chord)).choices ==
      RenameChoices(SemitoneName, Assign(SemitoneAtFret, opens, count, chord).choices)
    ensures Assign(FretName, opens, count, Rename(SemitoneName, chord)).unassigned ==
      Rename(SemitoneName, Assign(SemitoneAtFret, opens, count, chord).unassigned)
    ensures PositionsOf(Assign(FretName, opens, count, Rename(SemitoneName, chord)).choices) ==
      PositionsOf(Assign(SemitoneAtFret, opens, count, chord).choices)
  {
    SemitoneTextsAreNames();
    RenameAssign(FretName, SemitoneName, SemitoneAtFret, opens, count, chord);
  }

  /** The note-first highlights of a chord of pitch texts, for any tuning and
      fret window, are those of their semitone numbers. */
  lemma HighlightedOnSemitones(opens: seq<Pitch>, count: nat, chord: seq<nat>)
    ensures Highlighted(FretName, opens, count, Rename(SemitoneName, chord)) ==
      Highlighted(SemitoneAtFret, opens, count, chord)
  {
    SemitoneTextsAreNames();
    RenameHighlighted(FretName, SemitoneName, SemitoneAtFret, opens, count, chord);
  }
}
