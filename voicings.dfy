/**
  The voicing transformers of the two utility modules: `spreadVoicing`
  (five-string guitar) and `spreadVoicingUkulele`. Each applies a fixed
  pattern of chord tones, some of them moved up by whole octaves with
  `shiftOctave`, to a three- or four-note chord; any other chord is returned
  unchanged.
*/
module Voicings {
  import opened Pitches
  import opened Fretboard
  import opened OctaveShift

  /** `spreadVoicing`: a triad [i1, i2, i3] becomes i1, i3 in the left hand
      and i2, i3 an octave up and i1 two octaves up in the right hand; a
      tetrad [i1, i2, i3, i4] becomes i1, i3, then i2, i4, i3 an octave up and
      i1 two octaves up. */
  function SpreadVoicing(chord: seq<Note>): (r: seq<Note>)
    ensures |r| == if |chord| == 3 then 5 else if |chord| == 4 then 6 else |chord|
    ensures |chord| != 3 && |chord| != 4 ==> r == chord
    ensures |chord| > 0 ==> r[0] == chord[0]
  {
    if |chord| == 3 then
      [chord[0], chord[2], ShiftOctave(chord[1], 1), ShiftOctave(chord[2], 1), ShiftOctave(chord[0], 2)]
    else if |chord| == 4 then
      [chord[0], chord[2], ShiftOctave(chord[1], 1), ShiftOctave(chord[3], 1),
       ShiftOctave(chord[2], 1), ShiftOctave(chord[0], 2)]
    else chord
  }

  /** `spreadVoicingUkulele`: a triad gets its root doubled an octave up as a
      fourth voice; a tetrad is returned as it is. */
  function SpreadVoicingUkulele(chord: seq<Note>): (r: seq<Note>)
    ensures |r| == if |chord| == 3 || |chord| == 4 then 4 else |chord|
    ensures r[..|chord|] == chord
  {
    if |chord| == 3 then chord + [ShiftOctave(chord[0], 1)]
    else chord
  }

  /** `p` moved up by `k` octaves. */
  function Up(p: Pitch, k: nat): (q: Pitch)
    ensures q.cls == p.cls && Semitone(q) == Semitone(p) + 12 * k
  {
    Pitch(p.cls, p.octave + k)
  }

  /** The text of every pitch has a single-digit octave (as all the pitches
      the components handle do). */
  predicate SingleDigitOctaves(ps: seq<Pitch>)
  {
    forall i :: 0 <= i < |ps| ==> ps[i].octave < 10
  }

  /** Root, then the other tones strictly ascending within the octave above
      it: a chord in close position. */
  predicate ClosePosition(ps: seq<Pitch>)
  {
    |ps| > 0 &&
    (forall i :: 0 < i < |ps| ==> Semitone(ps[i - 1]) < Semitone(ps[i])) &&
    Semitone(ps[|ps| - 1]) < Semitone(ps[0]) + 12
  }

  /** The spread voicing on pitches, as a reference: the same pattern, with
      "an octave up" meaning the pitch one octave higher. */
  function SpreadPitches(ps: seq<Pitch>): seq<Pitch>
  {
    if |ps| == 3 then [ps[0], ps[2], Up(ps[1], 1), Up(ps[2], 1), Up(ps[0], 2)]
    else if |ps| == 4 then [ps[0], ps[2], Up(ps[1], 1), Up(ps[3], 1), Up(ps[2], 1), Up(ps[0], 2)]
    else ps
  }

  /** Which chord tone each voice of the spread voicing of an `n`-note chord
      comes from. */
  function SpreadSource(n: nat): seq<nat>
  {
    if n == 3 then [0, 2, 1, 2, 0]
    else if n == 4 then [0, 2, 1, 3, 2, 0]
    else seq(n, i => i)
  }

  /** The texts of a sequence of pitches under any naming `text`. */
  function Texts(ps: seq<Pitch>, text: Pitch -> Note): (r: seq<Note>)
    ensures |r| == |ps| && forall i :: 0 <= i < |ps| ==> r[i] == text(ps[i])
  {
    seq(|ps|, i requires 0 <= i < |ps| => text(ps[i]))
  }

  /** For any naming of pitches under which `shiftOctave` by one or two
      moves a chord tone up that many octaves, `spreadVoicing` on the names
      is the reference voicing. */
  lemma SpreadVoicingOfTexts(ps: seq<Pitch>, text: Pitch -> Note)
    requires forall i, k :: 0 <= i < |ps| && 1 <= k <= 2 ==> ShiftOctave(text(ps[i]), k) == text(Up(ps[i], k))
    ensures SpreadVoicing(Texts(ps, text)) == Texts(SpreadPitches(ps), text)
  {
    if |ps| == 3 {
      SpreadTriadOfTexts(ps, text);
    } else if |ps| == 4 {
      SpreadTetradOfTexts(ps, text);
    }
  }

  lemma SpreadTriadOfTexts(ps: seq<Pitch>, text: Pitch -> Note)
    requires |ps| == 3
    requires forall i, k :: 0 <= i < |ps| && 1 <= k <= 2 ==> ShiftOctave(text(ps[i]), k) == text(Up(ps[i], k))
    ensures SpreadVoicing(Texts(ps, text)) == Texts(SpreadPitches(ps), text)
  {
    assert ShiftOctave(text(ps[1]), 1) == text(Up(ps[1], 1));
    assert ShiftOctave(text(ps[2]), 1) == text(Up(ps[2], 1));
    assert ShiftOctave(text(ps[0]), 2) == text(Up(ps[0], 2));
  }

  lemma SpreadTetradOfTexts(ps: seq<Pitch>, text: Pitch -> Note)
    requires |ps| == 4
    requires forall i, k :: 0 <= i < |ps| && 1 <= k <= 2 ==> ShiftOctave(text(ps[i]), k) == text(Up(ps[i], k))
    ensures SpreadVoicing(Texts(ps, text)) == Texts(SpreadPitches(ps), text)
  {
    assert ShiftOctave(text(ps[1]), 1) == text(Up(ps[1], 1));
    assert ShiftOctave(text(ps[3]), 1) == text(Up(ps[3], 1));
    assert ShiftOctave(text(ps[2]), 1) == text(Up(ps[2], 1));
    assert ShiftOctave(text(ps[0]), 2) == text(Up(ps[0], 2));
  }

  /** On the texts of pitches with single-digit octaves, `spreadVoicing` is
      the reference voicing: `shiftOctave` by k moves a pitch k octaves up. */
  lemma SpreadVoicingOfPitches(ps: seq<Pitch>)
    requires SingleDigitOctaves(ps)
    ensures SpreadVoicing(Texts(ps, Name)) == Texts(SpreadPitches(ps), Name)
  {
    forall i, k | 0 <= i < |ps| && 1 <= k <= 2
      ensures ShiftOctave(Name(ps[i]), k) == Name(Up(ps[i], k))
    {
      ShiftOctaveOfName(ps[i], k);
    }
    SpreadVoicingOfTexts(ps, Name);
  }

  /** Only octaves change: voice `i` is chord tone `SpreadSource(|ps|)[i]`
      moved up by at most two octaves; every chord tone is voiced; the bass is
      the root unchanged, and for a triad or tetrad the top voice is the root
      two octaves up. */
  lemma {:induction false} SpreadPitchesKeepsTones(ps: seq<Pitch>)
    ensures |SpreadSource(|ps|)| == |SpreadPitches(ps)|
    ensures forall i :: 0 <= i < |SpreadPitches(ps)| ==>
      SpreadSource(|ps|)[i] < |ps| &&
      SpreadPitches(ps)[i].cls == ps[SpreadSource(|ps|)[i]].cls &&
      ps[SpreadSource(|ps|)[i]].octave <= SpreadPitches(ps)[i].octave <= ps[SpreadSource(|ps|)[i]].octave + 2
    ensures forall j :: 0 <= j < |ps| ==> j in SpreadSource(|ps|)
    ensures |ps| > 0 ==> SpreadPitches(ps)[0] == ps[0]
    ensures |ps| == 3 || |ps| == 4 ==> SpreadPitches(ps)[|SpreadPitches(ps)| - 1] == Up(ps[0], 2)
  {
    var src := SpreadSource(|ps|);
    if |ps| == 3 {
      assert src[0] == 0 && src[2] == 1 && src[1] == 2;
    } else if |ps| == 4 {
      assert src[0] == 0 && src[2] == 1 && src[1] == 2 && src[3] == 3;
    } else {
      forall j | 0 <= j < |ps| ensures j in src {
        assert src[j] == j;
      }
    }
  }

  /** A close-position triad spreads into strictly ascending voices. */
  lemma SpreadTriadAscends(ps: seq<Pitch>)
    requires |ps| == 3 && ClosePosition(ps)
    ensures forall i, j :: 0 <= i < j < |SpreadPitches(ps)| ==>
      Semitone(SpreadPitches(ps)[i]) < Semitone(SpreadPitches(ps)[j])
  {
    assert Semitone(ps[0]) < Semitone(ps[1]) by { assert 0 < 1 < |ps|; }
    assert Semitone(ps[1]) < Semitone(ps[2]) by { assert 0 < 2 < |ps|; }
  }

  /** A close-position tetrad spreads into distinct voices within the two
      octaves above the root (not in ascending order: the seventh an octave up
      comes before the fifth an octave up). */
  lemma SpreadTetradIsDistinct(ps: seq<Pitch>)
    requires |ps| == 4 && ClosePosition(ps)
    ensures forall i, j :: 0 <= i < j < |SpreadPitches(ps)| ==>
      Semitone(SpreadPitches(ps)[i]) != Semitone(SpreadPitches(ps)[j])
    ensures forall i :: 0 <= i < |SpreadPitches(ps)| ==>
      Semitone(ps[0]) <= Semitone(SpreadPitches(ps)[i]) <= Semitone(ps[0]) + 24
    ensures Semitone(SpreadPitches(ps)[3]) > Semitone(SpreadPitches(ps)[4])
  {
    assert Semitone(ps[0]) < Semitone(ps[1]) by { assert 0 < 1 < |ps|; }
    assert Semitone(ps[1]) < Semitone(ps[2]) by { assert 0 < 2 < |ps|; }
    assert Semitone(ps[2]) < Semitone(ps[3]) by { assert 0 < 3 < |ps|; }
  }

  /** On the texts of pitches, the ukulele voicing is the chord followed, for
      a triad, by its root one octave up: no chord tone is dropped or moved,
      and the only added voice has the class of the root. */
  lemma SpreadVoicingUkuleleOfPitches(ps: seq<Pitch>)
    requires |ps| == 3 ==> ps[0].octave < 10
    ensures |ps| == 3 ==> SpreadVoicingUkulele(Texts(ps, Name)) == Texts(ps + [Up(ps[0], 1)], Name)
    ensures |ps| != 3 ==> SpreadVoicingUkulele(Texts(ps, Name)) == Texts(ps, Name)
  {
    if |ps| == 3 {
      ShiftOctaveOfName(ps[0], 1);
    }
  }

  /** The cases of the utility modules' own tests. */
  lemma SpreadTriadExample()
    ensures SpreadVoicing(["D4", "F#4", "A4"]) == ["D4", "A4", "F#5", "A5", "D6"]
  {
    var c: seq<Note> := ["D4", "F#4", "A4"];
    assert c[0] == "D4" && c[1] == "F#4" && c[2] == "A4";
    assert ShiftOctave("F#4", 1) == "F#5" by { assert ShiftOctave("F#4", 1) == "F#" + Decimal(5); }
    assert ShiftOctave("A4", 1) == "A5" by { assert ShiftOctave("A4", 1) == "A" + Decimal(5); }
    assert ShiftOctave("D4", 2) == "D6" by { assert ShiftOctave("D4", 2) == "D" + Decimal(6); }
    assert SpreadVoicing(c) == [c[0], c[2], ShiftOctave(c[1], 1), ShiftOctave(c[2], 1), ShiftOctave(c[0], 2)];
  }

  lemma SpreadTetradExample()
    ensures SpreadVoicing(["D4", "F#4", "A4", "C5"]) == ["D4", "A4", "F#5", "C6", "A5", "D6"]
  {
    var c: seq<Note> := ["D4", "F#4", "A4", "C5"];
    assert c[0] == "D4" && c[1] == "F#4" && c[2] == "A4" && c[3] == "C5";
    assert ShiftOctave("F#4", 1) == "F#5" by { assert ShiftOctave("F#4", 1) == "F#" + Decimal(5); }
    assert ShiftOctave("C5", 1) == "C6" by { assert ShiftOctave("C5", 1) == "C" + Decimal(6); }
    assert ShiftOctave("A4", 1) == "A5" by { assert ShiftOctave("A4", 1) == "A" + Decimal(5); }
    assert ShiftOctave("D4", 2) == "D6" by { assert ShiftOctave("D4", 2) == "D" + Decimal(6); }
    assert SpreadVoicing(c) ==
      [c[0], c[2], ShiftOctave(c[1], 1), ShiftOctave(c[3], 1), ShiftOctave(c[2], 1), ShiftOctave(c[0], 2)];
  }

  lemma SpreadOtherSizesExample()
    ensures SpreadVoicing(["D4", "E4", "F4", "G4", "A4"]) == ["D4", "E4", "F4", "G4", "A4"]
    ensures SpreadVoicing(["G4", "B4"]) == ["G4", "B4"]
  {
  }

  lemma UkuleleTriadExample()
    ensures SpreadVoicingUkulele(["C4", "E4", "G4"]) == ["C4", "E4", "G4", "C5"]
  {
    var c: seq<Note> := ["C4", "E4", "G4"];
    assert c[0] == "C4";
    assert ShiftOctave("C4", 1) == "C5" by { assert ShiftOctave("C4", 1) == "C" + Decimal(5); }
    assert SpreadVoicingUkulele(c) == c + [ShiftOctave(c[0], 1)];
  }
}
