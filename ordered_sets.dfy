/**
  Sequences used as JavaScript `Set`s: each element once, iterated in
  insertion order. Generic in the element type; the fretboard components use
  them with note texts.
*/
module OrderedSets {
  predicate NoDup<T(==)>(s: seq<T>)
  {
    forall i, j :: 0 <= i < j < |s| ==> s[i] != s[j]
  }

  /** Index of the first occurrence of `x` in `s`. */
  function FirstIndex<T(==)>(s: seq<T>, x: T): (i: nat)
    requires x in s
    ensures i < |s| && s[i] == x && x !in s[..i]
  {
    if s[0] == x then 0
    else
      var i := FirstIndex(s[1..], x) + 1;
      assert s[..i] == [s[0]] + s[1..][..i - 1];
      i
  }

  /** `new Set(s)` read back in iteration order: each element once, where it
      first occurs. */
  function Dedup<T(==)>(s: seq<T>): seq<T>
    decreases |s|
  {
    if s == [] then []
    else
      var r := Dedup(s[..|s| - 1]);
      if s[|s| - 1] in r then r else r + [s[|s| - 1]]
  }

  /** `Set.delete`: the sequence without `x`, order kept. */
  function Without<T(==)>(s: seq<T>, x: T): seq<T>
    decreases |s|
  {
    if s == [] then []
    else if s[0] == x then Without(s[1..], x)
    else [s[0]] + Without(s[1..], x)
  }

  /** Deleting an element that occurs once removes exactly that occurrence. */
  lemma {:induction false} WithoutSplit<T>(a: seq<T>, x: T, b: seq<T>)
    requires x !in a && x !in b
    ensures Without(a + [x] + b, x) == a + b
    decreases |a|
  {
    if a == [] {
      assert ([x] + b)[1..] == b;
      WithoutAbsent(b, x);
    } else {
      assert (a + [x] + b)[1..] == a[1..] + [x] + b;
      WithoutSplit(a[1..], x, b);
      assert a + b == [a[0]] + (a[1..] + b);
    }
  }

  /** Deleting an absent element changes nothing. */
  lemma {:induction false} WithoutAbsent<T>(s: seq<T>, x: T)
    requires x !in s
    ensures Without(s, x) == s
    decreases |s|
  {
    if s != [] {
      WithoutAbsent(s[1..], x);
      assert s == [s[0]] + s[1..];
    }
  }

  /** The elements of `s` that are not in `gone`, order kept. */
  function Keep<T(==)>(s: seq<T>, gone: set<T>): seq<T>
    decreases |s|
  {
    if s == [] then []
    else if s[0] in gone then Keep(s[1..], gone)
    else [s[0]] + Keep(s[1..], gone)
  }

  /** The elements of `s` are elements of `whole`, listed in the order in
      which they first occur in `whole`. */
  ghost predicate InFirstOccurrenceOrder<T>(whole: seq<T>, s: seq<T>)
  {
    (forall x :: x in s ==> x in whole) &&
    forall i, j :: 0 <= i < j < |s| ==> FirstIndex(whole, s[i]) < FirstIndex(whole, s[j])
  }

  /** Deduplication keeps exactly the elements of `s`, each once, ordered by
      where they first occur in `s`. */
  lemma {:induction false} DedupSpec<T>(s: seq<T>)
    ensures NoDup(Dedup(s))
    ensures forall x :: x in Dedup(s) <==> x in s
    ensures InFirstOccurrenceOrder(s, Dedup(s))
    decreases |s|
  {
    if s != [] {
      var n := |s| - 1;
      var p := s[..n];
      DedupSpec(p);
      assert s == p + [s[n]];
      forall x | x in p ensures FirstIndex(s, x) == FirstIndex(p, x) {
        var k := FirstIndex(p, x);
        assert s[..k] == p[..k];
      }
      if s[n] !in Dedup(p) {
        assert s[n] !in s[..n];
        assert FirstIndex(s, s[n]) == n;
      }
    }
  }

  /** A sequence without repetitions is its own deduplication. */
  lemma {:induction false} DedupOfNoDup<T>(s: seq<T>)
    requires NoDup(s)
    ensures Dedup(s) == s
    decreases |s|
  {
    if s != [] {
      var n := |s| - 1;
      DedupOfNoDup(s[..n]);
      assert s == s[..n] + [s[n]];
    }
  }

  lemma {:induction false} KeepSpec<T>(s: seq<T>, gone: set<T>)
    ensures forall x :: x in Keep(s, gone) <==> x in s && x !in gone
    ensures NoDup(s) ==> NoDup(Keep(s, gone))
    decreases |s|
  {
    if s != [] {
      KeepSpec(s[1..], gone);
      if NoDup(s) {
        assert NoDup(s[1..]);
        assert s[0] !in s[1..];
      }
    }
  }

  /** Deleting an element from the kept part is keeping one element fewer. */
  lemma {:induction false} WithoutKeep<T>(s: seq<T>, gone: set<T>, x: T)
    ensures Without(Keep(s, gone), x) == Keep(s, gone + {x})
    decreases |s|
  {
    if s != [] {
      WithoutKeep(s[1..], gone, x);
    }
  }

  lemma {:induction false} KeepNothing<T>(s: seq<T>)
    ensures Keep(s, {}) == s
    decreases |s|
  {
    if s != [] {
      KeepNothing(s[1..]);
    }
  }

  lemma {:induction false} KeepDisjoint<T>(s: seq<T>, gone: set<T>)
    requires forall x :: x in s ==> x !in gone
    ensures Keep(s, gone) == s
    decreases |s|
  {
    if s != [] {
      KeepDisjoint(s[1..], gone);
    }
  }

  lemma {:induction false} KeepSnoc<T>(s: seq<T>, gone: set<T>, x: T)
    ensures Keep(s + [x], gone) == Keep(s, gone) + (if x in gone then [] else [x])
    decreases |s|
  {
    if s == [] {
      assert [x][1..] == [];
    } else {
      assert (s + [x])[1..] == s[1..] + [x];
      KeepSnoc(s[1..], gone, x);
    }
  }

  lemma OrderCons<T>(whole: seq<T>, x: T, t: seq<T>)
    requires x in whole && InFirstOccurrenceOrder(whole, t)
    requires forall y :: y in t ==> FirstIndex(whole, x) < FirstIndex(whole, y)
    ensures InFirstOccurrenceOrder(whole, [x] + t)
  {
    var r := [x] + t;
    forall i, j | 0 <= i < j < |r| ensures FirstIndex(whole, r[i]) < FirstIndex(whole, r[j]) {
      assert r[j] == t[j - 1];
      if i > 0 {
        assert r[i] == t[i - 1];
      }
    }
  }

  /** Keeping a part of an ordered sequence keeps it ordered. */
  lemma {:induction false} KeepKeepsOrder<T>(whole: seq<T>, s: seq<T>, gone: set<T>)
    requires InFirstOccurrenceOrder(whole, s)
    ensures InFirstOccurrenceOrder(whole, Keep(s, gone))
    decreases |s|
  {
    if s != [] {
      var t := s[1..];
      assert s == [s[0]] + t;
      assert InFirstOccurrenceOrder(whole, t) by {
        forall i, j | 0 <= i < j < |t| ensures FirstIndex(whole, t[i]) < FirstIndex(whole, t[j]) {
          assert t[i] == s[i + 1] && t[j] == s[j + 1];
        }
      }
      KeepKeepsOrder(whole, t, gone);
      if s[0] !in gone {
        KeepSpec(t, gone);
        forall y | y in Keep(t, gone) ensures FirstIndex(whole, s[0]) < FirstIndex(whole, y) {
          var k :| 0 <= k < |t| && t[k] == y;
          assert s[k + 1] == y;
        }
        OrderCons(whole, s[0], Keep(t, gone));
      }
    }
  }
}
