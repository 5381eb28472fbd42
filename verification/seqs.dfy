/** Sequence helpers shared by the text, extraction and analytics modules. */
module Seqs {

  /** No element occurs twice. */
  predicate NoDuplicates<T(==)>(s: seq<T>)
  {
    forall i, j :: 0 <= i < j < |s| ==> s[i] != s[j]
  }

  /** The elements of `s` that satisfy `f`, in their original order: a list
      comprehension with a condition, or a boolean mask over a table. */
  function Keep<T(==)>(s: seq<T>, f: T -> bool): (r: seq<T>)
    ensures |r| <= |s|
    ensures forall i :: 0 <= i < |r| ==> r[i] in s && f(r[i])
    ensures forall i :: 0 <= i < |s| && f(s[i]) ==> s[i] in r
    decreases |s|
  {
    if s == [] then []
    else
      var init := Keep(s[..|s| - 1], f);
      assert s == s[..|s| - 1] + [s[|s| - 1]];
      if f(s[|s| - 1]) then init + [s[|s| - 1]] else init
  }

  /** The positions of `s` whose element satisfies `f`. */
  ghost function Positions<T>(s: seq<T>, f: T -> bool): set<int>
  {
    set i | 0 <= i < |s| && f(s[i])
  }

  /** Keep returns one element per satisfying position, so its length counts them. */
  lemma {:induction false} KeepCountsPositions<T>(s: seq<T>, f: T -> bool)
    ensures |Keep(s, f)| == |Positions(s, f)|
    decreases |s|
  {
    if s != [] {
      var init := s[..|s| - 1];
      var last := |s| - 1;
      KeepCountsPositions(init, f);
      if f(s[last]) {
        assert Positions(s, f) == Positions(init, f) + {last};
      } else {
        assert Positions(s, f) == Positions(init, f);
      }
    }
  }

  /** Keeping from a concatenation keeps from each part. */
  lemma {:induction false} KeepAppend<T>(a: seq<T>, b: seq<T>, f: T -> bool)
    ensures Keep(a + b, f) == Keep(a, f) + Keep(b, f)
    decreases |b|
  {
    if b == [] {
      assert a + b == a;
    } else {
      var b' := b[..|b| - 1];
      assert (a + b)[..|a + b| - 1] == a + b';
      KeepAppend(a, b', f);
      if f(b[|b| - 1]) {
        calc {
          Keep(a + b, f);
          Keep(a + b', f) + [b[|b| - 1]];
          Keep(a, f) + Keep(b', f) + [b[|b| - 1]];
          Keep(a, f) + Keep(b, f);
        }
      }
    }
  }

  /** Filtering twice is filtering once by both conditions. */
  lemma {:induction false} KeepKeep<T>(s: seq<T>, f: T -> bool, g: T -> bool, both: T -> bool)
    requires forall x :: both(x) == (f(x) && g(x))
    ensures Keep(Keep(s, f), g) == Keep(s, both)
    decreases |s|
  {
    if s != [] {
      var init := s[..|s| - 1];
      var last := s[|s| - 1];
      KeepKeep(init, f, g, both);
      if f(last) {
        KeepAppend(Keep(init, f), [last], g);
        assert Keep([last], g) == if g(last) then [last] else [];
      }
    }
  }

  /** When every element satisfies `f`, nothing is dropped. */
  lemma {:induction false} KeepAll<T>(s: seq<T>, f: T -> bool)
    requires forall i :: 0 <= i < |s| ==> f(s[i])
    ensures Keep(s, f) == s
    decreases |s|
  {
    if s != [] {
      KeepAll(s[..|s| - 1], f);
      assert s == s[..|s| - 1] + [s[|s| - 1]];
    }
  }

  /** The elements of `s` in order of first occurrence, each once: the loop
      `if x not in found: found.append(x)`. */
  function Dedup<T(==)>(s: seq<T>): (r: seq<T>)
    ensures NoDuplicates(r)
    ensures forall i :: 0 <= i < |r| ==> r[i] in s
    ensures forall i :: 0 <= i < |s| ==> s[i] in r
    ensures |r| <= |s|
    decreases |s|
  {
    if s == [] then []
    else
      var seen := Dedup(s[..|s| - 1]);
      assert s == s[..|s| - 1] + [s[|s| - 1]];
      if s[|s| - 1] in seen then seen else seen + [s[|s| - 1]]
  }

  /** A sequence without repeats is left exactly as it is. */
  lemma {:induction false} DedupKeepsDistinct<T>(s: seq<T>)
    requires NoDuplicates(s)
    ensures Dedup(s) == s
    decreases |s|
  {
    if s != [] {
      var init := s[..|s| - 1];
      assert NoDuplicates(init);
      DedupKeepsDistinct(init);
      assert s[|s| - 1] !in init;
      assert s == init + [s[|s| - 1]];
    }
  }
}
