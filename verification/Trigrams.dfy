/** Trigram sets and their similarity: `buildTrigrams` and `jaccardSimilarity` in pkg/skills/search_cache.go. */
module Trigrams {
  import opened Common

  type Text = seq<byte>

  /** uint32(a)<<16 | uint32(b)<<8 | uint32(c) */
  function Code(a: byte, b: byte, c: byte): nat {
    a * 65536 + b * 256 + c
  }

  /** Different windows have different codes. */
  lemma CodeIsInjective(a: byte, b: byte, c: byte, x: byte, y: byte, z: byte)
    requires Code(a, b, c) == Code(x, y, z)
    ensures a == x && b == y && c == z
  {}

  function WindowCode(s: Text, i: nat): nat
    requires i + 2 < |s|
  {
    Code(s[i], s[i + 1], s[i + 2])
  }

  /** The codes of all three-byte windows of s. */
  function TrigramSet(s: Text): set<nat> {
    set i | 0 <= i < |s| - 2 :: WindowCode(s, i)
  }

  predicate Increasing(t: seq<nat>) {
    forall i, j :: 0 <= i < j < |t| ==> t[i] < t[j]
  }

  function Elements(t: seq<nat>): set<nat> {
    set x | x in t
  }

  /** t is the sorted list of the windows of s, without repetitions. */
  predicate IsTrigrams(t: seq<nat>, s: Text) {
    Increasing(t) && Elements(t) == TrigramSet(s)
  }

  predicate Ascending(t: seq<nat>) {
    forall i, j :: 0 <= i < j < |t| ==> t[i] <= t[j]
  }

  predicate NotAbove(x: nat, y: nat) {
    x <= y
  }

  /** slices.Sort */
  method Sort(a: array<nat>)
    modifies a
    ensures Ascending(a[..]) && multiset(a[..]) == multiset(old(a[..]))
  {
    var r := SortBy(a[..], NotAbove);
    assert forall i, j :: 0 <= i < j < |r| ==> NotAbove(r[i], r[j]);
    forall i | 0 <= i < a.Length {
      a[i] := r[i];
    }
    assert a[..] == r;
  }

  lemma ElementsSnoc(t: seq<nat>, x: nat)
    ensures Elements(t + [x]) == Elements(t) + {x}
  {}

  lemma ElementsCons(x: nat, t: seq<nat>)
    ensures Elements([x] + t) == {x} + Elements(t)
  {}

  /** front holds the distinct values of the first i values of s, in order. */
  ghost predicate IsFront(front: seq<nat>, s: seq<nat>, i: nat)
    requires 0 < i <= |s|
  {
    front != [] && Increasing(front) && Elements(front) == Elements(s[..i]) && front[|front| - 1] == s[i - 1]
  }

  /** A value equal to its predecessor adds nothing; any other is new and the greatest so far. */
  lemma {:induction false} FrontStep(front: seq<nat>, s: seq<nat>, i: nat)
    requires 0 < i < |s| && Ascending(s) && IsFront(front, s, i)
    ensures IsFront(if s[i] != s[i - 1] then front + [s[i]] else front, s, i + 1)
  {
    assert s[..i + 1] == s[..i] + [s[i]] && s[i - 1] <= s[i];
    ElementsSnoc(s[..i], s[i]);
    ElementsSnoc(front, s[i]);
    assert s[..i][i - 1] in Elements(s[..i]);
  }

  /** Moves the distinct values of a sorted array to its front, in place, and returns how many there are. */
  method DedupeInPlace(a: array<nat>) returns (n: nat)
    requires a.Length > 0 && Ascending(a[..])
    modifies a
    ensures n <= a.Length && Increasing(a[..n]) && Elements(a[..n]) == Elements(old(a[..]))
  {
    ghost var s := a[..];
    n := 1;
    assert a[..1] == s[..1];
    assert IsFront(a[..n], s, 1);
    for i := 1 to a.Length
      invariant 1 <= n <= i
      invariant forall k :: i - 1 <= k < a.Length ==> a[k] == s[k]
      invariant IsFront(a[..n], s, i)
    {
      hide IsFront, Ascending;
      FrontStep(a[..n], s, i);
      ghost var front := a[..n];
      if a[i] != a[i - 1] {
        a[n] := a[i];
        n := n + 1;
        assert a[..n] == front + [s[i]];
      }
    }
    assert s[..a.Length] == s;
  }

  method BuildTrigrams(s: Text) returns (t: seq<nat>)
    ensures IsTrigrams(t, s)
  {
    if |s| < 3 {
      return [];
    }
    var trigrams := new nat[|s| - 2];
    for i := 0 to |s| - 2
      invariant forall j :: 0 <= j < i ==> trigrams[j] == WindowCode(s, j)
    {
      trigrams[i] := WindowCode(s, i);
    }
    assert Elements(trigrams[..]) == TrigramSet(s) by {
      assert forall i :: 0 <= i < |s| - 2 ==> trigrams[..][i] == WindowCode(s, i);
    }
    ghost var unsorted := trigrams[..];
    Sort(trigrams);
    assert Elements(trigrams[..]) == Elements(unsorted) by {
      assert forall x :: x in trigrams[..] <==> x in multiset(trigrams[..]);
      assert forall x :: x in unsorted <==> x in multiset(unsorted);
    }
    var n := DedupeInPlace(trigrams);
    t := trigrams[..n];
  }

  /** The code at i is the number whose digits to base 256 are the three bytes there. */
  predicate IsCodeAt(x: int, s: Text, i: int)
    requires 0 <= i < |s| - 2
  {
    x / 65536 == s[i] && x / 256 % 256 == s[i + 1] && x % 256 == s[i + 2]
  }

  /** What the list of trigrams holds, byte by byte. */
  lemma {:induction false} TrigramsMean(t: seq<nat>, s: Text)
    requires IsTrigrams(t, s)
    ensures forall i, j :: 0 <= i < j < |t| ==> t[i] < t[j]
    ensures forall x :: x in t ==> exists i :: 0 <= i < |s| - 2 && IsCodeAt(x, s, i)
    ensures forall i, x :: 0 <= i < |s| - 2 && IsCodeAt(x, s, i) ==> x in t
  {
    forall i, x | 0 <= i < |s| - 2 ensures IsCodeAt(x, s, i) <==> x == WindowCode(s, i) {
      Digits(x, s[i], s[i + 1], s[i + 2]);
    }
    assert forall x :: x in t <==> x in Elements(t);
    assert forall i :: 0 <= i < |s| - 2 ==> WindowCode(s, i) in TrigramSet(s);
    forall x | x in t ensures exists i :: 0 <= i < |s| - 2 && IsCodeAt(x, s, i) {
      var i :| 0 <= i < |s| - 2 && x == WindowCode(s, i);
      assert IsCodeAt(x, s, i);
    }
  }

  lemma {:induction false} Digits(x: int, a: byte, b: byte, c: byte)
    ensures x / 65536 == a && x / 256 % 256 == b && x % 256 == c <==> x == Code(a, b, c)
  {
    var y, z := x / 256, x / 65536;
    assert y / 256 == z;
    assert x == 256 * y + x % 256 && y == 256 * z + y % 256;
  }

  // ---------- Similarity ----------

  /** |A and B| / |A or B|, and 1 for two empty sets. */
  function Similarity(a: set<nat>, b: set<nat>): real {
    if a == {} && b == {} then 1.0 else (|a * b| as real) / (|a + b| as real)
  }

  lemma {:induction false} ElementsCount(t: seq<nat>)
    requires Increasing(t)
    ensures |Elements(t)| == |t|
  {
    if t != [] {
      var init, last := t[..|t| - 1], t[|t| - 1];
      ElementsCount(init);
      assert Elements(t) == Elements(init) + {last};
    }
  }

  /** How many values the rests of two lists share. */
  ghost function Shared(a: seq<nat>, i: nat, b: seq<nat>, j: nat): nat
    requires i <= |a| && j <= |b|
  {
    |Elements(a[i..]) * Elements(b[j..])|
  }

  lemma {:induction false} SharedEnds(a: seq<nat>, i: nat, b: seq<nat>, j: nat)
    requires i <= |a| && j <= |b|
    ensures Shared(a, 0, b, 0) == |Elements(a) * Elements(b)|
    ensures i == |a| || j == |b| ==> Shared(a, i, b, j) == 0
  {
    assert a[0..] == a && b[0..] == b;
    if i == |a| || j == |b| {
      assert Elements(a[i..]) * Elements(b[j..]) == {};
    }
  }

  /** One step of the merge. */
  lemma {:induction false} MergeStep(a: seq<nat>, i: nat, b: seq<nat>, j: nat)
    requires i < |a| && j < |b| && Increasing(a) && Increasing(b)
    ensures Shared(a, i, b, j)
         == if a[i] == b[j] then 1 + Shared(a, i + 1, b, j + 1)
            else if a[i] < b[j] then Shared(a, i + 1, b, j)
            else Shared(a, i, b, j + 1)
  {
    hide Elements;
    SplitFirst(a, i);
    SplitFirst(b, j);
    var x, y, t, u := a[i], b[j], Elements(a[i + 1..]), Elements(b[j + 1..]);
    if x == y {
      assert ({x} + t) * ({y} + u) == {x} + t * u;
    } else if x < y {
      assert ({x} + t) * ({y} + u) == t * ({y} + u);
    } else {
      assert ({x} + t) * ({y} + u) == ({x} + t) * u;
    }
  }

  /** The merge loop: how many values two increasing lists share. */
  method CountCommon(a: seq<nat>, b: seq<nat>) returns (intersection: nat)
    requires Increasing(a) && Increasing(b)
    ensures intersection == |Elements(a) * Elements(b)|
  {
    hide Shared, Elements, Increasing;
    var i, j := 0, 0;
    intersection := 0;
    SharedEnds(a, i, b, j);
    while i < |a| && j < |b|
      invariant i <= |a| && j <= |b|
      invariant intersection + Shared(a, i, b, j) == |Elements(a) * Elements(b)|
      decreases |a| - i + |b| - j
    {
      MergeStep(a, i, b, j);
      if a[i] == b[j] {
        intersection := intersection + 1;
        i := i + 1;
        j := j + 1;
      } else if a[i] < b[j] {
        i := i + 1;
      } else {
        j := j + 1;
      }
    }
    SharedEnds(a, i, b, j);
  }

  /** The first value of an increasing list is below all others. */
  lemma {:induction false} SplitFirst(a: seq<nat>, i: nat)
    requires i < |a| && Increasing(a)
    ensures var rest := Elements(a[i + 1..]); Elements(a[i..]) == {a[i]} + rest && forall e :: e in rest ==> a[i] < e
  {
    assert a[i..] == [a[i]] + a[i + 1..];
    ElementsCons(a[i], a[i + 1..]);
  }

  method JaccardSimilarity(a: seq<nat>, b: seq<nat>) returns (sim: real)
    requires Increasing(a) && Increasing(b)
    ensures sim == Similarity(Elements(a), Elements(b))
  {
    if |a| == 0 && |b| == 0 {
      return 1.0;
    }
    var intersection := CountCommon(a, b);
    ElementsCount(a);
    ElementsCount(b);
    UnionSize(Elements(a), Elements(b));
    var union := |a| + |b| - intersection;
    if |a| > 0 { assert a[0] in Elements(a); } else { assert b[0] in Elements(b); }
    sim := (intersection as real) / (union as real);
  }

  lemma {:induction false} UnionSize(a: set<nat>, b: set<nat>)
    ensures |a + b| == |a| + |b| - |a * b|
    ensures |a * b| <= |a + b|
    ensures a + b != {} ==> |a + b| > 0
  {
    assert a + b == a + (b - a * b);
    assert |b - a * b| == |b| - |a * b|;
    assert a == a * b + (a - b);
  }

  /** The share of the common values among all values. */
  lemma {:induction false} SimilarityIsRatio(a: set<nat>, b: set<nat>)
    ensures a == {} && b == {} ==> Similarity(a, b) == 1.0
    ensures Similarity(a, b) * (|a + b| as real) == if a + b == {} then 0.0 else (|a * b| as real)
  {
    if a + b != {} {
      UnionSize(a, b);
      var x, y := |a * b| as real, |a + b| as real;
      assert (x / y) * y == x;
    }
  }

  /** Symmetric, between 0 and 1, 1 exactly for equal sets, and 0 exactly for disjoint ones that are not both empty. */
  lemma {:induction false} SimilarityLaws(a: set<nat>, b: set<nat>)
    ensures Similarity(a, b) == Similarity(b, a)
    ensures 0.0 <= Similarity(a, b) <= 1.0
    ensures Similarity(a, b) == 1.0 <==> a == b
    ensures Similarity(a, b) == 0.0 <==> a !! b && a + b != {}
  {
    assert a * b == b * a && a + b == b + a;
    if a + b != {} {
      UnionSize(a, b);
      var i, u := |a * b|, |a + b|;
      RatioLaws(i, u);
      if i == u {
        assert a * b == a + b by {
          SubsetOfSameSize(a * b, a + b);
        }
        assert a == b by {
          assert forall x :: x in a ==> x in a + b && x in a * b;
          assert forall x :: x in b ==> x in a + b && x in a * b;
        }
      }
      if a == b {
        assert a * b == a + b;
      }
    }
  }

  lemma {:induction false} RatioLaws(i: nat, u: nat)
    requires i <= u && u > 0
    ensures 0.0 <= (i as real) / (u as real) <= 1.0
    ensures (i as real) / (u as real) == 1.0 <==> i == u
    ensures (i as real) / (u as real) == 0.0 <==> i == 0
  {
    var x, y := i as real, u as real;
    assert (x / y) * y == x;
  }

  lemma {:induction false} SubsetOfSameSize(a: set<nat>, b: set<nat>)
    requires a <= b && |a| == |b|
    ensures a == b
  {
    assert b == a + (b - a);
    assert |b - a| == 0;
  }

  /** Two texts shorter than three bytes have similarity 1, whatever they are. */
  lemma {:induction false} ShortTextsAreAlike(s: Text, t: Text)
    requires |s| < 3 && |t| < 3
    ensures Similarity(TrigramSet(s), TrigramSet(t)) == 1.0
  {
    assert TrigramSet(s) == {} && TrigramSet(t) == {};
  }

  /** There is only one sorted, duplicate-free list of the windows. */
  lemma {:induction false} TrigramsAreUnique(t: seq<nat>, u: seq<nat>, s: Text)
    requires IsTrigrams(t, s) && IsTrigrams(u, s)
    ensures t == u
  {
    SameElements(t, u);
  }

  lemma {:induction false} SameElements(t: seq<nat>, u: seq<nat>)
    requires Increasing(t) && Increasing(u) && Elements(t) == Elements(u)
    ensures t == u
  {
    ElementsCount(t);
    ElementsCount(u);
    if t != [] {
      var n := |t| - 1;
      assert t[n] in Elements(u) && u[n] in Elements(t);
      assert t[n] == u[n];
      assert Elements(t[..n]) == Elements(t) - {t[n]};
      assert Elements(u[..n]) == Elements(u) - {u[n]};
      SameElements(t[..n], u[..n]);
      assert t == t[..n] + [t[n]] && u == u[..n] + [u[n]];
    }
  }
}
