/** The in-place min-heap of scored documents: `bm25MinHeapify` and `bm25SiftDown` in pkg/utils/bm25.go. */
module MinHeap {
  import opened Common

  datatype ScoredDoc = ScoredDoc(doc: nat, score: real)

  predicate ChildrenOk(s: seq<ScoredDoc>, p: nat) {
    && (2 * p + 1 < |s| ==> s[p].score <= s[2 * p + 1].score)
    && (2 * p + 2 < |s| ==> s[p].score <= s[2 * p + 2].score)
  }

  /** Every node from lo on is at most its children. */
  predicate HeapFrom(s: seq<ScoredDoc>, lo: nat) {
    forall p :: lo <= p < |s| ==> ChildrenOk(s, p)
  }

  lemma {:induction false} RootIsMinimal(s: seq<ScoredDoc>, j: nat)
    requires HeapFrom(s, 0) && j < |s|
    ensures s[0].score <= s[j].score
    decreases j
  {
    if j > 0 {
      var p := (j - 1) / 2;
      assert ChildrenOk(s, p) && (j == 2 * p + 1 || j == 2 * p + 2);
      RootIsMinimal(s, p);
    }
  }

  lemma SwapKeepsContents(s: seq<ScoredDoc>, i: nat, j: nat)
    requires i < |s| && j < |s|
    ensures multiset(s[i := s[j]][j := s[i]]) == multiset(s)
  {}

  /** Only node i may exceed its children, and its parent is at most its children. */
  ghost predicate Sifting(s: seq<ScoredDoc>, start: nat, i: nat) {
    && (forall p :: start <= p < |s| && p != i ==> ChildrenOk(s, p))
    && (forall p :: start <= p < i && (2 * p + 1 == i || 2 * p + 2 == i) ==>
         (2 * i + 1 < |s| ==> s[p].score <= s[2 * i + 1].score) &&
         (2 * i + 2 < |s| ==> s[p].score <= s[2 * i + 2].score))
  }

  lemma {:induction false} SiftStep(s: seq<ScoredDoc>, start: nat, i: nat, c: nat)
    requires start <= i < c < |s| && Sifting(s, start, i)
    requires c == 2 * i + 1 || c == 2 * i + 2
    requires s[c].score < s[i].score
    requires 2 * i + 1 < |s| ==> s[c].score <= s[2 * i + 1].score
    requires 2 * i + 2 < |s| ==> s[c].score <= s[2 * i + 2].score
    ensures Sifting(s[i := s[c]][c := s[i]], start, c)
  {
    var t := s[i := s[c]][c := s[i]];
    assert ChildrenOk(s, c);
    forall p | start <= p < |s| && p != c ensures ChildrenOk(t, p) {
      if p != i {
        assert ChildrenOk(s, p);
      }
    }
  }

  method SiftDown(h: array<ScoredDoc>, start: nat)
    requires start < h.Length && HeapFrom(h[..], start + 1)
    modifies h
    ensures HeapFrom(h[..], start)
    ensures multiset(h[..]) == old(multiset(h[..]))
  {
    var n, i := h.Length, start;
    while true
      invariant start <= i < n
      invariant Sifting(h[..], start, i)
      invariant multiset(h[..]) == old(multiset(h[..]))
      decreases n - i
    {
      var smallest := i;
      var l, r := 2 * i + 1, 2 * i + 2;
      if l < n && h[l].score < h[smallest].score {
        smallest := l;
      }
      if r < n && h[r].score < h[smallest].score {
        smallest := r;
      }
      if smallest == i {
        assert ChildrenOk(h[..], i);
        break;
      }
      ghost var s := h[..];
      SiftStep(s, start, i, smallest);
      SwapKeepsContents(s, i, smallest);
      h[i], h[smallest] := h[smallest], h[i];
      assert h[..] == s[i := s[smallest]][smallest := s[i]];
      i := smallest;
    }
  }

  /** Floyd's construction: any array becomes a heap of the same elements. */
  method MinHeapify(h: array<ScoredDoc>)
    modifies h
    ensures HeapFrom(h[..], 0)
    ensures multiset(h[..]) == old(multiset(h[..]))
  {
    var i := h.Length / 2 - 1;
    while i >= 0
      invariant -1 <= i < h.Length
      invariant HeapFrom(h[..], i + 1)
      invariant multiset(h[..]) == old(multiset(h[..]))
    {
      SiftDown(h, i);
      i := i - 1;
    }
  }

  // ---------- Sorting by descending score ----------

  predicate Descending(s: seq<ScoredDoc>) {
    forall i, j :: 0 <= i < j < |s| ==> s[i].score >= s[j].score
  }

  predicate NotBelow(x: ScoredDoc, y: ScoredDoc) {
    x.score >= y.score
  }

  /** sort.Slice by descending score; equal scores may come in any order. */
  method SortByScore(s: seq<ScoredDoc>) returns (r: seq<ScoredDoc>)
    ensures multiset(r) == multiset(s) && Descending(r)
  {
    r := SortBy(s, NotBelow);
    assert forall i, j :: 0 <= i < j < |r| ==> NotBelow(r[i], r[j]);
  }
}
