/** The bounded selection at the end of `BM25Engine.Search`: pkg/utils/bm25.go. */
module TopK {
  import opened MinHeap

  /** What the result must be, whatever the order in which the scores were visited. */
  ghost predicate IsTopK(r: seq<ScoredDoc>, scores: map<nat, real>, k: nat) {
    && |r| == (if |scores| < k then |scores| else k)
    && Descending(r)
    && (forall i, j :: 0 <= i < j < |r| ==> r[i].doc != r[j].doc)
    && (forall i :: 0 <= i < |r| ==> r[i].doc in scores && r[i].score == scores[r[i].doc])
    && (forall d, i :: d in scores && d !in Docs(r) && 0 <= i < |r| ==> scores[d] <= r[i].score)
  }

  function Docs(r: seq<ScoredDoc>): set<nat> {
    set e | e in r :: e.doc
  }

  /** The scored documents of a set of keys. */
  function Entries(kept: set<nat>, scores: map<nat, real>): set<ScoredDoc>
    requires kept <= scores.Keys
  {
    set d | d in kept :: ScoredDoc(d, scores[d])
  }

  lemma EntriesGrow(kept: set<nat>, scores: map<nat, real>, d: nat)
    requires kept <= scores.Keys && d in scores && d !in kept
    ensures Entries(kept + {d}, scores) == Entries(kept, scores) + {ScoredDoc(d, scores[d])}
    ensures ScoredDoc(d, scores[d]) !in Entries(kept, scores)
  {}

  lemma EntriesShrink(kept: set<nat>, scores: map<nat, real>, d: nat)
    requires kept <= scores.Keys && d in kept
    ensures Entries(kept - {d}, scores) == Entries(kept, scores) - {ScoredDoc(d, scores[d])}
  {}

  /** s lists the entries of kept, each once. */
  ghost predicate Lists(s: seq<ScoredDoc>, kept: set<nat>, scores: map<nat, real>) {
    kept <= scores.Keys && multiset(s) == multiset(Entries(kept, scores))
  }

  lemma {:induction false} Twice(s: seq<ScoredDoc>, i: nat, j: nat)
    requires i < j < |s| && s[i] == s[j]
    ensures multiset(s)[s[i]] >= 2
  {
    assert s == s[..i] + [s[i]] + s[i + 1..j] + [s[j]] + s[j + 1..];
  }

  lemma {:induction false} ListsMeans(s: seq<ScoredDoc>, kept: set<nat>, scores: map<nat, real>)
    requires Lists(s, kept, scores)
    ensures forall e :: e in s <==> e.doc in kept && e.score == scores[e.doc]
    ensures forall i, j :: 0 <= i < j < |s| ==> s[i].doc != s[j].doc
    ensures Docs(s) == kept
  {
    forall e ensures e in s <==> e.doc in kept && e.score == scores[e.doc] {
      assert e in s <==> e in multiset(s);
    }
    assert forall i :: 0 <= i < |s| ==> s[i] in s;
    forall i, j | 0 <= i < j < |s| ensures s[i].doc != s[j].doc {
      if s[i].doc == s[j].doc {
        Twice(s, i, j);
        assert false;
      }
    }
    forall d | d in kept ensures d in Docs(s) {
      assert ScoredDoc(d, scores[d]) in s;
    }
  }

  lemma {:induction false} AppendLists(s: seq<ScoredDoc>, kept: set<nat>, scores: map<nat, real>, d: nat)
    requires Lists(s, kept, scores) && d in scores && d !in kept
    ensures Lists(s + [ScoredDoc(d, scores[d])], kept + {d}, scores)
  {
    EntriesGrow(kept, scores, d);
    var x, e := ScoredDoc(d, scores[d]), Entries(kept, scores);
    assert multiset(e + {x}) == multiset(e) + multiset{x};
  }

  lemma {:induction false} ReplaceLists(s: seq<ScoredDoc>, kept: set<nat>, scores: map<nat, real>, d: nat)
    requires Lists(s, kept, scores) && 0 < |s| && d in scores && d !in kept
    ensures s[0].doc in kept
    ensures Lists(s[0 := ScoredDoc(d, scores[d])], kept - {s[0].doc} + {d}, scores)
  {
    ListsMeans(s, kept, scores);
    assert s[0] in s;
    EntriesShrink(kept, scores, s[0].doc);
    EntriesGrow(kept - {s[0].doc}, scores, d);
    assert s == [s[0]] + s[1..];
    assert s[0 := ScoredDoc(d, scores[d])] == [ScoredDoc(d, scores[d])] + s[1..];
    var e := Entries(kept, scores);
    assert multiset(e - {s[0]}) == multiset(e) - multiset{s[0]};
    assert multiset(e - {s[0]} + {ScoredDoc(d, scores[d])}) == multiset(e - {s[0]}) + multiset{ScoredDoc(d, scores[d])};
  }

  /** Among the visited documents, h[..count] holds the best k, as a min-heap once it is full. */
  ghost predicate Holds(s: seq<ScoredDoc>, kept: set<nat>, visited: set<nat>, scores: map<nat, real>, k: nat) {
    && Lists(s, kept, scores) && kept <= visited <= scores.Keys
    && |s| == |kept|
    && (|s| < k ==> kept == visited)
    && (|s| == k ==> HeapFrom(s, 0) && forall d, e :: d in visited - kept && e in s ==> scores[d] <= e.score)
  }

  lemma {:induction false} VisitLower(s: seq<ScoredDoc>, kept: set<nat>, visited: set<nat>, scores: map<nat, real>,
                                      k: nat, d: nat)
    requires 0 < k == |s| && Holds(s, kept, visited, scores, k)
    requires d in scores && d !in visited && scores[d] <= s[0].score
    ensures Holds(s, kept, visited + {d}, scores, k)
  {
    forall e | e in s ensures scores[d] <= e.score {
      var j :| 0 <= j < |s| && s[j] == e;
      RootIsMinimal(s, j);
    }
  }

  lemma {:induction false} VisitHigher(s: seq<ScoredDoc>, kept: set<nat>, visited: set<nat>, scores: map<nat, real>,
                                       k: nat, d: nat)
    requires 0 < k == |s| && Holds(s, kept, visited, scores, k)
    requires d in scores && d !in visited && scores[d] > s[0].score
    ensures var t, kept' := s[0 := ScoredDoc(d, scores[d])], kept - {s[0].doc} + {d};
      && Lists(t, kept', scores) && |kept'| == k && HeapFrom(t, 1)
      && forall x, e :: x in visited + {d} - kept' && e in t ==> scores[x] <= e.score
  {
    var x := ScoredDoc(d, scores[d]);
    var t := s[0 := x];
    ListsMeans(s, kept, scores);
    ReplaceLists(s, kept, scores, d);
    var kept' := kept - {s[0].doc} + {d};
    forall p | 1 <= p < |t| ensures ChildrenOk(t, p) {
      assert ChildrenOk(s, p);
    }
    forall y, e | y in visited + {d} - kept' && e in t ensures scores[y] <= e.score {
      var j :| 0 <= j < |t| && t[j] == e;
      RootIsMinimal(s, j);
      assert s[0] in s;
    }
  }

  lemma {:induction false} HoldsNothing(scores: map<nat, real>, k: nat)
    requires k > 0
    ensures Holds([], {}, {}, scores, k)
  {
    assert Entries({}, scores) == {};
  }

  /** Picks the k best scores; the map is visited in arbitrary order. */
  method SelectTop(scores: map<nat, real>, k: nat) returns (r: seq<ScoredDoc>)
    requires k > 0
    ensures IsTopK(r, scores, k)
  {
    var h := new ScoredDoc[k];
    var count := 0;
    var remaining := scores.Keys;
    ghost var kept: set<nat>, visited: set<nat> := {}, {};
    HoldsNothing(scores, k);
    assert h[..0] == [];
    while remaining != {}
      invariant forall d :: d in scores <==> d in remaining || d in visited
      invariant forall d :: d in remaining ==> d !in visited
      invariant count <= k && Holds(h[..count], kept, visited, scores, k)
      decreases |remaining|
    {
      var docID :| docID in remaining;
      kept, count := Visit(h, count, docID, kept, visited, scores);
      remaining, visited := remaining - {docID}, visited + {docID};
    }
    r := Finish(h[..count], kept, visited, scores, k);
  }

  method Finish(s: seq<ScoredDoc>, ghost kept: set<nat>, ghost visited: set<nat>, scores: map<nat, real>, k: nat)
    returns (r: seq<ScoredDoc>)
    requires Holds(s, kept, visited, scores, k) && |s| <= k && forall d :: d in scores ==> d in visited
    ensures IsTopK(r, scores, k)
  {
    assert visited == scores.Keys;
    r := SortByScore(s);
    Selected(s, kept, scores, k, r);
  }

  method Visit(h: array<ScoredDoc>, count: nat, docID: nat, ghost kept: set<nat>, ghost visited: set<nat>,
               scores: map<nat, real>) returns (ghost kept': set<nat>, count': nat)
    requires 0 < h.Length && count <= h.Length && docID in scores && docID !in visited
    requires Holds(h[..count], kept, visited, scores, h.Length)
    modifies h
    ensures count' == if count < h.Length then count + 1 else count
    ensures Holds(h[..count'], kept', visited + {docID}, scores, h.Length)
    ensures |h[..count']| == count'
  {
    count' := count;
    if count < h.Length {
      kept' := Append(h, count, docID, kept, visited, scores, h.Length);
      count' := count + 1;
    } else {
      assert h[..] == h[..count];
      kept' := Compete(h, docID, kept, visited, scores);
      assert h[..] == h[..count];
    }
  }

  /** Adds an entry while there is room; the k-th entry turns the slice into a heap. */
  method Append(h: array<ScoredDoc>, count: nat, docID: nat, ghost kept: set<nat>, ghost visited: set<nat>,
                scores: map<nat, real>, k: nat) returns (ghost kept': set<nat>)
    requires h.Length == k && count < k && docID in scores && docID !in visited
    requires Holds(h[..count], kept, visited, scores, k)
    modifies h
    ensures Holds(h[..count + 1], kept', visited + {docID}, scores, k)
  {
    ghost var s, x := h[..count], ScoredDoc(docID, scores[docID]);
    AppendLists(s, kept, scores, docID);
    kept' := kept + {docID};
    assert kept' == visited + {docID} && |kept'| == count + 1;
    h[count] := ScoredDoc(docID, scores[docID]);
    assert h[..count + 1] == s + [x];
    if count + 1 == k {
      HeapifyFull(h, kept', scores);
    }
  }

  method HeapifyFull(h: array<ScoredDoc>, ghost kept: set<nat>, scores: map<nat, real>)
    requires 0 < h.Length == |kept| && Lists(h[..h.Length], kept, scores)
    modifies h
    ensures Holds(h[..h.Length], kept, kept, scores, h.Length)
  {
    assert h[..] == h[..h.Length];
    MinHeapify(h);
    assert h[..] == h[..h.Length];
  }

  /** A full heap lets an entry in only if it beats the smallest one. */
  method Compete(h: array<ScoredDoc>, docID: nat, ghost kept: set<nat>, ghost visited: set<nat>,
                 scores: map<nat, real>) returns (ghost kept': set<nat>)
    requires 0 < h.Length && docID in scores && docID !in visited
    requires Holds(h[..], kept, visited, scores, h.Length)
    modifies h
    ensures Holds(h[..], kept', visited + {docID}, scores, h.Length)
  {
    kept' := kept;
    var sc := scores[docID];
    if sc > h[0].score {
      VisitHigher(h[..], kept, visited, scores, h.Length, docID);
      kept' := kept - {h[0].doc} + {docID};
      h[0] := ScoredDoc(docID, sc);
      assert h[..] == old(h[..])[0 := ScoredDoc(docID, sc)];
      SiftAfterReplace(h, kept', visited + {docID}, scores);
    } else {
      VisitLower(h[..], kept, visited, scores, h.Length, docID);
    }
  }

  method SiftAfterReplace(h: array<ScoredDoc>, ghost kept: set<nat>, ghost visited: set<nat>, scores: map<nat, real>)
    requires 0 < h.Length == |kept| && kept <= visited <= scores.Keys
    requires Lists(h[..], kept, scores) && HeapFrom(h[..], 1)
    requires forall x, e :: x in visited - kept && e in h[..] ==> scores[x] <= e.score
    modifies h
    ensures Holds(h[..], kept, visited, scores, h.Length)
  {
    ghost var t := h[..];
    SiftDown(h, 0);
    forall e | e in h[..] ensures e in t {
      assert e in multiset(h[..]);
    }
  }

  lemma {:induction false} Selected(s: seq<ScoredDoc>, kept: set<nat>, scores: map<nat, real>, k: nat, r: seq<ScoredDoc>)
    requires Holds(s, kept, scores.Keys, scores, k) && |s| <= k
    requires multiset(r) == multiset(s) && Descending(r)
    ensures IsTopK(r, scores, k)
  {
    ListsMeans(r, kept, scores);
    assert |r| == |multiset(r)| == |multiset(s)| == |s|;
    forall i | 0 <= i < |r| ensures r[i].doc in scores && r[i].score == scores[r[i].doc] && r[i] in s {
      assert r[i] in r && r[i] in multiset(s);
    }
    if |s| == k {
      assert |scores| >= k by {
        Smaller(kept, scores.Keys);
      }
    }
  }

  lemma {:induction false} Smaller<T>(a: set<T>, b: set<T>)
    requires a <= b
    ensures |a| <= |b|
  {
    assert b == a + (b - a);
  }

  // ---------- The ranking does not depend on the visiting order ----------

  lemma {:induction false} DocsCount(r: seq<ScoredDoc>)
    requires forall i, j :: 0 <= i < j < |r| ==> r[i].doc != r[j].doc
    ensures |Docs(r)| == |r|
  {
    if r != [] {
      var init, last := r[..|r| - 1], r[|r| - 1];
      DocsCount(init);
      assert r == init + [last];
      assert Docs(r) == Docs(init) + {last.doc};
    }
  }

  lemma {:induction false} ScoredAbove(q: seq<ScoredDoc>, scores: map<nat, real>, k: nat, i: nat, d: nat)
    requires IsTopK(q, scores, k) && i < |q| && d in scores && scores[d] > q[i].score
    ensures d in Docs(q[..i])
  {
    assert d in Docs(q);
    var e :| e in q && e.doc == d;
    var n :| 0 <= n < |q| && q[n] == e;
    assert q[..i][n] == e;
  }

  /** No position of one ranking scores above the same position of another. */
  lemma {:induction false} NotAbove(r: seq<ScoredDoc>, q: seq<ScoredDoc>, scores: map<nat, real>, k: nat, i: nat)
    requires IsTopK(r, scores, k) && IsTopK(q, scores, k) && i < |r|
    ensures r[i].score <= q[i].score
  {
    if r[i].score > q[i].score {
      var front, ahead := r[..i + 1], q[..i];
      forall d | d in Docs(front) ensures d in Docs(ahead) {
        var m :| 0 <= m <= i && r[m].doc == d;
        ScoredAbove(q, scores, k, i, d);
      }
      DocsCount(front);
      DocsCount(ahead);
      Smaller(Docs(front), Docs(ahead));
    }
  }

  /** Any two answers, from any two visiting orders, have the same scores in the same positions. */
  lemma {:induction false} RankingIsUnique(r: seq<ScoredDoc>, q: seq<ScoredDoc>, scores: map<nat, real>, k: nat)
    requires IsTopK(r, scores, k) && IsTopK(q, scores, k)
    ensures |r| == |q| && forall i :: 0 <= i < |r| ==> r[i].score == q[i].score
  {
    forall i | 0 <= i < |r| ensures r[i].score == q[i].score {
      NotAbove(r, q, scores, k, i);
      NotAbove(q, r, scores, k, i);
    }
  }
}
