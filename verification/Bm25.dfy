/** The search engine of pkg/utils/bm25.go: inverted index, scoring over posting lists, bounded selection. */
module Bm25 {
  import opened MinHeap
  import opened TopK

  datatype SearchResult<T> = SearchResult(document: T, score: real)

  datatype DocEntry = DocEntry(tf: map<string, nat>, rawLen: nat)

  /** Division as a total function; a zero divisor gives zero. */
  function Quot(x: real, y: real): real {
    if y == 0.0 then 0.0 else x / y
  }

  /** tokens without repetitions, in order of first occurrence. */
  function Unique(tokens: seq<string>): seq<string> {
    if tokens == [] then []
    else
      var init, last := tokens[..|tokens| - 1], tokens[|tokens| - 1];
      Unique(init) + (if last in init then [] else [last])
  }

  lemma {:induction false} UniqueIsASet(tokens: seq<string>)
    ensures forall t :: t in Unique(tokens) <==> t in tokens
    ensures forall i, j :: 0 <= i < j < |Unique(tokens)| ==> Unique(tokens)[i] != Unique(tokens)[j]
  {
    if tokens != [] {
      var init, last := tokens[..|tokens| - 1], tokens[|tokens| - 1];
      UniqueIsASet(init);
      assert tokens == init + [last];
    }
  }

  lemma {:induction false} UniqueSnoc(tokens: seq<string>, t: string)
    ensures Unique(tokens + [t]) == Unique(tokens) + if t in tokens then [] else [t]
  {
    assert (tokens + [t])[..|tokens|] == tokens;
  }

  method Dedupe(tokens: seq<string>) returns (out: seq<string>)
    ensures out == Unique(tokens)
  {
    var seen: set<string> := {};
    out := [];
    for i := 0 to |tokens|
      invariant seen == set t | t in tokens[..i]
      invariant out == Unique(tokens[..i])
    {
      assert tokens[..i + 1] == tokens[..i] + [tokens[i]];
      UniqueSnoc(tokens[..i], tokens[i]);
      hide Unique;
      if tokens[i] !in seen {
        seen := seen + {tokens[i]};
        out := out + [tokens[i]];
      }
    }
    assert tokens[..|tokens|] == tokens;
  }

  /** How often each token occurs. */
  method CountTerms(tokens: seq<string>) returns (tf: map<string, nat>)
    ensures tf.Keys == set t | t in tokens
    ensures forall t :: t in tf ==> tf[t] == multiset(tokens)[t]
  {
    tf := map[];
    for i := 0 to |tokens|
      invariant tf.Keys == set t | t in tokens[..i]
      invariant forall t :: t in tf ==> tf[t] == multiset(tokens[..i])[t]
    {
      assert tokens[..i + 1] == tokens[..i] + [tokens[i]];
      var t := tokens[i];
      tf := tf[t := (if t in tf then tf[t] else 0) + 1];
    }
    assert tokens[..|tokens|] == tokens;
  }

  function GetOr<K, V>(m: map<K, V>, k: K, default: V): V {
    if k in m then m[k] else default
  }

  /** df[k]++ for each key, in arbitrary order. */
  method IncrementEach<K(==)>(df0: map<K, nat>, keys: set<K>) returns (df: map<K, nat>)
    ensures forall k :: k in df <==> k in df0 || k in keys
    ensures forall k :: GetOr(df, k, 0) == GetOr(df0, k, 0) + if k in keys then 1 else 0
  {
    df := df0;
    var remaining := keys;
    while remaining != {}
      invariant remaining <= keys
      invariant forall k :: k in df <==> k in df0 || (k in keys && k !in remaining)
      invariant forall k :: GetOr(df, k, 0) == GetOr(df0, k, 0) + if k in keys && k !in remaining then 1 else 0
      decreases |remaining|
    {
      var k :| k in remaining;
      remaining := remaining - {k};
      df := df[k := GetOr(df, k, 0) + 1];
    }
  }

  /** posting[k] = append(posting[k], n) for each key, in arbitrary order. */
  method AppendToEach<K(==)>(posting0: map<K, seq<nat>>, keys: set<K>, n: nat) returns (posting: map<K, seq<nat>>)
    ensures forall k :: k in posting <==> k in posting0 || k in keys
    ensures forall k :: GetOr(posting, k, []) == GetOr(posting0, k, []) + if k in keys then [n] else []
  {
    posting := posting0;
    var remaining := keys;
    while remaining != {}
      invariant remaining <= keys
      invariant forall k :: k in posting <==> k in posting0 || (k in keys && k !in remaining)
      invariant forall k :: GetOr(posting, k, []) == GetOr(posting0, k, []) + if k in keys && k !in remaining then [n] else []
      decreases |remaining|
    {
      var k :| k in remaining;
      remaining := remaining - {k};
      posting := posting[k := GetOr(posting, k, []) + [n]];
    }
  }

  class BM25Engine<T> {
    const corpus: seq<T>
    /** The tokens of a document: bm25Tokenize of its text. */
    const tokensOf: T -> seq<string>
    const log: real -> real
    const k1: real
    const b: real

    constructor (corpus: seq<T>, tokensOf: T -> seq<string>, log: real -> real, k1: real, b: real)
      ensures this.corpus == corpus && this.tokensOf == tokensOf && this.log == log && this.k1 == k1 && this.b == b
    {
      this.corpus, this.tokensOf, this.log, this.k1, this.b := corpus, tokensOf, log, k1, b;
    }

    // ---------- The scoring formula, document by document ----------

    function Tokens(i: nat): seq<string>
      requires i < |corpus|
    {
      tokensOf(corpus[i])
    }

    function Terms(i: nat): set<string>
      requires i < |corpus|
    {
      set t | t in Tokens(i)
    }

    /** The documents among the first n that contain t, in ascending order. */
    function DocsWith(t: string, n: nat): seq<nat>
      requires n <= |corpus|
    {
      if n == 0 then [] else DocsWith(t, n - 1) + (if t in Terms(n - 1) then [n - 1] else [])
    }

    /** The terms of the first n documents. */
    function Vocabulary(n: nat): set<string>
      requires n <= |corpus|
    {
      if n == 0 then {} else Vocabulary(n - 1) + Terms(n - 1)
    }

    /** The posting lists of the first n documents. */
    function Postings(n: nat): map<string, seq<nat>>
      requires n <= |corpus|
    {
      map t | t in Vocabulary(n) :: DocsWith(t, n)
    }

    /** In how many of the first n documents each term occurs. */
    function DocCounts(n: nat): map<string, nat>
      requires n <= |corpus|
    {
      map t | t in Vocabulary(n) :: |DocsWith(t, n)|
    }

    lemma {:induction false} OutsideVocabulary(t: string, n: nat)
      requires n <= |corpus| && t !in Vocabulary(n)
      ensures DocsWith(t, n) == []
    {
      if n > 0 {
        OutsideVocabulary(t, n - 1);
      }
    }

    lemma {:induction false} DocsWithMeans(t: string, n: nat)
      requires n <= |corpus|
      ensures forall i :: i in DocsWith(t, n) <==> 0 <= i < n && t in Terms(i)
      ensures forall x, y :: 0 <= x < y < |DocsWith(t, n)| ==> DocsWith(t, n)[x] < DocsWith(t, n)[y]
    {
      if n > 0 {
        DocsWithMeans(t, n - 1);
        var r := DocsWith(t, n - 1);
        assert forall x :: 0 <= x < |r| ==> r[x] in r;
      }
    }

    function TotalLen(n: nat): nat
      requires n <= |corpus|
    {
      if n == 0 then 0 else TotalLen(n - 1) + |Tokens(n - 1)|
    }

    function Idf(df: nat): real {
      log(((|corpus| as real) - (df as real) + 0.5) / ((df as real) + 0.5) + 1.0)
    }

    function AvgLen(): real {
      Quot(TotalLen(|corpus|) as real, |corpus| as real)
    }

    function LenNorm(len: nat, avg: real): real {
      k1 * (1.0 - b + b * Quot(len as real, avg))
    }

    function TfNorm(freq: nat, norm: real): real {
      Quot((freq as real) * (k1 + 1.0), (freq as real) + norm)
    }

    /** What term t contributes to the score of document i. */
    function Weight(t: string, i: nat): real
      requires i < |corpus|
    {
      if t !in Terms(i) then 0.0
      else
        Idf(|DocsWith(t, |corpus|)|) * TfNorm(multiset(Tokens(i))[t], LenNorm(|Tokens(i)|, AvgLen()))
    }

    /** Direct summation over the terms, left to right. */
    function DirectScore(terms: seq<string>, i: nat): real
      requires i < |corpus|
    {
      if terms == [] then 0.0
      else DirectScore(terms[..|terms| - 1], i) + Weight(terms[|terms| - 1], i)
    }

    predicate Matches(terms: seq<string>, i: nat)
      requires i < |corpus|
    {
      exists t :: t in terms && t in Terms(i)
    }

    /** The documents that contain at least one term, with their direct scores. */
    function Scores(terms: seq<string>): map<nat, real> {
      map i: nat | 0 <= i < |corpus| && Matches(terms, i) :: DirectScore(terms, i)
    }

    // ---------- Indexing ----------

    ghost predicate EntryOk(e: DocEntry, i: nat)
      requires i < |corpus|
    {
      && e.rawLen == |Tokens(i)|
      && e.tf.Keys == Terms(i)
      && (forall t :: t in e.tf ==> e.tf[t] == multiset(Tokens(i))[t])
    }

    ghost predicate Indexed(entries: seq<DocEntry>, n: nat)
      requires n <= |corpus|
    {
      |entries| == n && forall i :: 0 <= i < n ==> EntryOk(entries[i], i)
    }

    /** Counts document n in df; the keys of tf are visited in arbitrary order. */
    method CountDocument(df0: map<string, nat>, tf: map<string, nat>, n: nat) returns (df: map<string, nat>)
      requires n < |corpus| && df0 == DocCounts(n) && tf.Keys == Terms(n)
      ensures df == DocCounts(n + 1)
    {
      df := IncrementEach(df0, tf.Keys);
      forall t | t in df ensures t in Vocabulary(n + 1) && df[t] == |DocsWith(t, n + 1)| {
        GrowsByTerms(t, n);
        assert df[t] == GetOr(df, t, 0);
      }
    }

    /** Document n extends the posting lists of its terms, new or old. */
    lemma {:induction false} GrowsByTerms(t: string, n: nat)
      requires n < |corpus|
      ensures t in Vocabulary(n + 1) <==> t in Vocabulary(n) || t in Terms(n)
      ensures DocsWith(t, n + 1) == GetOr(Postings(n), t, []) + if t in Terms(n) then [n] else []
      ensures |DocsWith(t, n + 1)| == GetOr(DocCounts(n), t, 0) + if t in Terms(n) then 1 else 0
    {
      if t !in Vocabulary(n) {
        OutsideVocabulary(t, n);
      }
    }

    method IndexDoc(i: nat) returns (entry: DocEntry)
      requires i < |corpus|
      ensures EntryOk(entry, i)
    {
      var tokens := tokensOf(corpus[i]);
      var tf := CountTerms(tokens);
      entry := DocEntry(tf, |tokens|);
    }

    method IndexDocs() returns (entries: seq<DocEntry>, df: map<string, nat>, totalLen: nat)
      ensures Indexed(entries, |corpus|) && df == DocCounts(|corpus|) && totalLen == TotalLen(|corpus|)
    {
      entries, df, totalLen := [], map[], 0;
      for i := 0 to |corpus|
        invariant Indexed(entries, i) && df == DocCounts(i) && totalLen == TotalLen(i)
      {
        var entry := IndexDoc(i);
        totalLen := totalLen + entry.rawLen;
        df := CountDocument(df, entry.tf, i);
        entries := entries + [entry];
      }
    }

    method BuildPosting(entries: seq<DocEntry>) returns (posting: map<string, seq<nat>>)
      requires Indexed(entries, |corpus|)
      ensures posting == Postings(|corpus|)
    {
      posting := map[];
      for i := 0 to |corpus|
        invariant posting == Postings(i)
      {
        assert EntryOk(entries[i], i);
        posting := PostDocument(posting, entries[i].tf, i);
      }
    }

    method PostDocument(posting0: map<string, seq<nat>>, tf: map<string, nat>, n: nat)
      returns (posting: map<string, seq<nat>>)
      requires n < |corpus| && posting0 == Postings(n) && tf.Keys == Terms(n)
      ensures posting == Postings(n + 1)
    {
      posting := AppendToEach(posting0, tf.Keys, n);
      forall t | t in posting ensures t in Vocabulary(n + 1) && posting[t] == DocsWith(t, n + 1) {
        GrowsByTerms(t, n);
        assert posting[t] == GetOr(posting, t, []);
      }
    }

    // ---------- Scoring over posting lists ----------

    /** The scores after the terms before the last one, and the last term's first m postings. */
    ghost predicate Partial(scores: map<nat, real>, terms: seq<string>, t: string, docs: seq<nat>) {
      && (forall i :: i in scores <==> 0 <= i < |corpus| && (Matches(terms, i) || i in docs))
      && (forall i :: i in scores ==> i < |corpus| && scores[i] == DirectScore(terms, i) + if i in docs then Weight(t, i) else 0.0)
    }

    lemma {:induction false} NoMatchScoresZero(terms: seq<string>, i: nat)
      requires i < |corpus| && !Matches(terms, i)
      ensures DirectScore(terms, i) == 0.0
    {
      if terms != [] {
        var init, last := terms[..|terms| - 1], terms[|terms| - 1];
        assert forall t :: t in init ==> t in terms;
        assert last in terms;
        NoMatchScoresZero(init, i);
      }
    }

    lemma {:induction false} PartialStep(scores: map<nat, real>, terms: seq<string>, t: string, docs: seq<nat>, d: nat,
                                         w: real)
      requires Partial(scores, terms, t, docs) && d !in docs && d < |corpus| && w == Weight(t, d)
      ensures Partial(scores[d := (if d in scores then scores[d] else 0.0) + w], terms, t, docs + [d])
    {
      if d !in scores {
        NoMatchScoresZero(terms, d);
      }
    }

    /** The weight of a term, from the index. */
    method Contribution(t: string, docID: nat, entry: DocEntry, idf: real, norm: real) returns (w: real)
      requires docID < |corpus| && t in Terms(docID) && EntryOk(entry, docID)
      requires idf == Idf(|DocsWith(t, |corpus|)|) && norm == LenNorm(|Tokens(docID)|, AvgLen())
      ensures w == Weight(t, docID)
    {
      var freq := entry.tf[t];
      w := idf * TfNorm(freq, norm);
    }

    /** Adds the contribution of one term to every document on its posting list. */
    method AddTerm(scores0: map<nat, real>, ghost terms: seq<string>, t: string, entries: seq<DocEntry>,
                   idf: real, norms: seq<real>, posting: seq<nat>) returns (scores: map<nat, real>)
      requires scores0 == Scores(terms) && posting == DocsWith(t, |corpus|) && idf == Idf(|posting|)
      requires Indexed(entries, |corpus|) && |norms| == |corpus|
      requires forall i :: 0 <= i < |corpus| ==> norms[i] == LenNorm(|Tokens(i)|, AvgLen())
      ensures scores == Scores(terms + [t])
    {
      DocsWithMeans(t, |corpus|);
      scores := scores0;
      assert Partial(scores, terms, t, []);
      hide Partial, Scores, DirectScore, Matches, DocsWith, Weight, Idf, LenNorm, Terms;
      for m := 0 to |posting|
        invariant Partial(scores, terms, t, posting[..m])
      {
        var docID := posting[m];
        assert docID in posting && docID !in posting[..m];
        assert posting[..m + 1] == posting[..m] + [docID];
        var contribution := Contribution(t, docID, entries[docID], idf, norms[docID]);
        PartialStep(scores, terms, t, posting[..m], docID, contribution);
        scores := scores[docID := (if docID in scores then scores[docID] else 0.0) + contribution];
      }
      assert posting[..|posting|] == posting;
      TermAdded(scores, terms, t);
    }

    /** One more term. */
    lemma {:induction false} OneMoreTerm(terms: seq<string>, t: string, i: nat)
      requires i < |corpus|
      ensures Matches(terms + [t], i) <==> Matches(terms, i) || t in Terms(i)
      ensures DirectScore(terms + [t], i) == DirectScore(terms, i) + Weight(t, i)
    {
      hide Terms, Weight;
      var longer := terms + [t];
      assert longer[..|longer| - 1] == terms;
      if Matches(terms, i) {
        var u :| u in terms && u in Terms(i);
        assert u in longer;
      }
      assert t in longer;
    }

    lemma {:induction false} TermAdded(scores: map<nat, real>, terms: seq<string>, t: string)
      requires Partial(scores, terms, t, DocsWith(t, |corpus|))
      ensures scores == Scores(terms + [t])
    {
      hide Matches, DirectScore, DocsWith, Terms;
      DocsWithMeans(t, |corpus|);
      forall i: nat | 0 <= i < |corpus|
        ensures Matches(terms + [t], i) <==> Matches(terms, i) || t in Terms(i)
        ensures DirectScore(terms + [t], i) == DirectScore(terms, i) + Weight(t, i)
      {
        OneMoreTerm(terms, t, i);
      }
    }

    /** Step 2: length normalization per document. */
    method Norms(entries: seq<DocEntry>, avgDocLen: real) returns (norms: seq<real>)
      requires Indexed(entries, |corpus|) && avgDocLen == AvgLen()
      ensures |norms| == |corpus| && forall i :: 0 <= i < |corpus| ==> norms[i] == LenNorm(|Tokens(i)|, AvgLen())
    {
      norms := [];
      for i := 0 to |entries|
        invariant |norms| == i && forall j :: 0 <= j < i ==> norms[j] == LenNorm(|Tokens(j)|, AvgLen())
      {
        assert EntryOk(entries[i], i);
        norms := norms + [LenNorm(entries[i].rawLen, avgDocLen)];
      }
    }

    /** Steps 1 to 4 of Search. */
    method ScoreAll(unique: seq<string>) returns (scores: map<nat, real>)
      requires |corpus| > 0
      ensures scores == Scores(unique)
    {
      var entries, df, totalLen := IndexDocs();
      var idf := map term | term in df :: Idf(df[term]);
      var norms := Norms(entries, (totalLen as real) / (|corpus| as real));
      var posting := BuildPosting(entries);
      scores := map[];
      assert Scores([]) == map[];
      for k := 0 to |unique|
        invariant scores == Scores(unique[..k])
      {
        scores := ScoreTerm(scores, unique[..k], unique[k], entries, idf, norms, posting);
        assert unique[..k + 1] == unique[..k] + [unique[k]];
      }
      assert unique[..|unique|] == unique;
    }

    /** A term outside the vocabulary contributes nothing. */
    method ScoreTerm(scores0: map<nat, real>, ghost terms: seq<string>, term: string, entries: seq<DocEntry>,
                     idf: map<string, real>, norms: seq<real>, posting: map<string, seq<nat>>)
      returns (scores: map<nat, real>)
      requires scores0 == Scores(terms) && Indexed(entries, |corpus|) && posting == Postings(|corpus|)
      requires idf == map t | t in DocCounts(|corpus|) :: Idf(DocCounts(|corpus|)[t])
      requires |norms| == |corpus| && forall i :: 0 <= i < |corpus| ==> norms[i] == LenNorm(|Tokens(i)|, AvgLen())
      ensures scores == Scores(terms + [term])
    {
      if term !in idf {
        scores := scores0;
        OutsideVocabulary(term, |corpus|);
        TermAdded(scores, terms, term);
      } else {
        scores := AddTerm(scores0, terms, term, entries, idf[term], norms, posting[term]);
      }
    }

    /** results are the documents and scores of a ranking. */
    ghost predicate Shows(results: seq<SearchResult<T>>, ranked: seq<ScoredDoc>) {
      && |results| == |ranked|
      && forall i :: 0 <= i < |results| ==>
           ranked[i].doc < |corpus| && results[i] == SearchResult(corpus[ranked[i].doc], ranked[i].score)
    }

    /** results show a best-k ranking of the corpus by its direct scores. */
    ghost predicate IsBest(results: seq<SearchResult<T>>, terms: seq<string>, topK: int) {
      exists ranked :: IsTopK(ranked, Scores(Unique(terms)), if topK < 0 then 0 else topK) && Shows(results, ranked)
    }

    lemma {:induction false} NothingIsBest(terms: seq<string>, topK: int)
      requires topK <= 0 || Scores(Unique(terms)) == map[]
      ensures IsBest([], terms, topK)
    {
      assert IsTopK([], Scores(Unique(terms)), if topK < 0 then 0 else topK) && Shows([], []);
    }

    /** Ranks the corpus against the query terms. */
    method Search(queryTerms: seq<string>, topK: int) returns (results: seq<SearchResult<T>>)
      ensures IsBest(results, queryTerms, topK)
    {
      if topK <= 0 {
        NothingIsBest(queryTerms, topK);
        return [];
      }
      if |queryTerms| == 0 {
        assert Scores(Unique(queryTerms)) == map[];
        NothingIsBest(queryTerms, topK);
        return [];
      }
      if |corpus| == 0 {
        assert Scores(Unique(queryTerms)) == map[];
        NothingIsBest(queryTerms, topK);
        return [];
      }
      var unique := Dedupe(queryTerms);
      var scores := ScoreAll(unique);
      if |scores| == 0 {
        assert scores == map[];
        NothingIsBest(queryTerms, topK);
        return [];
      }
      var heap := SelectTop(scores, topK);
      results := Collect(heap);
    }

    method Collect(heap: seq<ScoredDoc>) returns (results: seq<SearchResult<T>>)
      requires forall i :: 0 <= i < |heap| ==> heap[i].doc < |corpus|
      ensures Shows(results, heap)
    {
      results := [];
      for i := 0 to |heap|
        invariant |results| == i
        invariant forall j :: 0 <= j < i ==> results[j] == SearchResult(corpus[heap[j].doc], heap[j].score)
      {
        results := results + [SearchResult(corpus[heap[i].doc], heap[i].score)];
      }
    }

    /** What a best ranking means for its reader: as many documents as asked for and found, all different, each with its
        direct score, best first, and no document left out that scores above one returned. */
    lemma {:induction false} BestMeans(results: seq<SearchResult<T>>, terms: seq<string>, topK: int) returns (docs: seq<nat>)
      requires IsBest(results, terms, topK)
      ensures var k, found := (if topK < 0 then 0 else topK), |Scores(Unique(terms))|;
        |results| == |docs| == if found < k then found else k
      ensures forall i, j :: 0 <= i < j < |docs| ==> docs[i] != docs[j]
      ensures forall i :: 0 <= i < |docs| ==>
        && docs[i] < |corpus| && Matches(Unique(terms), docs[i])
        && results[i] == SearchResult(corpus[docs[i]], DirectScore(Unique(terms), docs[i]))
      ensures forall i, j :: 0 <= i < j < |results| ==> results[i].score >= results[j].score
      ensures forall d: nat, i :: d < |corpus| && Matches(Unique(terms), d) && d !in docs && 0 <= i < |results| ==>
        DirectScore(Unique(terms), d) <= results[i].score
    {
      hide Matches, DirectScore, Unique, IsTopK, Shows;
      var scores := Scores(Unique(terms));
      var ranked: seq<ScoredDoc> :| IsTopK(ranked, scores, if topK < 0 then 0 else topK) && Shows(results, ranked);
      docs := seq(|ranked|, i requires 0 <= i < |ranked| => ranked[i].doc);
      RankedAre(results, ranked, docs, scores, if topK < 0 then 0 else topK);
    }

    /** A best ranking, document by document. */
    lemma {:induction false} RankedAre(results: seq<SearchResult<T>>, ranked: seq<ScoredDoc>, docs: seq<nat>,
                                       scores: map<nat, real>, k: nat)
      requires IsTopK(ranked, scores, k) && Shows(results, ranked)
      requires |docs| == |ranked| && forall i :: 0 <= i < |docs| ==> docs[i] == ranked[i].doc
      ensures |results| == |docs| == if |scores| < k then |scores| else k
      ensures forall i, j :: 0 <= i < j < |docs| ==> docs[i] != docs[j]
      ensures forall i :: 0 <= i < |docs| ==>
        docs[i] in scores && docs[i] < |corpus| && results[i] == SearchResult(corpus[docs[i]], scores[docs[i]])
      ensures forall i, j :: 0 <= i < j < |results| ==> results[i].score >= results[j].score
      ensures forall d, i :: d in scores && d !in docs && 0 <= i < |results| ==> scores[d] <= results[i].score
    {
      forall d | d in scores && d !in docs ensures d !in Docs(ranked) {
        assert forall i :: 0 <= i < |ranked| ==> docs[i] == ranked[i].doc;
      }
    }

    /** Only documents of the corpus are returned. */
    lemma {:induction false} BestIsFromCorpus(results: seq<SearchResult<T>>, terms: seq<string>, topK: int, i: nat)
      requires IsBest(results, terms, topK) && i < |results|
      ensures exists d: nat :: d < |corpus| && results[i].document == corpus[d]
    {
      var ranked: seq<ScoredDoc> :| IsTopK(ranked, Scores(Unique(terms)), if topK < 0 then 0 else topK) && Shows(results, ranked);
      assert results[i].document == corpus[ranked[i].doc];
    }

    /** Two answers to one query show the same scores, whatever the iteration orders were. */
    lemma {:induction false} ScoresAreUnique(r: seq<SearchResult<T>>, q: seq<SearchResult<T>>, terms: seq<string>, topK: int)
      requires IsBest(r, terms, topK) && IsBest(q, terms, topK)
      ensures |r| == |q| && forall i :: 0 <= i < |r| ==> r[i].score == q[i].score
    {
      var k, scores := if topK < 0 then 0 else topK, Scores(Unique(terms));
      var x: seq<ScoredDoc> :| IsTopK(x, scores, k) && Shows(r, x);
      var y: seq<ScoredDoc> :| IsTopK(y, scores, k) && Shows(q, y);
      RankingIsUnique(x, y, scores, k);
    }
  }
}
