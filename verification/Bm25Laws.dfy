/** What the scoring formula of pkg/utils/bm25.go means for the ranking. */
module Bm25Laws {
  import opened Bm25

  // ---------- Arithmetic ----------

  lemma MulPos(x: real, y: real)
    requires x > 0.0 && y > 0.0
    ensures x * y > 0.0
  {}

  lemma MulNonneg(x: real, y: real)
    requires x >= 0.0 && y >= 0.0
    ensures x * y >= 0.0
  {}

  lemma MulMono(x: real, y: real, z: real)
    requires x <= y && z >= 0.0
    ensures x * z <= y * z
  {
    MulNonneg(y - x, z);
    assert (y - x) * z == y * z - x * z;
  }

  lemma QuotPos(x: real, y: real)
    requires x > 0.0 && y > 0.0
    ensures x / y > 0.0 && (x / y) * y == x
  {}

  lemma {:induction false} QuotLess(x: real, y: real, u: real, v: real)
    requires y > 0.0 && v > 0.0 && x * v < u * y
    ensures x / y < u / v
  {
    var p, q := x / y, u / v;
    assert p * y == x && q * v == u;
    assert p * (y * v) == x * v && q * (y * v) == u * y;
    MulPos(y, v);
    if p >= q {
      MulMono(q, p, y * v);
    }
  }

  lemma {:induction false} SameProduct(p: real, q: real, y: real)
    requires y > 0.0 && p * y == q * y
    ensures p == q
  {
    assert (p - q) * y == (q - p) * y == 0.0;
    if p > q {
      MulPos(p - q, y);
    } else if p < q {
      MulPos(q - p, y);
    }
  }

  lemma {:induction false} QuotPlusOne(x: real, y: real)
    requires y > 0.0
    ensures x / y + 1.0 == (x + y) / y
  {
    var q, p := x / y, (x + y) / y;
    assert q * y == x && p * y == x + y;
    SameProduct(p, q + 1.0, y);
  }

  // ---------- The parts of the formula ----------

  /** Real logarithms grow, and are positive beyond 1. */
  ghost predicate IsLog(log: real -> real) {
    (forall x, y :: 0.0 < x < y ==> log(x) < log(y)) && forall x :: x > 1.0 ==> log(x) > 0.0
  }

  /** Sensible parameters, which those of the code are. */
  ghost predicate Sensible<T>(e: BM25Engine<T>) {
    IsLog(e.log) && e.k1 > 0.0 && 0.0 <= e.b <= 1.0
  }

  /** The weight of a term that df documents contain is the logarithm of (N + 1) / (df + 1/2). */
  lemma {:induction false} IdfIs<T>(e: BM25Engine<T>, df: nat)
    ensures e.Idf(df) == e.log(((|e.corpus| as real) + 1.0) / ((df as real) + 0.5))
  {
    var n, d := |e.corpus| as real, (df as real) + 0.5;
    QuotPlusOne(n - (df as real) + 0.5, d);
  }

  /** The rarer a term, the more it weighs; every term that occurs has positive weight. */
  lemma {:induction false} RarerWeighsMore<T>(e: BM25Engine<T>, df: nat, other: nat)
    requires IsLog(e.log)
    ensures df < other ==> e.Idf(df) > e.Idf(other)
    ensures df <= |e.corpus| ==> e.Idf(df) > 0.0
  {
    IdfIs(e, df);
    IdfIs(e, other);
    var n, d, o := (|e.corpus| as real) + 1.0, (df as real) + 0.5, (other as real) + 0.5;
    QuotPos(n, d);
    QuotPos(n, o);
    if df < other {
      MulPos(n, o - d);
      assert n * d < n * o;
      QuotLess(n, o, n, d);
    }
    if df <= |e.corpus| {
      QuotLess(1.0, 1.0, n, d);
    }
  }

  /** The length term is k1 for a document of average length, and grows with the length in steps of k1 * b / average. */
  lemma {:induction false} LengthTerm<T>(e: BM25Engine<T>, len: nat, avg: real)
    requires avg > 0.0
    ensures len as real == avg ==> e.LenNorm(len, avg) == e.k1
    ensures e.LenNorm(len + 1, avg) - e.LenNorm(len, avg) == e.k1 * e.b / avg
  {
    var q, r := (len as real) / avg, ((len + 1) as real) / avg;
    assert r - q == 1.0 / avg;
    assert e.k1 * (1.0 - e.b + e.b * r) - e.k1 * (1.0 - e.b + e.b * q) == e.k1 * e.b * (r - q);
  }

  lemma {:induction false} LengthTermIsNonneg<T>(e: BM25Engine<T>, len: nat, avg: real)
    requires Sensible(e) && avg >= 0.0
    ensures e.LenNorm(len, avg) >= 0.0
  {
    var q := Quot(len as real, avg);
    if avg > 0.0 && len > 0 {
      QuotPos(len as real, avg);
    }
    MulNonneg(e.b, q);
    MulNonneg(e.k1, 1.0 - e.b + e.b * q);
  }

  /** The frequency term is 1 for one occurrence in a document of average length, positive and at most k1 + 1. */
  lemma {:induction false} FrequencyTerm<T>(e: BM25Engine<T>, freq: nat, norm: real)
    requires e.k1 > 0.0 && 0 < freq && 0.0 <= norm
    ensures e.TfNorm(1, e.k1) == 1.0
    ensures 0.0 < e.TfNorm(freq, norm) <= e.k1 + 1.0
    ensures e.TfNorm(freq, norm) * ((freq as real) + norm) == (freq as real) * (e.k1 + 1.0)
  {
    var f, k := freq as real, e.k1 + 1.0;
    MulPos(f, k);
    QuotPos(f * k, f + norm);
    assert e.TfNorm(freq, norm) == f * k / (f + norm);
    StaysBelow(f, k, norm);
  }

  lemma {:induction false} StaysBelow(f: real, k: real, norm: real)
    requires f > 0.0 && k > 0.0 && norm >= 0.0
    ensures f * k / (f + norm) <= k
  {
    if norm > 0.0 {
      MulPos(k, norm);
      assert (f * k) * 1.0 < k * (f + norm);
      QuotLess(f * k, f + norm, k, 1.0);
    } else {
      assert f * k / f == k;
    }
  }

  /** It grows with the frequency and shrinks with the length term. */
  lemma {:induction false} FrequencyTermGrows<T>(e: BM25Engine<T>, freq: nat, norm: real, longer: real)
    requires e.k1 > 0.0 && 0 < freq && 0.0 <= norm < longer
    ensures e.TfNorm(freq, longer) < e.TfNorm(freq, norm)
    ensures e.TfNorm(freq, longer) < e.TfNorm(freq + 1, longer)
  {
    MulPos(freq as real, e.k1 + 1.0);
    ShrinksWithNorm((freq as real) * (e.k1 + 1.0), freq as real, norm, longer);
    GrowsWithFrequency(freq as real, (freq + 1) as real, e.k1 + 1.0, longer);
  }

  lemma {:induction false} ShrinksWithNorm(x: real, f: real, norm: real, longer: real)
    requires f > 0.0 && 0.0 <= norm < longer
    ensures x > 0.0 ==> x / (f + longer) < x / (f + norm)
  {
    if x > 0.0 {
      MulPos(x, longer - norm);
      assert x * (f + norm) < x * (f + longer);
      QuotLess(x, f + longer, x, f + norm);
    }
  }

  lemma {:induction false} GrowsWithFrequency(f: real, g: real, k: real, norm: real)
    requires 0.0 < f < g && k > 0.0 && norm > 0.0
    ensures f * k / (f + norm) < g * k / (g + norm)
  {
    MulPos(k, norm);
    MulPos(k * norm, g - f);
    assert (g * k) * (f + norm) - (f * k) * (g + norm) == k * norm * (g - f) by {
      assert (g * k) * (f + norm) == g * k * f + g * k * norm;
      assert (f * k) * (g + norm) == f * k * g + f * k * norm;
    }
    QuotLess(f * k, f + norm, g * k, g + norm);
  }

  // ---------- Scores ----------

  lemma {:induction false} WeightIsPositive<T>(e: BM25Engine<T>, t: string, i: nat)
    requires Sensible(e) && i < |e.corpus|
    ensures if t in e.Terms(i) then e.Weight(t, i) > 0.0 else e.Weight(t, i) == 0.0
  {
    hide e.Idf, e.TfNorm, e.LenNorm, Sensible;
    if t in e.Terms(i) {
      var df, freq, avg := |e.DocsWith(t, |e.corpus|)|, multiset(e.Tokens(i))[t], e.AvgLen();
      CountAtMost(e, t, |e.corpus|);
      AverageIsNonneg(e);
      Parts(e, df, freq, |e.Tokens(i)|, avg);
    }
  }

  lemma {:induction false} Parts<T>(e: BM25Engine<T>, df: nat, freq: nat, len: nat, avg: real)
    requires Sensible(e) && df <= |e.corpus| && 0 < freq && avg >= 0.0
    ensures e.Idf(df) * e.TfNorm(freq, e.LenNorm(len, avg)) > 0.0
  {
    RarerWeighsMore(e, df, df);
    LengthTermIsNonneg(e, len, avg);
    var norm := e.LenNorm(len, avg);
    FrequencyTerm(e, freq, norm);
    MulPos(e.Idf(df), e.TfNorm(freq, norm));
  }

  lemma {:induction false} CountAtMost<T>(e: BM25Engine<T>, t: string, n: nat)
    requires n <= |e.corpus|
    ensures |e.DocsWith(t, n)| <= n
  {
    if n > 0 {
      CountAtMost(e, t, n - 1);
    }
  }

  lemma {:induction false} AverageIsNonneg<T>(e: BM25Engine<T>)
    ensures e.AvgLen() >= 0.0
  {
    var total, n := e.TotalLen(|e.corpus|) as real, |e.corpus| as real;
    if total > 0.0 && n > 0.0 {
      QuotPos(total, n);
    }
  }

  /** With the code's parameters and a real logarithm, a document scores above zero exactly when it contains a term. */
  lemma {:induction false} PositiveIffMatches<T>(e: BM25Engine<T>, terms: seq<string>, i: nat)
    requires Sensible(e) && i < |e.corpus|
    ensures e.DirectScore(terms, i) >= 0.0
    ensures e.DirectScore(terms, i) > 0.0 <==> e.Matches(terms, i)
  {
    hide e.Weight, Sensible, e.Terms;
    if terms == [] {
      assert !e.Matches(terms, i);
    } else {
      var init, last := terms[..|terms| - 1], terms[|terms| - 1];
      PositiveIffMatches(e, init, i);
      WeightIsPositive(e, last, i);
      assert terms == init + [last];
      e.OneMoreTerm(init, last, i);
    }
  }

  // ---------- The whole formula ----------

  /** The documents that contain t. */
  function Containing<T>(e: BM25Engine<T>, t: string, n: nat): set<nat>
    requires n <= |e.corpus|
  {
    set j: nat | 0 <= j < n && t in e.tokensOf(e.corpus[j])
  }

  lemma {:induction false} CountIs<T>(e: BM25Engine<T>, t: string, n: nat)
    requires n <= |e.corpus|
    ensures |e.DocsWith(t, n)| == |Containing(e, t, n)|
  {
    if n == 0 {
      assert Containing(e, t, n) == {};
    } else {
      CountIs(e, t, n - 1);
      assert Containing(e, t, n) ==
        Containing(e, t, n - 1) + if t in e.tokensOf(e.corpus[n - 1]) then {n - 1} else {};
    }
  }

  function SumOfLengths<T>(corpus: seq<T>, tokensOf: T -> seq<string>): nat {
    if corpus == [] then 0 else |tokensOf(corpus[0])| + SumOfLengths(corpus[1..], tokensOf)
  }

  lemma {:induction false} SumSnoc<T>(corpus: seq<T>, x: T, tokensOf: T -> seq<string>)
    ensures SumOfLengths(corpus + [x], tokensOf) == SumOfLengths(corpus, tokensOf) + |tokensOf(x)|
  {
    if corpus == [] {
      assert corpus + [x] == [x];
    } else {
      assert (corpus + [x])[1..] == corpus[1..] + [x];
      SumSnoc(corpus[1..], x, tokensOf);
    }
  }

  lemma {:induction false} TotalIs<T>(e: BM25Engine<T>, n: nat)
    requires n <= |e.corpus|
    ensures e.TotalLen(n) == SumOfLengths(e.corpus[..n], e.tokensOf)
  {
    if n > 0 {
      TotalIs(e, n - 1);
      assert e.corpus[..n] == e.corpus[..n - 1] + [e.corpus[n - 1]];
      SumSnoc(e.corpus[..n - 1], e.corpus[n - 1], e.tokensOf);
    }
  }

  lemma {:induction false} PartOfSum<T>(corpus: seq<T>, tokensOf: T -> seq<string>, i: nat)
    requires i < |corpus|
    ensures |tokensOf(corpus[i])| <= SumOfLengths(corpus, tokensOf)
  {
    if i > 0 {
      PartOfSum(corpus[1..], tokensOf, i - 1);
    }
  }

  /** The Okapi formula, from the corpus alone: what an occurring term contributes to the score of document i. */
  lemma {:induction false} Formula<T>(e: BM25Engine<T>, t: string, i: nat)
    requires Sensible(e) && i < |e.corpus| && t in e.tokensOf(e.corpus[i])
    ensures SumOfLengths(e.corpus, e.tokensOf) > 0
    ensures
      var n, df := |e.corpus| as real, |Containing(e, t, |e.corpus|)| as real;
      var f, len := multiset(e.tokensOf(e.corpus[i]))[t] as real, |e.tokensOf(e.corpus[i])| as real;
      var norm := e.k1 * (1.0 - e.b + e.b * (len / ((SumOfLengths(e.corpus, e.tokensOf) as real) / n)));
      f + norm > 0.0 && e.Weight(t, i) == e.log((n + 1.0) / (df + 0.5)) * (f * (e.k1 + 1.0) / (f + norm))
  {
    hide SumOfLengths, Containing, e.Idf, e.DocsWith, e.TotalLen;
    CountIs(e, t, |e.corpus|);
    TotalIs(e, |e.corpus|);
    assert e.corpus[..|e.corpus|] == e.corpus;
    PartOfSum(e.corpus, e.tokensOf, i);
    IdfIs(e, |Containing(e, t, |e.corpus|)|);
    AverageIsNonneg(e);
    LengthTermIsNonneg(e, |e.Tokens(i)|, e.AvgLen());
    QuotPos(SumOfLengths(e.corpus, e.tokensOf) as real, |e.corpus| as real);
  }
}
