/** The search tool over hidden tools, one call at a time: pkg/tools/search_tool.go. */
module SearchTool {
  import opened Common
  import opened ToolRegistry
  import opened Bm25
  import Text

  /** A cached corpus is never wrong: if its version is current, it lists the hidden tools. */
  ghost predicate CacheOk(corpus: seq<Doc>, cacheVersion: nat, tools: Tools, version: nat) {
    cacheVersion <= version && (cacheVersion == version ==> ListsHidden(corpus, tools))
  }

  /** Whatever happens to the registry, a cached corpus stays right or becomes outdated; time-to-live changes do not
      even outdate it. */
  lemma {:induction false} RegistryKeepsCacheOk(corpus: seq<Doc>, cacheVersion: nat, tools: Tools, version: nat,
                                                tool: Tool, isCore: bool, names: set<string>, ttl: int)
    requires CacheOk(corpus, cacheVersion, tools, version)
    ensures CacheOk(corpus, cacheVersion, Registered(tools, tool, isCore), version + 1)
    ensures CacheOk(corpus, cacheVersion, Promoted(tools, names, ttl), version)
    ensures CacheOk(corpus, cacheVersion, Ticked(tools), version)
  {
    TtlKeepsHidden(tools, names, ttl);
  }

  // ---------- What a search finds, in terms of the registry alone ----------

  /** A query term occurs in the name or the description of the hidden tool. */
  predicate Matched(tools: Tools, tokenize: string -> seq<string>, terms: seq<string>, n: string) {
    && n in tools && !tools[n].isCore
    && exists t :: t in terms && t in tokenize(n + " " + tools[n].tool.description)
  }

  function AllMatched(tools: Tools, tokenize: string -> seq<string>, terms: seq<string>): set<string> {
    set n | n in tools && Matched(tools, tokenize, terms, n)
  }

  /** Matched tools, each once and at most `limit` of them; all of them, if they are not more. */
  ghost predicate Finds(tools: Tools, tokenize: string -> seq<string>, terms: seq<string>, limit: int, names: seq<string>) {
    && (forall n :: n in names ==> Matched(tools, tokenize, terms, n))
    && (forall i, j :: 0 <= i < j < |names| ==> names[i] != names[j])
    && |names| <= (if limit < 0 then 0 else limit)
    && (|names| < limit || |AllMatched(tools, tokenize, terms)| <= limit ==>
          forall n :: Matched(tools, tokenize, terms, n) ==> n in names)
  }

  // ---------- The tool ----------

  datatype Response = MissingQuery | Found(names: seq<string>)

  ghost predicate NamesOf(names: seq<string>, results: seq<SearchResult<Doc>>) {
    |names| == |results| && forall i :: 0 <= i < |names| ==> names[i] == results[i].document.name
  }

  class BM25SearchTool {
    const registry: Registry
    const maxSearchResults: int
    const tokenize: string -> seq<string>
    const log: real -> real
    var cachedEngine: BM25Engine?<Doc>
    var cacheVersion: nat

    ghost predicate Valid()
      reads this, registry
    {
      cachedEngine != null ==>
        && cachedEngine.corpus != [] && CacheOk(cachedEngine.corpus, cacheVersion, registry.tools, registry.version)
        && SearchesText(cachedEngine)
    }

    /** The engine searches names and descriptions, with the parameters of the tool. */
    ghost predicate SearchesText(e: BM25Engine<Doc>) {
      && (forall d :: e.tokensOf(d) == tokenize(d.name + " " + d.description))
      && e.log == log && e.k1 == 1.2 && e.b == 0.75
    }

    constructor (registry: Registry, maxSearchResults: int, tokenize: string -> seq<string>, log: real -> real)
      ensures Valid() && this.registry == registry && this.maxSearchResults == maxSearchResults
      ensures this.tokenize == tokenize && this.log == log
    {
      this.registry, this.maxSearchResults := registry, maxSearchResults;
      this.tokenize, this.log := tokenize, log;
      cachedEngine, cacheVersion := null, 0;
    }

    method BuildEngine(docs: seq<Doc>) returns (e: BM25Engine<Doc>)
      ensures fresh(e) && e.corpus == docs && SearchesText(e)
    {
      e := new BM25Engine<Doc>(docs, (d: Doc) => tokenize(d.name + " " + d.description), log, 1.2, 0.75);
    }

    /** The engine over the current hidden tools; null when there are none. It is rebuilt only when the registry
        version has changed. */
    method GetOrBuildEngine() returns (e: BM25Engine?<Doc>)
      requires Valid()
      modifies this
      ensures Valid()
      ensures e == cachedEngine && cacheVersion == registry.version
      ensures e == null <==> Hidden(registry.tools) == {}
      ensures e != null ==> ListsHidden(e.corpus, registry.tools)
      ensures old(cachedEngine) != null && old(cacheVersion) == registry.version ==> e == old(cachedEngine)
    {
      if cachedEngine != null && cacheVersion == registry.version {
        InCorpus(cachedEngine.corpus, registry.tools, 0);
        return cachedEngine;
      }
      var docs, version := registry.SnapshotHiddenTools();
      if |docs| == 0 {
        cachedEngine, cacheVersion := null, version;
        NoneHidden(registry.tools);
        return null;
      }
      InCorpus(docs, registry.tools, 0);
      e := BuildEngine(docs);
      cachedEngine, cacheVersion := e, version;
    }

    /** The names of the results. */
    method Names(results: seq<SearchResult<Doc>>) returns (names: seq<string>)
      ensures NamesOf(names, results)
    {
      names := [];
      for i := 0 to |results|
        invariant |names| == i && forall j :: 0 <= j < i ==> names[j] == results[j].document.name
      {
        names := names + [results[i].document.name];
      }
    }

    /** names show a best ranking of the current hidden tools. */
    ghost predicate IsAnswer(names: seq<string>, queryTerms: seq<string>)
      reads this, registry
    {
      if cachedEngine == null then names == [] && Hidden(registry.tools) == {}
      else
        && ListsHidden(cachedEngine.corpus, registry.tools)
        && exists results :: cachedEngine.IsBest(results, queryTerms, maxSearchResults) && NamesOf(names, results)
    }

    /** Only hidden tools are ever answered. */
    lemma {:induction false} AnswersAreHidden(names: seq<string>, queryTerms: seq<string>)
      requires IsAnswer(names, queryTerms)
      ensures forall n :: n in names ==> n in registry.tools && !registry.tools[n].isCore
    {
      hide ListsHidden, Hidden;
      if cachedEngine != null {
        hide cachedEngine.IsBest;
        var results: seq<SearchResult<Doc>> :| cachedEngine.IsBest(results, queryTerms, maxSearchResults) && NamesOf(names, results);
        forall n | n in names ensures n in registry.tools && !registry.tools[n].isCore {
          var i :| 0 <= i < |names| && names[i] == n;
          cachedEngine.BestIsFromCorpus(results, queryTerms, maxSearchResults, i);
          var d: nat :| d < |cachedEngine.corpus| && results[i].document == cachedEngine.corpus[d];
          InCorpus(cachedEngine.corpus, registry.tools, d);
        }
      }
    }

    /** A document of the corpus matches exactly when its tool does. */
    lemma {:induction false} MatchesIff(e: BM25Engine<Doc>, queryTerms: seq<string>, i: nat)
      requires SearchesText(e) && ListsHidden(e.corpus, registry.tools) && i < |e.corpus|
      ensures e.Matches(Unique(queryTerms), i) <==> Matched(registry.tools, tokenize, queryTerms, e.corpus[i].name)
    {
      hide ListsHidden, Hidden;
      UniqueIsASet(queryTerms);
      InCorpus(e.corpus, registry.tools, i);
    }

    /** Every answer, read off the registry: the query terms are looked up in names and descriptions. */
    lemma {:induction false} AnswerFinds(names: seq<string>, queryTerms: seq<string>)
      requires Valid() && IsAnswer(names, queryTerms)
      ensures Finds(registry.tools, tokenize, queryTerms, maxSearchResults, names)
    {
      hide ListsHidden, Hidden, Matched;
      if cachedEngine == null {
        forall n ensures !Matched(registry.tools, tokenize, queryTerms, n) {
          MatchedIsHidden(registry.tools, tokenize, queryTerms, n);
        }
      } else {
        var e := cachedEngine;
        hide e.IsBest, e.Matches, e.DirectScore, SearchesText, Finds;
        var results: seq<SearchResult<Doc>> :| e.IsBest(results, queryTerms, maxSearchResults) && NamesOf(names, results);
        var docs := e.BestMeans(results, queryTerms, maxSearchResults);
        RankingFinds(e, names, docs, queryTerms);
      }
    }

    /** names are those of different, matching documents. */
    ghost predicate Shown(e: BM25Engine<Doc>, names: seq<string>, docs: seq<nat>, queryTerms: seq<string>) {
      && |names| == |docs| && (forall i, j :: 0 <= i < j < |docs| ==> docs[i] != docs[j])
      && forall i :: 0 <= i < |docs| ==>
           docs[i] < |e.corpus| && e.Matches(Unique(queryTerms), docs[i]) && names[i] == e.corpus[docs[i]].name
    }

    lemma {:induction false} ShownAreMatched(e: BM25Engine<Doc>, names: seq<string>, docs: seq<nat>, queryTerms: seq<string>)
      requires SearchesText(e) && ListsHidden(e.corpus, registry.tools) && Shown(e, names, docs, queryTerms)
      ensures forall n :: n in names ==> Matched(registry.tools, tokenize, queryTerms, n)
      ensures forall i, j :: 0 <= i < j < |names| ==> names[i] != names[j]
    {
      hide ListsHidden, Matched, e.Matches, SearchesText;
      NamesDiffer(e.corpus, registry.tools);
      forall n | n in names ensures Matched(registry.tools, tokenize, queryTerms, n) {
        var i :| 0 <= i < |names| && names[i] == n;
        MatchesIff(e, queryTerms, docs[i]);
      }
    }

    /** If all matching documents are shown, all matched tools are. */
    lemma {:induction false} AllAreShown(e: BM25Engine<Doc>, names: seq<string>, docs: seq<nat>, queryTerms: seq<string>)
      requires SearchesText(e) && ListsHidden(e.corpus, registry.tools) && Shown(e, names, docs, queryTerms)
      requires |docs| == |e.Scores(Unique(queryTerms))|
      ensures forall n :: Matched(registry.tools, tokenize, queryTerms, n) ==> n in names
    {
      hide ListsHidden, Matched, e.Matches, e.DirectScore, SearchesText;
      AllListed(docs, e.Scores(Unique(queryTerms)).Keys);
      forall n | Matched(registry.tools, tokenize, queryTerms, n) ensures n in names {
        var d := OfTool(e.corpus, registry.tools, tokenize, queryTerms, n);
        MatchesIff(e, queryTerms, d);
        assert d in e.Scores(Unique(queryTerms)).Keys;
        var i :| 0 <= i < |docs| && docs[i] == d;
        assert names[i] == n;
      }
    }

    /** The best matching documents name the matched tools. */
    lemma {:induction false} RankingFinds(e: BM25Engine<Doc>, names: seq<string>, docs: seq<nat>, queryTerms: seq<string>)
      requires SearchesText(e) && ListsHidden(e.corpus, registry.tools) && Shown(e, names, docs, queryTerms)
      requires var k, found := (if maxSearchResults < 0 then 0 else maxSearchResults), |e.Scores(Unique(queryTerms))|;
        |docs| == if found < k then found else k
      ensures Finds(registry.tools, tokenize, queryTerms, maxSearchResults, names)
    {
      hide ListsHidden, Matched, e.Scores, SearchesText, AllMatched;
      ShownAreMatched(e, names, docs, queryTerms);
      var all := AllMatched(registry.tools, tokenize, queryTerms);
      forall n ensures Matched(registry.tools, tokenize, queryTerms, n) <==> n in all {
        MatchedIsKnown(registry.tools, tokenize, queryTerms, n);
      }
      if |docs| == |e.Scores(Unique(queryTerms))| {
        AllAreShown(e, names, docs, queryTerms);
      } else if |all| <= maxSearchResults {
        AllListed(names, all);
      }
    }

    /** The names of the best matches among the current hidden tools. */
    method Search(query: string) returns (names: seq<string>)
      requires Valid()
      modifies this
      ensures Valid() && IsAnswer(names, tokenize(query))
      ensures Finds(registry.tools, tokenize, tokenize(query), maxSearchResults, names)
    {
      hide Finds;
      var engine := GetOrBuildEngine();
      names := [];
      if engine != null {
        var results := engine.Search(tokenize(query), maxSearchResults);
        names := Names(results);
      }
      AnswerFinds(names, tokenize(query));
    }

    /** Promotes what was found, if anything. */
    method Unlock(names: seq<string>, ttl: int)
      requires Valid() && forall n :: n in names ==> n in registry.tools && !registry.tools[n].isCore
      modifies registry
      ensures Valid() && registry.version == old(registry.version)
      ensures registry.tools == Promoted(old(registry.tools), (set n | n in names), ttl)
      ensures Hidden(registry.tools) == old(Hidden(registry.tools))
      ensures ttl > 0 ==> forall n :: n in names ==> Callable(registry.tools, n)
    {
      hide Hidden, SearchesText;
      TtlKeepsHidden(registry.tools, (set n | n in names), ttl);
      if |names| > 0 {
        registry.PromoteTools(names, ttl);
      } else {
        assert registry.tools == Promoted(registry.tools, {}, ttl);
      }
    }

    /** A missing or blank query is refused. Otherwise the matches are promoted for ttl rounds, and nothing else changes
        in the registry. */
    method Execute(query: Option<string>, ttl: int) returns (response: Response)
      requires Valid()
      modifies this, registry
      ensures Valid() && registry.version == old(registry.version)
      ensures response == MissingQuery <==> query == None || Text.IsBlank(query.value)
      ensures response == MissingQuery ==>
        registry.tools == old(registry.tools) && cachedEngine == old(cachedEngine) && cacheVersion == old(cacheVersion)
      ensures response.Found? ==>
        && IsAnswer(response.names, tokenize(query.value))
        && Finds(old(registry.tools), tokenize, tokenize(query.value), maxSearchResults, response.names)
        && registry.tools == Promoted(old(registry.tools), (set n | n in response.names), ttl)
        && (ttl > 0 ==> forall n :: n in response.names ==> Callable(registry.tools, n))
    {
      hide Hidden, NamesOf, Text.IsBlank, Text.TrimSpace, Finds, SearchesText, Callable, Promoted;
      BlankQuery(query);
      if query == None || Text.TrimSpace(query.value) == "" {
        return MissingQuery;
      }
      var names := Search(query.value);
      AnswersAreHidden(names, tokenize(query.value));
      Unlock(names, ttl);
      return Found(names);
    }
  }

  lemma BlankQuery(query: Option<string>)
    ensures query.Some? ==> (Text.TrimSpace(query.value) == "" <==> Text.IsBlank(query.value))
  {
    hide Text.IsBlank, Text.TrimSpace;
    if query.Some? {
      Text.BlankIff(query.value);
    }
  }

  lemma {:induction false} MatchedIsHidden(tools: Tools, tokenize: string -> seq<string>, terms: seq<string>, n: string)
    ensures Matched(tools, tokenize, terms, n) ==> Hidden(tools) != {}
  {
    if Matched(tools, tokenize, terms, n) {
      assert Doc(n, tools[n].tool.description) in Hidden(tools);
    }
  }

  lemma MatchedIsKnown(tools: Tools, tokenize: string -> seq<string>, terms: seq<string>, n: string)
    ensures Matched(tools, tokenize, terms, n) <==> n in AllMatched(tools, tokenize, terms)
  {}

  /** The document of a matched tool. */
  lemma {:induction false} OfTool(corpus: seq<Doc>, tools: Tools, tokenize: string -> seq<string>, terms: seq<string>,
                                  n: string) returns (d: nat)
    requires ListsHidden(corpus, tools) && Matched(tools, tokenize, terms, n)
    ensures d < |corpus| && corpus[d].name == n
  {
    var doc := Doc(n, tools[n].tool.description);
    assert doc in Hidden(tools);
    assert doc in multiset(corpus);
    d :| 0 <= d < |corpus| && corpus[d] == doc;
  }

  /** A list of distinct members of a set that is no shorter than the set holds all of it. */
  lemma {:induction false} AllListed<T>(list: seq<T>, all: set<T>)
    requires forall i, j :: 0 <= i < j < |list| ==> list[i] != list[j]
    requires (forall x :: x in list ==> x in all) && |all| <= |list|
    ensures forall x :: x in all ==> x in list
  {
    if list == [] {
      assert all == {};
    } else {
      var init, x := list[..|list| - 1], list[|list| - 1];
      assert list == init + [x];
      forall y | y in init ensures y in all - {x} {
        var i :| 0 <= i < |init| && init[i] == y;
        assert list[i] == y;
      }
      AllListed(init, all - {x});
    }
  }

  /** The corpus names each hidden tool once. */
  lemma {:induction false} NamesDiffer(corpus: seq<Doc>, tools: Tools)
    requires ListsHidden(corpus, tools)
    ensures forall i, j :: 0 <= i < j < |corpus| ==> corpus[i].name != corpus[j].name
  {
    forall i, j | 0 <= i < j < |corpus| ensures corpus[i].name != corpus[j].name {
      InCorpus(corpus, tools, i);
      InCorpus(corpus, tools, j);
      if corpus[i] == corpus[j] {
        Twice(corpus, i, j);
        assert false;
      }
    }
  }

  lemma {:induction false} Twice<T>(s: seq<T>, i: nat, j: nat)
    requires i < j < |s| && s[i] == s[j]
    ensures multiset(s)[s[i]] > 1
  {
    assert s == s[..j] + s[j..];
    assert s[i] in s[..j] && s[j] in s[j..];
  }

  lemma {:induction false} NoneHidden(tools: Tools)
    requires ListsHidden([], tools)
    ensures Hidden(tools) == {}
  {
    assert multiset(Hidden(tools)) == multiset{};
    assert forall d :: d in Hidden(tools) ==> d in multiset(Hidden(tools));
  }

  lemma {:induction false} InCorpus(corpus: seq<Doc>, tools: Tools, i: nat)
    requires ListsHidden(corpus, tools) && i < |corpus|
    ensures corpus[i] in Hidden(tools)
    ensures corpus[i].name in tools && !tools[corpus[i].name].isCore
    ensures corpus[i].description == tools[corpus[i].name].tool.description
  {
    assert corpus[i] in multiset(corpus);
    assert corpus[i] in Hidden(tools);
  }
}
