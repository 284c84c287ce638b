/** The tool table with time-limited hidden tools: pkg/tools/registry.go. */
module ToolRegistry {

  datatype Tool = Tool(name: string, description: string)

  datatype ToolEntry = ToolEntry(tool: Tool, isCore: bool, ttl: int)

  /** A line of the search corpus. */
  datatype Doc = Doc(name: string, description: string)

  type Tools = map<string, ToolEntry>

  /** The hidden tools, as the corpus a search engine must index. */
  function Hidden(tools: Tools): set<Doc> {
    set n | n in tools && !tools[n].isCore :: Doc(n, tools[n].tool.description)
  }

  function Registered(tools: Tools, tool: Tool, isCore: bool): Tools {
    tools[tool.name := ToolEntry(tool, isCore, 0)]
  }

  function Promoted(tools: Tools, names: set<string>, ttl: int): Tools {
    map n | n in tools :: if n in names && !tools[n].isCore then tools[n].(ttl := ttl) else tools[n]
  }

  function Ticked(tools: Tools): Tools {
    map n | n in tools :: if !tools[n].isCore && tools[n].ttl > 0 then tools[n].(ttl := tools[n].ttl - 1) else tools[n]
  }

  /** Core tools are always callable, hidden ones while their time to live is positive. */
  predicate Callable(tools: Tools, name: string) {
    name in tools && (tools[name].isCore || tools[name].ttl > 0)
  }

  /** docs lists the hidden tools, each once. */
  ghost predicate ListsHidden(docs: seq<Doc>, tools: Tools) {
    multiset(docs) == multiset(Hidden(tools))
  }

  class Registry {
    var tools: Tools
    var version: nat

    constructor ()
      ensures tools == map[] && version == 0
    {
      tools, version := map[], 0;
    }

    method Register(tool: Tool)
      modifies this
      ensures tools == Registered(old(tools), tool, true) && version == old(version) + 1
    {
      tools := tools[tool.name := ToolEntry(tool, true, 0)];
      version := version + 1;
    }

    method RegisterHidden(tool: Tool)
      modifies this
      ensures tools == Registered(old(tools), tool, false) && version == old(version) + 1
    {
      tools := tools[tool.name := ToolEntry(tool, false, 0)];
      version := version + 1;
    }

    method PromoteTools(names: seq<string>, ttl: int)
      modifies this
      ensures tools == Promoted(old(tools), (set n | n in names), ttl) && version == old(version)
    {
      for i := 0 to |names|
        invariant tools == Promoted(old(tools), (set n | n in names[..i]), ttl) && version == old(version)
      {
        var name := names[i];
        assert names[..i + 1] == names[..i] + [name];
        if name in tools && !tools[name].isCore {
          tools := tools[name := tools[name].(ttl := ttl)];
        }
      }
      assert names[..|names|] == names;
    }

    method TickTTL()
      modifies this
      ensures tools == Ticked(old(tools)) && version == old(version)
    {
      var remaining := tools.Keys;
      while remaining != {}
        invariant remaining <= tools.Keys == old(tools).Keys && version == old(version)
        invariant forall n :: n in tools ==> tools[n] == if n in remaining then old(tools)[n] else Ticked(old(tools))[n]
        decreases |remaining|
      {
        var n :| n in remaining;
        remaining := remaining - {n};
        if !tools[n].isCore && tools[n].ttl > 0 {
          tools := tools[n := tools[n].(ttl := tools[n].ttl - 1)];
        }
      }
    }

    /** The hidden tools in arbitrary order, with the version they belong to. */
    method SnapshotHiddenTools() returns (docs: seq<Doc>, v: nat)
      ensures ListsHidden(docs, tools) && v == version
    {
      docs := [];
      var remaining := tools.Keys;
      ghost var done: Tools := map[];
      while remaining != {}
        invariant remaining <= tools.Keys
        invariant done == map n | n in tools && n !in remaining :: tools[n]
        invariant ListsHidden(docs, done)
        decreases |remaining|
      {
        var n :| n in remaining;
        remaining := remaining - {n};
        HiddenGrows(done, n, tools[n]);
        done := done[n := tools[n]];
        if !tools[n].isCore {
          docs := docs + [Doc(n, tools[n].tool.description)];
        }
      }
      assert done == tools;
      return docs, version;
    }

    method Get(name: string) returns (found: bool, tool: Tool)
      ensures found == Callable(tools, name)
      ensures found ==> tool == tools[name].tool
    {
      tool := Tool("", "");
      if name !in tools {
        return false, tool;
      }
      if !tools[name].isCore && tools[name].ttl <= 0 {
        return false, tool;
      }
      return true, tools[name].tool;
    }
  }

  lemma {:induction false} HiddenGrows(tools: Tools, n: string, e: ToolEntry)
    requires n !in tools
    ensures var d := Doc(n, e.tool.description);
      d !in Hidden(tools) &&
      multiset(Hidden(tools[n := e])) == multiset(Hidden(tools)) + if e.isCore then multiset{} else multiset{d}
  {
    var d, grown := Doc(n, e.tool.description), tools[n := e];
    forall x ensures x in Hidden(grown) <==> x in Hidden(tools) || (!e.isCore && x == d) {
      assert x in Hidden(grown) ==> x.name in grown && !grown[x.name].isCore;
      assert x in Hidden(tools) ==> x.name in tools && grown[x.name] == tools[x.name];
      assert !e.isCore && x == d ==> n in grown && !grown[n].isCore;
      if x in Hidden(tools) {
        assert x.name in grown && !grown[x.name].isCore && x == Doc(x.name, grown[x.name].tool.description);
      }
    }
    assert Hidden(grown) == Hidden(tools) + if e.isCore then {} else {d};
    assert multiset(Hidden(tools) + {d}) == multiset(Hidden(tools)) + multiset{d};
  }

  /** Promotion and ticking change no tool, so the search corpus stays the same. */
  lemma {:induction false} TtlKeepsHidden(tools: Tools, names: set<string>, ttl: int)
    ensures Hidden(Promoted(tools, names, ttl)) == Hidden(tools)
    ensures Hidden(Ticked(tools)) == Hidden(tools)
  {
    var p, t := Promoted(tools, names, ttl), Ticked(tools);
    assert forall n :: n in tools ==> p[n].tool == tools[n].tool && p[n].isCore == tools[n].isCore;
    assert forall n :: n in tools ==> t[n].tool == tools[n].tool && t[n].isCore == tools[n].isCore;
  }

  function TickedTimes(tools: Tools, k: nat): Tools {
    if k == 0 then tools else Ticked(TickedTimes(tools, k - 1))
  }

  /** A hidden tool promoted for ttl rounds is callable for exactly that many ticks; a core tool always. */
  lemma {:induction false} PromotionLasts(tools: Tools, names: set<string>, ttl: int, n: string, k: nat)
    requires n in tools && n in names
    ensures Callable(TickedTimes(Promoted(tools, names, ttl), k), n) <==> tools[n].isCore || k < ttl
  {
    PromotedTtl(tools, names, ttl, n, k);
  }

  lemma {:induction false} PromotedTtl(tools: Tools, names: set<string>, ttl: int, n: string, k: nat)
    requires n in tools && n in names
    ensures var t := TickedTimes(Promoted(tools, names, ttl), k);
      && n in t && t[n].isCore == tools[n].isCore
      && (!tools[n].isCore ==> t[n].ttl == if ttl <= 0 then ttl else if k <= ttl then ttl - k else 0)
  {
    if k > 0 {
      PromotedTtl(tools, names, ttl, n, k - 1);
    }
  }

  /** The corpus, tool by tool. */
  lemma {:induction false} HiddenMeans(tools: Tools, d: Doc)
    ensures d in Hidden(tools) <==>
      d.name in tools && !tools[d.name].isCore && d.description == tools[d.name].tool.description
  {
    if d.name in tools && !tools[d.name].isCore && d.description == tools[d.name].tool.description {
      assert d == Doc(d.name, tools[d.name].tool.description);
    }
  }
}
