/** The tool table over whole histories of registrations, promotions and ticks: pkg/tools/registry.go. */
module ToolHistory {
  import opened ToolRegistry

  // ---------- The table after a whole history, read off the history ----------

  datatype Event = Register(tool: Tool, isCore: bool) | Promote(names: set<string>, ttl: int) | Tick

  function After(tools: Tools, e: Event): Tools {
    match e
    case Register(tool, isCore) => Registered(tools, tool, isCore)
    case Promote(names, ttl) => Promoted(tools, names, ttl)
    case Tick => Ticked(tools)
  }

  function AfterAll(events: seq<Event>): Tools {
    if events == [] then map[] else After(AfterAll(events[..|events| - 1]), events[|events| - 1])
  }

  predicate Registers(e: Event, n: string) {
    e.Register? && e.tool.name == n
  }

  predicate Promotes(e: Event, n: string) {
    e.Promote? && n in e.names
  }

  /** The tool n was last registered at j. */
  ghost predicate RegisteredAt(events: seq<Event>, n: string, j: nat) {
    j < |events| && Registers(events[j], n) && forall i :: j < i < |events| ==> !Registers(events[i], n)
  }

  /** After j, n was last promoted at p. */
  ghost predicate PromotedAt(events: seq<Event>, n: string, j: nat, p: nat) {
    j < p < |events| && Promotes(events[p], n) && forall i :: p < i < |events| ==> !Promotes(events[i], n)
  }

  /** The number of ticks after p. */
  function TicksSince(events: seq<Event>, p: nat): nat {
    if |events| <= p + 1 then 0
    else TicksSince(events[..|events| - 1], p) + if events[|events| - 1].Tick? then 1 else 0
  }

  lemma {:induction false} Unregistered(events: seq<Event>, n: string)
    requires forall i :: 0 <= i < |events| ==> !Registers(events[i], n)
    ensures n !in AfterAll(events)
  {
    if events != [] {
      Unregistered(events[..|events| - 1], n);
    }
  }

  /** Promotions and ticks, whatever they do, keep the tool that was registered. */
  lemma {:induction false} RegisteredStays(events: seq<Event>, n: string, j: nat)
    requires RegisteredAt(events, n, j)
    ensures var t := AfterAll(events);
      n in t && t[n].tool == events[j].tool && t[n].isCore == events[j].isCore
  {
    if j < |events| - 1 {
      assert RegisteredAt(events[..|events| - 1], n, j);
      RegisteredStays(events[..|events| - 1], n, j);
    }
  }

  lemma {:induction false} TtlSincePromotion(events: seq<Event>, n: string, j: nat, p: nat)
    requires RegisteredAt(events, n, j) && !events[j].isCore && PromotedAt(events, n, j, p)
    ensures n in AfterAll(events)
    ensures var ttl, k := events[p].ttl, TicksSince(events, p);
      AfterAll(events)[n].ttl == if ttl <= 0 then ttl else if k <= ttl then ttl - k else 0
  {
    var init := events[..|events| - 1];
    assert RegisteredAt(init, n, j);
    RegisteredStays(init, n, j);
    if p < |events| - 1 {
      assert PromotedAt(init, n, j, p);
      TtlSincePromotion(init, n, j, p);
    }
  }

  lemma {:induction false} TtlWithoutPromotion(events: seq<Event>, n: string, j: nat)
    requires RegisteredAt(events, n, j) && forall p: nat :: !PromotedAt(events, n, j, p)
    ensures n in AfterAll(events) && AfterAll(events)[n].ttl == 0
  {
    var init, last := events[..|events| - 1], |events| - 1;
    if j < last {
      assert RegisteredAt(init, n, j);
      assert !PromotedAt(events, n, j, last);
      forall p: nat ensures !PromotedAt(init, n, j, p) {
        assert !PromotedAt(events, n, j, p);
      }
      TtlWithoutPromotion(init, n, j);
    }
  }

  /** After every history: a registered tool is callable exactly if it is a core tool, or if since it was last registered
      it was promoted, the last time for more rounds than ticks have passed since. */
  lemma {:induction false} CallableIff(events: seq<Event>, n: string, j: nat)
    requires RegisteredAt(events, n, j)
    ensures Callable(AfterAll(events), n) <==>
      events[j].isCore || exists p: nat :: PromotedAt(events, n, j, p) && TicksSince(events, p) < events[p].ttl
  {
    hide AfterAll, TicksSince;
    RegisteredStays(events, n, j);
    if !events[j].isCore {
      if exists p: nat :: PromotedAt(events, n, j, p) {
        var p: nat :| PromotedAt(events, n, j, p);
        TtlSincePromotion(events, n, j, p);
        forall q: nat | PromotedAt(events, n, j, q) ensures q == p {}
      } else {
        TtlWithoutPromotion(events, n, j);
      }
    }
  }
}
