/** The search-engine cache of pkg/tools/search_tool.go under interleaved searches and registrations. */
module EngineCache {
  import opened ToolRegistry

  /** The engine a call may return: the set of documents it indexes; None stands for nil. */
  datatype Engine = None | Index(docs: set<Doc>)

  /** Where a call of getOrBuildEngine stands. `start` is the registry version when the call began. */
  datatype Pc =
    | Idle
    | SawEngine(start: nat)                           // read a non-nil cachedEngine
    | ReadCache(start: nat, cacheVersion: nat)        // then cacheVersion ...
    | ReadRegistry(start: nat, version: nat)          // ... or the registry version first
    | FastHit(start: nat)                             // both read, and equal
    | Waiting(start: nat)                             // on the slow path, without the mutex
    | Locked(start: nat)                              // holding the mutex
    | Snapped(start: nat, docs: set<Doc>, version: nat)
    | EngineSet(start: nat, docs: set<Doc>, version: nat)  // cachedEngine written, cacheVersion not yet
    | Done(start: nat, result: Engine)

  /** Registry, cache and threads. `history[v]` are the hidden tools of version v; `from` is the version whose tools
      the current cachedEngine was built from. Both are for the proof only. */
  datatype State = State(
    tools: Tools,
    version: nat,
    writing: bool,
    engine: Engine,
    cacheVersion: nat,
    holder: int,
    pcs: map<nat, Pc>,
    history: seq<set<Doc>>,
    from: nat)

  const FREE := -1

  /** Atomic steps; t is the thread that moves. */
  datatype Action =
    | StoreTool(tool: Tool, isCore: bool)       // Register / RegisterHidden: table written, mutex held
    | BumpVersion                               // ... and version incremented, mutex released
    | Promote(names: set<string>, ttl: int)
    | Tick
    | Call(t: nat)
    | CheckCacheVersion(t: nat)
    | CheckRegistryVersion(t: nat)
    | ReturnCached(t: nat)
    | Lock(t: nat)
    | Snapshot(t: nat)
    | Recheck(t: nat)
    | SetVersion(t: nat)
    | Forget(t: nat)                            // the caller is done with the result

  function PcOf(s: State, t: nat): Pc {
    if t in s.pcs then s.pcs[t] else Idle
  }

  function Built(docs: set<Doc>): Engine {
    if docs == {} then None else Index(docs)
  }

  predicate Enabled(s: State, a: Action) {
    match a
    case StoreTool(_, _) => !s.writing
    case BumpVersion => s.writing
    case Promote(_, _) => !s.writing
    case Tick => !s.writing
    case Call(t) => PcOf(s, t).Idle?
    case CheckCacheVersion(t) => PcOf(s, t).SawEngine? || PcOf(s, t).ReadRegistry?
    case CheckRegistryVersion(t) => PcOf(s, t).SawEngine? || PcOf(s, t).ReadCache?
    case ReturnCached(t) => PcOf(s, t).FastHit?
    case Lock(t) => PcOf(s, t).Waiting? && s.holder == FREE
    case Snapshot(t) => PcOf(s, t).Locked? && !s.writing
    case Recheck(t) => PcOf(s, t).Snapped?
    case SetVersion(t) => PcOf(s, t).EngineSet?
    case Forget(t) => PcOf(s, t).Done?
  }

  function Goto(s: State, t: nat, pc: Pc): State {
    s.(pcs := s.pcs[t := pc])
  }

  function Apply(s: State, a: Action): State
    requires Enabled(s, a)
  {
    match a
    case StoreTool(tool, isCore) => s.(tools := Registered(s.tools, tool, isCore), writing := true)
    case BumpVersion => s.(version := s.version + 1, writing := false, history := s.history + [Hidden(s.tools)])
    case Promote(names, ttl) => s.(tools := Promoted(s.tools, names, ttl))
    case Tick => s.(tools := Ticked(s.tools))
    case Call(t) => Goto(s, t, if s.engine != None then SawEngine(s.version) else Waiting(s.version))
    case CheckCacheVersion(t) =>
      var pc := PcOf(s, t);
      if pc.SawEngine? then Goto(s, t, ReadCache(pc.start, s.cacheVersion))
      else Goto(s, t, if s.cacheVersion == pc.version then FastHit(pc.start) else Waiting(pc.start))
    case CheckRegistryVersion(t) =>
      var pc := PcOf(s, t);
      if pc.SawEngine? then Goto(s, t, ReadRegistry(pc.start, s.version))
      else Goto(s, t, if s.version == pc.cacheVersion then FastHit(pc.start) else Waiting(pc.start))
    case ReturnCached(t) => Goto(s, t, Done(PcOf(s, t).start, s.engine))
    case Lock(t) => Goto(s, t, Locked(PcOf(s, t).start)).(holder := t)
    case Snapshot(t) => Goto(s, t, Snapped(PcOf(s, t).start, Hidden(s.tools), s.version))
    case Recheck(t) =>
      var pc := PcOf(s, t);
      if s.engine != None && s.cacheVersion == pc.version then
        Goto(s, t, Done(pc.start, s.engine)).(holder := FREE)
      else
        Goto(s, t, EngineSet(pc.start, pc.docs, pc.version)).(engine := Built(pc.docs), from := pc.version)
    case SetVersion(t) =>
      var pc := PcOf(s, t);
      Goto(s, t, Done(pc.start, Built(pc.docs))).(cacheVersion := pc.version, holder := FREE)
    case Forget(t) => Goto(s, t, Idle)
  }

  const INIT := State(map[], 0, false, None, 0, FREE, map[], [{}], 0)

  /** The state after an interleaving; an action that is not enabled does nothing. */
  function Run(actions: seq<Action>): State {
    if actions == [] then INIT
    else
      var r, a := Run(actions[..|actions| - 1]), actions[|actions| - 1];
      if Enabled(r, a) then Apply(r, a) else r
  }

  // ---------- The invariant ----------

  ghost predicate HistoryOk(s: State) {
    && |s.history| == s.version + 1
    && (!s.writing ==> s.history[s.version] == Hidden(s.tools))
  }

  /** The cached engine indexes the tools of version `from`, and cacheVersion lags it only while a thread is between
      its two writes. */
  ghost predicate CacheOk(s: State)
    requires HistoryOk(s)
  {
    && s.cacheVersion <= s.from <= s.version
    && s.engine == Built(s.history[s.from])
    && (s.cacheVersion != s.from ==> s.holder >= 0 && PcOf(s, s.holder).EngineSet?)
  }

  ghost predicate InCriticalSection(pc: Pc) {
    pc.Locked? || pc.Snapped? || pc.EngineSet?
  }

  ghost predicate ThreadOk(s: State, t: nat)
    requires HistoryOk(s)
  {
    var pc := PcOf(s, t);
    && (InCriticalSection(pc) <==> s.holder == t)
    && (!pc.Idle? ==> pc.start <= s.version)
    && match pc
       case ReadCache(_, v) => v <= s.from
       case ReadRegistry(start, v) => start <= v
       case FastHit(start) => start <= s.from
       case Snapped(start, docs, v) => start <= v <= s.version && docs == s.history[v] && s.from <= v
       case EngineSet(start, docs, v) => start <= v <= s.version && docs == s.history[v] && s.from == v
       case Done(start, r) => exists v :: start <= v <= s.version && r == Built(s.history[v])
       case _ => true
  }

  ghost predicate Inv(s: State) {
    && HistoryOk(s) && CacheOk(s)
    && (s.holder >= 0 || s.holder == FREE)
    && forall t: nat :: ThreadOk(s, t)
  }

  /** What a step may do to everything but the moving thread: versions grow, history is only extended. */
  ghost predicate Extends(r: State, s: State) {
    && r.version <= s.version && r.from <= s.from && |r.history| == r.version + 1 && r.history <= s.history
  }

  lemma {:induction false} OthersStayOk(r: State, s: State, t: nat)
    requires HistoryOk(r) && HistoryOk(s) && Extends(r, s) && ThreadOk(r, t)
    requires PcOf(s, t) == PcOf(r, t) && (s.holder == t <==> r.holder == t)
    requires InCriticalSection(PcOf(r, t)) ==> s.from == r.from
    ensures ThreadOk(s, t)
  {
    var pc := PcOf(r, t);
    if pc.Done? {
      var v :| pc.start <= v <= r.version && pc.result == Built(r.history[v]);
      assert s.history[v] == r.history[v];
    }
  }

  lemma {:induction false} RegistryStepKeepsInv(r: State, a: Action)
    requires Inv(r) && Enabled(r, a) && (a.StoreTool? || a.BumpVersion? || a.Promote? || a.Tick?)
    ensures Inv(Apply(r, a))
  {
    var s := Apply(r, a);
    match a {
      case Promote(names, ttl) => TtlKeepsHidden(r.tools, names, ttl);
      case Tick => TtlKeepsHidden(r.tools, {}, 0);
      case _ =>
    }
    forall t: nat ensures ThreadOk(s, t) {
      assert ThreadOk(r, t);
      OthersStayOk(r, s, t);
    }
  }

  lemma {:induction false} ThreadStepKeepsInv(r: State, a: Action, t: nat)
    requires Inv(r) && Enabled(r, a)
    requires !(a.StoreTool? || a.BumpVersion? || a.Promote? || a.Tick?) && t == a.t
    ensures Inv(Apply(r, a))
  {
    hide Hidden, Built, Registered, Promoted, Ticked, CacheOk;
    var s := Apply(r, a);
    assert ThreadOk(r, t);
    assert r.holder >= 0 ==> ThreadOk(r, r.holder);
    MoverStaysOk(r, a, t);
    forall u: nat | u != t ensures ThreadOk(s, u) {
      assert ThreadOk(r, u);
      OthersStayOk(r, s, u);
    }
  }

  predicate OnFastPath(a: Action) {
    a.Call? || a.CheckCacheVersion? || a.CheckRegistryVersion? || a.ReturnCached? || a.Forget?
  }

  /** The moving thread: in particular, a returned engine belongs to a version between start and now. */
  lemma {:induction false} MoverStaysOk(r: State, a: Action, t: nat)
    requires HistoryOk(r) && CacheOk(r) && ThreadOk(r, t) && Enabled(r, a)
    requires r.holder >= 0 ==> ThreadOk(r, r.holder)
    requires !(a.StoreTool? || a.BumpVersion? || a.Promote? || a.Tick?) && t == a.t
    ensures var s := Apply(r, a);
      HistoryOk(s) && Extends(r, s) && CacheOk(s) && ThreadOk(s, t)
  {
    hide Apply, HistoryOk, CacheOk, ThreadOk;
    if OnFastPath(a) {
      FastStepOk(r, a, t);
    } else {
      SlowStepOk(r, a, t);
    }
  }

  /** Without the mutex nothing is written; a hit returns the engine of a version not before the call. */
  lemma {:induction false} FastStepOk(r: State, a: Action, t: nat)
    requires HistoryOk(r) && CacheOk(r) && ThreadOk(r, t) && Enabled(r, a)
    requires r.holder >= 0 ==> ThreadOk(r, r.holder)
    requires OnFastPath(a) && t == a.t
    ensures var s := Apply(r, a);
      HistoryOk(s) && Extends(r, s) && CacheOk(s) && ThreadOk(s, t)
  {
    hide Hidden, Built, Registered, Promoted, Ticked;
    var s := Apply(r, a);
    assert PcOf(s, t) == s.pcs[t] && s.engine == Built(s.history[s.from]);
  }

  /** With the mutex, the engine and then its version are replaced by those of the snapshot. */
  lemma {:induction false} SlowStepOk(r: State, a: Action, t: nat)
    requires HistoryOk(r) && CacheOk(r) && ThreadOk(r, t) && Enabled(r, a)
    requires r.holder >= 0 ==> ThreadOk(r, r.holder)
    requires (a.Lock? || a.Snapshot? || a.Recheck? || a.SetVersion?) && t == a.t
    ensures var s := Apply(r, a);
      HistoryOk(s) && Extends(r, s) && CacheOk(s) && ThreadOk(s, t)
  {
    hide Hidden, Built, Registered, Promoted, Ticked;
    var s, pc := Apply(r, a), PcOf(r, t);
    assert PcOf(s, t) == s.pcs[t] && s.history == r.history;
    if a.SetVersion? {
      assert Built(pc.docs) == Built(s.history[pc.version]);
    }
  }

  lemma {:induction false} InitOk()
    ensures Inv(INIT)
  {
    assert Hidden(map[]) == {};
  }

  /** Every state of every interleaving satisfies the invariant. */
  lemma {:induction false} RunKeepsInv(actions: seq<Action>)
    ensures Inv(Run(actions))
  {
    if actions == [] {
      InitOk();
    } else {
      var r, a := Run(actions[..|actions| - 1]), actions[|actions| - 1];
      RunKeepsInv(actions[..|actions| - 1]);
      if Enabled(r, a) {
        if a.StoreTool? || a.BumpVersion? || a.Promote? || a.Tick? {
          RegistryStepKeepsInv(r, a);
        } else {
          ThreadStepKeepsInv(r, a, a.t);
        }
      }
    }
  }

  /** The engine a call returns (nil meaning none) indexes exactly the hidden tools of some registry version that was
      current during the call. */
  lemma {:induction false} ReturnedEngineIsCurrent(actions: seq<Action>, t: nat)
    requires PcOf(Run(actions), t).Done?
    ensures var s := Run(actions);
      && |s.history| == s.version + 1
      && exists v :: PcOf(s, t).start <= v <= s.version &&
           match PcOf(s, t).result
           case None => s.history[v] == {}
           case Index(docs) => docs == s.history[v]
  {
    var s := Run(actions);
    RunKeepsInv(actions);
    assert ThreadOk(s, t);
    var pc := PcOf(s, t);
    var v :| pc.start <= v <= s.version && pc.result == Built(s.history[v]);
    assert match pc.result case None => s.history[v] == {} case Index(docs) => docs == s.history[v];
  }

  /** The history is the real one: version v's entry are the tools that were registered when v was current. */
  lemma {:induction false} HistoryIsFaithful(actions: seq<Action>)
    ensures var s := Run(actions);
      |s.history| == s.version + 1 && (!s.writing ==> s.history[s.version] == Hidden(s.tools))
    ensures actions != [] ==> Run(actions[..|actions| - 1]).history <= Run(actions).history
  {
    RunKeepsInv(actions);
  }

  /** Promotion and ticking leave the cache valid: versions and corpus stay, so a later call hits as before. */
  lemma {:induction false} TtlNeverInvalidates(s: State, a: Action)
    requires Enabled(s, a) && (a.Promote? || a.Tick?)
    ensures var r := Apply(s, a);
      && r == s.(tools := r.tools)
      && Hidden(r.tools) == Hidden(s.tools)
      && (r.cacheVersion == r.version <==> s.cacheVersion == s.version)
  {
    match a {
      case Promote(names, ttl) => TtlKeepsHidden(s.tools, names, ttl);
      case Tick => TtlKeepsHidden(s.tools, {}, 0);
    }
  }
}
