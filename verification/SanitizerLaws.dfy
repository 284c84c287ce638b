/** How the history filter treats one part of a history at a time: damage stays where it is. */
module SanitizerLaws {
  import opened Messages
  import opened Sanitizer

  // ---------- The passes on joined lists ----------

  /** What pass 1 remembers after it kept s. */
  function CallableAfterKept(callable: bool, s: seq<Message>): bool {
    if s == [] then callable else MayPrecedeCall(s[|s| - 1])
  }

  function InRunAfterKept(inRun: bool, s: seq<Message>): bool {
    if s == [] then inRun else IsToolResult(s[|s| - 1]) || IsCall(s[|s| - 1])
  }

  lemma {:induction false} Pass1Concat(callable: bool, inRun: bool, a: seq<Message>, b: seq<Message>)
    ensures var p := Pass1(callable, inRun, a);
      Pass1(callable, inRun, a + b) == p + Pass1(CallableAfterKept(callable, p), InRunAfterKept(inRun, p), b)
    decreases |a|
  {
    if a == [] {
      assert a + b == b;
    } else {
      assert (a + b)[1..] == a[1..] + b;
      if Keeps(callable, inRun, a[0]) {
        hide Keeps;
        var c, r := MayPrecedeCall(a[0]), IsToolResult(a[0]) || IsCall(a[0]);
        Pass1Concat(c, r, a[1..], b);
        KeptFirst(callable, inRun, a[0], Pass1(c, r, a[1..]));
      } else {
        Pass1Concat(callable, inRun, a[1..], b);
      }
    }
  }

  lemma {:induction false} KeptFirst(callable: bool, inRun: bool, m: Message, t: seq<Message>)
    ensures CallableAfterKept(callable, [m] + t) == CallableAfterKept(MayPrecedeCall(m), t)
    ensures InRunAfterKept(inRun, [m] + t) == InRunAfterKept(IsToolResult(m) || IsCall(m), t)
    ensures forall x: seq<Message> :: [m] + (t + x) == ([m] + t) + x
  {
    hide MayPrecedeCall, IsToolResult, IsCall;
    if t == [] {
      assert [m] + t == [m];
    } else {
      assert ([m] + t)[|t|] == t[|t| - 1];
    }
    forall x: seq<Message> ensures [m] + (t + x) == ([m] + t) + x {}
  }

  predicate StartsNoRun(s: seq<Message>) {
    s == [] || !IsToolResult(s[0])
  }

  lemma {:induction false} RunConcat(a: seq<Message>, b: seq<Message>)
    ensures Run(a) <= Run(a + b)
    ensures StartsNoRun(b) ==> Run(a + b) == Run(a)
  {
    if a == [] {
      assert a + b == b;
    } else {
      assert (a + b)[1..] == a[1..] + b;
      RunConcat(a[1..], b);
    }
  }

  /** Pass 2 drops m with the run in front of t. */
  predicate Dropped(m: Message, t: seq<Message>) {
    IsCall(m) && !Covers(Run(t), m)
  }

  function AfterRun(t: seq<Message>): seq<Message> {
    t[|Run(t)|..]
  }

  lemma {:induction false} DroppedConcat(m: Message, t: seq<Message>, b: seq<Message>)
    requires StartsNoRun(b)
    ensures Dropped(m, t + b) == Dropped(m, t) && AfterRun(t + b) == AfterRun(t) + b && |AfterRun(t)| <= |t|
  {
    RunConcat(t, b);
  }

  lemma {:induction false} Pass2First(s: seq<Message>)
    requires s != []
    ensures Pass2(s) == if Dropped(s[0], s[1..]) then Pass2(AfterRun(s[1..])) else [s[0]] + Pass2(s[1..])
  {
    assert s[1 + |Run(s[1..])|..] == AfterRun(s[1..]);
  }

  lemma JoinedFirst(a: seq<Message>, b: seq<Message>)
    requires a != []
    ensures a + b != [] && (a + b)[0] == a[0] && (a + b)[1..] == a[1..] + b
  {}

  lemma FirstOfJoined(m: seq<Message>, t: seq<Message>, b: seq<Message>)
    ensures m + (t + b) == (m + t) + b
  {}

  lemma {:induction false} Pass2Concat(a: seq<Message>, b: seq<Message>)
    requires StartsNoRun(b)
    ensures Pass2(a + b) == Pass2(a) + Pass2(b)
    decreases |a|
  {
    if a == [] {
      assert a + b == b;
    } else {
      hide *;
      JoinedFirst(a, b);
      DroppedConcat(a[0], a[1..], b);
      Pass2First(a);
      Pass2First(a + b);
      if Dropped(a[0], a[1..]) {
        Pass2Concat(AfterRun(a[1..]), b);
      } else {
        Pass2Concat(a[1..], b);
        FirstOfJoined([a[0]], Pass2(a[1..]), Pass2(b));
      }
    }
  }

  lemma {:induction false} Pass2KeepsCovered(a: seq<Message>, b: seq<Message>)
    requires AllCovered(a)
    ensures a <= Pass2(a + b)
    decreases |a|
  {
    if a != [] {
      assert (a + b)[1..] == a[1..] + b;
      RunConcat(a[1..], b);
      assert AnswerIds(Run(a[1..])) <= AnswerIds(Run(a[1..] + b)) by {
        assert forall m :: m in Run(a[1..]) ==> m in Run(a[1..] + b);
      }
      Pass2KeepsCovered(a[1..], b);
      assert a == [a[0]] + a[1..];
    }
  }

  // ---------- The laws ----------

  /** Damage on one side of a user or plain assistant message has no effect on the other side. */
  lemma {:induction false} SplitsAtPlain(p: seq<Message>, u: Message, q: seq<Message>)
    requires IsPlain(u)
    ensures Sanitize(p + [u] + q) == Sanitize(p) + Sanitize([u] + q)
  {
    var uq, k := [u] + q, Pass1(false, false, p);
    assert p + [u] + q == p + uq && uq[1..] == q;
    Pass1Concat(false, false, p, uq);
    Pass2Concat(k, Pass1(false, false, uq));
  }

  /** Whatever follows, a history that obeys the protocol is kept as it is, with all its rounds. */
  lemma {:induction false} KeepsWellFormedPrefix(a: seq<Message>, b: seq<Message>)
    requires WellFormed(a)
    ensures a <= Sanitize(a + b)
  {
    WellFormedIff(a);
    Pass1Fixes(false, false, a);
    Pass1Concat(false, false, a, b);
    Pass2KeepsCovered(a, Pass1(CallableAfterKept(false, a), InRunAfterKept(false, a), b));
  }

  /** m has no legal place behind a: a system message, a tool message that answers no call, or a tool-call message that
      follows neither a user nor a tool message. */
  predicate Misplaced(a: seq<Message>, m: Message) {
    || m.role == System
    || (IsToolResult(m) && (a == [] || (!IsToolResult(a[|a| - 1]) && !IsCall(a[|a| - 1]))))
    || (IsCall(m) && (a == [] || !MayPrecedeCall(a[|a| - 1])))
  }

  /** A misplaced message vanishes alone: everything else is treated as if it had never been there. */
  lemma {:induction false} MisplacedVanishesAlone(a: seq<Message>, m: Message, q: seq<Message>)
    requires NoSystem(a) && GoodPredecessors(a) && NoOrphans(a) && Misplaced(a, m)
    ensures Sanitize(a + [m] + q) == Sanitize(a + q)
  {
    LegalSoFar(a);
    Pass1Concat(false, false, a, q);
    assert a + [m] + q == a + ([m] + q) && ([m] + q)[1..] == q;
    Pass1Concat(false, false, a, [m] + q);
    assert !Keeps(CallableAfterKept(false, a), InRunAfterKept(false, a), m);
  }

  lemma {:induction false} LegalSoFar(a: seq<Message>)
    requires NoSystem(a) && GoodPredecessors(a) && NoOrphans(a)
    ensures Pass1(false, false, a) == a
  {
    ChainedIff(false, false, a);
    assert forall i :: 0 <= i < |a| ==> CallableAfter(false, a, i) == CallableAt(a, i);
    assert forall k :: 0 <= k < |a| ==> InRunAfter(false, a, k) == InRun(a, k);
    Pass1Fixes(false, false, a);
  }

  /** Some call of the message is not answered by the tool messages. */
  ghost predicate Unanswered(call: Message, tools: seq<Message>) {
    exists c :: c in call.toolCalls && forall m :: m in tools ==> m.toolCallID != c.id
  }

  /** A tool round with a missing answer vanishes as a whole, and alone. */
  lemma {:induction false} UnansweredRoundVanishes(a: seq<Message>, call: Message, tools: seq<Message>, q: seq<Message>)
    requires WellFormed(a) && a != [] && MayPrecedeCall(a[|a| - 1])
    requires IsCall(call) && (forall m :: m in tools ==> IsToolResult(m)) && Unanswered(call, tools)
    requires q == [] || IsPlain(q[0]) || (IsCall(q[0]) && tools != [])
    ensures Sanitize(a + ([call] + tools) + q) == Sanitize(a + q)
  {
    hide WellFormed, Pass1, Pass2, Chained, AllCovered, MayPrecedeCall, IsPlain, Unanswered;
    var g, r := [call] + tools, InRunAfterKept(false, a);
    WellFormedIff(a);
    Pass1Fixes(false, false, a);
    Pass2Fixes(a);
    Pass1Concat(false, false, a, q);
    assert a + g + q == a + (g + q);
    Pass1Concat(false, false, a, g + q);
    KeepsGroup(r, call, tools, q);
    var y := Pass1(true, r, q);
    Pass2Concat(a, y);
    Pass2Concat(a, g + y);
    DropsGroup(call, tools, y);
  }

  lemma {:induction false} KeepsGroup(inRun: bool, call: Message, tools: seq<Message>, q: seq<Message>)
    requires IsCall(call) && forall m :: m in tools ==> IsToolResult(m)
    requires q == [] || IsPlain(q[0]) || (IsCall(q[0]) && tools != [])
    ensures Pass1(true, inRun, [call] + tools + q) == [call] + tools + Pass1(true, inRun, q)
    ensures StartsNoRun(Pass1(true, inRun, q))
  {
    var g := [call] + tools;
    assert g[1..] == tools;
    KeepsTools(false, tools);
    assert Pass1(true, inRun, g) == g;
    Pass1Concat(true, inRun, g, q);
    assert tools != [] ==> g[|g| - 1] in tools;
  }

  lemma {:induction false} KeepsTools(callable: bool, tools: seq<Message>)
    requires forall m :: m in tools ==> IsToolResult(m)
    ensures Pass1(callable, true, tools) == tools
    decreases |tools|
  {
    if tools != [] {
      assert tools[0] in tools;
      KeepsTools(true, tools[1..]);
    }
  }

  lemma {:induction false} DropsGroup(call: Message, tools: seq<Message>, y: seq<Message>)
    requires IsCall(call) && (forall m :: m in tools ==> IsToolResult(m)) && Unanswered(call, tools) && StartsNoRun(y)
    ensures Pass2([call] + tools + y) == Pass2(y)
  {
    var s := [call] + tools + y;
    assert s[1..] == tools + y && s[1 + |tools|..] == y;
    AllRun(tools);
    RunConcat(tools, y);
    var c :| c in call.toolCalls && forall m :: m in tools ==> m.toolCallID != c.id;
    assert c.id in CallIds(call) && c.id !in AnswerIds(tools);
  }

  lemma {:induction false} AllRun(tools: seq<Message>)
    requires forall m :: m in tools ==> IsToolResult(m)
    ensures Run(tools) == tools
  {
    if tools != [] {
      assert tools[0] in tools;
      AllRun(tools[1..]);
    }
  }
}
