/** The two-pass history filter: `sanitizeHistoryForProvider` in pkg/agent/context.go. */
module Sanitizer {
  import opened Messages

  // ---------- Pass 1: drop what has no legal place ----------

  /** The nearest message before the trailing tool messages of s is a tool-call message. */
  predicate EndsInRun(s: seq<Message>) {
    if s == [] then false
    else if IsToolResult(s[|s| - 1]) then EndsInRun(s[..|s| - 1])
    else IsCall(s[|s| - 1])
  }

  predicate EndsCallable(s: seq<Message>) {
    s != [] && MayPrecedeCall(s[|s| - 1])
  }

  /** Whether pass 1 keeps m after a kept prefix that is callable / ends in a tool run as given. */
  predicate Keeps(callable: bool, inRun: bool, m: Message) {
    match m.role
    case System => false
    case Tool => inRun
    case Assistant => IsCall(m) ==> callable
    case _ => true
  }

  /** Pass 1 as a left-to-right filter that remembers two facts about what it kept. */
  function Pass1(callable: bool, inRun: bool, h: seq<Message>): seq<Message>
    decreases |h|
  {
    if h == [] then []
    else if Keeps(callable, inRun, h[0]) then
      [h[0]] + Pass1(MayPrecedeCall(h[0]), IsToolResult(h[0]) || IsCall(h[0]), h[1..])
    else Pass1(callable, inRun, h[1..])
  }

  // ---------- Pass 2: drop groups whose calls are not all answered ----------

  /** The maximal prefix of tool messages. */
  function Run(s: seq<Message>): (r: seq<Message>)
    ensures |r| <= |s| && r == s[..|r|]
    ensures forall m :: m in r ==> IsToolResult(m)
    ensures |r| < |s| ==> !IsToolResult(s[|r|])
  {
    if s == [] || !IsToolResult(s[0]) then [] else [s[0]] + Run(s[1..])
  }

  function CallIds(call: Message): set<string> {
    set c | c in call.toolCalls :: c.id
  }

  function AnswerIds(run: seq<Message>): set<string> {
    set m | m in run :: m.toolCallID
  }

  predicate Covers(run: seq<Message>, call: Message) {
    CallIds(call) <= AnswerIds(run)
  }

  function Pass2(s: seq<Message>): seq<Message>
    decreases |s|
  {
    if s == [] then []
    else if IsCall(s[0]) && !Covers(Run(s[1..]), s[0]) then Pass2(s[1 + |Run(s[1..])|..])
    else [s[0]] + Pass2(s[1..])
  }

  function Sanitize(h: seq<Message>): seq<Message> {
    Pass2(Pass1(false, false, h))
  }

  // ---------- The loops ----------

  /** The backward walk over the kept list that decides whether a tool message has a call to answer. */
  method FindAssistant(sanitized: seq<Message>) returns (found: bool)
    ensures found == EndsInRun(sanitized)
  {
    var i := |sanitized| - 1;
    assert sanitized[..i + 1] == sanitized;
    while i >= 0
      invariant -1 <= i < |sanitized|
      invariant EndsInRun(sanitized) == EndsInRun(sanitized[..i + 1])
    {
      if !IsToolResult(sanitized[i]) {
        return IsCall(sanitized[i]);
      }
      assert sanitized[..i + 1][..i] == sanitized[..i];
      i := i - 1;
    }
    return false;
  }

  /** The switch of the first loop: whether the next message is kept. */
  method IsKept(sanitized: seq<Message>, msg: Message) returns (keep: bool)
    ensures keep == Keeps(EndsCallable(sanitized), EndsInRun(sanitized), msg)
  {
    match msg.role {
      case System =>
        keep := false;
      case Tool =>
        keep := false;
        if |sanitized| > 0 {
          keep := FindAssistant(sanitized);
        }
      case Assistant =>
        keep := true;
        if |msg.toolCalls| > 0 {
          keep := |sanitized| > 0 && MayPrecedeCall(sanitized[|sanitized| - 1]);
        }
      case _ =>
        keep := true;
    }
  }

  /** Keeping one more message. */
  lemma {:induction false} KeepOne(sanitized: seq<Message>, msg: Message)
    requires Keeps(EndsCallable(sanitized), EndsInRun(sanitized), msg)
    ensures EndsCallable(sanitized + [msg]) == MayPrecedeCall(msg)
    ensures EndsInRun(sanitized + [msg]) == (IsToolResult(msg) || IsCall(msg))
  {
    assert (sanitized + [msg])[..|sanitized|] == sanitized;
  }

  method DropMisplaced(history: seq<Message>) returns (sanitized: seq<Message>)
    ensures sanitized == Pass1(false, false, history)
  {
    hide Keeps;
    sanitized := [];
    for i := 0 to |history|
      invariant Pass1(false, false, history)
             == sanitized + Pass1(EndsCallable(sanitized), EndsInRun(sanitized), history[i..])
    {
      var msg := history[i];
      var keep := IsKept(sanitized, msg);
      assert history[i..][0] == msg && history[i..][1..] == history[i + 1..];
      if keep {
        KeepOne(sanitized, msg);
        ghost var rest := Pass1(MayPrecedeCall(msg), IsToolResult(msg) || IsCall(msg), history[i + 1..]);
        assert sanitized + ([msg] + rest) == (sanitized + [msg]) + rest;
        sanitized := sanitized + [msg];
      }
    }
  }

  /** One unmarked entry per call id. */
  method Expect(call: Message) returns (expected: map<string, bool>)
    ensures expected.Keys == CallIds(call)
    ensures forall id :: id in expected ==> !expected[id]
  {
    expected := map[];
    for c := 0 to |call.toolCalls|
      invariant expected.Keys == set d | d in call.toolCalls[..c] :: d.id
      invariant forall id :: id in expected ==> !expected[id]
    {
      assert call.toolCalls[..c + 1] == call.toolCalls[..c] + [call.toolCalls[c]];
      expected := expected[call.toolCalls[c].id := false];
    }
    assert call.toolCalls[..|call.toolCalls|] == call.toolCalls;
  }

  /** Marks the expected ids found in the tool messages that follow position i. */
  method CollectAnswers(sanitized: seq<Message>, i: nat) returns (allFound: bool, toolMsgCount: nat)
    requires i < |sanitized|
    ensures toolMsgCount == |Run(sanitized[i + 1..])|
    ensures allFound == Covers(Run(sanitized[i + 1..]), sanitized[i])
  {
    var expected := Expect(sanitized[i]);
    ghost var run := Run(sanitized[i + 1..]);
    toolMsgCount := 0;
    var j := i + 1;
    while j < |sanitized| && IsToolResult(sanitized[j])
      invariant j == i + 1 + toolMsgCount <= |sanitized|
      invariant expected.Keys == CallIds(sanitized[i])
      invariant toolMsgCount <= |run|
      invariant forall id :: id in expected ==> (expected[id] <==> id in AnswerIds(run[..toolMsgCount]))
    {
      assert sanitized[i + 1..][toolMsgCount] == sanitized[j];
      assert run[..toolMsgCount + 1] == run[..toolMsgCount] + [sanitized[j]];
      toolMsgCount := toolMsgCount + 1;
      if sanitized[j].toolCallID in expected {
        expected := expected[sanitized[j].toolCallID := true];
      }
      j := j + 1;
    }
    if toolMsgCount < |run| {
      assert false;
    }
    assert run[..toolMsgCount] == run;
    allFound := forall id :: id in expected ==> expected[id];
  }

  /** Pass 2 of what is left from position i on. */
  ghost function Pass2From(s: seq<Message>, i: nat): seq<Message>
    requires i <= |s|
  {
    Pass2(s[i..])
  }

  lemma {:induction false} Pass2Ends(s: seq<Message>)
    ensures Pass2From(s, 0) == Pass2(s) && Pass2From(s, |s|) == []
  {
    assert s[0..] == s;
  }

  /** What pass 2 does at position i. */
  lemma {:induction false} Pass2At(s: seq<Message>, i: nat)
    requires i < |s|
    ensures var run := Run(s[i + 1..]);
      Pass2From(s, i) == if IsCall(s[i]) && !Covers(run, s[i])
                         then Pass2From(s, i + 1 + |run|)
                         else [s[i]] + Pass2From(s, i + 1)
  {
    hide Run, Covers;
    var t, n := s[i..], |Run(s[i + 1..])|;
    assert t != [] && t[0] == s[i] && t[1..] == s[i + 1..];
    if IsCall(s[i]) && !Covers(Run(s[i + 1..]), s[i]) {
      assert t[1 + n..] == s[i + 1 + n..];
    }
  }

  method DropUnanswered(sanitized: seq<Message>) returns (final: seq<Message>)
    ensures final == Pass2(sanitized)
  {
    hide Pass2From, Pass2, Run, Covers;
    Pass2Ends(sanitized);
    final := [];
    var i := 0;
    while i < |sanitized|
      invariant 0 <= i <= |sanitized|
      invariant Pass2(sanitized) == final + Pass2From(sanitized, i)
    {
      var msg := sanitized[i];
      Pass2At(sanitized, i);
      if IsCall(msg) {
        var allFound, toolMsgCount := CollectAnswers(sanitized, i);
        if !allFound {
          i := i + 1 + toolMsgCount;
          continue;
        }
      }
      ghost var rest := Pass2From(sanitized, i + 1);
      assert final + ([msg] + rest) == (final + [msg]) + rest;
      final := final + [msg];
      i := i + 1;
    }
  }

  method SanitizeHistory(history: seq<Message>) returns (final: seq<Message>)
    ensures final == Sanitize(history)
  {
    if |history| == 0 {
      return history;
    }
    var sanitized := DropMisplaced(history);
    final := DropUnanswered(sanitized);
  }

  // ---------- What the passes establish ----------

  /** s continues a kept prefix legally: pass 1 would keep every message of it. */
  predicate Chained(callable: bool, inRun: bool, s: seq<Message>)
    decreases |s|
  {
    s == [] ||
    (Keeps(callable, inRun, s[0]) && Chained(MayPrecedeCall(s[0]), IsToolResult(s[0]) || IsCall(s[0]), s[1..]))
  }

  predicate AllCovered(s: seq<Message>)
    decreases |s|
  {
    s == [] || ((IsCall(s[0]) ==> Covers(Run(s[1..]), s[0])) && AllCovered(s[1..]))
  }

  lemma {:induction false} Pass1Chains(callable: bool, inRun: bool, h: seq<Message>)
    ensures Chained(callable, inRun, Pass1(callable, inRun, h))
    decreases |h|
  {
    if h == [] {
    } else if Keeps(callable, inRun, h[0]) {
      Pass1Chains(MayPrecedeCall(h[0]), IsToolResult(h[0]) || IsCall(h[0]), h[1..]);
    } else {
      Pass1Chains(callable, inRun, h[1..]);
    }
  }

  /** Pass 1 changes nothing exactly on chained lists. */
  lemma {:induction false} Pass1Fixes(callable: bool, inRun: bool, h: seq<Message>)
    ensures |Pass1(callable, inRun, h)| <= |h|
    ensures if Chained(callable, inRun, h) then Pass1(callable, inRun, h) == h else |Pass1(callable, inRun, h)| < |h|
    decreases |h|
  {
    if h == [] {
    } else if Keeps(callable, inRun, h[0]) {
      Pass1Fixes(MayPrecedeCall(h[0]), IsToolResult(h[0]) || IsCall(h[0]), h[1..]);
    } else {
      Pass1Fixes(callable, inRun, h[1..]);
    }
  }

  /** A chained list stays chained after its leading run of tool messages. */
  lemma {:induction false} ChainedAfterRun(callable: bool, inRun: bool, s: seq<Message>)
    requires Chained(callable, inRun, s)
    ensures var n := |Run(s)|; Chained(callable || n > 0, inRun, s[n..])
    decreases |s|
  {
    if s != [] && IsToolResult(s[0]) {
      ChainedAfterRun(true, true, s[1..]);
      assert s[1..][|Run(s[1..])|..] == s[|Run(s)|..];
      assert inRun;
    }
  }

  /** Pass 2 leaves the leading run of tool messages alone. */
  lemma {:induction false} Pass2KeepsRun(s: seq<Message>)
    ensures Run(Pass2(s)) == Run(s)
    decreases |s|
  {
    if s == [] {
    } else if IsCall(s[0]) && !Covers(Run(s[1..]), s[0]) {
      Pass2KeepsRun(s[1 + |Run(s[1..])|..]);
    } else {
      Pass2KeepsRun(s[1..]);
    }
  }

  /** Deleting whole groups keeps the predecessor rule of pass 1: what stood before a deleted group was callable. */
  lemma {:induction false} Pass2KeepsChain(callable: bool, inRun: bool, kept: bool, keptRun: bool, s: seq<Message>)
    requires Chained(callable, inRun, s)
    requires callable ==> kept
    requires s != [] && IsToolResult(s[0]) ==> keptRun
    ensures Chained(kept, keptRun, Pass2(s))
    decreases |s|
  {
    if s == [] {
    } else if IsCall(s[0]) && !Covers(Run(s[1..]), s[0]) {
      ChainedAfterRun(false, true, s[1..]);
      var n := |Run(s[1..])|;
      assert s[1..][n..] == s[1 + n..];
      Pass2KeepsChain(n > 0, true, kept, keptRun, s[1 + n..]);
    } else {
      var run := IsToolResult(s[0]) || IsCall(s[0]);
      Pass2KeepsChain(MayPrecedeCall(s[0]), run, MayPrecedeCall(s[0]), run, s[1..]);
    }
  }

  lemma {:induction false} Pass2Covers(s: seq<Message>)
    ensures AllCovered(Pass2(s))
    decreases |s|
  {
    if s == [] {
    } else if IsCall(s[0]) && !Covers(Run(s[1..]), s[0]) {
      Pass2Covers(s[1 + |Run(s[1..])|..]);
    } else {
      Pass2Covers(s[1..]);
      Pass2KeepsRun(s[1..]);
    }
  }

  lemma {:induction false} Pass2Fixes(s: seq<Message>)
    ensures |Pass2(s)| <= |s|
    ensures if AllCovered(s) then Pass2(s) == s else |Pass2(s)| < |s|
    decreases |s|
  {
    if s == [] {
    } else if IsCall(s[0]) && !Covers(Run(s[1..]), s[0]) {
      Pass2Fixes(s[1 + |Run(s[1..])|..]);
    } else {
      Pass2Fixes(s[1..]);
    }
  }

  // ---------- The same facts, position by position ----------

  /** The predecessor rule for a list that continues a kept prefix. */
  ghost predicate PredecessorsAfter(callable: bool, s: seq<Message>) {
    forall i :: 0 <= i < |s| && IsCall(s[i]) ==> CallableAfter(callable, s, i)
  }

  ghost predicate CallableAfter(callable: bool, s: seq<Message>, i: int)
    requires 0 <= i < |s|
  {
    if i == 0 then callable else MayPrecedeCall(s[i - 1])
  }

  ghost predicate InRunAfter(inRun: bool, s: seq<Message>, k: int)
    requires 0 <= k < |s|
  {
    InRun(s, k) || (inRun && IsToolResult(s[0]) && ToolsBetween(s, 0, k))
  }

  ghost predicate NoOrphansAfter(inRun: bool, s: seq<Message>) {
    forall k :: 0 <= k < |s| && IsToolResult(s[k]) ==> InRunAfter(inRun, s, k)
  }

  lemma {:induction false} InRunShifts(inRun: bool, s: seq<Message>, k: nat)
    requires 0 < k < |s| && IsToolResult(s[k])
    requires IsToolResult(s[0]) ==> inRun
    ensures InRunAfter(inRun, s, k) <==> InRunAfter(IsToolResult(s[0]) || IsCall(s[0]), s[1..], k - 1)
  {
    var t := s[1..];
    assert ToolsBetween(s, 0, k) <==> IsToolResult(t[0]) && ToolsBetween(t, 0, k - 1) by {
      assert ToolsBetween(t, 0, k - 1) ==> forall j :: 1 < j <= k ==> s[j] == t[j - 1];
    }
    if InRun(s, k) {
      var i :| 0 <= i < k && IsCall(s[i]) && ToolsBetween(s, i, k);
      if i > 0 {
        assert IsCall(t[i - 1]) && ToolsBetween(t, i - 1, k - 1);
      } else {
        assert ToolsBetween(t, 0, k - 1) && IsToolResult(t[0]);
      }
    }
    if InRun(t, k - 1) {
      var i :| 0 <= i < k - 1 && IsCall(t[i]) && ToolsBetween(t, i, k - 1);
      assert forall j :: i + 1 < j <= k ==> s[j] == t[j - 1];
      assert IsCall(s[i + 1]) && ToolsBetween(s, i + 1, k);
    }
  }

  lemma {:induction false} PredecessorsShift(callable: bool, s: seq<Message>)
    requires s != []
    ensures PredecessorsAfter(callable, s) <==>
      (IsCall(s[0]) ==> callable) && PredecessorsAfter(MayPrecedeCall(s[0]), s[1..])
  {
    var t := s[1..];
    var c' := MayPrecedeCall(s[0]);
    assert forall i :: 0 <= i < |t| ==> t[i] == s[i + 1] && CallableAfter(c', t, i) == CallableAfter(callable, s, i + 1);
    assert forall i :: 0 < i < |s| ==> s[i] == t[i - 1] && CallableAfter(callable, s, i) == CallableAfter(c', t, i - 1);
  }

  lemma {:induction false} ChainedIff(callable: bool, inRun: bool, s: seq<Message>)
    ensures Chained(callable, inRun, s) <==>
      NoSystem(s) && PredecessorsAfter(callable, s) && NoOrphansAfter(inRun, s)
    decreases |s|
  {
    if s != [] {
      var t := s[1..];
      var c', r' := MayPrecedeCall(s[0]), IsToolResult(s[0]) || IsCall(s[0]);
      ChainedIff(c', r', t);
      assert NoSystem(s) <==> s[0].role != System && NoSystem(t) by {
        assert forall i :: 0 < i < |s| ==> s[i] == t[i - 1];
      }
      PredecessorsShift(callable, s);
      if IsToolResult(s[0]) {
        assert InRunAfter(inRun, s, 0) <==> inRun;
      }
      if IsToolResult(s[0]) ==> inRun {
        forall k | 0 < k < |s| && IsToolResult(s[k])
          ensures InRunAfter(inRun, s, k) <==> InRunAfter(r', t, k - 1)
        {
          InRunShifts(inRun, s, k);
        }
        assert forall k :: 0 <= k < |t| ==> t[k] == s[k + 1];
        assert NoOrphansAfter(r', t) ==> NoOrphansAfter(inRun, s);
        assert NoOrphansAfter(inRun, s) ==> NoOrphansAfter(r', t) by {
          forall k | NoOrphansAfter(inRun, s) && 0 <= k < |t| && IsToolResult(t[k]) ensures InRunAfter(r', t, k) {
            assert InRunAfter(inRun, s, k + 1);
          }
        }
      }
    }
  }

  lemma {:induction false} AnsweredIff(s: seq<Message>, i: nat, id: string)
    requires i < |s|
    ensures AnsweredAt(s, i, id) <==> id in AnswerIds(Run(s[i + 1..]))
  {
    var run := Run(s[i + 1..]);
    if AnsweredAt(s, i, id) {
      var k :| i < k < |s| && ToolsBetween(s, i, k) && s[k].toolCallID == id;
      if i + 1 + |run| <= k {
        assert false;
      }
      assert run[k - i - 1] == s[k];
    }
    if id in AnswerIds(run) {
      var m :| m in run && m.toolCallID == id;
      var n :| 0 <= n < |run| && run[n] == m;
      assert forall j :: i < j <= i + 1 + n ==> s[j] == run[j - i - 1];
      assert ToolsBetween(s, i, i + 1 + n);
    }
  }

  lemma {:induction false} CoveredIff(s: seq<Message>)
    ensures AllCovered(s) <==> forall i :: 0 <= i < |s| && IsCall(s[i]) ==> Covers(Run(s[i + 1..]), s[i])
    decreases |s|
  {
    if s != [] {
      var t := s[1..];
      CoveredIff(t);
      forall i | 0 < i < |s| ensures s[i + 1..] == t[i..] && s[i] == t[i - 1] {}
      assert forall i :: 0 <= i < |t| ==> t[i] == s[i + 1] && t[i + 1..] == s[i + 2..];
    }
  }

  lemma {:induction false} AnsweredEverywhereIff(s: seq<Message>)
    ensures AllCovered(s) <==> AllAnswered(s)
  {
    CoveredIff(s);
    forall i, c | 0 <= i < |s| && IsCall(s[i]) && c in s[i].toolCalls
      ensures AnsweredAt(s, i, c.id) <==> c.id in AnswerIds(Run(s[i + 1..]))
    {
      AnsweredIff(s, i, c.id);
    }
    if AllAnswered(s) {
      forall i | 0 <= i < |s| && IsCall(s[i]) ensures Covers(Run(s[i + 1..]), s[i]) {
        forall id | id in CallIds(s[i]) ensures id in AnswerIds(Run(s[i + 1..])) {
          var c :| c in s[i].toolCalls && c.id == id;
          assert AnsweredAt(s, i, c.id);
        }
      }
    }
    if AllCovered(s) {
      forall i, c | 0 <= i < |s| && IsCall(s[i]) && c in s[i].toolCalls ensures AnsweredAt(s, i, c.id) {
        assert c.id in CallIds(s[i]);
      }
    }
  }

  lemma {:induction false} WellFormedIff(s: seq<Message>)
    ensures WellFormed(s) <==> Chained(false, false, s) && AllCovered(s)
  {
    ChainedIff(false, false, s);
    AnsweredEverywhereIff(s);
    assert forall i :: 0 <= i < |s| ==> CallableAfter(false, s, i) == CallableAt(s, i);
    assert NoOrphans(s) <==> NoOrphansAfter(false, s);
  }

  // ---------- The main results ----------

  /** Whatever the input, the output obeys the whole protocol. */
  lemma {:induction false} SanitizedIsWellFormed(h: seq<Message>)
    ensures WellFormed(Sanitize(h))
  {
    var s := Pass1(false, false, h);
    Pass1Chains(false, false, h);
    Pass2KeepsChain(false, false, false, false, s);
    Pass2Covers(s);
    WellFormedIff(Sanitize(h));
  }

  /** The sanitizer changes nothing exactly on the histories that already obey the protocol. */
  lemma {:induction false} FixedIffWellFormed(h: seq<Message>)
    ensures Sanitize(h) == h <==> WellFormed(h)
  {
    WellFormedIff(h);
    Pass1Fixes(false, false, h);
    Pass2Fixes(Pass1(false, false, h));
  }

  lemma {:induction false} Idempotent(h: seq<Message>)
    ensures Sanitize(Sanitize(h)) == Sanitize(h)
  {
    SanitizedIsWellFormed(h);
    FixedIffWellFormed(Sanitize(h));
  }

  predicate IsSubsequence(a: seq<Message>, b: seq<Message>)
    decreases |b|
  {
    a == [] || (b != [] && ((a[0] == b[0] && IsSubsequence(a[1..], b[1..])) || IsSubsequence(a, b[1..])))
  }

  lemma {:induction false} Pass1Subsequence(callable: bool, inRun: bool, h: seq<Message>)
    ensures IsSubsequence(Pass1(callable, inRun, h), h)
    decreases |h|
  {
    if h == [] {
    } else if Keeps(callable, inRun, h[0]) {
      Pass1Subsequence(MayPrecedeCall(h[0]), IsToolResult(h[0]) || IsCall(h[0]), h[1..]);
    } else {
      Pass1Subsequence(callable, inRun, h[1..]);
    }
  }

  /** Pass 2 of a subsequence of h is a subsequence of h. */
  lemma {:induction false} Pass2Subsequence(s: seq<Message>, h: seq<Message>)
    requires IsSubsequence(s, h)
    ensures IsSubsequence(Pass2(s), h)
    decreases |h|, |s|
  {
    if s == [] {
    } else if s[0] == h[0] && IsSubsequence(s[1..], h[1..]) {
      if IsCall(s[0]) && !Covers(Run(s[1..]), s[0]) {
        var n := |Run(s[1..])|;
        DropFromSubsequence(s[1..], h[1..], n);
        assert s[1..][n..] == s[1 + n..];
        Pass2Subsequence(s[1 + n..], h[1..]);
      } else {
        Pass2Subsequence(s[1..], h[1..]);
      }
    } else {
      Pass2Subsequence(s, h[1..]);
    }
  }

  lemma {:induction false} DropFromSubsequence(a: seq<Message>, b: seq<Message>, n: nat)
    requires n <= |a| && IsSubsequence(a, b)
    ensures IsSubsequence(a[n..], b)
    decreases |b|
  {
    if n == 0 {
      assert a[0..] == a;
    } else if a[0] == b[0] && IsSubsequence(a[1..], b[1..]) {
      DropFromSubsequence(a[1..], b[1..], n - 1);
      assert a[1..][n - 1..] == a[n..];
    } else {
      DropFromSubsequence(a, b[1..], n);
    }
  }

  /** Neither a system nor a tool nor a tool-call message. */
  predicate IsPlain(m: Message) {
    m.role != System && !IsToolResult(m) && !IsCall(m)
  }

  /** The messages that are never dropped. */
  function Plain(h: seq<Message>): seq<Message>
    decreases |h|
  {
    if h == [] then []
    else if IsPlain(h[0]) then [h[0]] + Plain(h[1..])
    else Plain(h[1..])
  }

  lemma {:induction false} PlainAfterRun(s: seq<Message>)
    ensures Plain(s[|Run(s)|..]) == Plain(s)
    decreases |s|
  {
    if s != [] && IsToolResult(s[0]) {
      PlainAfterRun(s[1..]);
      assert s[1..][|Run(s[1..])|..] == s[|Run(s)|..];
    }
  }

  lemma {:induction false} Pass1KeepsPlain(callable: bool, inRun: bool, h: seq<Message>)
    ensures Plain(Pass1(callable, inRun, h)) == Plain(h)
    decreases |h|
  {
    if h == [] {
    } else if Keeps(callable, inRun, h[0]) {
      Pass1KeepsPlain(MayPrecedeCall(h[0]), IsToolResult(h[0]) || IsCall(h[0]), h[1..]);
    } else {
      Pass1KeepsPlain(callable, inRun, h[1..]);
    }
  }

  lemma {:induction false} Pass2KeepsPlain(s: seq<Message>)
    ensures Plain(Pass2(s)) == Plain(s)
    decreases |s|
  {
    if s == [] {
    } else if IsCall(s[0]) && !Covers(Run(s[1..]), s[0]) {
      var n := |Run(s[1..])|;
      PlainAfterRun(s[1..]);
      assert s[1..][n..] == s[1 + n..];
      Pass2KeepsPlain(s[1 + n..]);
    } else {
      Pass2KeepsPlain(s[1..]);
    }
  }

  /** Nothing is invented or reordered, and every user and plain assistant message survives in order. */
  lemma {:induction false} KeepsConversation(h: seq<Message>)
    ensures IsSubsequence(Sanitize(h), h)
    ensures Plain(Sanitize(h)) == Plain(h)
  {
    Pass1Subsequence(false, false, h);
    Pass2Subsequence(Pass1(false, false, h), h);
    Pass1KeepsPlain(false, false, h);
    Pass2KeepsPlain(Pass1(false, false, h));
  }
}
