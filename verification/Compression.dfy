/** Emergency compression of a stored history: `forceCompression` in pkg/agent/loop.go. */
module Compression {
  import opened Messages
  import opened Requests
  import Sanitizer
  import Text

  function Decimal(n: nat): string {
    if n < 10 then ["0123456789"[n]] else Decimal(n / 10) + ["0123456789"[n % 10]]
  }

  function DigitValue(c: char): nat {
    if '0' <= c <= '9' then c as int - '0' as int else 0
  }

  function Value(digits: string): nat {
    if digits == "" then 0 else 10 * Value(digits[..|digits| - 1]) + DigitValue(digits[|digits| - 1])
  }

  /** The number in the note can be read back. */
  lemma {:induction false} DecimalReads(n: nat)
    ensures Value(Decimal(n)) == n
  {
    if n >= 10 {
      DecimalReads(n / 10);
      assert Decimal(n)[..|Decimal(n)| - 1] == Decimal(n / 10);
    }
  }

  function CompressionNote(dropped: nat): string {
    "\n\n[System Note: Emergency compression dropped " + Decimal(dropped) + " oldest messages due to context limit]"
  }

  /** The history after forceCompression: first message with a note, second half of the middle, last message. */
  function Compress(history: seq<Message>): seq<Message> {
    if |history| <= 4 then history
    else
      var conversation := history[1..|history| - 1];
      var mid := |conversation| / 2;
      [history[0].(content := history[0].content + CompressionNote(mid))]
      + conversation[mid..] + [history[|history| - 1]]
  }

  /** Compression makes progress, keeps the newest messages in place, and what it cuts apart is repaired on the next
      build: every user and plain assistant message after the cut still reaches the provider. */
  lemma {:induction false} CompressionIsRepaired(h: seq<Message>, prompt: string, summary: string)
    requires 4 < |h|
    ensures var c := Compress(h);
      && |c| < |h| && 1 + |h| <= 2 * |c|
      && (forall i :: 1 <= i < |c| ==> c[i] == h[i + |h| - |c|])
      && c[0] == h[0].(content := h[0].content + CompressionNote(|h| - |c|))
      && RequestOk(Request(c, prompt, summary, ""))
      && Sanitizer.Plain(Request(c, prompt, summary, "")) == Sanitizer.Plain(c)
  {
    hide Request, RequestOk, Sanitizer.Plain, CompressionNote;
    var c := Compress(h);
    BuiltRequestOk(c, prompt, summary, "");
    RequestKeepsPlain(c, prompt, summary);
    Compressed(h);
    CompressIs(h);
  }

  /** A rebuilt request holds the user and plain assistant messages of the history. */
  lemma {:induction false} RequestKeepsPlain(history: seq<Message>, prompt: string, summary: string)
    ensures Sanitizer.Plain(Request(history, prompt, summary, "")) == Sanitizer.Plain(history)
  {
    hide Text.TrimSpace, Sanitizer.Sanitize;
    BlankIsBlank();
    Sanitizer.KeepsConversation(history);
    var req := Request(history, prompt, summary, "");
    assert req[1..] == Sanitizer.Sanitize(history);
  }

  // ---------- When compression breaks the predecessor rule ----------

  /** The newest message that is never dropped is a user message. */
  ghost predicate UserIsNewestPlain(s: seq<Message>) {
    exists i :: 0 <= i < |s| && s[i].role == User && NonePlainAfter(s, i)
  }

  ghost predicate NonePlainAfter(s: seq<Message>, i: int) {
    forall j :: 0 <= j < |s| && i < j ==> !Sanitizer.IsPlain(s[j])
  }

  function LastIsUser(plain: seq<Message>, default: bool): bool {
    if plain == [] then default else plain[|plain| - 1].role == User
  }

  /** A list that obeys the protocol ends in a user or tool message exactly when its newest plain message is from the
      user: after that only whole rounds can follow. */
  lemma {:induction false} ChainEnds(callable: bool, inRun: bool, s: seq<Message>)
    requires s != [] && Sanitizer.Chained(callable, inRun, s) && Sanitizer.AllCovered(s)
    ensures MayPrecedeCall(s[|s| - 1]) <==> LastIsUser(Sanitizer.Plain(s), callable || inRun)
    decreases |s|
  {
    var m, rest := s[0], s[1..];
    if IsCall(m) {
      CoveredGoesOn(m, rest);
    }
    if rest != [] {
      ChainEnds(MayPrecedeCall(m), IsToolResult(m) || IsCall(m), rest);
    }
  }

  lemma {:induction false} CoveredGoesOn(m: Message, rest: seq<Message>)
    requires IsCall(m) && Sanitizer.Covers(Sanitizer.Run(rest), m)
    ensures rest != []
  {
    assert m.toolCalls[0].id in Sanitizer.CallIds(m);
  }

  lemma {:induction false} PlainSnoc(s: seq<Message>, m: Message)
    ensures Sanitizer.Plain(s + [m]) == Sanitizer.Plain(s) + if Sanitizer.IsPlain(m) then [m] else []
  {
    if s == [] {
      assert s + [m] == [m] && [m][1..] == [];
    } else {
      assert (s + [m])[1..] == s[1..] + [m];
      PlainSnoc(s[1..], m);
    }
  }

  lemma {:induction false} NewestPlain(s: seq<Message>)
    ensures UserIsNewestPlain(s) <==> LastIsUser(Sanitizer.Plain(s), false)
  {
    if s != [] {
      var n := |s| - 1;
      var init, m := s[..n], s[n];
      assert s == init + [m];
      PlainSnoc(init, m);
      NewestPlain(init);
      if Sanitizer.IsPlain(m) {
        assert m.role == User ==> NonePlainAfter(s, n);
        assert forall i :: 0 <= i < n ==> !NonePlainAfter(s, i);
      } else {
        forall i | 0 <= i < n ensures NonePlainAfter(s, i) <==> NonePlainAfter(init, i) {
          assert forall j :: 0 <= j < n ==> init[j] == s[j];
        }
        assert forall i :: 0 <= i < n ==> init[i] == s[i];
      }
    }
  }

  /** The last message may directly precede a tool-call message. */
  predicate EndsCallable(messages: seq<Message>) {
    messages != [] && MayPrecedeCall(messages[|messages| - 1])
  }

  lemma {:induction false} SanitizedEndsCallableIff(history: seq<Message>)
    ensures EndsCallable(Sanitizer.Sanitize(history)) <==> UserIsNewestPlain(history)
  {
    hide UserIsNewestPlain;
    var s := Sanitizer.Sanitize(history);
    NewestPlain(history);
    Sanitizer.KeepsConversation(history);
    Sanitizer.SanitizedIsWellFormed(history);
    Sanitizer.WellFormedIff(s);
    if s != [] {
      ChainEnds(false, false, s);
    }
  }

  /** For every stored history and current message: the request ends in a user or tool message exactly when the current
      message is not blank, or the newest plain message of the history is a user message. */
  lemma RequestEndsCallableIff(history: seq<Message>, prompt: string, summary: string, current: string)
    ensures EndsCallable(Request(history, prompt, summary, current)) <==>
      !Text.IsBlank(current) || UserIsNewestPlain(history)
  {
    hide UserIsNewestPlain, Text.TrimSpace, Text.IsBlank, Sanitizer.Sanitize;
    Text.BlankIff(current);
    SanitizedEndsCallableIff(history);
  }

  lemma {:induction false} BlankIsBlank()
    ensures Text.TrimSpace("") == "" && Text.TrimSpace(" ") == ""
  {
    assert Text.IsSpace(' ') && " "[1..] == "";
    assert Text.TrimLeft(" ", Text.IsSpace) == Text.TrimLeft("", Text.IsSpace) == "";
  }

  /** A request itself obeys the predecessor rule, whatever the history and the current message. */
  lemma {:induction false} RequestPredecessors(history: seq<Message>, prompt: string, summary: string, current: string)
    ensures GoodPredecessors(Request(history, prompt, summary, current))
  {
    hide Text.TrimSpace;
    var s := Sanitizer.Sanitize(history);
    Sanitizer.SanitizedIsWellFormed(history);
    var req := Request(history, prompt, summary, current);
    forall i | 0 <= i < |req| && IsCall(req[i]) ensures CallableAt(req, i) {
      assert req[i] == s[i - 1] && CallableAt(s, i - 1);
    }
  }

  /** The message at i is still there after compression. */
  predicate Survives(h: seq<Message>, i: int) {
    i == 0 || |h| <= 4 || 1 + (|h| - 2) / 2 <= i
  }

  /** Among the messages that compression keeps, the newest plain one is from the user. */
  ghost predicate UserIsNewestKept(h: seq<Message>) {
    exists i :: 0 <= i < |h| && Survives(h, i) && h[i].role == User && NonePlainKeptAfter(h, i)
  }

  ghost predicate NonePlainKeptAfter(h: seq<Message>, i: int) {
    forall j :: 0 <= j < |h| && i < j && Survives(h, j) ==> !Sanitizer.IsPlain(h[j])
  }

  lemma {:induction false} AllKept(h: seq<Message>)
    requires |h| <= 4
    ensures Compress(h) == h && (UserIsNewestPlain(h) <==> UserIsNewestKept(h))
  {
    assert forall i :: NonePlainAfter(h, i) <==> NonePlainKeptAfter(h, i);
  }

  lemma {:induction false} CompressedNewest(h: seq<Message>)
    ensures UserIsNewestPlain(Compress(h)) <==> UserIsNewestKept(h)
  {
    var c := Compress(h);
    if |h| <= 4 {
      AllKept(h);
    } else {
      hide Compress, NonePlainAfter, NonePlainKeptAfter, UserIsNewestPlain, UserIsNewestKept;
      Compressed(h);
      var mid := |h| - |c|;
      forall k | 0 <= k < |c|
        ensures SamePlace(h, c, mid, k)
      {
        CompressedAfter(h, k);
      }
      SameNewest(h, c, mid);
    }
  }

  lemma {:induction false} SameNewest(h: seq<Message>, c: seq<Message>, mid: nat)
    requires |h| > 4 && mid == (|h| - 2) / 2 && |c| == |h| - mid
    requires forall k :: 0 <= k < |c| ==> SamePlace(h, c, mid, k)
    ensures UserIsNewestPlain(c) <==> UserIsNewestKept(h)
  {
    hide NonePlainAfter, NonePlainKeptAfter;
    if UserIsNewestKept(h) {
      var i :| 0 <= i < |h| && Survives(h, i) && h[i].role == User && NonePlainKeptAfter(h, i);
      assert SamePlace(h, c, mid, if i == 0 then 0 else i - mid);
    }
    if UserIsNewestPlain(c) {
      var k :| 0 <= k < |c| && c[k].role == User && NonePlainAfter(c, k);
      assert SamePlace(h, c, mid, k);
    }
  }

  ghost predicate SamePlace(h: seq<Message>, c: seq<Message>, mid: nat, k: nat)
    requires |c| + mid == |h| && k < |c|
  {
    var i := if k == 0 then 0 else k + mid;
    Survives(h, i) && c[k].role == h[i].role && (NonePlainAfter(c, k) <==> NonePlainKeptAfter(h, i))
  }

  /** The first message, changed only in its text, and everything from the cut on. */
  lemma {:induction false} CompressIs(h: seq<Message>)
    requires 4 < |h|
    ensures var mid := (|h| - 2) / 2;
      Compress(h) == [h[0].(content := h[0].content + CompressionNote(mid))] + h[1 + mid..]
  {
    hide CompressionNote;
    var conversation, mid := h[1..|h| - 1], (|h| - 2) / 2;
    assert conversation[mid..] + [h[|h| - 1]] == h[1 + mid..];
  }

  /** Position by position. */
  lemma {:induction false} Compressed(h: seq<Message>)
    requires 4 < |h|
    ensures var c, mid := Compress(h), (|h| - 2) / 2;
      && |c| == |h| - mid && c[0].(content := h[0].content) == h[0]
      && forall i :: 1 <= i < |c| ==> c[i] == h[i + mid]
  {
    hide CompressionNote, Compress;
    CompressIs(h);
  }

  lemma {:induction false} CompressedAfter(h: seq<Message>, i: nat)
    requires 4 < |h| && i < |Compress(h)|
    ensures NonePlainAfter(Compress(h), i) <==>
      NonePlainKeptAfter(h, if i == 0 then 0 else i + |h| - |Compress(h)|)
  {
    hide Compress;
    Compressed(h);
    var c, mid := Compress(h), |h| - |Compress(h)|;
    var p := if i == 0 then 0 else i + mid;
    if NonePlainAfter(c, i) {
      forall j | 0 <= j < |h| && p < j && Survives(h, j) ensures !Sanitizer.IsPlain(h[j]) {
        assert c[j - mid] == h[j];
      }
    }
    if NonePlainKeptAfter(h, p) {
      forall j | 0 <= j < |c| && i < j ensures !Sanitizer.IsPlain(c[j]) {
        assert c[j] == h[j + mid] && Survives(h, j + mid);
      }
    }
  }

  /** For every stored history, whole or not: after forceCompression and the rebuild, the next round of tool calls obeys
      the predecessor rule exactly when the newest plain message that compression keeps is a user message. */
  lemma {:induction false} RoundAfterCompressionIff(h: seq<Message>, prompt: string, summary: string, round: seq<Message>)
    requires IsRound(round)
    ensures GoodPredecessors(Request(Compress(h), prompt, summary, "") + round) <==> UserIsNewestKept(h)
  {
    hide UserIsNewestPlain, UserIsNewestKept, GoodPredecessors, Compress, Request;
    var req := Request(Compress(h), prompt, summary, "");
    BuiltRequestOk(Compress(h), prompt, summary, "");
    RoundKeepsPredecessorsIff(req, round);
    RequestPredecessors(Compress(h), prompt, summary, "");
    RequestEndsCallableIff(Compress(h), prompt, summary, "");
    BlankIsBlank();
    CompressedNewest(h);
  }

  /** For a history that obeys the protocol: it ends in a user or tool message, and compression keeps a user message. */
  lemma {:induction false} WellFormedNewestIff(h: seq<Message>)
    requires WellFormed(h) && 4 < |h|
    ensures UserIsNewestKept(h) <==>
      MayPrecedeCall(h[|h| - 1]) && exists i :: 0 <= i < |h| && Survives(h, i) && h[i].role == User
  {
    var n := |h| - 1;
    if MayPrecedeCall(h[n]) && exists i :: 0 <= i < |h| && Survives(h, i) && h[i].role == User {
      var i :| 0 <= i < |h| && Survives(h, i) && h[i].role == User;
      var k := NewestKept(h, i);
      if 0 < k < n {
        AfterPlain(h, k);
      }
    }
    if UserIsNewestKept(h) {
      var i :| 0 <= i < |h| && Survives(h, i) && h[i].role == User && NonePlainKeptAfter(h, i);
      if IsCall(h[n]) {
        CallGoesOn(h, n);
      }
      assert i < n ==> Survives(h, n) && !Sanitizer.IsPlain(h[n]);
    }
  }

  /** The newest plain message that is kept, not before i. */
  lemma {:induction false} NewestKept(h: seq<Message>, i: nat) returns (k: nat)
    requires i < |h| && Survives(h, i) && Sanitizer.IsPlain(h[i])
    ensures i <= k < |h| && Survives(h, k) && Sanitizer.IsPlain(h[k]) && NonePlainKeptAfter(h, k)
    decreases |h| - i
  {
    if NonePlainKeptAfter(h, i) {
      k := i;
    } else {
      var j :| 0 <= j < |h| && i < j && Survives(h, j) && Sanitizer.IsPlain(h[j]);
      k := NewestKept(h, j);
    }
  }

  /** Only a user message can be followed by something that is not plain. */
  lemma {:induction false} AfterPlain(h: seq<Message>, k: nat)
    requires WellFormed(h) && k + 1 < |h| && Sanitizer.IsPlain(h[k]) && !Sanitizer.IsPlain(h[k + 1])
    ensures h[k].role == User
  {
    if !IsToolResult(h[k + 1]) {
      assert CallableAt(h, k + 1);
    }
  }

  lemma {:induction false} CallGoesOn(h: seq<Message>, i: nat)
    requires AllAnswered(h) && i < |h| && IsCall(h[i])
    ensures i + 1 < |h| && IsToolResult(h[i + 1])
  {
    var c := h[i].toolCalls[0];
    assert c in h[i].toolCalls && AnsweredAt(h, i, c.id);
    var k :| i < k < |h| && ToolsBetween(h, i, k) && h[k].toolCallID == c.id;
  }

  /** A history whose compressed form ends in a plain assistant message once sanitized: the next tool-call message
      then breaks the predecessor rule. */
  lemma {:induction false} CompressionCanBreakPredecessors(prompt: string, summary: string) returns (h: seq<Message>)
    ensures 4 < |h| && WellFormed(h)
    ensures var req := Request(Compress(h), prompt, summary, "");
      !MayPrecedeCall(req[|req| - 1])
  {
    var call := Message(Assistant, "", [ToolCall("a", "f", "f"), ToolCall("b", "f", "f"), ToolCall("c", "f", "f")], "");
    var opening := [Message(Assistant, "hi", [], ""), UserMessage("go")];
    var round := [call, Message(Tool, "1", [], "a"), Message(Tool, "2", [], "b"), Message(Tool, "3", [], "c")];
    hide WellFormed, AllAnswered, NoOrphans, GoodPredecessors, Compress, Request, UserIsNewestPlain;
    h := opening + round;
    assert IsRound(round);
    PlainThenRound(opening, round);
    assert forall i :: 0 <= i < |h| && h[i].role == User ==> i == 1;
    assert !Survives(h, 1);
    CompressedNewest(h);
    BlankIsBlank();
    RequestEndsCallableIff(Compress(h), prompt, summary, "");
    RequestHasSystem(Compress(h), prompt, summary, "");
  }

  lemma RequestHasSystem(history: seq<Message>, prompt: string, summary: string, current: string)
    ensures Request(history, prompt, summary, current) != []
  {}

  lemma {:induction false} PlainThenRound(s: seq<Message>, round: seq<Message>)
    requires IsRound(round) && 0 < |s| && MayPrecedeCall(s[|s| - 1])
    requires forall i :: 0 <= i < |s| ==> !IsCall(s[i]) && !IsToolResult(s[i]) && s[i].role != System
    ensures WellFormed(s + round)
  {
    PlainIsClosed(s);
    RoundIsClosed(round);
    ClosedConcat(s, round);
  }
}
