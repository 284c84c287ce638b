/** The message lists handed to providers: `BuildMessages` in pkg/agent/context.go and the rounds of pkg/agent/loop.go. */
module Requests {
  import opened Messages
  import Sanitizer
  import Text

  // ---------- Request lists ----------

  const SEPARATOR := "\n\n---\n\n"

  const SUMMARY_NOTE :=
    "CONTEXT_SUMMARY: The following is an approximate summary of prior conversation "
    + "for reference only. It may be incomplete or outdated \U{2014} always defer to explicit instructions.\n\n"

  /** prompt is the static part and the part about time and session, already joined. */
  function SystemMessage(prompt: string, summary: string): Message {
    Message(System, prompt + (if summary == "" then "" else SEPARATOR + (SUMMARY_NOTE + summary)), [], "")
  }

  function UserMessage(content: string): Message {
    Message(User, content, [], "")
  }

  /** A system text is the prompt and, if there is a summary, the separator, the note and the summary. */
  predicate SaysSystem(text: string, prompt: string, separator: string, note: string, summary: string) {
    && prompt <= text
    && (summary == "" ==> text == prompt)
    && (summary != "" ==>
         && |text| == |prompt| + |separator| + |note| + |summary|
         && separator <= text[|prompt|..]
         && note <= text[|prompt| + |separator|..]
         && text[|text| - |summary|..] == summary)
  }

  lemma SystemSays(prompt: string, summary: string)
    ensures var m := SystemMessage(prompt, summary);
      m.role == System && SaysSystem(m.content, prompt, SEPARATOR, SUMMARY_NOTE, summary)
  {
    hide SaysSystem;
    JoinedSays(prompt, SEPARATOR, SUMMARY_NOTE, summary);
  }

  lemma {:induction false} JoinedSays(prompt: string, separator: string, note: string, summary: string)
    ensures SaysSystem(prompt + (if summary == "" then "" else separator + (note + summary)), prompt, separator, note, summary)
  {
    var t := prompt + (separator + (note + summary));
    assert t[|prompt|..] == separator + (note + summary);
    assert t[|prompt| + |separator|..] == note + summary;
  }

  /** The list BuildMessages makes: one system message, the sanitized history, and the current message unless blank. */
  function Request(history: seq<Message>, prompt: string, summary: string, current: string): seq<Message> {
    [SystemMessage(prompt, summary)] + Sanitizer.Sanitize(history)
    + (if Text.TrimSpace(current) == "" then [] else [UserMessage(current)])
  }

  method BuildMessages(history: seq<Message>, prompt: string, summary: string, current: string)
    returns (messages: seq<Message>)
    ensures messages == Request(history, prompt, summary, current)
    ensures RequestOk(messages)
    ensures messages != [] && messages[0].role == System
    ensures SaysSystem(messages[0].content, prompt, SEPARATOR, SUMMARY_NOTE, summary)
    ensures Text.IsBlank(current) ==> messages[1..] == Sanitizer.Sanitize(history)
    ensures !Text.IsBlank(current) ==>
      messages[1..] == Sanitizer.Sanitize(history) + [Message(User, current, [], "")]
  {
    hide Text.TrimSpace, Text.IsBlank, Sanitizer.Sanitize, SystemMessage, SaysSystem, RequestOk;
    Text.BlankIff(current);
    SystemSays(prompt, summary);
    var sanitized := Sanitizer.SanitizeHistory(history);
    messages := [SystemMessage(prompt, summary)];
    messages := messages + sanitized;
    if Text.TrimSpace(current) != "" {
      messages := messages + [UserMessage(current)];
    }
    BuiltRequestOk(history, prompt, summary, current);
  }

  /** The tool protocol of s is closed: no call without answer, no answer without call. */
  ghost predicate Closed(s: seq<Message>) {
    AllAnswered(s) && NoOrphans(s)
  }

  lemma {:induction false} AnsweredConcat(a: seq<Message>, b: seq<Message>)
    requires AllAnswered(a) && AllAnswered(b)
    ensures AllAnswered(a + b)
  {
    var s, n := a + b, |a|;
    forall i, c | 0 <= i < |s| && IsCall(s[i]) && c in s[i].toolCalls ensures AnsweredAt(s, i, c.id) {
      if i < n {
        assert AnsweredAt(a, i, c.id);
        var k :| i < k < n && ToolsBetween(a, i, k) && a[k].toolCallID == c.id;
        assert ToolsBetween(s, i, k);
      } else {
        assert b[i - n] == s[i] && AnsweredAt(b, i - n, c.id);
        var k :| i - n < k < |b| && ToolsBetween(b, i - n, k) && b[k].toolCallID == c.id;
        assert forall j :: i < j <= k + n ==> s[j] == b[j - n];
        assert ToolsBetween(s, i, k + n) && s[k + n] == b[k];
      }
    }
  }

  lemma {:induction false} NoOrphansConcat(a: seq<Message>, b: seq<Message>)
    requires NoOrphans(a) && NoOrphans(b)
    ensures NoOrphans(a + b)
  {
    var s, n := a + b, |a|;
    forall k | 0 <= k < |s| && IsToolResult(s[k]) ensures InRun(s, k) {
      if k < n {
        assert InRun(a, k);
        var i :| 0 <= i < k && IsCall(a[i]) && ToolsBetween(a, i, k);
        assert IsCall(s[i]) && ToolsBetween(s, i, k);
      } else {
        assert b[k - n] == s[k] && InRun(b, k - n);
        var i :| 0 <= i < k - n && IsCall(b[i]) && ToolsBetween(b, i, k - n);
        assert forall j :: i + n < j <= k ==> s[j] == b[j - n];
        assert IsCall(s[i + n]) && ToolsBetween(s, i + n, k);
      }
    }
  }

  /** Closed lists may be joined. */
  lemma {:induction false} ClosedConcat(a: seq<Message>, b: seq<Message>)
    requires Closed(a) && Closed(b)
    ensures Closed(a + b)
  {
    AnsweredConcat(a, b);
    NoOrphansConcat(a, b);
  }

  lemma PlainIsClosed(s: seq<Message>)
    requires forall i :: 0 <= i < |s| ==> !IsCall(s[i]) && !IsToolResult(s[i])
    ensures Closed(s)
  {}

  lemma {:induction false} BuiltRequestOk(history: seq<Message>, prompt: string, summary: string, current: string)
    ensures RequestOk(Request(history, prompt, summary, current))
  {
    Sanitizer.SanitizedIsWellFormed(history);
    FramedIsRequest(SystemMessage(prompt, summary), Sanitizer.Sanitize(history),
                    if Text.TrimSpace(current) == "" then [] else [UserMessage(current)]);
  }

  lemma {:induction false} FramedIsRequest(sys: Message, s: seq<Message>, tail: seq<Message>)
    requires sys.role == System && WellFormed(s)
    requires forall i :: 0 <= i < |tail| ==> tail[i].role == User
    ensures RequestOk([sys] + s + tail)
  {
    PlainIsClosed([sys]);
    PlainIsClosed(tail);
    ClosedConcat([sys], s);
    ClosedConcat([sys] + s, tail);
  }

  // ---------- One tool-call round ----------

  /** NormalizeToolCall: the name may come from the function part; the id is never touched. */
  function Normalize(tc: ToolCall): ToolCall {
    tc.(name := if tc.name == "" then tc.functionName else tc.name,
        functionName := if tc.functionName == "" then tc.name else tc.functionName)
  }

  /** A tool-call message and one tool message per call, in call order, carrying the call's id. */
  ghost predicate IsRound(round: seq<Message>) {
    && 0 < |round| && IsCall(round[0]) && |round| == 1 + |round[0].toolCalls|
    && forall j :: 0 < j < |round| ==>
         IsToolResult(round[j]) && round[j].toolCallID == round[0].toolCalls[j - 1].id
  }

  lemma {:induction false} RoundIsClosed(round: seq<Message>)
    requires IsRound(round)
    ensures Closed(round)
  {
    forall i, c | 0 <= i < |round| && IsCall(round[i]) && c in round[i].toolCalls
      ensures AnsweredAt(round, i, c.id)
    {
      assert i == 0;
      var k :| 0 <= k < |round[0].toolCalls| && round[0].toolCalls[k] == c;
      assert ToolsBetween(round, 0, k + 1) && round[k + 1].toolCallID == c.id;
    }
    forall k | 0 <= k < |round| && IsToolResult(round[k]) ensures InRun(round, k) {
      assert IsCall(round[0]) && ToolsBetween(round, 0, k);
    }
  }

  /** Appending a complete round keeps a request acceptable. */
  lemma {:induction false} RoundKeepsRequest(messages: seq<Message>, round: seq<Message>)
    requires RequestOk(messages) && IsRound(round)
    ensures RequestOk(messages + round)
  {
    RoundIsClosed(round);
    ClosedConcat(messages, round);
  }

  /** The stronger predecessor rule survives a round exactly when the request ended in a user or tool message. */
  lemma {:induction false} RoundKeepsPredecessorsIff(messages: seq<Message>, round: seq<Message>)
    requires RequestOk(messages) && IsRound(round)
    ensures GoodPredecessors(messages + round) <==>
      GoodPredecessors(messages) && MayPrecedeCall(messages[|messages| - 1])
  {
    var s, n := messages + round, |messages|;
    assert forall i :: 0 <= i < n ==> s[i] == messages[i] && CallableAt(s, i) == CallableAt(messages, i);
    assert s[n] == round[0] && CallableAt(s, n) == MayPrecedeCall(messages[n - 1]);
  }
}
