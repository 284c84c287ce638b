/** Chat messages and the tool-call protocol that strict providers enforce on a message list. */
module Messages {

  datatype Role = System | User | Assistant | Tool | Other(name: string)

  datatype ToolCall = ToolCall(id: string, name: string, functionName: string)

  datatype Message = Message(role: Role, content: string, toolCalls: seq<ToolCall>, toolCallID: string)

  /** An assistant message that requests tool calls. */
  predicate IsCall(m: Message) {
    m.role == Assistant && |m.toolCalls| > 0
  }

  predicate IsToolResult(m: Message) {
    m.role == Tool
  }

  /** Only these roles may stand directly before a tool-call message. */
  predicate MayPrecedeCall(m: Message) {
    m.role == User || m.role == Tool
  }

  // ---------- The protocol, position by position ----------

  ghost predicate NoSystem(s: seq<Message>) {
    forall i :: 0 <= i < |s| ==> s[i].role != System
  }

  /** Every tool-call message is directly preceded by a user or tool message. */
  ghost predicate GoodPredecessors(s: seq<Message>) {
    forall i :: 0 <= i < |s| && IsCall(s[i]) ==> CallableAt(s, i)
  }

  ghost predicate CallableAt(s: seq<Message>, i: int)
    requires 0 <= i < |s|
  {
    0 < i && MayPrecedeCall(s[i - 1])
  }

  /** Positions i+1 .. k of s hold tool messages only. */
  ghost predicate ToolsBetween(s: seq<Message>, i: int, k: int)
    requires 0 <= i <= k < |s|
  {
    forall j :: i < j <= k ==> IsToolResult(s[j])
  }

  /** Some message in the run of tool messages directly after i answers the call id. */
  ghost predicate AnsweredAt(s: seq<Message>, i: int, id: string)
    requires 0 <= i < |s|
  {
    exists k :: i < k < |s| && ToolsBetween(s, i, k) && s[k].toolCallID == id
  }

  /** Every tool call is answered in the run of tool messages directly after it. */
  ghost predicate AllAnswered(s: seq<Message>) {
    forall i, c :: 0 <= i < |s| && IsCall(s[i]) && c in s[i].toolCalls ==> AnsweredAt(s, i, c.id)
  }

  /** The tool message at k lies in the run of tool messages directly after some tool-call message. */
  ghost predicate InRun(s: seq<Message>, k: int)
    requires 0 <= k < |s|
  {
    exists i :: 0 <= i < k && IsCall(s[i]) && ToolsBetween(s, i, k)
  }

  ghost predicate NoOrphans(s: seq<Message>) {
    forall k :: 0 <= k < |s| && IsToolResult(s[k]) ==> InRun(s, k)
  }

  /** What the sanitizer promises about a history. */
  ghost predicate WellFormed(s: seq<Message>) {
    NoSystem(s) && GoodPredecessors(s) && AllAnswered(s) && NoOrphans(s)
  }

  /** What every list handed to a provider satisfies: one system message, in front, and a closed tool protocol. */
  ghost predicate RequestOk(s: seq<Message>) {
    && 0 < |s| && s[0].role == System
    && (forall i :: 1 <= i < |s| ==> s[i].role != System)
    && AllAnswered(s)
    && NoOrphans(s)
  }
}
