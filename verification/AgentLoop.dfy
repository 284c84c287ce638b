/** How the message list evolves while one user message is answered: the loops of pkg/agent/loop.go. */
module AgentLoop {
  import opened Common
  import opened Messages
  import opened Requests
  import opened Compression
  import Sanitizer
  import Text

  // ---------- The session ----------

  /** What other goroutines can do to a stored history meanwhile: background summarization cuts it down to its last four
      messages; on a shared session, anything. */
  ghost predicate Drifts(shared: bool, h: seq<Message>, later: seq<Message>) {
    shared || (|later| <= |h| && later == h[|h| - |later|..] && (|later| == |h| || 4 <= |later|))
  }

  lemma DriftsOn(shared: bool, h: seq<Message>, later: seq<Message>, last: seq<Message>)
    requires Drifts(shared, h, later) && Drifts(shared, later, last)
    ensures Drifts(shared, h, last)
  {}

  lemma DriftsAndGrows(shared: bool, h: seq<Message>, later: seq<Message>, m: Message)
    requires Drifts(shared, h, later)
    ensures Drifts(shared, h + [m], later + [m])
  {}

  lemma NoDrift(shared: bool, h: seq<Message>)
    ensures Drifts(shared, h, h)
  {}

  lemma DriftsAndGrowsAll(shared: bool, h: seq<Message>, later: seq<Message>, more: seq<Message>)
    requires Drifts(shared, h, later)
    ensures Drifts(shared, h + more, later + more)
  {}

  class Session {
    var history: seq<Message>
    var summary: string
    /** Other turns run on this session at the same time. */
    const shared: bool

    constructor (shared: bool)
      ensures history == [] && summary == "" && this.shared == shared
    {
      history, summary := [], "";
      this.shared := shared;
    }

    method AddFullMessage(m: Message)
      modifies this
      ensures history == old(history) + [m] && summary == old(summary)
    {
      history := history + [m];
    }

    method SetHistory(h: seq<Message>)
      modifies this
      ensures history == h && summary == old(summary)
    {
      history := h;
    }

    /** Other goroutines may act at any moment. */
    method Interfere()
      modifies this
      ensures Drifts(shared, old(history), history)
    {
      var summarized: bool := *;
      if shared {
        history := *;
      } else if summarized {
        history := Last(history, 4);
      }
      summary := *;
    }

    method ForceCompression()
      modifies this
      ensures history == Compress(old(history)) && summary == old(summary)
    {
      if |history| <= 4 {
        return;
      }
      var conversation := history[1..|history| - 1];
      var mid := |conversation| / 2;
      var first := history[0].(content := history[0].content + CompressionNote(mid));
      var newHistory := [first];
      newHistory := newHistory + conversation[mid..];
      newHistory := newHistory + [history[|history| - 1]];
      SetHistory(newHistory);
    }
  }

  // ---------- The provider and the tools ----------

  datatype Response = Response(content: string, reasoning: string, toolCalls: seq<ToolCall>)

  datatype ErrorKind = Timeout | ContextWindow | OtherError

  datatype ChatResult = Reply(response: Response) | Failure(kind: ErrorKind)

  datatype LoopResult = Answer(content: string) | CallFailed(kind: ErrorKind)

  datatype Exchange = Exchange(messages: seq<Message>, result: ChatResult)

  /** The provider answers as it likes; it keeps a log of the lists it was handed and of its answers. */
  class Provider {
    var exchanges: seq<Exchange>

    method Chat(messages: seq<Message>) returns (r: ChatResult)
      modifies this
      ensures exchanges == old(exchanges) + [Exchange(messages, r)]
    {
      r := *;
      exchanges := exchanges + [Exchange(messages, r)];
    }
  }

  datatype ToolResult = ToolResult(forLLM: string, error: Option<string>)

  datatype Execution = Execution(name: string, result: ToolResult)

  /** The tools do as they like; a log is kept of what was executed. */
  class Toolbox {
    var executed: seq<Execution>

    method Execute(name: string) returns (result: ToolResult)
      modifies this
      ensures executed == old(executed) + [Execution(name, result)]
    {
      result := *;
      executed := executed + [Execution(name, result)];
    }
  }

  // ---------- The round of a response ----------

  /** The call that is stored and executed is the requested one; its name comes from either place where a response may
      carry it. */
  predicate IsCallOf(made: ToolCall, requested: ToolCall) {
    && made.id == requested.id && made.functionName == made.name
    && (requested.name != "" ==> made.name == requested.name)
    && (requested.name == "" ==> made.name == requested.functionName)
  }

  /** The text of the response and all its tool calls, in order, and one tool message for each. */
  ghost predicate IsRoundOf(round: seq<Message>, response: Response) {
    && IsRound(round) && round[0].content == response.content
    && |round[0].toolCalls| == |response.toolCalls|
    && forall j :: 0 <= j < |response.toolCalls| ==> IsCallOf(round[0].toolCalls[j], response.toolCalls[j])
  }

  /** The text of a tool message: what the tool has for the model, or else its error. */
  predicate Tells(content: string, result: ToolResult) {
    && (result.forLLM != "" ==> content == result.forLLM)
    && (result.forLLM == "" ==> content == if result.error.Some? then result.error.value else "")
  }

  /** Every index below n, once. */
  predicate IsOrder(order: seq<nat>, n: nat) {
    |order| == n && (forall i :: 0 <= i < n ==> i in order) && forall k :: 0 <= k < n ==> order[k] < n
  }

  /** The executions are those of the calls of the round, in some order, and its tool messages tell their results. */
  ghost predicate Executes(executed: seq<Execution>, round: seq<Message>, order: seq<nat>) {
    && IsRound(round) && IsOrder(order, |round[0].toolCalls|) && |executed| == |order|
    && forall k :: 0 <= k < |order| ==>
         && executed[k].name == round[0].toolCalls[order[k]].name
         && Tells(round[1 + order[k]].content, executed[k].result)
  }

  // ---------- The log of calls ----------

  /** A list to work on, and the history stored at that moment. */
  datatype Moment = Moment(messages: seq<Message>, stored: seq<Message>)

  /** One call of the model: what it works on, what the providers tried in turn said, and what came of it. */
  datatype Call = Call(at: Moment, tries: seq<ChatResult>, result: ChatResult)

  /** The list is the same, and the session has only drifted. */
  ghost predicate Same(shared: bool, a: Moment, b: Moment) {
    b.messages == a.messages && Drifts(shared, a.stored, b.stored)
  }

  /** After a time-out the list is used again. */
  ghost predicate Repeats(shared: bool, a: Call, b: Moment) {
    a.result == Failure(Timeout) && Same(shared, a.at, b)
  }

  /** After a reply, b works on the list of a and the round of that reply, which is stored as well. */
  ghost predicate AddsRound(shared: bool, a: Call, b: Moment) {
    a.result.Reply? && exists round :: AddsThis(shared, a, b, round)
  }

  ghost predicate AddsThis(shared: bool, a: Call, b: Moment, round: seq<Message>)
    requires a.result.Reply?
  {
    && IsRoundOf(round, a.result.response)
    && b.messages == a.at.messages + round && Drifts(shared, a.at.stored + round, b.stored)
  }

  /** b works on a list rebuilt from the compressed history: h is what compression found, cut what the rebuild read. */
  ghost predicate RebuiltFrom(shared: bool, a: Call, b: Moment, h: seq<Message>, cut: seq<Message>) {
    && Drifts(shared, a.at.stored, h) && Drifts(shared, Compress(h), cut) && Drifts(shared, cut, b.stored)
    && IsRebuilt(b.messages, cut)
  }

  ghost predicate IsRebuilt(messages: seq<Message>, history: seq<Message>) {
    exists prompt, summary :: messages == Request(history, prompt, summary, "")
  }

  /** After a context error the list is rebuilt. */
  ghost predicate Rebuilds(shared: bool, a: Call, b: Moment) {
    a.result == Failure(ContextWindow) && exists h, cut :: RebuiltFrom(shared, a, b, h, cut)
  }

  /** What one call may be followed by. */
  ghost predicate Evolves(shared: bool, a: Call, b: Moment) {
    Repeats(shared, a, b) || AddsRound(shared, a, b) || Rebuilds(shared, a, b)
  }

  /** From index n on, the log holds calls on acceptable requests: the first on the list and history of start, each other
      one evolved from the one before. */
  ghost predicate GoodLog(shared: bool, calls: seq<Call>, n: nat, start: Moment) {
    && n <= |calls|
    && (forall k :: n <= k < |calls| ==> RequestOk(calls[k].at.messages))
    && (n < |calls| ==> Same(shared, start, calls[n].at))
    && (forall k :: n < k < |calls| ==> Evolves(shared, calls[k - 1], calls[k].at))
  }

  /** The call about to be made continues the log. */
  ghost predicate Continues(shared: bool, calls: seq<Call>, n: nat, start: Moment, next: Moment) {
    && RequestOk(next.messages)
    && if |calls| <= n then Same(shared, start, next) else Evolves(shared, calls[|calls| - 1], next)
  }

  /** What comes of a call: the first reply, or a failure when all providers tried have failed. With several candidates
      the failure is a summary, which is of a kind only if one of the failures is. */
  ghost predicate ComesOf(c: Call, candidates: nat) {
    && (candidates <= 1 ==> c.tries == [c.result])
    && (candidates > 1 ==> |c.tries| <= candidates)
    && (forall k :: 0 <= k < |c.tries| - 1 ==> c.tries[k].Failure?)
    && (c.result.Reply? || (c.tries != [] && c.tries[|c.tries| - 1].Reply?) ==>
          c.tries != [] && c.result == c.tries[|c.tries| - 1])
    && (c.result.Failure? && c.result.kind != OtherError ==> c.result in c.tries)
  }

  ghost function Exchanges(messages: seq<Message>, tries: seq<ChatResult>): seq<Exchange> {
    seq(|tries|, k requires 0 <= k < |tries| => Exchange(messages, tries[k]))
  }

  /** Everything providers heard and said in the calls from n on. */
  ghost function Sent(calls: seq<Call>, n: nat): seq<Exchange> {
    if |calls| <= n then []
    else
      var c := calls[|calls| - 1];
      Sent(calls[..|calls| - 1], n) + Exchanges(c.at.messages, c.tries)
  }

  /** The number of tool calls that the replies ask for. */
  ghost function Asked(calls: seq<Call>, n: nat): nat {
    if |calls| <= n then 0
    else
      var c := calls[|calls| - 1];
      Asked(calls[..|calls| - 1], n) + if c.result.Reply? then |c.result.response.toolCalls| else 0
  }

  /** The number of replies. */
  ghost function Replies(calls: seq<Call>, n: nat): nat {
    if |calls| <= n then 0
    else Replies(calls[..|calls| - 1], n) + if calls[|calls| - 1].result.Reply? then 1 else 0
  }

  lemma {:induction false} LogGrows(shared: bool, calls: seq<Call>, n: nat, start: Moment, c: Call)
    requires GoodLog(shared, calls, n, start) && Continues(shared, calls, n, start, c.at)
    ensures GoodLog(shared, calls + [c], n, start)
    ensures Sent(calls + [c], n) == Sent(calls, n) + Exchanges(c.at.messages, c.tries)
    ensures Asked(calls + [c], n) == Asked(calls, n) + if c.result.Reply? then |c.result.response.toolCalls| else 0
    ensures Replies(calls + [c], n) == Replies(calls, n) + if c.result.Reply? then 1 else 0
  {
    hide Evolves, Same, RequestOk, Exchanges;
    assert (calls + [c])[..|calls|] == calls;
  }

  lemma {:induction false} RoundContinues(shared: bool, calls: seq<Call>, n: nat, start: Moment, now: Moment,
                                          round: seq<Message>, next: Moment)
    requires GoodLog(shared, calls, n, start) && n < |calls| && Same(shared, calls[|calls| - 1].at, now)
    requires calls[|calls| - 1].result.Reply? && IsRoundOf(round, calls[|calls| - 1].result.response)
    requires next.messages == now.messages + round && Drifts(shared, now.stored + round, next.stored)
    ensures Continues(shared, calls, n, start, next) && AddsRound(shared, calls[|calls| - 1], next)
  {
    var a := calls[|calls| - 1];
    assert IsRound(round);
    hide Drifts, IsRound, IsRoundOf, RequestOk;
    RoundKeepsRequest(now.messages, round);
    DriftsAndGrowsAll(shared, a.at.stored, now.stored, round);
    DriftsOn(shared, a.at.stored + round, now.stored + round, next.stored);
    assert AddsThis(shared, a, next, round);
  }

  lemma InLog(shared: bool, calls: seq<Call>, n: nat, start: Moment)
    requires GoodLog(shared, calls, n, start)
    ensures n <= |calls|
  {}

  function Indices(n: nat): (s: set<nat>)
    ensures |s| == n && forall i :: i in s <==> 0 <= i < n
  {
    if n == 0 then {} else Indices(n - 1) + {n - 1}
  }

  /** Everything a provider saw is acceptable. */
  lemma {:induction false} SentIsAcceptable(shared: bool, calls: seq<Call>, n: nat, start: Moment)
    requires GoodLog(shared, calls, n, start)
    ensures forall k :: 0 <= k < |Sent(calls, n)| ==> RequestOk(Sent(calls, n)[k].messages)
    decreases |calls|
  {
    hide RequestOk, Evolves, Same;
    if |calls| > n {
      SentIsAcceptable(shared, calls[..|calls| - 1], n, start);
    }
  }

  // ---------- The predecessor rule over a run ----------

  lemma {:induction false} RoundPredecessorsIff(shared: bool, a: Call, b: Moment)
    requires RequestOk(a.at.messages) && AddsRound(shared, a, b)
    ensures GoodPredecessors(b.messages) <==>
      GoodPredecessors(a.at.messages) && MayPrecedeCall(a.at.messages[|a.at.messages| - 1])
    ensures MayPrecedeCall(b.messages[|b.messages| - 1])
  {
    hide GoodPredecessors, Drifts, RequestOk;
    var round :| AddsThis(shared, a, b, round);
    assert IsRound(round);
    OneAtLeast(a.at.messages);
    RoundKeepsPredecessorsIff(a.at.messages, round);
    assert b.messages[|b.messages| - 1] == round[|round| - 1] && IsToolResult(round[|round| - 1]);
  }

  lemma OneAtLeast(messages: seq<Message>)
    requires RequestOk(messages)
    ensures messages != []
  {}

  /** A rebuilt list obeys the predecessor rule, and how it ends can be told from the history it was built from. */
  lemma {:induction false} RebuiltIs(messages: seq<Message>, history: seq<Message>)
    ensures IsRebuilt(messages, history) ==>
      GoodPredecessors(messages) && (EndsCallable(messages) <==> UserIsNewestPlain(history))
  {
    hide GoodPredecessors, UserIsNewestPlain, EndsCallable, Request;
    if IsRebuilt(messages, history) {
      var prompt, summary :| messages == Request(history, prompt, summary, "");
      RequestPredecessors(history, prompt, summary, "");
      RequestEndsCallableIff(history, prompt, summary, "");
    }
  }

  /** Over a whole run: every list obeys the predecessor rule exactly when no round is added to a list that ends in
      neither a user nor a tool message. */
  lemma {:induction false} RunPredecessorsIff(shared: bool, calls: seq<Call>, n: nat, start: Moment)
    requires GoodLog(shared, calls, n, start) && GoodPredecessors(start.messages)
    ensures (forall k :: n <= k < |calls| ==> GoodPredecessors(calls[k].at.messages)) <==>
      forall k :: n < k < |calls| && AddsRound(shared, calls[k - 1], calls[k].at) ==> EndsCallable(calls[k - 1].at.messages)
  {
    hide GoodPredecessors, Drifts, RequestOk, AddsRound, Rebuilds;
    if forall k :: n < k < |calls| && AddsRound(shared, calls[k - 1], calls[k].at) ==> EndsCallable(calls[k - 1].at.messages) {
      forall k | n <= k < |calls| ensures GoodPredecessors(calls[k].at.messages) {
        CallPredecessors(shared, calls, n, start, k);
      }
    }
    if forall k :: n <= k < |calls| ==> GoodPredecessors(calls[k].at.messages) {
      forall k | n < k < |calls| && AddsRound(shared, calls[k - 1], calls[k].at) ensures EndsCallable(calls[k - 1].at.messages) {
        OneAtLeast(calls[k - 1].at.messages);
        RoundPredecessorsIff(shared, calls[k - 1], calls[k].at);
      }
    }
  }

  lemma {:induction false} CallPredecessors(shared: bool, calls: seq<Call>, n: nat, start: Moment, k: nat)
    requires GoodLog(shared, calls, n, start) && GoodPredecessors(start.messages) && n <= k < |calls|
    requires forall j :: n < j <= k && AddsRound(shared, calls[j - 1], calls[j].at) ==> EndsCallable(calls[j - 1].at.messages)
    ensures GoodPredecessors(calls[k].at.messages)
  {
    hide GoodPredecessors, Drifts, RequestOk, AddsRound, Rebuilds;
    if k > n {
      CallPredecessors(shared, calls, n, start, k - 1);
      var a, b := calls[k - 1], calls[k].at;
      assert Evolves(shared, a, b);
      if AddsRound(shared, a, b) {
        RoundPredecessorsIff(shared, a, b);
      } else if Rebuilds(shared, a, b) {
        RebuildsWell(shared, a, b);
      }
    }
  }

  // ---------- Where a list ends badly ----------

  /** b works on a list rebuilt from a compressed history whose newest plain message is not from the user. */
  ghost predicate CutBadly(shared: bool, a: Call, b: Moment) {
    a.result == Failure(ContextWindow) && exists h, cut :: RebuiltFrom(shared, a, b, h, cut) && !UserIsNewestPlain(cut)
  }

  /** The calls from j to k worked on one list, which ends badly since j: the turn began with it (badStart), or it was
      rebuilt there from a badly cut history. */
  ghost predicate CausedAt(shared: bool, calls: seq<Call>, n: nat, badStart: bool, j: nat, k: nat)
    requires n <= j <= k < |calls|
  {
    && (forall i :: j <= i <= k ==> calls[i].at.messages == calls[k].at.messages)
    && if j == n then badStart else CutBadly(shared, calls[j - 1], calls[j].at)
  }

  ghost predicate EndsBadly(shared: bool, calls: seq<Call>, n: nat, badStart: bool, k: nat)
    requires n <= k < |calls|
  {
    exists j :: n <= j <= k && CausedAt(shared, calls, n, badStart, j, k)
  }

  lemma {:induction false} RebuildsWell(shared: bool, a: Call, b: Moment)
    ensures Rebuilds(shared, a, b) ==>
      GoodPredecessors(b.messages) && (EndsCallable(b.messages) || CutBadly(shared, a, b))
  {
    hide GoodPredecessors, UserIsNewestPlain, EndsCallable, IsRebuilt, Drifts, Compress;
    if Rebuilds(shared, a, b) {
      var h, cut :| RebuiltFrom(shared, a, b, h, cut);
      RebuiltIs(b.messages, cut);
    }
  }

  lemma {:induction false} CutBadlyEnds(shared: bool, a: Call, b: Moment)
    ensures CutBadly(shared, a, b) ==> !EndsCallable(b.messages)
  {
    hide UserIsNewestPlain, EndsCallable, IsRebuilt, Drifts;
    if CutBadly(shared, a, b) {
      var h, cut :| RebuiltFrom(shared, a, b, h, cut) && !UserIsNewestPlain(cut);
      RebuiltIs(b.messages, cut);
    }
  }

  /** How one step of the log can leave a list that ends badly. */
  lemma {:induction false} StepEnds(shared: bool, a: Call, b: Moment)
    requires RequestOk(a.at.messages) && RequestOk(b.messages) && Evolves(shared, a, b) && !EndsCallable(b.messages)
    ensures a.at.messages == b.messages || CutBadly(shared, a, b)
  {
    hide UserIsNewestPlain, RebuiltFrom, Drifts, RequestOk, Rebuilds, CutBadly;
    if AddsRound(shared, a, b) {
      RoundPredecessorsIff(shared, a, b);
      OneAtLeast(b.messages);
    } else if Rebuilds(shared, a, b) {
      RebuildsWell(shared, a, b);
    }
  }

  /** In every run, from every first list: a list ends in neither a user nor a tool message exactly when the turn began
      with it and it ended so, or when it was rebuilt, in this run, from a stored history that compression cut so. */
  lemma {:induction false} EndsBadlyIff(shared: bool, calls: seq<Call>, n: nat, start: Moment, k: nat)
    requires GoodLog(shared, calls, n, start) && n <= k < |calls|
    ensures !EndsCallable(calls[k].at.messages) <==> EndsBadly(shared, calls, n, !EndsCallable(start.messages), k)
  {
    hide Drifts, CutBadly, Rebuilds, AddsRound, RequestOk, EndsCallable;
    var bad := !EndsCallable(start.messages);
    if EndsBadly(shared, calls, n, bad, k) {
      var j :| n <= j <= k && CausedAt(shared, calls, n, bad, j, k);
      assert calls[j].at.messages == calls[k].at.messages;
      if j > n {
        CutBadlyEnds(shared, calls[j - 1], calls[j].at);
      }
    }
    if !EndsCallable(calls[k].at.messages) {
      if k == n {
        assert CausedAt(shared, calls, n, bad, n, n);
      } else {
        StepEnds(shared, calls[k - 1], calls[k].at);
        if calls[k - 1].at.messages == calls[k].at.messages {
          EndsBadlyIff(shared, calls, n, start, k - 1);
          var j :| n <= j <= k - 1 && CausedAt(shared, calls, n, bad, j, k - 1);
          assert CausedAt(shared, calls, n, bad, j, k);
        } else {
          assert CausedAt(shared, calls, n, bad, k, k);
        }
      }
    }
  }

  // ---------- The rule over a turn ----------

  /** The first list of a turn: built from what was stored when the turn began, and the user message. */
  ghost predicate FirstRequest(shared: bool, stored: seq<Message>, noHistory: bool, userMessage: string,
                               messages: seq<Message>, history: seq<Message>, prompt: string, summary: string)
  {
    && messages == Request(history, prompt, summary, userMessage)
    && if noHistory then history == [] && summary == "" else Drifts(shared, stored, history)
  }

  /** A turn starts from the history it read and the user message, which is stored as well. */
  ghost predicate Starts(shared: bool, stored: seq<Message>, noHistory: bool, userMessage: string, start: Moment,
                         history: seq<Message>)
  {
    && (exists prompt, summary ::
         FirstRequest(shared, stored, noHistory, userMessage, start.messages, history, prompt, summary))
    && Drifts(shared, stored + [UserMessage(userMessage)], start.stored)
  }

  /** A turn begins badly when its message is blank and the newest plain message of the history is not from the user. */
  ghost predicate BadTurn(userMessage: string, history: seq<Message>) {
    Text.IsBlank(userMessage) && !UserIsNewestPlain(history)
  }

  lemma {:induction false} StartsWell(shared: bool, stored: seq<Message>, noHistory: bool, userMessage: string, start: Moment,
                                      history: seq<Message>)
    requires Starts(shared, stored, noHistory, userMessage, start, history)
    ensures GoodPredecessors(start.messages)
    ensures EndsCallable(start.messages) <==> !BadTurn(userMessage, history)
  {
    hide UserIsNewestPlain, GoodPredecessors, EndsCallable, Request, Text.IsBlank;
    var prompt, summary :|
      FirstRequest(shared, stored, noHistory, userMessage, start.messages, history, prompt, summary);
    RequestPredecessors(history, prompt, summary, userMessage);
    RequestEndsCallableIff(history, prompt, summary, userMessage);
  }

  /** Some round is added to a list that ends badly. */
  ghost predicate BreaksRule(shared: bool, calls: seq<Call>, n: nat, badStart: bool) {
    exists k :: n < k < |calls| && AddsRound(shared, calls[k - 1], calls[k].at) && EndsBadly(shared, calls, n, badStart, k - 1)
  }

  /** Over every turn: all lists obey the predecessor rule exactly unless a round is added to the first list of a bad
      turn, or to a list rebuilt from a badly cut history. */
  lemma {:induction false} TurnPredecessorsIff(shared: bool, stored: seq<Message>, noHistory: bool, userMessage: string,
                                               start: Moment, history: seq<Message>, calls: seq<Call>, n: nat)
    requires Starts(shared, stored, noHistory, userMessage, start, history) && GoodLog(shared, calls, n, start)
    ensures (forall k :: n <= k < |calls| ==> GoodPredecessors(calls[k].at.messages)) <==>
      !BreaksRule(shared, calls, n, BadTurn(userMessage, history))
  {
    hide GoodPredecessors, Starts, GoodLog, BadTurn, AddsRound, EndsBadly, EndsCallable;
    StartsWell(shared, stored, noHistory, userMessage, start, history);
    RunPredecessorsIff(shared, calls, n, start);
    forall k | n <= k < |calls|
      ensures !EndsCallable(calls[k].at.messages) <==> EndsBadly(shared, calls, n, BadTurn(userMessage, history), k)
    {
      EndsBadlyIff(shared, calls, n, start, k);
    }
  }

  /** A turn without any compression that breaks the rule: a blank message after a finished conversation, answered by a
      tool call. */
  lemma {:induction false} BlankTurnBreaksPredecessors(prompt: string, summary: string)
    returns (stored: seq<Message>, start: Moment, calls: seq<Call>)
    ensures WellFormed(stored) && Starts(false, stored, false, " ", start, stored)
    ensures GoodLog(false, calls, 0, start) && |calls| == 2 && AddsRound(false, calls[0], calls[1].at)
    ensures ComesOf(calls[0], 1) && ComesOf(calls[1], 1)
    ensures !GoodPredecessors(calls[1].at.messages)
  {
    hide GoodPredecessors, Request, WellFormed, UserIsNewestPlain, Starts, GoodLog, AddsRound, ComesOf, RequestOk,
         Text.TrimSpace;
    stored := FinishedConversation();
    start := Moment(Request(stored, prompt, summary, " "), stored + [UserMessage(" ")]);
    OpensTurn(stored, " ", start, prompt, summary);
    BuiltRequestOk(stored, prompt, summary, " ");
    calls := OneRound(start);
    BlankIsBlank();
    StartsWell(false, stored, false, " ", start, stored);
    RoundPredecessorsIff(false, calls[0], calls[1].at);
  }

  lemma {:induction false} FinishedConversation() returns (stored: seq<Message>)
    ensures WellFormed(stored) && !UserIsNewestPlain(stored)
  {
    stored := [UserMessage("hi"), Message(Assistant, "hello", [], "")];
    PlainIsWellFormed(stored);
    assert Sanitizer.IsPlain(stored[1]) && !NonePlainAfter(stored, 0);
  }

  lemma {:induction false} OpensTurn(stored: seq<Message>, userMessage: string, start: Moment, prompt: string, summary: string)
    requires start == Moment(Request(stored, prompt, summary, userMessage), stored + [UserMessage(userMessage)])
    ensures Starts(false, stored, false, userMessage, start, stored)
  {
    assert FirstRequest(false, stored, false, userMessage, start.messages, stored, prompt, summary);
  }

  lemma {:induction false} SmallRound() returns (round: seq<Message>, response: Response)
    ensures IsRoundOf(round, response)
  {
    var request := ToolCall("a", "f", "f");
    round := [Message(Assistant, "", [request], ""), Message(Tool, "1", [], "a")];
    response := Response("", "", [request]);
    assert IsCallOf(round[0].toolCalls[0], request);
  }

  /** The log of a turn with two calls: the model asks for a tool, then answers. */
  lemma {:induction false} OneRound(start: Moment) returns (calls: seq<Call>)
    requires RequestOk(start.messages)
    ensures GoodLog(false, calls, 0, start) && |calls| == 2 && calls[0].at == start
    ensures AddsRound(false, calls[0], calls[1].at) && ComesOf(calls[0], 1) && ComesOf(calls[1], 1)
  {
    hide RequestOk, IsRoundOf, Rebuilds;
    var round, response := SmallRound();
    var first := Call(start, [Reply(response)], Reply(response));
    var next := Moment(start.messages + round, start.stored + round);
    RoundOk(start.messages, round, response);
    assert AddsThis(false, first, next, round);
    var done := Reply(Response("done", "", []));
    calls := [first, Call(next, [done], done)];
  }

  lemma RoundOk(messages: seq<Message>, round: seq<Message>, response: Response)
    requires RequestOk(messages) && IsRoundOf(round, response)
    ensures RequestOk(messages + round)
  {
    hide RequestOk;
    RoundKeepsRequest(messages, round);
  }

  lemma PlainIsWellFormed(s: seq<Message>)
    requires forall i :: 0 <= i < |s| ==> !IsCall(s[i]) && !IsToolResult(s[i]) && s[i].role != System
    ensures WellFormed(s)
  {
    PlainIsClosed(s);
  }

  // ---------- How a run ends ----------

  /** The text of a reply without tool calls; unless it was streamed, reasoning stands in for missing content. */
  predicate IsFinalText(content: string, response: Response, streaming: bool) {
    && (response.content != "" ==> content == response.content)
    && (response.content == "" ==> content == if streaming then "" else response.reasoning)
  }

  /** With a reply that asks for no tools. */
  ghost predicate EndsInReply(shared: bool, calls: seq<Call>, n: nat, content: string, streaming: bool, end: Moment) {
    n < |calls| &&
    var last := calls[|calls| - 1];
    && last.result.Reply? && last.result.response.toolCalls == []
    && IsFinalText(content, last.result.response, streaming)
    && Same(shared, last.at, end)
  }

  /** The run is still going on: nothing was called yet, or the last round has just been added. */
  ghost predicate GoesOn(shared: bool, calls: seq<Call>, n: nat, start: Moment, end: Moment) {
    if |calls| <= n then Same(shared, start, end) else AddsRound(shared, calls[|calls| - 1], end)
  }

  /** With a failed call. Time-outs and context errors are given up after three calls without a reply, unless streamed. */
  ghost predicate EndsInFailure(shared: bool, calls: seq<Call>, n: nat, kind: ErrorKind, streaming: bool, end: Moment) {
    && n < |calls| && calls[|calls| - 1].result == Failure(kind)
    && Drifts(shared, calls[|calls| - 1].at.stored, end.stored)
    && (kind != OtherError && !streaming ==>
         n + 3 <= |calls| && forall k :: |calls| - 3 <= k < |calls| ==> calls[k].result.Failure?)
  }

  /** An answer is the text of the last reply, or empty when the iterations are used up before there is one. */
  ghost predicate Ends(shared: bool, calls: seq<Call>, n: nat, start: Moment, streaming: bool, result: LoopResult,
                       exhausted: bool, end: Moment)
  {
    match result
    case Answer(content) =>
      || EndsInReply(shared, calls, n, content, streaming, end)
      || (content == "" && exhausted && GoesOn(shared, calls, n, start, end))
    case CallFailed(kind) => EndsInFailure(shared, calls, n, kind, streaming, end)
  }

  lemma {:induction false} LogBegins(shared: bool, calls: seq<Call>, start: Moment)
    requires RequestOk(start.messages)
    ensures var n := |calls|;
      && GoodLog(shared, calls, n, start) && Continues(shared, calls, n, start, start) && GoesOn(shared, calls, n, start, start)
      && Sent(calls, n) == [] && Asked(calls, n) == 0 && Replies(calls, n) == 0
  {
    NoDrift(shared, start.stored);
  }

  lemma AnswerEnds(shared: bool, calls: seq<Call>, n: nat, start: Moment, streaming: bool, response: Response,
                   content: string, exhausted: bool, end: Moment)
    requires n < |calls| && calls[|calls| - 1].result == Reply(response) && response.toolCalls == []
    requires IsFinalText(content, response, streaming) && Same(shared, calls[|calls| - 1].at, end)
    ensures Ends(shared, calls, n, start, streaming, Answer(content), exhausted, end)
  {}

  lemma FailureEnds(shared: bool, calls: seq<Call>, n: nat, start: Moment, streaming: bool, kind: ErrorKind,
                    exhausted: bool, end: Moment)
    requires n < |calls| && calls[|calls| - 1].result == Failure(kind) && Same(shared, calls[|calls| - 1].at, end)
    requires kind != OtherError && !streaming ==>
      n + 3 <= |calls| && forall k :: |calls| - 3 <= k < |calls| ==> calls[k].result.Failure?
    ensures Ends(shared, calls, n, start, streaming, CallFailed(kind), exhausted, end)
  {}

  lemma ExhaustionEnds(shared: bool, calls: seq<Call>, n: nat, start: Moment, streaming: bool, end: Moment)
    requires GoesOn(shared, calls, n, start, end)
    ensures Ends(shared, calls, n, start, streaming, Answer(""), true, end)
  {}

  // ---------- The loop ----------

  class Agent {
    const provider: Provider
    const session: Session
    const toolbox: Toolbox
    const maxIterations: nat
    /** Number of fallback candidates; with more than one, a call may hand the list to several of them. */
    const candidates: nat
    ghost var calls: seq<Call>

    constructor (provider: Provider, session: Session, toolbox: Toolbox, maxIterations: nat, candidates: nat)
      ensures this.provider == provider && this.session == session && this.toolbox == toolbox && calls == []
      ensures this.maxIterations == maxIterations && this.candidates == candidates
    {
      this.provider, this.session, this.toolbox, calls := provider, session, toolbox, [];
      this.maxIterations, this.candidates := maxIterations, candidates;
    }

    /** At most so many providers see the list of one call. */
    function Fanout(): nat {
      if candidates > 1 then candidates else 1
    }

    /** A list, and the history stored now. */
    ghost function Now(messages: seq<Message>): Moment
      reads session
    {
      Moment(messages, session.history)
    }

    ghost function Newest(): Call
      requires calls != []
      reads this
    {
      calls[|calls| - 1]
    }

    /** The newest call worked on messages, and since then the session has only drifted. */
    ghost predicate JustCalled(messages: seq<Message>)
      reads this, session
    {
      calls != [] && Same(session.shared, Newest().at, Now(messages))
    }

    /** The log from index n on is good, and providers heard and said what it says, after what came before. */
    ghost predicate Logged(before: seq<Exchange>, n: nat, start: Moment)
      reads this, provider
    {
      && GoodLog(session.shared, calls, n, start)
      && (forall k :: n <= k < |calls| ==> ComesOf(calls[k], candidates))
      && provider.exchanges == before + Sent(calls, n)
    }

    /** The system prompt, which is composed anew for every build. */
    method SystemPrompt() returns (prompt: string)
    {
      prompt := *;
    }

    /** The error of a fallback chain in which nobody replied. */
    method FallbackError(tries: seq<ChatResult>) returns (r: ChatResult)
      ensures r.Failure? && (r.kind != OtherError ==> r in tries)
    {
      var k: int := *;
      r := Failure(OtherError);
      if 0 <= k < |tries| && tries[k].Failure? {
        r := tries[k];
      }
    }

    /** Sends the list once, or to as many candidates as the fallback chain tries (none, if all are cooling down), until
        one replies. */
    method CallLLM(messages: seq<Message>) returns (r: ChatResult)
      modifies provider, session, `calls
      ensures |calls| == |old(calls)| + 1 && old(calls) <= calls && JustCalled(messages)
      ensures Newest().at == old(Now(messages)) && Newest().result == r && ComesOf(Newest(), candidates)
      ensures provider.exchanges == old(provider.exchanges) + Exchanges(messages, Newest().tries)
    {
      var tries: seq<ChatResult> := [];
      var limit := 1;
      if candidates > 1 {
        limit := *;
        if limit < 0 || limit > candidates {
          limit := candidates;
        }
      }
      r := Failure(OtherError);
      while |tries| < limit && r.Failure?
        invariant |tries| <= limit <= Fanout() && forall k :: 0 <= k < |tries| - 1 ==> tries[k].Failure?
        invariant r == if tries == [] then Failure(OtherError) else tries[|tries| - 1]
        invariant provider.exchanges == old(provider.exchanges) + Exchanges(messages, tries)
        invariant calls == old(calls) && session.history == old(session.history)
      {
        r := provider.Chat(messages);
        assert Exchanges(messages, tries + [r]) == Exchanges(messages, tries) + [Exchange(messages, r)];
        tries := tries + [r];
      }
      if candidates > 1 && r.Failure? {
        r := FallbackError(tries);
      }
      calls := calls + [Call(Now(messages), tries, r)];
      session.Interfere();
    }

    /** Compresses the stored history and builds the list again, without a current message. */
    method CompressAndRebuild(ghost last: seq<Message>) returns (messages: seq<Message>)
      requires JustCalled(last) && Newest().result == Failure(ContextWindow)
      modifies session
      ensures RequestOk(messages) && Rebuilds(session.shared, Newest(), Now(messages))
    {
      ghost var h := session.history;
      session.ForceCompression();
      session.Interfere();
      ghost var cut := session.history;
      var prompt := SystemPrompt();
      messages := BuildMessages(session.history, prompt, session.summary, "");
      assert IsRebuilt(messages, cut);
      session.Interfere();
      assert RebuiltFrom(session.shared, Newest(), Now(messages), h, cut);
    }

    /** One call in the context of the log. */
    method LoggedCall(messages: seq<Message>, streaming: bool, ghost before: seq<Exchange>, ghost n: nat, ghost start: Moment)
      returns (r: ChatResult)
      requires Logged(before, n, start) && Continues(session.shared, calls, n, start, Now(messages))
      modifies provider, session, `calls
      ensures |calls| == |old(calls)| + 1 && old(calls) <= calls && n < |calls| && JustCalled(messages)
      ensures Logged(before, n, start) && Newest().result == r
      ensures streaming ==> Newest().tries == [r]
      ensures Replies(calls, n) == old(Replies(calls, n)) + if r.Reply? then 1 else 0
      ensures Asked(calls, n) == old(Asked(calls, n)) + if r.Reply? then |r.response.toolCalls| else 0
    {
      hide Drifts, Continues, GoodLog, Sent, Asked, Replies, ComesOf, Exchanges;
      ghost var was := calls;
      InLog(session.shared, calls, n, start);
      if streaming {
        r := ChatStream(messages);
      } else {
        r := CallLLM(messages);
      }
      LogGrows(session.shared, was, n, start, Newest());
      assert calls == was + [Newest()];
      assert before + Sent(was, n) + Exchanges(messages, Newest().tries) == before + Sent(calls, n);
    }

    /** A streamed call goes to one provider. */
    method ChatStream(messages: seq<Message>) returns (r: ChatResult)
      modifies provider, session, `calls
      ensures |calls| == |old(calls)| + 1 && old(calls) <= calls && JustCalled(messages)
      ensures Newest().at == old(Now(messages)) && Newest().result == r && ComesOf(Newest(), candidates)
      ensures provider.exchanges == old(provider.exchanges) + Exchanges(messages, Newest().tries)
      ensures Newest().tries == [r]
    {
      r := provider.Chat(messages);
      calls := calls + [Call(Now(messages), [r], r)];
      session.Interfere();
    }

    /** The body of the retry loop: time-outs are repeated, context errors compress and rebuild the list. */
    method TryOnce(messages0: seq<Message>, retry: nat, maxRetries: nat, ghost before: seq<Exchange>, ghost n: nat,
                   ghost start: Moment)
      returns (r: ChatResult, messages: seq<Message>, again: bool)
      requires Logged(before, n, start) && Continues(session.shared, calls, n, start, Now(messages0))
      modifies provider, session, `calls
      ensures |calls| == |old(calls)| + 1 && old(calls) <= calls && n < |calls|
      ensures Logged(before, n, start) && Newest().result == r
      ensures Replies(calls, n) == old(Replies(calls, n)) + if r.Reply? then 1 else 0
      ensures Asked(calls, n) == old(Asked(calls, n)) + if r.Reply? then |r.response.toolCalls| else 0
      ensures again <==> r.Failure? && r.kind != OtherError && retry < maxRetries
      ensures if again then Continues(session.shared, calls, n, start, Now(messages)) else JustCalled(messages)
    {
      hide Drifts, GoodLog, Same, Rebuilds, AddsRound, RequestOk, ComesOf, Sent, Asked, Replies;
      messages, again := messages0, false;
      r := LoggedCall(messages, false, before, n, start);
      if r.Failure? && r.kind == Timeout && retry < maxRetries {
        again := true;
      } else if r.Failure? && r.kind == ContextWindow && retry < maxRetries {
        messages := CompressAndRebuild(messages);
        again := true;
      }
    }

    /** The retry loop around one call. */
    method CallWithRetries(messages0: seq<Message>, ghost before: seq<Exchange>, ghost n: nat, ghost start: Moment)
      returns (r: ChatResult, messages: seq<Message>)
      requires Logged(before, n, start) && Continues(session.shared, calls, n, start, Now(messages0))
      modifies provider, session, `calls
      ensures |old(calls)| < |calls| <= |old(calls)| + 3 && old(calls) <= calls && n < |calls|
      ensures Logged(before, n, start) && JustCalled(messages) && Newest().result == r
      ensures forall k :: |old(calls)| <= k < |calls| - 1 ==> calls[k].result.Failure?
      ensures r.Failure? && r.kind != OtherError ==> |calls| == |old(calls)| + 3
      ensures Replies(calls, n) == old(Replies(calls, n)) + if r.Reply? then 1 else 0
      ensures Asked(calls, n) == old(Asked(calls, n)) + if r.Reply? then |r.response.toolCalls| else 0
    {
      hide Drifts, GoodLog, Continues, Same, ComesOf, Sent, Asked, Replies;
      messages := messages0;
      InLog(session.shared, calls, n, start);
      var maxRetries := 2;
      var retry := 0;
      while true
        invariant 0 <= retry <= maxRetries
        invariant old(calls) <= calls && |calls| == |old(calls)| + retry
        invariant forall k :: |old(calls)| <= k < |calls| ==> calls[k].result.Failure?
        invariant Logged(before, n, start) && Continues(session.shared, calls, n, start, Now(messages))
        invariant Replies(calls, n) == old(Replies(calls, n)) && Asked(calls, n) == old(Asked(calls, n))
        decreases maxRetries - retry
      {
        var again;
        r, messages, again := TryOnce(messages, retry, maxRetries, before, n, start);
        if !again {
          break;
        }
        retry := retry + 1;
      }
    }

    /** The calls as they are stored and executed. */
    method NormalizeCalls(requested: seq<ToolCall>) returns (stored: seq<ToolCall>)
      ensures |stored| == |requested| && forall j :: 0 <= j < |requested| ==> IsCallOf(stored[j], requested[j])
    {
      var normalized: seq<ToolCall> := [];
      for i := 0 to |requested|
        invariant |normalized| == i && forall j :: 0 <= j < i ==> normalized[j] == Normalize(requested[j])
      {
        normalized := normalized + [Normalize(requested[i])];
      }
      stored := [];
      for i := 0 to |normalized|
        invariant |stored| == i && forall j :: 0 <= j < i ==> IsCallOf(stored[j], requested[j])
      {
        stored := stored + [ToolCall(normalized[i].id, normalized[i].name, normalized[i].name)];
      }
    }

    /** Executes all calls, in any order, as they run in parallel. */
    method ExecuteAll(calls: seq<ToolCall>) returns (results: seq<ToolResult>, ghost order: seq<nat>)
      modifies toolbox
      ensures |results| == |calls| && IsOrder(order, |calls|)
      ensures old(toolbox.executed) <= toolbox.executed && |toolbox.executed| == |old(toolbox.executed)| + |calls|
      ensures forall k :: 0 <= k < |calls| ==>
        toolbox.executed[|old(toolbox.executed)| + k] == Execution(calls[order[k]].name, results[order[k]])
    {
      results := seq(|calls|, _ => ToolResult("", None));
      order := [];
      var waiting := Indices(|calls|);
      while waiting != {}
        invariant |results| == |calls| && |order| + |waiting| == |calls| && forall i :: i in waiting ==> 0 <= i < |calls|
        invariant forall i :: 0 <= i < |calls| ==> i in waiting || i in order
        invariant forall k :: 0 <= k < |order| ==> order[k] < |calls| && order[k] !in waiting
        invariant old(toolbox.executed) <= toolbox.executed && |toolbox.executed| == |old(toolbox.executed)| + |order|
        invariant forall k :: 0 <= k < |order| ==>
          toolbox.executed[|old(toolbox.executed)| + k] == Execution(calls[order[k]].name, results[order[k]])
        decreases |waiting|
      {
        var i :| i in waiting;
        var result := toolbox.Execute(calls[i].name);
        results := results[i := result];
        order := order + [i];
        waiting := waiting - {i};
      }
    }

    /** Appends the tool-call message and the tool results to the list and to the session. */
    method RunTools(messages0: seq<Message>, response: Response)
      returns (messages: seq<Message>, ghost round: seq<Message>, ghost order: seq<nat>)
      requires |response.toolCalls| > 0
      modifies session, toolbox
      ensures IsRoundOf(round, response) && messages == messages0 + round
      ensures Drifts(session.shared, old(session.history) + round, session.history)
      ensures old(toolbox.executed) <= toolbox.executed
      ensures Executes(toolbox.executed[|old(toolbox.executed)|..], round, order)
    {
      hide Drifts;
      var stored := NormalizeCalls(response.toolCalls);
      var assistantMsg := Message(Assistant, response.content, stored, "");
      messages := messages0 + [assistantMsg];
      NoDrift(session.shared, session.history);
      assert session.history + [] == session.history;
      Store(assistantMsg, session.history, []);
      round := [assistantMsg];
      assert [] + [assistantMsg] == round;
      var results;
      results, order := ExecuteAll(stored);
      ghost var ran := toolbox.executed;
      for i := 0 to |stored|
        invariant toolbox.executed == ran && |round| == 1 + i && round[0] == assistantMsg
        invariant messages == messages0 + round
        invariant Drifts(session.shared, old(session.history) + round, session.history)
        invariant forall j :: 0 < j <= i ==> IsToolResult(round[j]) && round[j].toolCallID == stored[j - 1].id
        invariant forall j :: 0 < j <= i ==> Tells(round[j].content, results[j - 1])
      {
        var contentForLLM := results[i].forLLM;
        if contentForLLM == "" && results[i].error.Some? {
          contentForLLM := results[i].error.value;
        }
        var toolResultMsg := Message(Tool, contentForLLM, [], stored[i].id);
        messages := messages + [toolResultMsg];
        Store(toolResultMsg, old(session.history), round);
        round := round + [toolResultMsg];
      }
    }

    /** Stores one more message, with interference. */
    method Store(m: Message, ghost before: seq<Message>, ghost added: seq<Message>)
      requires Drifts(session.shared, before + added, session.history)
      modifies session
      ensures Drifts(session.shared, before + (added + [m]), session.history)
    {
      hide Drifts;
      ghost var h := session.history;
      session.Interfere();
      DriftsOn(session.shared, before + added, h, session.history);
      DriftsAndGrows(session.shared, before + added, session.history, m);
      session.AddFullMessage(m);
      assert before + added + [m] == before + (added + [m]);
    }

    /** RunTools, seen from the log. */
    method NextRound(messages0: seq<Message>, response: Response, ghost n: nat, ghost start: Moment)
      returns (messages: seq<Message>)
      requires |response.toolCalls| > 0 && GoodLog(session.shared, calls, n, start) && n < |calls|
      requires JustCalled(messages0) && Newest().result == Reply(response)
      modifies session, toolbox
      ensures Continues(session.shared, calls, n, start, Now(messages))
      ensures GoesOn(session.shared, calls, n, start, Now(messages))
      ensures |toolbox.executed| == |old(toolbox.executed)| + |response.toolCalls|
    {
      hide Drifts, GoodLog, Continues, Same, IsRound, AddsRound;
      ghost var now := Now(messages0);
      ghost var round, order;
      messages, round, order := RunTools(messages0, response);
      RoundContinues(session.shared, calls, n, start, now, round, Now(messages));
    }

    /** The request loop. `end` is the list and the stored history at its end. */
    method RunLLMIteration(messages0: seq<Message>) returns (result: LoopResult, iteration: nat, ghost end: Moment)
      requires RequestOk(messages0)
      modifies provider, session, toolbox, `calls
      ensures iteration <= maxIterations && old(calls) <= calls && |calls| <= |old(calls)| + 3 * iteration
      ensures Logged(old(provider.exchanges), |old(calls)|, old(Now(messages0)))
      ensures Ends(session.shared, calls, |old(calls)|, old(Now(messages0)), false, result,
                   Replies(calls, |old(calls)|) == maxIterations, end)
      ensures end.stored == session.history
      ensures iteration == Replies(calls, |old(calls)|) + if result.CallFailed? then 1 else 0
      ensures |toolbox.executed| == |old(toolbox.executed)| + Asked(calls, |old(calls)|)
    {
      hide Drifts, Same, GoodLog, Continues, GoesOn, Ends, ComesOf, Sent, Asked, Replies, AddsRound, RequestOk;
      ghost var before, n, start := provider.exchanges, |calls|, Now(messages0);
      LogBegins(session.shared, calls, start);
      var messages := messages0;
      iteration := 0;
      while iteration < maxIterations
        invariant iteration <= maxIterations && old(calls) <= calls && |calls| <= n + 3 * iteration
        invariant Logged(before, n, start)
        invariant Continues(session.shared, calls, n, start, Now(messages))
        invariant GoesOn(session.shared, calls, n, start, Now(messages))
        invariant iteration == Replies(calls, n) && |toolbox.executed| == |old(toolbox.executed)| + Asked(calls, n)
      {
        iteration := iteration + 1;
        var r;
        r, messages := CallWithRetries(messages, before, n, start);
        end := Now(messages);
        if r.Failure? {
          FailureEnds(session.shared, calls, n, start, false, r.kind, Replies(calls, n) == maxIterations, end);
          return CallFailed(r.kind), iteration, end;
        }
        if |r.response.toolCalls| == 0 {
          var finalContent := r.response.content;
          if finalContent == "" && r.response.reasoning != "" {
            finalContent := r.response.reasoning;
          }
          AnswerEnds(session.shared, calls, n, start, false, r.response, finalContent, Replies(calls, n) == maxIterations, end);
          return Answer(finalContent), iteration, end;
        }
        messages := NextRound(messages, r.response, n, start);
      }
      end := Now(messages);
      ExhaustionEnds(session.shared, calls, n, start, false, end);
      return Answer(""), iteration, end;
    }

    /** The streaming loop: one call to one provider per iteration, no retries, no fallback. */
    method RunLLMIterationStream(messages0: seq<Message>) returns (result: LoopResult, iteration: nat, ghost end: Moment)
      requires RequestOk(messages0)
      modifies provider, session, toolbox, `calls
      ensures iteration <= maxIterations && old(calls) <= calls && |calls| == |old(calls)| + iteration
      ensures forall k :: |old(calls)| <= k < |calls| ==> |calls[k].tries| == 1
      ensures Logged(old(provider.exchanges), |old(calls)|, old(Now(messages0)))
      ensures Ends(session.shared, calls, |old(calls)|, old(Now(messages0)), true, result,
                   Replies(calls, |old(calls)|) == maxIterations, end)
      ensures end.stored == session.history
      ensures iteration == Replies(calls, |old(calls)|) + if result.CallFailed? then 1 else 0
      ensures |toolbox.executed| == |old(toolbox.executed)| + Asked(calls, |old(calls)|)
    {
      hide Drifts, Same, GoodLog, Continues, GoesOn, Ends, ComesOf, Sent, Asked, Replies, AddsRound, RequestOk;
      ghost var before, n, start := provider.exchanges, |calls|, Now(messages0);
      LogBegins(session.shared, calls, start);
      var messages := messages0;
      iteration := 0;
      while iteration < maxIterations
        invariant iteration <= maxIterations && old(calls) <= calls && |calls| == n + iteration
        invariant forall k :: n <= k < |calls| ==> |calls[k].tries| == 1
        invariant Logged(before, n, start)
        invariant Continues(session.shared, calls, n, start, Now(messages))
        invariant GoesOn(session.shared, calls, n, start, Now(messages))
        invariant iteration == Replies(calls, n) && |toolbox.executed| == |old(toolbox.executed)| + Asked(calls, n)
      {
        iteration := iteration + 1;
        var r := LoggedCall(messages, true, before, n, start);
        end := Now(messages);
        if r.Failure? {
          FailureEnds(session.shared, calls, n, start, true, r.kind, Replies(calls, n) == maxIterations, end);
          return CallFailed(r.kind), iteration, end;
        }
        if |r.response.toolCalls| == 0 {
          AnswerEnds(session.shared, calls, n, start, true, r.response, r.response.content,
                     Replies(calls, n) == maxIterations, end);
          return Answer(r.response.content), iteration, end;
        }
        messages := NextRound(messages, r.response, n, start);
      }
      end := Now(messages);
      ExhaustionEnds(session.shared, calls, n, start, true, end);
      return Answer(""), iteration, end;
    }

    /** Answers one user message, with or without the stored history. `start` is the first request and what was stored
        when it was ready, `history` what it was built from, `answer` how the request loop ended, at `end`. */
    method RunAgentLoop(userMessage: string, noHistory: bool, streaming: bool, defaultResponse: string)
      returns (result: LoopResult, ghost start: Moment, ghost history: seq<Message>, ghost answer: LoopResult,
               ghost end: Moment)
      modifies provider, session, toolbox, `calls
      ensures Starts(session.shared, old(session.history), noHistory, userMessage, start, history)
      ensures old(calls) <= calls && Logged(old(provider.exchanges), |old(calls)|, start)
      ensures Ends(session.shared, calls, |old(calls)|, start, streaming, answer,
                   Replies(calls, |old(calls)|) == maxIterations, end)
      ensures |toolbox.executed| == |old(toolbox.executed)| + Asked(calls, |old(calls)|)
      ensures forall k :: |old(provider.exchanges)| <= k < |provider.exchanges| ==>
        RequestOk(provider.exchanges[k].messages)
      ensures (forall k :: |old(calls)| <= k < |calls| ==> GoodPredecessors(calls[k].at.messages)) <==>
        !BreaksRule(session.shared, calls, |old(calls)|, BadTurn(userMessage, history))
      ensures answer.CallFailed? ==> result == answer && session.history == end.stored
      ensures answer.Answer? ==>
        && result == Answer(if answer.content == "" then defaultResponse else answer.content)
        && session.history == end.stored + [Message(Assistant, result.content, [], "")]
    {
      hide Drifts, GoodLog, ComesOf, Sent, RequestOk, Request, GoodPredecessors, BreaksRule, BadTurn, Ends, Asked, Replies;
      session.Interfere();
      var read := if noHistory then [] else session.history;
      var summary := if noHistory then "" else session.summary;
      var prompt := SystemPrompt();
      history := read;
      var messages := BuildMessages(read, prompt, summary, userMessage);
      var user := UserMessage(userMessage);
      assert old(session.history) + [] == old(session.history);
      Store(user, old(session.history), []);
      assert [] + [user] == [user];
      start := Now(messages);
      assert FirstRequest(session.shared, old(session.history), noHistory, userMessage, start.messages, read, prompt, summary);
      assert Starts(session.shared, old(session.history), noHistory, userMessage, start, history);
      hide Starts;
      var iteration;
      if streaming {
        result, iteration, end := RunLLMIterationStream(messages);
      } else {
        result, iteration, end := RunLLMIteration(messages);
      }
      answer := result;
      SentIsAcceptable(session.shared, calls, |old(calls)|, start);
      TurnPredecessorsIff(session.shared, old(session.history), noHistory, userMessage, start, history, calls, |old(calls)|);
      result := SaveAnswer(result, defaultResponse);
    }

    /** An empty answer is replaced by the default; the answer is stored as a plain assistant message. */
    method SaveAnswer(answer: LoopResult, defaultResponse: string) returns (result: LoopResult)
      modifies session
      ensures answer.CallFailed? ==> result == answer && session.history == old(session.history)
      ensures answer.Answer? ==>
        && result == Answer(if answer.content == "" then defaultResponse else answer.content)
        && session.history == old(session.history) + [Message(Assistant, result.content, [], "")]
    {
      result := answer;
      if result.Answer? {
        if result.content == "" {
          result := Answer(defaultResponse);
        }
        session.AddFullMessage(Message(Assistant, result.content, [], ""));
      }
    }
  }
}
