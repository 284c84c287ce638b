/** The ordered candidate loop over cooling providers: pkg/providers/fallback.go. */
module Fallback {
  import opened Common
  import opened Cooldown

  datatype Candidate = Candidate(provider: string, model: string)

  /** The answer of one run call; `kind` is what ClassifyError makes of the error. */
  datatype RunResult = Answered(response: string) | Failed(kind: Option<Reason>)

  /** What the outside world does during one candidate's turn: whether the context is cancelled before, when the
      cooldown is checked, what a run call would return and when, and whether the context is cancelled by then. */
  datatype Turn = Turn(cancelledBefore: bool, checkAt: Time, result: RunResult, doneAt: Time, cancelledAfter: bool)

  datatype Attempt = Attempt(provider: string, model: string, reason: Option<Reason>, skipped: bool)

  datatype ExecResult =
    | NoCandidates
    | Success(response: string, provider: string, model: string, attempts: seq<Attempt>)
    | Cancelled
    | Unclassified(provider: string, model: string)
    | NotRetriable(provider: string, model: string, reason: Reason)
    | Exhausted(attempts: seq<Attempt>)

  /** A run call: which candidate, and the time of the check before it. */
  datatype Call = Call(index: nat, at: Time)

  datatype Outcome = Outcome(result: ExecResult, entries: Entries, calls: seq<Call>)

  predicate Retriable(r: Reason) {
    r != Format
  }

  // ---------- One turn ----------

  /** How one candidate's turn ends: the run goes on with one more attempt on record, or it stops. */
  datatype Verdict = GoOn(attempt: Attempt) | Stop(why: Why)

  datatype Why = ContextCancelled | Answer(response: string) | Refused(kind: Option<Reason>)

  /** Whether the candidate's provider is called. */
  predicate IsCalled(entries: Entries, c: Candidate, t: Turn) {
    !t.cancelledBefore && Available(EntryOf(entries, c.provider), t.checkAt)
  }

  function VerdictOf(entries: Entries, c: Candidate, t: Turn): Verdict {
    if t.cancelledBefore then Stop(ContextCancelled)
    else if !IsCalled(entries, c, t) then GoOn(Attempt(c.provider, c.model, Some(RateLimit), true))
    else
      match t.result
      case Answered(response) => Stop(Answer(response))
      case Failed(kind) =>
        if t.cancelledAfter then Stop(ContextCancelled)
        else if kind.None? || !Retriable(kind.value) then Stop(Refused(kind))
        else GoOn(Attempt(c.provider, c.model, kind, false))
  }

  /** The tracker after the turn. */
  function EntriesAfter(entries: Entries, c: Candidate, t: Turn): Entries {
    if !IsCalled(entries, c, t) then entries
    else
      match VerdictOf(entries, c, t)
      case Stop(Answer(_)) =>
        if c.provider in entries then entries[c.provider := AfterSuccess(entries[c.provider])] else entries
      case Stop(_) => entries
      case GoOn(attempt) => entries[c.provider := AfterFailure(EntryOf(entries, c.provider), t.doneAt, attempt.reason.value)]
  }

  // ---------- A run ----------

  /** The part of a run that stays fixed. */
  datatype Setting = Setting(candidates: seq<Candidate>, turns: seq<Turn>, entries: Entries)

  /** One turn per candidate, in time order, with a consistent tracker at the start. */
  ghost predicate SettingOk(s: Setting, start: Time) {
    && |s.turns| == |s.candidates|
    && (forall i :: 0 <= i < |s.turns| ==> start <= s.turns[i].checkAt <= s.turns[i].doneAt)
    && (forall i, j :: 0 <= i < j < |s.turns| ==> s.turns[i].doneAt <= s.turns[j].checkAt)
    && EntriesOk(s.entries, start)
  }

  /** The tracker before the i-th turn, if no earlier turn ended the run. */
  function EntriesBefore(s: Setting, i: nat): Entries
    requires i <= |s.candidates| == |s.turns|
  {
    if i == 0 then s.entries else EntriesAfter(EntriesBefore(s, i - 1), s.candidates[i - 1], s.turns[i - 1])
  }

  function VerdictAt(s: Setting, i: nat): Verdict
    requires i < |s.candidates| == |s.turns|
  {
    VerdictOf(EntriesBefore(s, i), s.candidates[i], s.turns[i])
  }

  predicate CalledAt(s: Setting, i: nat)
    requires i < |s.candidates| == |s.turns|
  {
    IsCalled(EntriesBefore(s, i), s.candidates[i], s.turns[i])
  }

  /** The attempts that the first n turns put on record. */
  function Attempts(s: Setting, n: nat): seq<Attempt>
    requires n <= |s.candidates| == |s.turns|
  {
    if n == 0 then []
    else Attempts(s, n - 1) + if VerdictAt(s, n - 1).GoOn? then [VerdictAt(s, n - 1).attempt] else []
  }

  /** The calls that the first n turns make. */
  function Calls(s: Setting, n: nat): seq<Call>
    requires n <= |s.candidates| == |s.turns|
  {
    if n == 0 then []
    else Calls(s, n - 1) + if CalledAt(s, n - 1) then [Call(n - 1, s.turns[n - 1].checkAt)] else []
  }

  /** The first turn from i on that stops the run, or the number of candidates. */
  function StopIndex(s: Setting, i: nat): (n: nat)
    requires i <= |s.candidates| == |s.turns|
    ensures i <= n <= |s.candidates|
    ensures forall j :: i <= j < n ==> VerdictAt(s, j).GoOn?
    ensures n < |s.candidates| ==> VerdictAt(s, n).Stop?
    decreases |s.candidates| - i
  {
    if i == |s.candidates| || VerdictAt(s, i).Stop? then i else StopIndex(s, i + 1)
  }

  function ResultOf(why: Why, c: Candidate, attempts: seq<Attempt>): ExecResult {
    match why
    case ContextCancelled => Cancelled
    case Answer(response) => Success(response, c.provider, c.model, attempts)
    case Refused(None) => Unclassified(c.provider, c.model)
    case Refused(Some(reason)) => NotRetriable(c.provider, c.model, reason)
  }

  /** The whole run, told by the turn that stops it. */
  function RunOutcome(s: Setting): Outcome
    requires |s.candidates| == |s.turns|
  {
    var n := StopIndex(s, 0);
    if |s.candidates| == 0 then Outcome(NoCandidates, s.entries, [])
    else if n == |s.candidates| then Outcome(Exhausted(Attempts(s, n)), EntriesBefore(s, n), Calls(s, n))
    else Outcome(ResultOf(VerdictAt(s, n).why, s.candidates[n], Attempts(s, n)), EntriesBefore(s, n + 1), Calls(s, n + 1))
  }

  // ---------- The loop ----------

  class FallbackChain {
    const cooldown: CooldownTracker

    constructor (cooldown: CooldownTracker)
      ensures this.cooldown == cooldown
    {
      this.cooldown := cooldown;
    }

    /** The body of the loop. */
    method TakeTurn(candidate: Candidate, turn: Turn) returns (called: bool, verdict: Verdict)
      requires cooldown.Valid() && cooldown.clock <= turn.checkAt <= turn.doneAt
      modifies cooldown
      ensures cooldown.Valid() && cooldown.clock <= turn.doneAt
      ensures called == IsCalled(old(cooldown.entries), candidate, turn)
      ensures verdict == VerdictOf(old(cooldown.entries), candidate, turn)
      ensures cooldown.entries == EntriesAfter(old(cooldown.entries), candidate, turn)
    {
      hide AfterFailure, AfterSuccess;
      called := false;
      if turn.cancelledBefore {
        return called, Stop(ContextCancelled);
      }
      cooldown.SetClock(turn.checkAt);
      var available := cooldown.IsAvailable(candidate.provider);
      if !available {
        return called, GoOn(Attempt(candidate.provider, candidate.model, Some(RateLimit), true));
      }
      called := true;
      cooldown.SetClock(turn.doneAt);
      if turn.result.Answered? {
        cooldown.MarkSuccess(candidate.provider);
        return called, Stop(Answer(turn.result.response));
      }
      if turn.cancelledAfter {
        return called, Stop(ContextCancelled);
      }
      if turn.result.kind.None? || !Retriable(turn.result.kind.value) {
        return called, Stop(Refused(turn.result.kind));
      }
      cooldown.MarkFailure(candidate.provider, turn.result.kind.value);
      return called, GoOn(Attempt(candidate.provider, candidate.model, turn.result.kind, false));
    }

    /** Tries the candidates in order. `calls` lists the run calls made. */
    method Execute(candidates: seq<Candidate>, turns: seq<Turn>) returns (result: ExecResult, calls: seq<Call>)
      requires cooldown.Valid() && SettingOk(Setting(candidates, turns, cooldown.entries), cooldown.clock)
      modifies cooldown
      ensures cooldown.Valid()
      ensures Outcome(result, cooldown.entries, calls) == RunOutcome(Setting(candidates, turns, old(cooldown.entries)))
    {
      hide EntriesAfter, VerdictOf, IsCalled;
      calls := [];
      if |candidates| == 0 {
        return NoCandidates, calls;
      }
      ghost var s := Setting(candidates, turns, cooldown.entries);
      var attempts: seq<Attempt> := [];
      for i := 0 to |candidates|
        invariant cooldown.Valid() && cooldown.entries == EntriesBefore(s, i)
        invariant forall j :: i <= j < |turns| ==> cooldown.clock <= turns[j].checkAt
        invariant attempts == Attempts(s, i) && calls == Calls(s, i)
        invariant StopIndex(s, 0) == StopIndex(s, i)
      {
        var called, verdict := TakeTurn(candidates[i], turns[i]);
        if called {
          calls := calls + [Call(i, turns[i].checkAt)];
        }
        if verdict.Stop? {
          return ResultOf(verdict.why, candidates[i], attempts), calls;
        }
        attempts := attempts + [verdict.attempt];
      }
      return Exhausted(attempts), calls;
    }
  }

  // ---------- What every run guarantees ----------

  /** The calls of the first n turns are exactly the called turns, in order. */
  lemma {:induction false} CallsMeans(s: Setting, n: nat)
    requires n <= |s.candidates| == |s.turns|
    ensures forall c :: c in Calls(s, n) ==> c.index < n && CalledAt(s, c.index) && c.at == s.turns[c.index].checkAt
    ensures forall i :: 0 <= i < n && CalledAt(s, i) ==> Call(i, s.turns[i].checkAt) in Calls(s, n)
    ensures forall a, b :: 0 <= a < b < |Calls(s, n)| ==> Calls(s, n)[a].index < Calls(s, n)[b].index
  {
    hide CalledAt;
    if n > 0 {
      CallsMeans(s, n - 1);
      var init := Calls(s, n - 1);
      assert forall a :: 0 <= a < |init| ==> init[a] in init;
      forall i | 0 <= i < n && CalledAt(s, i) ensures Call(i, s.turns[i].checkAt) in Calls(s, n) {
        if i == n - 1 {
          assert Calls(s, n)[|Calls(s, n)| - 1] == Call(i, s.turns[i].checkAt);
        } else {
          assert Call(i, s.turns[i].checkAt) in init;
        }
      }
    }
  }

  /** The turns the run takes: all up to the one that stops it. */
  function TurnsTaken(s: Setting): (m: nat)
    requires |s.candidates| == |s.turns|
    ensures m <= |s.candidates|
  {
    if StopIndex(s, 0) == |s.candidates| then |s.candidates| else StopIndex(s, 0) + 1
  }

  // ---------- What each turn decides ----------

  /** The provider is called: the run is not cancelled, and no cooldown lasts beyond the check. */
  predicate MayCall(e: Entries, p: string, t: Turn) {
    !t.cancelledBefore && (p in e ==> e[p].disabledUntil <= t.checkAt && e[p].cooldownEnd <= t.checkAt)
  }

  /** Turn i is the last one, with this result and this tracker. */
  ghost predicate EndsAt(s: Setting, i: nat, result: ExecResult, entries: Entries)
    requires |s.candidates| == |s.turns|
  {
    TurnsTaken(s) == i + 1 && RunOutcome(s).result == result && RunOutcome(s).entries == entries
  }

  /** After turn i the next candidate has its turn, with this tracker; after the last one all are exhausted. */
  ghost predicate GoesOnWith(s: Setting, i: nat, entries: Entries)
    requires i < |s.candidates| == |s.turns|
  {
    if i + 1 < |s.candidates| then i + 1 < TurnsTaken(s) && EntriesBefore(s, i + 1) == entries
    else EndsAt(s, i, Exhausted(Attempts(s, |s.candidates|)), entries)
  }

  /** What a failed call decides: an abort, an unclassified error or a format error ends the run and leaves the tracker as
      it was; any other failure is recorded, and the run goes on. */
  ghost predicate FailureDecides(s: Setting, i: nat, e: Entries)
    requires i < |s.candidates| == |s.turns| && s.turns[i].result.Failed?
  {
    var c, t := s.candidates[i], s.turns[i];
    if t.cancelledAfter then EndsAt(s, i, Cancelled, e)
    else match t.result.kind
      case None => EndsAt(s, i, Unclassified(c.provider, c.model), e)
      case Some(Format) => EndsAt(s, i, NotRetriable(c.provider, c.model, Format), e)
      case Some(kind) => GoesOnWith(s, i, e[c.provider := AfterFailure(EntryOf(e, c.provider), t.doneAt, kind)])
  }

  /** Every run has a first turn, if there are candidates, and starts with the tracker it is given. */
  lemma {:induction false} RunStarts(s: Setting)
    requires |s.candidates| == |s.turns|
    ensures s.candidates == [] ==> RunOutcome(s) == Outcome(NoCandidates, s.entries, [])
    ensures s.candidates != [] ==> 0 < TurnsTaken(s) && EntriesBefore(s, 0) == s.entries
  {}

  /** Every turn taken, with the tracker before it, decides how the run goes on or ends. */
  lemma {:induction false} TurnDecides(s: Setting, i: nat)
    requires |s.candidates| == |s.turns| && i < TurnsTaken(s)
    ensures var c, t, e := s.candidates[i], s.turns[i], EntriesBefore(s, i);
      && (Call(i, t.checkAt) in RunOutcome(s).calls <==> MayCall(e, c.provider, t))
      && (t.cancelledBefore ==> EndsAt(s, i, Cancelled, e))
      && (!t.cancelledBefore && !MayCall(e, c.provider, t) ==> GoesOnWith(s, i, e))
      && (MayCall(e, c.provider, t) && t.result.Answered? ==>
           EndsAt(s, i, Success(t.result.response, c.provider, c.model, Attempts(s, i)),
                  if c.provider in e then e[c.provider := AfterSuccess(e[c.provider])] else e))
      && (MayCall(e, c.provider, t) && t.result.Failed? ==> FailureDecides(s, i, e))
  {
    hide AfterFailure, AfterSuccess, EntriesBefore, Attempts, Calls;
    CallsMeans(s, TurnsTaken(s));
    assert EntriesBefore(s, i + 1) == EntriesAfter(EntriesBefore(s, i), s.candidates[i], s.turns[i]) by {
      NextEntries(s, i);
    }
    assert CalledAt(s, i) <==> MayCall(EntriesBefore(s, i), s.candidates[i].provider, s.turns[i]);
    assert VerdictAt(s, i).Stop? <==> i == StopIndex(s, 0);
  }

  lemma NextEntries(s: Setting, i: nat)
    requires i < |s.candidates| == |s.turns|
    ensures EntriesBefore(s, i + 1) == EntriesAfter(EntriesBefore(s, i), s.candidates[i], s.turns[i])
  {}

  /** Candidates are called in order, and only while their provider is available. */
  lemma {:induction false} CallsInOrderAndAvailable(s: Setting)
    requires |s.candidates| == |s.turns|
    ensures var calls := RunOutcome(s).calls;
      && (forall a, b :: 0 <= a < b < |calls| ==> calls[a].index < calls[b].index)
      && (forall c :: c in calls ==>
           c.index < |s.candidates| && c.at == s.turns[c.index].checkAt
           && Available(EntryOf(EntriesBefore(s, c.index), s.candidates[c.index].provider), c.at))
  {
    hide EntriesBefore, Available, VerdictAt, Calls, StopIndex;
    CallsMeans(s, TurnsTaken(s));
  }

  ghost predicate Names(attempts: seq<Attempt>, candidates: seq<Candidate>) {
    && |attempts| <= |candidates|
    && forall i :: 0 <= i < |attempts| ==>
         attempts[i].provider == candidates[i].provider && attempts[i].model == candidates[i].model
  }

  lemma {:induction false} AttemptsNameCandidates(s: Setting, n: nat)
    requires n <= |s.candidates| == |s.turns| && forall j :: 0 <= j < n ==> VerdictAt(s, j).GoOn?
    ensures |Attempts(s, n)| == n && Names(Attempts(s, n), s.candidates)
  {
    hide EntriesBefore, VerdictOf;
    if n > 0 {
      AttemptsNameCandidates(s, n - 1);
      GoOnNames(EntriesBefore(s, n - 1), s.candidates[n - 1], s.turns[n - 1]);
      assert VerdictAt(s, n - 1).GoOn?;
    }
  }

  lemma GoOnNames(entries: Entries, c: Candidate, t: Turn)
    ensures VerdictOf(entries, c, t).GoOn? ==>
      var a := VerdictOf(entries, c, t).attempt; a.provider == c.provider && a.model == c.model
  {}

  /** Attempt i is a skip exactly if the provider was cooling down at its check; otherwise it carries the reason of the
      retriable failure. */
  ghost predicate Describes(s: Setting, attempts: seq<Attempt>, i: nat)
    requires i < |attempts| <= |s.candidates| == |s.turns|
  {
    var a, t := attempts[i], s.turns[i];
    && (a.skipped <==> !Available(EntryOf(EntriesBefore(s, i), s.candidates[i].provider), t.checkAt))
    && (if a.skipped then a.reason == Some(RateLimit)
        else t.result == RunResult.Failed(a.reason) && a.reason.Some? && Retriable(a.reason.value))
  }

  lemma {:induction false} AttemptsDescribe(s: Setting, n: nat, i: nat)
    requires i < n <= |s.candidates| == |s.turns| && forall j :: 0 <= j < n ==> VerdictAt(s, j).GoOn?
    ensures |Attempts(s, n)| == n && Describes(s, Attempts(s, n), i)
  {
    hide EntriesBefore, Available;
    AttemptsNameCandidates(s, n);
    AttemptsNameCandidates(s, n - 1);
    assert VerdictAt(s, n - 1).GoOn?;
    if i < n - 1 {
      AttemptsDescribe(s, n - 1, i);
      assert Attempts(s, n)[i] == Attempts(s, n - 1)[i];
    } else {
      assert Attempts(s, n)[i] == VerdictAt(s, i).attempt;
    }
  }

  /** Success at index i reports exactly the i candidates before it and clears the provider's cooldown; exhaustion
      reports every candidate. */
  lemma {:induction false} ReportsAreComplete(s: Setting)
    requires |s.candidates| == |s.turns|
    ensures var o, i := RunOutcome(s), StopIndex(s, 0);
      && (o.result.Success? ==>
           && i < |s.candidates| && o.result.provider == s.candidates[i].provider && o.result.model == s.candidates[i].model
           && |o.result.attempts| == i && Names(o.result.attempts, s.candidates)
           && (forall k :: 0 <= k < i ==> Describes(s, o.result.attempts, k))
           && EntryOf(o.entries, o.result.provider).errorCount == 0
           && forall t :: Available(EntryOf(o.entries, o.result.provider), t))
      && (o.result.Exhausted? ==>
           && |o.result.attempts| == |s.candidates| && Names(o.result.attempts, s.candidates)
           && (forall k :: 0 <= k < |s.candidates| ==> Describes(s, o.result.attempts, k)))
  {
    var o, i := RunOutcome(s), StopIndex(s, 0);
    AttemptsNameCandidates(s, i);
    forall k | 0 <= k < i ensures Describes(s, Attempts(s, i), k) {
      AttemptsDescribe(s, i, k);
    }
    if o.result.Success? {
      var p, before := s.candidates[i].provider, EntriesBefore(s, i);
      assert VerdictAt(s, i).why.Answer?;
      assert CalledAt(s, i);
      assert EntryOf(o.entries, p) == if p in before then AfterSuccess(before[p]) else NEW_ENTRY;
    }
  }

  /** Unclassified, non-retriable and cancelled turns leave the tracker as it was before them. */
  lemma {:induction false} UnrecordedFailures(s: Setting)
    requires |s.candidates| == |s.turns|
    ensures var o := RunOutcome(s);
      o.result.Unclassified? || o.result.NotRetriable? || o.result.Cancelled? ==>
        o.entries == EntriesBefore(s, StopIndex(s, 0))
  {
    var n := StopIndex(s, 0);
    if n < |s.candidates| {
      assert VerdictAt(s, n).Stop?;
    }
  }

  /** Only called providers change. */
  lemma {:induction false} EntriesStayOk(s: Setting, start: Time, i: nat)
    requires SettingOk(s, start) && i <= |s.candidates|
    requires forall j :: 0 <= j < i ==> VerdictAt(s, j).GoOn?
    ensures EntriesOk(EntriesBefore(s, i), if i == 0 then start else s.turns[i - 1].doneAt)
  {
    hide EntryOk, AfterFailure, Available;
    if i > 0 {
      EntriesStayOk(s, start, i - 1);
      assert VerdictAt(s, i - 1).GoOn?;
      var before, c, t := EntriesBefore(s, i - 1), s.candidates[i - 1], s.turns[i - 1];
      assert i > 1 ==> s.turns[i - 2].doneAt <= t.checkAt;
      if IsCalled(before, c, t) {
        NewEntryOk();
        FailureNeverShortens(EntryOf(before, c.provider), t.doneAt, VerdictAt(s, i - 1).attempt.reason.value);
      }
    }
  }

  /** Between two turns of a run, cooldowns only grow. */
  lemma {:induction false} RunNeverShortens(s: Setting, start: Time, i: nat, j: nat, p: string)
    requires SettingOk(s, start) && i <= j <= |s.candidates|
    requires forall k :: 0 <= k < j ==> VerdictAt(s, k).GoOn?
    ensures BlockedUntil(EntryOf(EntriesBefore(s, i), p)) <= BlockedUntil(EntryOf(EntriesBefore(s, j), p))
    decreases j
  {
    hide EntryOk, AfterFailure, Available;
    if i < j {
      RunNeverShortens(s, start, i, j - 1, p);
      EntriesStayOk(s, start, j - 1);
      assert VerdictAt(s, j - 1).GoOn?;
      var before, c, t := EntriesBefore(s, j - 1), s.candidates[j - 1], s.turns[j - 1];
      assert j > 1 ==> s.turns[j - 2].doneAt <= t.checkAt;
      if IsCalled(before, c, t) {
        NewEntryOk();
        FailureNeverShortens(EntryOf(before, c.provider), t.doneAt, VerdictAt(s, j - 1).attempt.reason.value);
      }
    }
  }

  /** A turn that calls a provider, and after which the run goes on, records a retriable failure of that provider. */
  lemma {:induction false} RecordsFailure(s: Setting, i: nat)
    requires i < |s.candidates| == |s.turns| && CalledAt(s, i) && VerdictAt(s, i).GoOn?
    ensures var t, p := s.turns[i], s.candidates[i].provider;
      && t.result.Failed? && t.result.kind.Some?
      && EntryOf(EntriesBefore(s, i + 1), p)
         == AfterFailure(EntryOf(EntriesBefore(s, i), p), t.doneAt, t.result.kind.value)
  {
    hide AfterFailure, Available;
  }

  /** A provider called in two turns was available in the second, and the run went on after the first. */
  lemma {:induction false} CalledTwice(s: Setting, i: nat, j: nat)
    requires i < j < |s.candidates| == |s.turns|
    requires Call(i, s.turns[i].checkAt) in RunOutcome(s).calls && Call(j, s.turns[j].checkAt) in RunOutcome(s).calls
    ensures CalledAt(s, i) && CalledAt(s, j)
    ensures forall k :: 0 <= k < j ==> VerdictAt(s, k).GoOn?
  {
    hide CalledAt, VerdictAt, EntriesBefore;
    CallsMeans(s, TurnsTaken(s));
    assert j < TurnsTaken(s);
  }

  /** A provider that failed retriably in this run is not called again before its new cooldown has passed, which takes
      at least a minute. */
  lemma {:induction false} FailedProviderCoolsDown(s: Setting, start: Time, i: nat, j: nat)
    requires SettingOk(s, start) && i < j < |s.candidates|
    requires s.candidates[i].provider == s.candidates[j].provider
    requires Call(i, s.turns[i].checkAt) in RunOutcome(s).calls && Call(j, s.turns[j].checkAt) in RunOutcome(s).calls
    ensures var t := s.turns[i];
      && t.result.Failed? && t.result.kind.Some?
      && s.turns[j].checkAt >= BlockedUntil(AfterFailure(EntryOf(EntriesBefore(s, i), s.candidates[i].provider), t.doneAt,
                                                        t.result.kind.value))
      && s.turns[j].checkAt >= t.doneAt + HOUR / 60
  {
    hide AfterFailure, Available, BlockedUntil, EntryOk, VerdictAt, EntriesBefore, RunOutcome;
    var p, t := s.candidates[i].provider, s.turns[i];
    CalledTwice(s, i, j);
    RecordsFailure(s, i);
    RunNeverShortens(s, start, i + 1, j, p);
    AvailableIff(EntryOf(EntriesBefore(s, j), p), s.turns[j].checkAt);
    FailureBlocksAMinute(EntryOf(EntriesBefore(s, i), p), t.doneAt, t.result.kind.value);
  }

  lemma {:induction false} FailureBlocksAMinute(e: Entry, now: Time, reason: Reason)
    ensures BlockedUntil(AfterFailure(e, now, reason)) >= now + HOUR / 60
  {
    hide AfterFailure;
    var t := now + HOUR / 60 - 1;
    FailureBlocks(e, now, reason, t);
    AvailableIff(AfterFailure(e, now, reason), t);
  }
}
