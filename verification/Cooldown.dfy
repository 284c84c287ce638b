/** Per-provider cooldowns with capped exponential backoff: pkg/providers/cooldown.go. */
module Cooldown {

  /** Nanoseconds; 0 is Go's zero time. */
  type Time = nat

  const MILLISECOND := 1_000_000
  const HOUR := 3_600_000 * MILLISECOND
  const FAILURE_WINDOW := 24 * HOUR

  datatype Reason = Auth | RateLimit | Billing | Timeout | Format | Overloaded | Unknown

  datatype Entry = Entry(
    errorCount: nat,
    failureCounts: map<Reason, nat>,
    cooldownEnd: Time,
    disabledUntil: Time,
    disabledReason: string,
    lastFailure: Time)

  const NEW_ENTRY := Entry(0, map[], 0, 0, "", 0)

  type Entries = map<string, Entry>

  function EntryOf(entries: Entries, provider: string): Entry {
    if provider in entries then entries[provider] else NEW_ENTRY
  }

  function CountOf(counts: map<Reason, nat>, r: Reason): nat {
    if r in counts then counts[r] else 0
  }

  /** The sum of all failure counts. */
  function Total(counts: map<Reason, nat>): nat {
    CountOf(counts, Auth) + CountOf(counts, RateLimit) + CountOf(counts, Billing) + CountOf(counts, Timeout)
    + CountOf(counts, Format) + CountOf(counts, Overloaded) + CountOf(counts, Unknown)
  }

  // ---------- Backoff ----------

  function Pow(b: nat, e: nat): nat {
    if e == 0 then 1 else b * Pow(b, e - 1)
  }

  function Min(a: int, b: int): int {
    if a < b then a else b
  }

  function Max(a: int, b: int): int {
    if a > b then a else b
  }

  function StandardCooldown(errorCount: int): nat {
    var exp := Min(Max(1, errorCount) - 1, 3);
    Min(3_600_000, 60_000 * Pow(5, exp)) * MILLISECOND
  }

  function BillingCooldown(count: int): nat {
    var exp := Min(Max(1, count) - 1, 10);
    Min(24 * 60 * 60 * 1000, 5 * 60 * 60 * 1000 * Pow(2, exp)) * MILLISECOND
  }

  /** The documented table: 1, 5, 25 minutes, then an hour. */
  lemma {:induction false} StandardTable(n: int)
    ensures StandardCooldown(n) == (if n <= 1 then HOUR / 60 else if n == 2 then HOUR / 12
                                    else if n == 3 then 25 * HOUR / 60 else HOUR)
  {
    assert Pow(5, 0) == 1 && Pow(5, 1) == 5 && Pow(5, 2) == 25 && Pow(5, 3) == 5 * Pow(5, 2) == 125;
  }

  /** The documented table: 5, 10, 20 hours, then a day. */
  lemma {:induction false} BillingTable(n: int)
    ensures BillingCooldown(n) == (if n <= 1 then 5 * HOUR else if n == 2 then 10 * HOUR
                                   else if n == 3 then 20 * HOUR else 24 * HOUR)
  {
    assert Pow(2, 0) == 1 && Pow(2, 1) == 2 && Pow(2, 2) == 2 * Pow(2, 1) == 4 && Pow(2, 3) == 2 * Pow(2, 2) == 8;
    var exp := Min(Max(1, n) - 1, 10);
    if exp >= 3 {
      PowGrows(3, exp);
    }
  }

  lemma {:induction false} PowGrows(a: nat, b: nat)
    requires a <= b
    ensures Pow(2, a) <= Pow(2, b)
  {
    if a < b {
      PowGrows(a, b - 1);
    }
  }

  lemma {:induction false} BackoffIsMonotone(m: int, n: int)
    requires m <= n
    ensures StandardCooldown(m) <= StandardCooldown(n) <= HOUR
    ensures BillingCooldown(m) <= BillingCooldown(n) <= FAILURE_WINDOW
  {
    StandardTable(m);
    StandardTable(n);
    BillingTable(m);
    BillingTable(n);
  }

  // ---------- One entry ----------

  /** Counters restart when the last failure is more than a window ago. */
  function Restarted(e: Entry, now: Time): Entry {
    if e.lastFailure != 0 && now - e.lastFailure > FAILURE_WINDOW then e.(errorCount := 0, failureCounts := map[]) else e
  }

  function Counted(e: Entry, now: Time, reason: Reason): Entry {
    e.(errorCount := e.errorCount + 1, failureCounts := e.failureCounts[reason := CountOf(e.failureCounts, reason) + 1],
       lastFailure := now)
  }

  /** What a failure does to an entry. */
  function AfterFailure(e: Entry, now: Time, reason: Reason): Entry {
    var c := Counted(Restarted(e, now), now, reason);
    if reason == Billing then
      c.(disabledUntil := now + BillingCooldown(c.failureCounts[Billing]), disabledReason := "billing")
    else c.(cooldownEnd := now + StandardCooldown(c.errorCount))
  }

  function AfterSuccess(e: Entry): Entry {
    e.(errorCount := 0, failureCounts := map[], cooldownEnd := 0, disabledUntil := 0, disabledReason := "")
  }

  predicate Available(e: Entry, now: Time) {
    && !(e.disabledUntil != 0 && now < e.disabledUntil)
    && !(e.cooldownEnd != 0 && now < e.cooldownEnd)
  }

  /** The later of the two ends: the first moment at which the provider is available. */
  function BlockedUntil(e: Entry): Time {
    Max(e.disabledUntil, e.cooldownEnd)
  }

  lemma AvailableIff(e: Entry, now: Time)
    ensures Available(e, now) <==> now >= BlockedUntil(e)
  {}

  /** The backoff an entry has earned. */
  function BillingBackoff(e: Entry): nat {
    var n := CountOf(e.failureCounts, Billing);
    if n == 0 then 0 else BillingCooldown(n)
  }

  function StandardBackoff(e: Entry): nat {
    if e.errorCount == 0 then 0 else StandardCooldown(e.errorCount)
  }

  /** No cooldown outlives `at` by more than the backoff. */
  predicate Bounded(e: Entry, at: Time) {
    e.disabledUntil <= at + BillingBackoff(e) && e.cooldownEnd <= at + StandardBackoff(e)
  }

  /** Counters are consistent, and no cooldown outlives the last failure by more than its backoff. */
  predicate EntryOk(e: Entry) {
    e.errorCount == Total(e.failureCounts) && Bounded(e, e.lastFailure)
  }

  lemma {:induction false} CountAdds(counts: map<Reason, nat>, r: Reason)
    ensures Total(counts[r := CountOf(counts, r) + 1]) == Total(counts) + 1
  {
    var more := counts[r := CountOf(counts, r) + 1];
    assert forall x :: CountOf(more, x) == CountOf(counts, x) + if x == r then 1 else 0;
    hide CountOf;
  }

  /** Before the reset window has passed nothing changes; after it, every earlier cooldown is over. */
  lemma {:induction false} RestartKeepsBounds(e: Entry, now: Time)
    requires EntryOk(e) && e.lastFailure <= now
    ensures var r := Restarted(e, now);
      && r.errorCount == Total(r.failureCounts) && Bounded(r, now)
      && r.disabledUntil == e.disabledUntil && r.cooldownEnd == e.cooldownEnd
  {
    hide StandardCooldown, BillingCooldown;
    var n := CountOf(e.failureCounts, Billing);
    BackoffIsMonotone(n, n);
    BackoffIsMonotone(e.errorCount, e.errorCount);
    assert Total(map[]) == 0;
  }

  lemma {:induction false} CountingRaisesBackoff(e: Entry, now: Time, reason: Reason)
    requires e.errorCount == Total(e.failureCounts)
    ensures var c := Counted(e, now, reason);
      && c.errorCount == Total(c.failureCounts)
      && BillingBackoff(e) <= BillingBackoff(c) && StandardBackoff(e) <= StandardBackoff(c)
      && StandardBackoff(c) == StandardCooldown(c.errorCount)
      && (reason == Billing ==> BillingBackoff(c) == BillingCooldown(c.failureCounts[Billing]))
  {
    hide StandardCooldown, BillingCooldown;
    CountAdds(e.failureCounts, reason);
    var n := CountOf(e.failureCounts, Billing);
    BackoffIsMonotone(n, n + 1);
    BackoffIsMonotone(e.errorCount, e.errorCount + 1);
  }

  /** A failure keeps the invariant and never moves an end of a cooldown earlier, even across a window reset. */
  lemma {:induction false} FailureNeverShortens(e: Entry, now: Time, reason: Reason)
    requires EntryOk(e) && e.lastFailure <= now
    ensures var f := AfterFailure(e, now, reason);
      && EntryOk(f) && f.lastFailure == now
      && e.disabledUntil <= f.disabledUntil && e.cooldownEnd <= f.cooldownEnd
  {
    hide StandardCooldown, BillingCooldown, Total;
    RestartKeepsBounds(e, now);
    CountingRaisesBackoff(Restarted(e, now), now, reason);
  }

  /** After a failure the provider is unavailable for at least a minute. */
  lemma {:induction false} FailureBlocks(e: Entry, now: Time, reason: Reason, t: Time)
    requires now <= t < now + HOUR / 60
    ensures !Available(AfterFailure(e, now, reason), t)
  {
    var c := Counted(Restarted(e, now), now, reason);
    StandardTable(c.errorCount);
    BillingTable(c.failureCounts[reason]);
  }

  lemma NewEntryOk()
    ensures EntryOk(NEW_ENTRY)
  {}

  lemma SuccessClears(e: Entry, now: Time)
    ensures EntryOk(AfterSuccess(e)) && Available(AfterSuccess(e), now)
  {}

  // ---------- The tracker ----------

  class CooldownTracker {
    var entries: Entries
    var clock: Time

    constructor ()
      ensures entries == map[]
    {
      entries, clock := map[], 0;
    }

    /** All entries are consistent and no failure lies in the future. */
    ghost predicate Valid()
      reads this
    {
      EntriesOk(entries, clock)
    }

    /** nowFunc: time never runs backwards. */
    method SetClock(now: Time)
      requires Valid() && clock <= now
      modifies `clock
      ensures Valid() && clock == now
    {
      clock := now;
    }

    method MarkFailure(provider: string, reason: Reason)
      requires Valid()
      modifies `entries
      ensures Valid() && entries == old(entries)[provider := AfterFailure(EntryOf(old(entries), provider), clock, reason)]
    {
      hide EntryOk, AfterFailure;
      var e := EntryOf(entries, provider);
      NewEntryOk();
      FailureNeverShortens(e, clock, reason);
      e := RecordFailure(e, clock, reason);
      entries := entries[provider := e];
    }

    static method RecordFailure(entry: Entry, now: Time, reason: Reason) returns (e: Entry)
      ensures e == AfterFailure(entry, now, reason)
    {
      hide StandardCooldown, BillingCooldown;
      e := entry;
      if e.lastFailure != 0 && now - e.lastFailure > FAILURE_WINDOW {
        e := e.(errorCount := 0, failureCounts := map[]);
      }
      e := e.(errorCount := e.errorCount + 1);
      e := e.(failureCounts := e.failureCounts[reason := CountOf(e.failureCounts, reason) + 1]);
      e := e.(lastFailure := now);
      if reason == Billing {
        e := e.(disabledUntil := now + BillingCooldown(e.failureCounts[Billing]));
        e := e.(disabledReason := "billing");
      } else {
        e := e.(cooldownEnd := now + StandardCooldown(e.errorCount));
      }
    }

    method MarkSuccess(provider: string)
      requires Valid()
      modifies `entries
      ensures Valid()
      ensures entries == if provider in old(entries) then old(entries)[provider := AfterSuccess(old(entries)[provider])]
                         else old(entries)
    {
      if provider !in entries {
        return;
      }
      SuccessClears(entries[provider], clock);
      entries := entries[provider := AfterSuccess(entries[provider])];
    }

    method IsAvailable(provider: string) returns (ok: bool)
      ensures ok == Available(EntryOf(entries, provider), clock)
      ensures provider !in entries ==> ok
      ensures provider in entries ==>
        (ok <==> entries[provider].disabledUntil <= clock && entries[provider].cooldownEnd <= clock)
    {
      if provider !in entries {
        return true;
      }
      var e := entries[provider];
      if e.disabledUntil != 0 && clock < e.disabledUntil {
        return false;
      }
      if e.cooldownEnd != 0 && clock < e.cooldownEnd {
        return false;
      }
      return true;
    }

    /** How long until the provider is available; zero exactly when it is. */
    method CooldownRemaining(provider: string) returns (remaining: nat)
      ensures remaining == Max(0, BlockedUntil(EntryOf(entries, provider)) - clock)
      ensures remaining == 0 <==> Available(EntryOf(entries, provider), clock)
      ensures provider !in entries ==> remaining == 0
      ensures provider in entries ==>
        var e := entries[provider];
        && e.disabledUntil <= clock + remaining && e.cooldownEnd <= clock + remaining
        && (remaining == 0 || clock + remaining == e.disabledUntil || clock + remaining == e.cooldownEnd)
    {
      AvailableIff(EntryOf(entries, provider), clock);
      if provider !in entries {
        return 0;
      }
      var e := entries[provider];
      remaining := 0;
      if e.disabledUntil != 0 && clock < e.disabledUntil {
        var d := e.disabledUntil - clock;
        if d > remaining {
          remaining := d;
        }
      }
      if e.cooldownEnd != 0 && clock < e.cooldownEnd {
        var d := e.cooldownEnd - clock;
        if d > remaining {
          remaining := d;
        }
      }
    }
  }

  ghost predicate EntriesOk(entries: Entries, now: Time) {
    forall p :: p in entries ==> EntryOk(entries[p]) && entries[p].lastFailure <= now
  }

  // ---------- Whole histories of one provider ----------

  datatype Outcome = Failed(at: Time, reason: Reason) | Succeeded(at: Time)

  function After(e: Entry, o: Outcome): Entry {
    match o
    case Failed(at, reason) => AfterFailure(e, at, reason)
    case Succeeded(_) => AfterSuccess(e)
  }

  function AfterAll(outcomes: seq<Outcome>): Entry {
    if outcomes == [] then NEW_ENTRY else After(AfterAll(outcomes[..|outcomes| - 1]), outcomes[|outcomes| - 1])
  }

  predicate InTime(outcomes: seq<Outcome>) {
    forall i, j :: 0 <= i < j < |outcomes| ==> outcomes[i].at <= outcomes[j].at
  }

  /** Over every history with a clock that never runs backwards: the invariant holds, and the last failure is not later
      than the last event. */
  lemma {:induction false} HistoryOk(outcomes: seq<Outcome>)
    requires InTime(outcomes)
    ensures EntryOk(AfterAll(outcomes))
    ensures AfterAll(outcomes).lastFailure <= if outcomes == [] then 0 else outcomes[|outcomes| - 1].at
  {
    if outcomes != [] {
      var init, o := outcomes[..|outcomes| - 1], outcomes[|outcomes| - 1];
      HistoryOk(init);
      if o.Failed? {
        FailureNeverShortens(AfterAll(init), o.at, o.reason);
      }
    }
  }

  /** From a failure on, as long as no success comes, the ends of the cooldowns only move later. */
  lemma {:induction false} CooldownsOnlyGrow(outcomes: seq<Outcome>, n: nat)
    requires InTime(outcomes) && n <= |outcomes|
    requires forall i :: n <= i < |outcomes| ==> outcomes[i].Failed?
    ensures var e, f := AfterAll(outcomes[..n]), AfterAll(outcomes);
      e.disabledUntil <= f.disabledUntil && e.cooldownEnd <= f.cooldownEnd
    decreases |outcomes|
  {
    if n == |outcomes| {
      assert outcomes[..n] == outcomes;
    } else {
      var init, o := outcomes[..|outcomes| - 1], outcomes[|outcomes| - 1];
      CooldownsOnlyGrow(init, n);
      assert init[..n] == outcomes[..n];
      HistoryOk(init);
      FailureNeverShortens(AfterAll(init), o.at, o.reason);
    }
  }

  // ---------- The cooldowns of a history, read off its outcomes ----------

  /** Between the two failures more than a day has passed. A failure at the zero time counts as no failure here. */
  predicate TooLate(before: Outcome, o: Outcome) {
    before.at != 0 && o.at > before.at + 24 * HOUR
  }

  /** The last k outcomes are the failures since the last success, or since the last gap of more than a day. */
  ghost predicate IsStreak(outcomes: seq<Outcome>, k: nat) {
    var n := |outcomes|;
    && k <= n
    && (forall i :: n - k <= i < n ==> outcomes[i].Failed?)
    && (forall i :: n - k < i < n ==> !TooLate(outcomes[i - 1], outcomes[i]))
    && (k < n ==> outcomes[n - k - 1].Succeeded? || (0 < k && TooLate(outcomes[n - k - 1], outcomes[n - k])))
  }

  /** How many outcomes are failures for this reason. */
  function NumberOf(outcomes: seq<Outcome>, r: Reason): nat {
    if outcomes == [] then 0
    else
      var o := outcomes[|outcomes| - 1];
      NumberOf(outcomes[..|outcomes| - 1], r) + if o.Failed? && o.reason == r then 1 else 0
  }

  function Newest(outcomes: seq<Outcome>, k: nat): seq<Outcome>
    requires k <= |outcomes|
  {
    outcomes[|outcomes| - k..]
  }

  /** Every history ends in a streak, possibly empty. */
  lemma {:induction false} StreakExists(outcomes: seq<Outcome>) returns (k: nat)
    ensures IsStreak(outcomes, k)
  {
    k := 0;
    if outcomes != [] && outcomes[|outcomes| - 1].Failed? {
      var n := |outcomes| - 1;
      var before := StreakExists(outcomes[..n]);
      k := if 0 < before && TooLate(outcomes[n - 1], outcomes[n]) then 1 else before + 1;
    }
  }

  /** The streak before a failure. */
  lemma {:induction false} StreakBefore(outcomes: seq<Outcome>, k: nat) returns (before: nat)
    requires outcomes != [] && outcomes[|outcomes| - 1].Failed? && IsStreak(outcomes, k)
    ensures 0 < k && IsStreak(outcomes[..|outcomes| - 1], before)
    ensures k == if 0 < before && TooLate(outcomes[|outcomes| - 2], outcomes[|outcomes| - 1]) then 1 else before + 1
  {
    var n := |outcomes| - 1;
    if k > 1 {
      before := k - 1;
      assert forall i :: n - before < i < n ==> !TooLate(outcomes[..n][i - 1], outcomes[..n][i]);
    } else {
      before := StreakExists(outcomes[..n]);
    }
  }

  lemma {:induction false} NewestSnoc(init: seq<Outcome>, o: Outcome, k: nat, r: Reason)
    requires k <= |init|
    ensures NumberOf(Newest(init + [o], k + 1), r) ==
      NumberOf(Newest(init, k), r) + if o.Failed? && o.reason == r then 1 else 0
  {
    var s := Newest(init + [o], k + 1);
    assert s == Newest(init, k) + [o];
    assert s[..|s| - 1] == Newest(init, k);
  }

  /** What the counters hold: the size of the streak, and how often each reason occurs in it. */
  ghost predicate Counts(e: Entry, outcomes: seq<Outcome>, k: nat)
    requires k <= |outcomes|
  {
    && e.errorCount == k
    && (forall r :: CountOf(e.failureCounts, r) == NumberOf(Newest(outcomes, k), r))
    && (0 < k ==> e.lastFailure == outcomes[|outcomes| - 1].at)
  }

  lemma {:induction false} CountsFailure(e: Entry, init: seq<Outcome>, before: nat, at: Time, reason: Reason, k: nat)
    requires before <= |init| && Counts(e, init, before)
    requires k == if 0 < before && TooLate(init[|init| - 1], Failed(at, reason)) then 1 else before + 1
    ensures Counts(Counted(Restarted(e, at), at, reason), init + [Failed(at, reason)], k)
  {
    hide NumberOf, Newest;
    var c, o := Counted(Restarted(e, at), at, reason), Failed(at, reason);
    forall r ensures CountOf(c.failureCounts, r) == NumberOf(Newest(init + [o], k), r) {
      NewestSnoc(init, o, k - 1, r);
      EmptyHasNone(init, r);
    }
  }

  lemma EmptyHasNone(outcomes: seq<Outcome>, r: Reason)
    ensures NumberOf(Newest(outcomes, 0), r) == 0
  {}

  /** The counters can be read off the history: the window reset is part of what a streak is. */
  lemma {:induction false} StreakCounts(outcomes: seq<Outcome>, k: nat)
    requires IsStreak(outcomes, k)
    ensures Counts(AfterAll(outcomes), outcomes, k)
  {
    hide StandardCooldown, BillingCooldown, NumberOf, Newest, TooLate, Counted, Restarted;
    if k == 0 {
      forall r ensures NumberOf(Newest(outcomes, k), r) == 0 {
        EmptyHasNone(outcomes, r);
      }
    } else {
      var n := |outcomes| - 1;
      var init, o := outcomes[..n], outcomes[n];
      var before := StreakBefore(outcomes, k);
      StreakCounts(init, before);
      CountsFailure(AfterAll(init), init, before, o.at, o.reason, k);
      assert outcomes == init + [o];
    }
  }

  /** Over every history that ends in a failure: the end that its reason governs is the backoff of the streak away, the
      other end stays. */
  lemma {:induction false} BackoffOfStreak(outcomes: seq<Outcome>, k: nat)
    requires outcomes != [] && outcomes[|outcomes| - 1].Failed? && IsStreak(outcomes, k)
    ensures 0 < k
    ensures var o, e, was := outcomes[|outcomes| - 1], AfterAll(outcomes), AfterAll(outcomes[..|outcomes| - 1]);
      if o.reason == Billing then
        && e.disabledUntil == o.at + BillingCooldown(NumberOf(Newest(outcomes, k), Billing)) && e.disabledReason == "billing"
        && e.cooldownEnd == was.cooldownEnd
      else
        && e.cooldownEnd == o.at + StandardCooldown(k)
        && e.disabledUntil == was.disabledUntil && e.disabledReason == was.disabledReason
  {
    hide StandardCooldown, BillingCooldown, NumberOf, Newest, IsStreak;
    StreakCounts(outcomes, k);
    var before := StreakBefore(outcomes, k);
  }

  /** The failure at j is the newest one that governs the end in question, and no success came after it. */
  ghost predicate Governs(outcomes: seq<Outcome>, j: nat, billing: bool) {
    && j < |outcomes| && outcomes[j].Failed? && (outcomes[j].reason == Billing <==> billing)
    && forall i :: j < i < |outcomes| ==> outcomes[i].Failed? && (outcomes[i].reason == Billing <==> !billing)
  }

  /** Both ends after every history, read off it: each is set by the newest failure that governs it, by the streak at
      that failure. */
  lemma {:induction false} EndsOfHistory(outcomes: seq<Outcome>, j: nat, billing: bool, k: nat)
    requires Governs(outcomes, j, billing) && IsStreak(outcomes[..j + 1], k)
    ensures var e := AfterAll(outcomes);
      if billing then e.disabledUntil == outcomes[j].at + BillingCooldown(NumberOf(Newest(outcomes[..j + 1], k), Billing))
      else e.cooldownEnd == outcomes[j].at + StandardCooldown(k)
    decreases |outcomes|
  {
    hide StandardCooldown, BillingCooldown, NumberOf, Newest, IsStreak;
    var n := |outcomes| - 1;
    if j == n {
      assert outcomes[..j + 1] == outcomes;
      BackoffOfStreak(outcomes, k);
    } else {
      assert outcomes[..n][..j + 1] == outcomes[..j + 1];
      EndsOfHistory(outcomes[..n], j, billing, k);
    }
  }

  /** An end that no failure governs since the last success, or since the start, is not set. */
  lemma {:induction false} UngovernedEnds(outcomes: seq<Outcome>, billing: bool)
    requires forall j :: 0 <= j < |outcomes| ==> !Governs(outcomes, j, billing)
    ensures if billing then AfterAll(outcomes).disabledUntil == 0 else AfterAll(outcomes).cooldownEnd == 0
  {
    hide StandardCooldown, BillingCooldown;
    if outcomes != [] {
      var n := |outcomes| - 1;
      assert !Governs(outcomes, n, billing);
      if outcomes[n].Failed? {
        forall j | 0 <= j < n ensures !Governs(outcomes[..n], j, billing) {
          assert !Governs(outcomes, j, billing);
        }
        UngovernedEnds(outcomes[..n], billing);
      }
    }
  }
}
