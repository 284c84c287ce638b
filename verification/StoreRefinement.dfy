/** Without crashes and undecodable lines the session log is a plain message sequence with a summary. */
module StoreRefinement {
  import opened Common
  import opened SessionStore
  import opened CrashSafety

  datatype Conversation = Conversation(messages: seq<Entry>, summary: string)

  function Apply(op: Op, c: Conversation): Conversation {
    match op
    case Add(e) => c.(messages := c.messages + [e])
    case SetSummary(s) => c.(summary := s)
    case Truncate(keepLast) => c.(messages := Last(c.messages, keepLast))
    case SetHistory(entries) => c.(messages := entries)
    case Compact => c
  }

  function ApplyAll(ops: seq<Op>, c: Conversation): Conversation {
    if ops == [] then c else Apply(ops[|ops| - 1], ApplyAll(ops[..|ops| - 1], c))
  }

  function AfterAll(ops: seq<Op>, d: Disk): Disk {
    if ops == [] then d else After(ops[|ops| - 1], AfterAll(ops[..|ops| - 1], d))
  }

  function Abstraction(d: Disk): Conversation {
    Conversation(History(d), d.meta.summary)
  }

  predicate Clean(d: Disk) {
    && !d.open
    && (forall l :: l in d.lines ==> l.Good? && Small(l.entry))
    && d.meta.skip <= |d.lines|
  }

  lemma {:induction false} CleanLines(lines: seq<Line>)
    requires forall l :: l in lines ==> l.Good?
    ensures NonEmpty(lines) == lines && |Records(lines)| == |lines|
    ensures forall i :: 0 <= i < |lines| ==> Records(lines)[i] == lines[i].entry
  {
    if lines != [] {
      CleanLines(lines[1..]);
    }
  }

  lemma {:induction false} CleanHistory(d: Disk)
    requires Clean(d)
    ensures Readable(d) && DiskOk(d) && NonEmpty(d.lines) == d.lines
    ensures |History(d)| == |d.lines| - d.meta.skip
    ensures forall i :: 0 <= i < |History(d)| ==> d.lines[d.meta.skip + i] == Good(History(d)[i])
  {
    CleanLines(d.lines);
    CleanLines(d.lines[d.meta.skip..]);
  }

  lemma {:induction false} RecordsOfLast(lines: seq<Line>, keepLast: int)
    requires forall l :: l in lines ==> l.Good?
    ensures Records(Last(lines, keepLast)) == Last(Records(lines), keepLast)
  {
    CleanLines(lines);
    if 0 < keepLast <= |lines| {
      var n := |lines| - keepLast;
      assert lines == lines[..n] + lines[n..];
      RecordsConcat(lines[..n], lines[n..]);
      CleanLines(lines[..n]);
    }
  }

  /** A file rewritten from small records is clean. */
  lemma {:induction false} RewrittenIsClean(d: Disk, entries: seq<Entry>)
    requires forall e :: e in entries ==> Small(e)
    ensures Clean(d.(lines := Encode(entries), open := false, meta := d.meta.(skip := 0, count := |entries|)))
  {
    assert forall l :: l in Encode(entries) ==> l.Good? && l.entry in entries;
  }

  lemma {:induction false} AppendStaysClean(d: Disk, e: Entry)
    requires Clean(d) && Small(e)
    ensures forall w :: w in Writes(Add(e), d) ==> Clean(w)
  {
    assert AppendLine(d.lines, d.open, Good(e)) == d.lines + [Good(e)];
  }

  lemma {:induction false} CompactStaysClean(d: Disk)
    requires Clean(d)
    ensures forall w :: w in Writes(Compact, d) ==> Clean(w)
  {
    hide Encode;
    HistoryIsOnDisk(d);
    RewrittenIsClean(d, History(d));
  }

  /** Every write of an operation on small records leaves a clean session. */
  lemma {:induction false} WritesStayClean(op: Op, d: Disk)
    requires Clean(d) && SmallOp(op)
    ensures forall w :: w in Writes(op, d) ==> Clean(w)
  {
    CleanHistory(d);
    match op {
      case Add(e) =>
        AppendStaysClean(d, e);
      case SetHistory(entries) =>
        hide NonEmpty, Records, Encode;
        RewrittenIsClean(d, entries);
      case Compact =>
        CompactStaysClean(d);
      case _ =>
        hide NonEmpty, Records, History;
    }
  }

  /** Over every run with small records and crashes between any two writes the session stays clean, so it can be
      read. */
  lemma {:induction false} RunsStayClean(events: seq<Event>)
    requires WholeWrites(events) && forall ev :: ev in events ==> SmallOp(ev.op)
    ensures Clean(Run(EMPTY, events)) && Reads(Run(EMPTY, events)).Some?
  {
    if events != [] {
      var init, ev := events[..|events| - 1], events[|events| - 1];
      assert ev in events;
      RunsStayClean(init);
      WritesStayClean(ev.op, Run(EMPTY, init));
    }
    CleanHistory(Run(EMPTY, events));
  }

  lemma {:induction false} StepRefines(op: Op, d: Disk)
    requires Clean(d) && SmallOp(op)
    ensures Succeeds(op, d) && Clean(After(op, d))
    ensures Abstraction(After(op, d)) == Apply(op, Abstraction(d))
  {
    WritesStayClean(op, d);
    CleanHistory(d);
    AfterIsIntended(op, d);
    if op.Truncate? {
      RecordsOfLast(Live(d), op.keepLast);
    }
  }

  /** Every operation sequence on an empty session reads like the same operations on (messages, summary). */
  lemma {:induction false} StoreRefinesConversation(ops: seq<Op>)
    requires forall op :: op in ops ==> SmallOp(op)
    ensures Clean(AfterAll(ops, EMPTY))
    ensures Abstraction(AfterAll(ops, EMPTY)) == ApplyAll(ops, Conversation([], ""))
  {
    if ops == [] {
      assert Live(EMPTY) == [];
    } else {
      StoreRefinesConversation(ops[..|ops| - 1]);
      assert ops[|ops| - 1] in ops;
      StepRefines(ops[|ops| - 1], AfterAll(ops[..|ops| - 1], EMPTY));
    }
  }

  predicate EqualButCount(d: Disk, e: Disk) {
    d == e.(meta := e.meta.(count := d.meta.count))
  }

  /** A stale count is never read: two sessions that differ in it stay alike through every run, crashes included. */
  lemma {:induction false} CountIsNeverRead(d: Disk, e: Disk, events: seq<Event>)
    requires EqualButCount(d, e)
    ensures var d', e' := Run(d, events), Run(e, events);
      EqualButCount(d', e') && Reads(d') == Reads(e')
  {
    if events != [] {
      var init, ev := events[..|events| - 1], events[|events| - 1];
      CountIsNeverRead(d, e, init);
      WritesIgnoreCount(ev.op, Run(d, init), Run(e, init));
    }
  }

  lemma {:induction false} WritesIgnoreCount(op: Op, d: Disk, e: Disk)
    requires EqualButCount(d, e)
    ensures |Writes(op, d)| == |Writes(op, e)|
    ensures forall i :: 0 <= i < |Writes(op, d)| ==> EqualButCount(Writes(op, d)[i], Writes(op, e)[i])
  {
    assert d.lines == e.lines && History(d) == History(e) && Readable(d) == Readable(e);
    var v, w := Writes(op, d), Writes(op, e);
    assert |v| == |w|;
    if |v| > 0 {
      assert EqualButCount(v[0], w[0]);
      if |v| > 1 {
        assert EqualButCount(v[1], w[1]);
      }
    }
  }

  // ---------- What is on disk besides the history ----------

  predicate CountOk(d: Disk) {
    d.meta.count == |NonEmpty(d.lines)|
  }

  lemma {:induction false} OpKeepsCount(op: Op, d: Disk)
    requires !d.open && DiskOk(d) && CountOk(d)
    ensures !After(op, d).open && DiskOk(After(op, d)) && CountOk(After(op, d))
  {
    hide NonEmpty, Records, Encode;
    WritesKeepDiskOk(op, d);
    match op {
      case Add(e) =>
        SnocLine(d.lines, Good(e), 0);
      case SetHistory(entries) =>
        EncodeDecodes(entries);
        EncodedSize(entries);
      case Compact =>
        EncodeDecodes(History(d));
        EncodedSize(History(d));
      case _ =>
    }
  }

  lemma EncodedSize(entries: seq<Entry>)
    ensures |Encode(entries)| == |entries|
  {}

  /** Without crashes the stored count is the number of lines, whatever the operations and their sizes. */
  lemma {:induction false} CountIsExact(ops: seq<Op>)
    ensures var d := AfterAll(ops, EMPTY); !d.open && DiskOk(d) && CountOk(d)
  {
    if ops != [] {
      CountIsExact(ops[..|ops| - 1]);
      OpKeepsCount(ops[|ops| - 1], AfterAll(ops[..|ops| - 1], EMPTY));
    }
  }

  /** A count made stale by a crash is set right by the next truncation, replacement or compaction that does anything. */
  lemma {:induction false} CountHeals(op: Op, d: Disk)
    requires op.Truncate? || op.SetHistory? || (op.Compact? && d.meta.skip > 0)
    requires Succeeds(op, d)
    ensures CountOk(After(op, d))
  {
    hide NonEmpty, Records, Encode;
    if op.SetHistory? {
      EncodeDecodes(op.entries);
      EncodedSize(op.entries);
    } else if op.Compact? {
      EncodeDecodes(History(d));
      EncodedSize(History(d));
    }
  }

  /** Compaction leaves one line for each live message and nothing else in the file. */
  lemma {:induction false} CompactionReclaims(d: Disk)
    requires Succeeds(Compact, d)
    ensures d.meta.skip == 0 ==> After(Compact, d) == d
    ensures d.meta.skip > 0 ==>
      var c := After(Compact, d);
      && c.meta.skip == 0 && !c.open && |c.lines| == |History(d)|
      && forall i :: 0 <= i < |c.lines| ==> c.lines[i] == Good(History(d)[i])
  {
    hide History;
  }

  /** Truncation is logical: no line is touched, and as many lines as asked for stay live, if there are so many. */
  lemma {:induction false} TruncationIsLogical(d: Disk, keepLast: int)
    requires DiskOk(d) && Succeeds(Truncate(keepLast), d)
    ensures var c, n := After(Truncate(keepLast), d), |Live(d)|;
      && c.lines == d.lines && c.open == d.open
      && |Live(c)| == (if keepLast <= 0 then 0 else if keepLast < n then keepLast else n)
      && Live(c) == Live(d)[n - |Live(c)|..]
  {
    hide NonEmpty;
    LastOfLive(d, keepLast);
  }

  /** Wherever an operation stops, the summary is the old one, or the new one of an operation that sets it. */
  lemma {:induction false} CrashKeepsSummary(op: Op, d: Disk, p: Point)
    ensures var c := CrashDisk(op, d, p);
      c.meta.summary == d.meta.summary || (op.SetSummary? && c.meta.summary == op.summary)
    ensures op.SetSummary? ==> After(op, d) == d.(meta := d.meta.(summary := op.summary))
  {
    hide NonEmpty, Records, Encode, AppendLine;
    var w := Writes(op, d);
    assert |w| <= 2;
    assert forall i :: 0 <= i < |w| ==> w[i].meta.summary == d.meta.summary || op.SetSummary?;
  }
}
