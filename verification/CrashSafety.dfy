/** What a crash between two writes, or inside an append, can do to a session: pkg/memory/jsonl.go. */
module CrashSafety {
  import opened Common
  import opened SessionStore

  // ---------- Runs with crashes ----------

  /** Where an operation stops: after its first k writes, or with n bytes of the appended line on disk. */
  datatype Point = AfterWrites(k: nat) | Torn(n: nat)

  datatype Event = Completes(op: Op) | Crashes(op: Op, point: Point)

  function CrashDisk(op: Op, d: Disk, p: Point): Disk {
    match p
    case AfterWrites(k) =>
      var w := Writes(op, d);
      if k == 0 || w == [] then d else w[(if k < |w| then k else |w|) - 1]
    case Torn(n) =>
      if op.Add? && 0 < n <= op.entry.size then
        var fragment := if n < op.entry.size then Junk(n) else Good(op.entry);
        d.(lines := AppendLine(d.lines, d.open, fragment), open := true)
      else d
  }

  function Step(d: Disk, ev: Event): Disk {
    match ev
    case Completes(op) => After(op, d)
    case Crashes(op, p) => CrashDisk(op, d, p)
  }

  function Run(d: Disk, events: seq<Event>): Disk {
    if events == [] then d else Step(Run(d, events[..|events| - 1]), events[|events| - 1])
  }

  /** `skip` never exceeds the number of lines on disk, and only an existing, non-empty line lacks its newline. */
  predicate DiskOk(d: Disk) {
    && d.meta.skip <= |NonEmpty(d.lines)|
    && (d.open ==> d.lines != [] && Bytes(d.lines[|d.lines| - 1]) > 0)
  }

  predicate IsSuffix<T(==)>(a: seq<T>, b: seq<T>) {
    |a| <= |b| && b[|b| - |a|..] == a
  }

  predicate Small(e: Entry) {
    e.size < MAX_LINE_SIZE
  }

  /** The operation writes no line over the scanner limit. */
  predicate SmallOp(op: Op) {
    match op
    case Add(e) => Small(e)
    case SetHistory(entries) => forall e :: e in entries ==> Small(e)
    case _ => true
  }

  /** The history the operation is meant to leave. */
  function Intended(op: Op, d: Disk): seq<Entry> {
    match op
    case Add(e) => History(d) + [e]
    case Truncate(keepLast) => Records(Last(Live(d), keepLast))
    case SetHistory(entries) => entries
    case _ => History(d)
  }

  // ---------- One append ----------

  /** An append to a file that ends in a newline adds one line; otherwise it spoils the last line. */
  lemma {:induction false} AppendLines(d: Disk, l: Line)
    requires DiskOk(d) && Bytes(l) > 0
    ensures var lines := AppendLine(d.lines, d.open, l);
      if d.open
      then lines != [] && |NonEmpty(d.lines)| > 0
           && NonEmpty(lines) == NonEmpty(d.lines)[..|NonEmpty(d.lines)| - 1] + [lines[|lines| - 1]]
           && lines[|lines| - 1].Junk? && Bytes(lines[|lines| - 1]) > 0
      else NonEmpty(lines) == NonEmpty(d.lines) + [l]
  {
    if d.open {
      var n := |d.lines| - 1;
      var lines := AppendLine(d.lines, d.open, l);
      assert d.lines == d.lines[..n] + [d.lines[n]];
      SnocLine(d.lines[..n], d.lines[n], 0);
      SnocLine(d.lines[..n], lines[n], 0);
      assert lines == d.lines[..n] + [lines[n]];
    } else {
      SnocLine(d.lines, l, 0);
    }
  }

  /** The last line lacks its newline and holds a message that can still be read. */
  predicate EndsLive(d: Disk) {
    d.open && d.lines != [] && d.lines[|d.lines| - 1].Good? && d.meta.skip < |NonEmpty(d.lines)|
  }

  /** The history after a (whole or torn) append. */
  lemma {:induction false} AppendHistory(d: Disk, l: Line)
    requires DiskOk(d) && Bytes(l) > 0
    ensures var h := Records(Drop(NonEmpty(AppendLine(d.lines, d.open, l)), d.meta.skip));
      if EndsLive(d) then |History(d)| > 0 && h == History(d)[..|History(d)| - 1]
      else h == History(d) + (if l.Good? && !d.open then [l.entry] else [])
  {
    hide Records, AppendLine;
    AppendLines(d, l);
    var ne, k := NonEmpty(d.lines), d.meta.skip;
    if d.open {
      LastLine(d);
      var lines := AppendLine(d.lines, d.open, l);
      LastRecord(ne[..|ne| - 1], ne[|ne| - 1], lines[|lines| - 1], k);
      assert ne == ne[..|ne| - 1] + [ne[|ne| - 1]];
    } else {
      assert Drop(ne + [l], k) == Drop(ne, k) + [l];
      RecordsConcat(Drop(ne, k), [l]);
      OneRecord(l);
    }
  }

  lemma OneRecord(l: Line)
    ensures Records([l]) == if l.Good? then [l.entry] else []
  {}

  lemma {:induction false} LastLine(d: Disk)
    requires DiskOk(d) && d.open
    ensures NonEmpty(d.lines) != [] && NonEmpty(d.lines)[|NonEmpty(d.lines)| - 1] == d.lines[|d.lines| - 1]
  {
    var m := |d.lines| - 1;
    assert d.lines == d.lines[..m] + [d.lines[m]];
    SnocLine(d.lines[..m], d.lines[m], 0);
  }

  /** Spoiling the last line loses its record, if it had one that was live. */
  lemma {:induction false} LastRecord(front: seq<Line>, last: Line, spoiled: Line, skip: nat)
    requires skip <= |front| + 1 && spoiled.Junk?
    ensures var h, h' := Records(Drop(front + [last], skip)), Records(Drop(front + [spoiled], skip));
      if last.Good? && skip <= |front| then |h| > 0 && h' == h[..|h| - 1] else h' == h
  {
    if skip <= |front| {
      assert Drop(front + [last], skip) == front[skip..] + [last];
      assert Drop(front + [spoiled], skip) == front[skip..] + [spoiled];
      RecordsConcat(front[skip..], [last]);
      RecordsConcat(front[skip..], [spoiled]);
    } else {
      assert Drop(front + [last], skip) == [] == Drop(front + [spoiled], skip);
    }
  }

  // ---------- Invariants of every run ----------

  lemma {:induction false} WritesKeepDiskOk(op: Op, d: Disk)
    requires DiskOk(d)
    ensures forall w :: w in Writes(op, d) ==> DiskOk(w)
  {
    match op {
      case Add(e) =>
        AppendLines(d, Good(e));
      case SetHistory(entries) =>
        EncodeDecodes(entries);
      case Compact =>
        EncodeDecodes(History(d));
      case _ =>
    }
  }

  lemma {:induction false} StepKeepsDiskOk(d: Disk, ev: Event)
    requires DiskOk(d)
    ensures DiskOk(Step(d, ev))
  {
    WritesKeepDiskOk(ev.op, d);
    if ev.Crashes? && ev.point.Torn? && ev.op.Add? && 0 < ev.point.n <= ev.op.entry.size {
      var n, e := ev.point.n, ev.op.entry;
      AppendLines(d, if n < e.size then Junk(n) else Good(e));
    }
  }

  /** Over every run with crashes anywhere, `skip` never exceeds the number of lines. */
  lemma {:induction false} SkipWithinLines(d: Disk, events: seq<Event>)
    requires DiskOk(d)
    ensures DiskOk(Run(d, events))
  {
    if events != [] {
      SkipWithinLines(d, events[..|events| - 1]);
      StepKeepsDiskOk(Run(d, events[..|events| - 1]), events[|events| - 1]);
    }
  }

  /** Crashes only between whole writes. */
  predicate WholeWrites(events: seq<Event>) {
    forall ev :: ev in events && ev.Crashes? ==> ev.point.AfterWrites?
  }

  /** With crashes only between whole writes, every line keeps its newline. */
  lemma {:induction false} OnlyTornAppendsOpen(d: Disk, events: seq<Event>)
    requires !d.open && WholeWrites(events)
    ensures !Run(d, events).open
  {
    if events != [] {
      OnlyTornAppendsOpen(d, events[..|events| - 1]);
      assert events[|events| - 1] in events;
    }
  }

  // ---------- What an operation leaves ----------

  lemma LastOfLive(d: Disk, keepLast: int)
    requires DiskOk(d)
    ensures var n := |NonEmpty(d.lines)|;
      Drop(NonEmpty(d.lines), TruncatedSkip(n, d.meta.skip, keepLast)) == Last(Live(d), keepLast)
  {}

  /** An operation that succeeds leaves the intended history; an append does so exactly when the file ended in a
      newline. */
  lemma {:induction false} AfterIsIntended(op: Op, d: Disk)
    requires DiskOk(d) && Succeeds(op, d)
    ensures History(After(op, d)) == Intended(op, d) <==> (op.Add? ==> !d.open)
  {
    match op {
      case Add(e) =>
        AppendHistory(d, Good(e));
      case Truncate(keepLast) =>
        LastOfLive(d, keepLast);
      case SetHistory(entries) =>
        EncodeDecodes(entries);
      case Compact =>
        EncodeDecodes(History(d));
      case _ =>
    }
  }

  /** Resetting `skip` only adds messages in front. */
  lemma {:induction false} ResetSkip(d: Disk, count: nat)
    requires DiskOk(d)
    ensures IsSuffix(History(d), History(d.(meta := d.meta.(skip := 0, count := count))))
  {
    var lines, k := NonEmpty(d.lines), d.meta.skip;
    assert Drop(lines, 0) == lines;
    assert lines == lines[..k] + lines[k..];
    RecordsConcat(lines[..k], lines[k..]);
  }

  ghost predicate Safe(op: Op, d: Disk, c: Disk) {
    IsSuffix(History(d), History(c)) || IsSuffix(Intended(op, d), History(c))
  }

  /** An append, whole or torn, is safe exactly when it is not glued to a live message. */
  lemma {:induction false} AppendIsSafeIff(d: Disk, e: Entry, l: Line, c: Disk)
    requires DiskOk(d) && Bytes(l) > 0 && (l.Good? ==> l.entry == e)
    requires c.lines == AppendLine(d.lines, d.open, l) && c.meta.skip == d.meta.skip
    ensures Safe(Add(e), d, c) <==> !EndsLive(d)
  {
    hide Records, NonEmpty, Drop, AppendLine;
    AppendHistory(d, l);
  }

  lemma {:induction false} WritesAreSafe(op: Op, d: Disk, i: nat)
    requires DiskOk(d) && !op.Add? && i < |Writes(op, d)|
    ensures Safe(op, d, Writes(op, d)[i])
  {
    hide Records, NonEmpty, Encode;
    match op {
      case Truncate(keepLast) =>
        LastOfLive(d, keepLast);
      case SetHistory(entries) =>
        ResetSkip(d, |entries|);
        EncodeDecodes(entries);
      case Compact =>
        ResetSkip(d, |History(d)|);
        EncodeDecodes(History(d));
      case SetSummary(summary) =>
        assert History(Writes(op, d)[0]) == History(d);
    }
  }

  /** The event stops with an append glued to a live message. */
  predicate Spoils(op: Op, d: Disk, p: Point) {
    Appended(Crashes(op, p)) > 0 && EndsLive(d)
  }

  /** Wherever an operation stops, the history before it or the history it was meant to leave is a suffix of what is
      there to be read: truncated messages may come back, live ones are not lost. The one exception is an append to a
      file whose last line is a live message without newline. */
  lemma {:induction false} CrashKeepsLiveMessages(op: Op, d: Disk, p: Point)
    requires DiskOk(d)
    ensures Safe(op, d, CrashDisk(op, d, p)) <==> !Spoils(op, d, p)
    ensures Reads(CrashDisk(op, d, p)).Some? <==>
      Fits(d, Crashes(op, p)) && (Replaces(Crashes(op, p)) || Reads(d).Some?)
  {
    StepReadableIff(d, Crashes(op, p));
    var c, m := CrashDisk(op, d, p), |Writes(op, d)|;
    if op.Add? && Appended(Crashes(op, p)) > 0 {
      var e := op.entry;
      AppendIsSafeIff(d, e, if p.Torn? && p.n < e.size then Junk(p.n) else Good(e), c);
    } else if p.AfterWrites? && p.k > 0 && m > 0 {
      WritesAreSafe(op, d, (if p.k < m then p.k else m) - 1);
    } else {
      assert c == d;
    }
  }

  /** The crash guarantee over whole runs from an empty session, with crashes between any two writes. What is left can be
      read exactly if no line over the limit was written since the last replacement of the history. */
  lemma {:induction false} CrashSafe(events: seq<Event>, op: Op, k: nat)
    requires WholeWrites(events)
    ensures var d, crash := Run(EMPTY, events), Crashes(op, AfterWrites(k));
      var c := CrashDisk(op, d, AfterWrites(k));
      && c.meta.skip <= |NonEmpty(c.lines)|
      && Safe(op, d, c)
      && (Reads(c).Some? <==> ShortSinceReplaced(events + [crash]))
  {
    var d, crash := Run(EMPTY, events), Crashes(op, AfterWrites(k));
    SkipWithinLines(EMPTY, events);
    OnlyTornAppendsOpen(EMPTY, events);
    CrashKeepsLiveMessages(op, d, AfterWrites(k));
    StepKeepsDiskOk(d, crash);
    var all := events + [crash];
    assert all[..|all| - 1] == events && all[|all| - 1] == crash;
    ReadableIffShort(EMPTY, all);
  }

  lemma {:induction false} SmallIsShort(events: seq<Event>)
    requires forall ev :: ev in events ==> SmallOp(ev.op)
    ensures ShortSinceReplaced(events)
  {
    forall i | 0 <= i < |events| ensures WritesShort(events[i]) {
      assert events[i] in events;
    }
  }

  lemma NothingStored()
    ensures Readable(EMPTY)
  {}

  lemma SafeMeans(op: Op, d: Disk, c: Disk)
    requires Safe(op, d, c)
    ensures IsSuffix(History(d), History(c)) || IsSuffix(Intended(op, d), History(c))
  {}

  /** With small records every such crash leaves a session that can be read, and the read finds every live message. */
  lemma {:induction false} CrashReads(events: seq<Event>, op: Op, k: nat)
    requires WholeWrites(events) && SmallOp(op) && forall ev :: ev in events ==> SmallOp(ev.op)
    ensures var d := Run(EMPTY, events);
      var c := CrashDisk(op, d, AfterWrites(k));
      && Reads(d).Some? && Reads(c).Some?
      && (IsSuffix(Reads(d).value, Reads(c).value) || IsSuffix(Intended(op, d), Reads(c).value))
  {
    hide Safe, Intended, History, NonEmpty, Readable, CrashDisk, Run;
    var crash := Crashes(op, AfterWrites(k));
    CrashSafe(events, op, k);
    SmallIsShort(events);
    assert forall ev :: ev in events + [crash] ==> SmallOp(ev.op);
    SmallIsShort(events + [crash]);
    NothingStored();
    ReadableIffShort(EMPTY, events);
    SafeMeans(op, Run(EMPTY, events), CrashDisk(op, Run(EMPTY, events), AfterWrites(k)));
  }

  /** At byte granularity the guarantee fails: after a torn append the next append reports success and is lost, and
      what it was glued to is lost with it. */
  lemma {:induction false} TornAppendLosesTheNext(first: Entry, second: Entry)
    ensures var d := Run(EMPTY, [Crashes(Add(first), Torn(first.size))]);
      && History(d) == [first]
      && Succeeds(Add(second), d)
      && History(After(Add(second), d)) == []
  {
    var evs := [Crashes(Add(first), Torn(first.size))];
    assert evs[..0] == [] && Run(EMPTY, evs) == Step(EMPTY, evs[0]);
    var d := Run(EMPTY, evs);
    AppendHistory(EMPTY, Good(first));
    assert d.lines == [Good(first)];
    var glued := [Junk(first.size + second.size)];
    assert After(Add(second), d).lines == d.lines[..0] + glued == glued;
    assert NonEmpty(glued) == glued + NonEmpty([]);
    assert Records(glued) == Records(glued[1..]) == [];
    assert glued[0..] == glued;
  }

  // ---------- Oversized lines ----------

  /** How many bytes the event appends to the file. */
  function Appended(ev: Event): nat {
    match ev
    case Completes(Add(e)) => e.size
    case Crashes(Add(e), AfterWrites(k)) => if k > 0 then e.size else 0
    case Crashes(Add(e), Torn(n)) => if n <= e.size then n else 0
    case _ => 0
  }

  /** The event gets as far as replacing the whole file by a new history. */
  predicate Replaces(ev: Event) {
    ev.op.SetHistory? && (ev.Crashes? ==> ev.point.AfterWrites? && ev.point.k >= 2)
  }

  /** How many bytes stand in front of the next append on its line. */
  function Unfinished(d: Disk): nat {
    if d.open && d.lines != [] then Bytes(d.lines[|d.lines| - 1]) else 0
  }

  /** No line the event leaves is over the scanner limit because of it. */
  predicate Fits(d: Disk, ev: Event) {
    && (Appended(ev) > 0 ==> Unfinished(d) + Appended(ev) < MAX_LINE_SIZE)
    && (Replaces(ev) ==> forall e :: e in ev.op.entries ==> Small(e))
  }

  /** The same when every line has its newline: a property of the event alone. */
  predicate WritesShort(ev: Event) {
    && Appended(ev) < MAX_LINE_SIZE
    && (Replaces(ev) ==> forall e :: e in ev.op.entries ==> Small(e))
  }

  lemma {:induction false} AppendReadableIff(d: Disk, l: Line)
    ensures (forall m :: m in AppendLine(d.lines, d.open, l) ==> !TooLong(m)) <==>
      Readable(d) && Unfinished(d) + Bytes(l) < MAX_LINE_SIZE
  {
    var lines := AppendLine(d.lines, d.open, l);
    var n := |lines| - 1;
    assert lines[n] in lines;
    assert forall i :: 0 <= i < n ==> lines[i] == d.lines[i];
    if exists m :: m in d.lines && TooLong(m) {
      var i :| 0 <= i < |d.lines| && TooLong(d.lines[i]);
      assert TooLong(lines[i]);
    }
  }

  lemma {:induction false} EncodedReadableIff(entries: seq<Entry>)
    ensures (forall l :: l in Encode(entries) ==> !TooLong(l)) <==> forall e :: e in entries ==> Small(e)
  {
    var lines := Encode(entries);
    assert forall i :: 0 <= i < |entries| ==> lines[i] == Good(entries[i]) && (TooLong(lines[i]) <==> !Small(entries[i]));
    if e :| e in entries && !Small(e) {
      var i :| 0 <= i < |entries| && entries[i] == e;
      assert lines[i] in lines && TooLong(lines[i]);
    }
  }

  lemma {:induction false} RecordsAreLines(lines: seq<Line>)
    ensures forall e :: e in Records(lines) ==> Good(e) in lines
  {
    if lines != [] {
      RecordsAreLines(lines[1..]);
    }
  }

  lemma {:induction false} HistoryIsOnDisk(d: Disk)
    ensures forall e :: e in History(d) ==> Good(e) in d.lines
  {
    RecordsAreLines(Live(d));
    NonEmptyAreLines(d.lines);
  }

  lemma {:induction false} NonEmptyAreLines(lines: seq<Line>)
    ensures forall l :: l in NonEmpty(lines) ==> l in lines
  {
    if lines != [] {
      NonEmptyAreLines(lines[1..]);
    }
  }

  lemma {:induction false} AddReadableIff(d: Disk, ev: Event)
    requires ev.op.Add?
    ensures Readable(Step(d, ev)) <==> Fits(d, ev) && Readable(d)
  {
    hide AppendLine;
    var e, n := ev.op.entry, Appended(ev);
    var l := if ev.Crashes? && ev.point.Torn? && n < e.size then Junk(n) else Good(e);
    assert Step(d, ev).lines == if n > 0 then AppendLine(d.lines, d.open, l) else d.lines;
    AppendReadableIff(d, l);
  }

  lemma {:induction false} ReplaceReadableIff(d: Disk, ev: Event)
    requires ev.op.SetHistory?
    ensures Readable(Step(d, ev)) <==> Fits(d, ev) && (Replaces(ev) || Readable(d))
  {
    hide Encode;
    EncodedReadableIff(ev.op.entries);
    assert Step(d, ev).lines == if Replaces(ev) then Encode(ev.op.entries) else d.lines;
    assert Appended(ev) == 0;
  }

  lemma {:induction false} CompactReadableIff(d: Disk, ev: Event)
    requires ev.op.Compact?
    ensures Readable(Step(d, ev)) <==> Readable(d)
  {
    hide Encode, NonEmpty, Records;
    HistoryIsOnDisk(d);
    EncodedReadableIff(History(d));
  }

  /** For every operation, stopped anywhere: the session can be read afterwards exactly when the event itself writes no
      line over the limit, and the session could be read before or its history has been replaced. */
  lemma {:induction false} StepReadableIff(d: Disk, ev: Event)
    ensures Readable(Step(d, ev)) <==> Fits(d, ev) && (Replaces(ev) || Readable(d))
  {
    match ev.op {
      case Add(_) => AddReadableIff(d, ev);
      case SetHistory(_) => ReplaceReadableIff(d, ev);
      case Compact => CompactReadableIff(d, ev);
      case _ => assert Step(d, ev).lines == d.lines && Fits(d, ev);
    }
  }

  /** No event after the i-th replaces the history; i = -1 stands for the start. */
  predicate Lasts(events: seq<Event>, i: int) {
    forall j :: 0 <= j < |events| && i < j ==> !Replaces(events[j])
  }

  lemma {:induction false} LastsSnoc(events: seq<Event>, i: int)
    requires events != [] && -1 <= i < |events|
    ensures var n := |events| - 1;
      Lasts(events, i) <==> if i < n then Lasts(events[..n], i) && !Replaces(events[n]) else true
  {
    var n := |events| - 1;
    assert forall j :: 0 <= j < n ==> events[..n][j] == events[j];
    if i < n && Lasts(events, i) {
      forall j | 0 <= j < n && i < j ensures !Replaces(events[..n][j]) {
        assert !Replaces(events[j]);
      }
    }
  }

  /** Every event since the last replacement, and that replacement, fitted. */
  ghost predicate AllFitted(d: Disk, events: seq<Event>) {
    forall i :: 0 <= i < |events| && Lasts(events, i) ==> FittedAt(d, events, i)
  }

  predicate FittedAt(d: Disk, events: seq<Event>, i: nat)
    requires i < |events|
  {
    Fits(Run(d, events[..i]), events[i])
  }

  lemma {:induction false} AllFittedSnoc(d: Disk, init: seq<Event>, ev: Event)
    ensures AllFitted(d, init + [ev]) <==> Fits(Run(d, init), ev) && (Replaces(ev) || AllFitted(d, init))
    ensures Lasts(init + [ev], -1) <==> Lasts(init, -1) && !Replaces(ev)
  {
    hide Fits, Run, Lasts, Replaces;
    var events, n := init + [ev], |init|;
    assert events[..n] == init;
    LastsSnoc(events, -1);
    LastsSnoc(events, n);
    forall i | 0 <= i < n
      ensures Lasts(events, i) <==> Lasts(init, i) && !Replaces(ev)
      ensures FittedAt(d, events, i) == FittedAt(d, init, i)
    {
      LastsSnoc(events, i);
      assert events[..i] == init[..i];
    }
    assert FittedAt(d, events, n) == Fits(Run(d, init), ev);
    hide FittedAt;
  }

  /** After every run, torn appends included: a session can be read exactly when every event since the last replacement
      fitted, and without replacement also the session at the start could be read. */
  lemma {:induction false} RunReadableIff(d: Disk, events: seq<Event>)
    ensures Readable(Run(d, events)) <==> (Lasts(events, -1) ==> Readable(d)) && AllFitted(d, events)
  {
    if events != [] {
      hide Fits, Step, Readable, Lasts, Replaces, AllFitted;
      var n := |events| - 1;
      RunReadableIff(d, events[..n]);
      StepReadableIff(Run(d, events[..n]), events[n]);
      assert events[..n] + [events[n]] == events;
      AllFittedSnoc(d, events[..n], events[n]);
    }
  }

  /** No event since the last replacement, nor that replacement, wrote a line over the limit. */
  ghost predicate ShortSinceReplaced(events: seq<Event>) {
    forall i :: 0 <= i < |events| && Lasts(events, i) ==> WritesShort(events[i])
  }

  /** When no append is torn the condition speaks of the events alone. */
  lemma {:induction false} ReadableIffShort(d: Disk, events: seq<Event>)
    requires Readable(d) && !d.open && WholeWrites(events)
    ensures Readable(Run(d, events)) <==> ShortSinceReplaced(events)
  {
    hide Fits, WritesShort, Run, Readable;
    RunReadableIff(d, events);
    forall i | 0 <= i < |events| ensures FittedAt(d, events, i) <==> WritesShort(events[i]) {
      OnlyTornAppendsOpen(d, events[..i]);
      FitsWhenClosed(Run(d, events[..i]), events[i]);
    }
  }

  lemma FitsWhenClosed(d: Disk, ev: Event)
    requires !d.open
    ensures Fits(d, ev) <==> WritesShort(ev)
  {}

  /** One line over the scanner limit makes every read fail until the history is replaced. */
  lemma {:induction false} UnreadableUntilReplaced(d: Disk, events: seq<Event>)
    requires Reads(d).None?
    requires forall ev :: ev in events ==> !ev.op.SetHistory?
    ensures Reads(Run(d, events)).None?
  {
    RunReadableIff(d, events);
    assert Lasts(events, -1);
  }
}
