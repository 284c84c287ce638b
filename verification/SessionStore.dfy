/** The append-only session log of pkg/memory/jsonl.go: one line file and one metadata record, written separately. */
module SessionStore {
  import opened Common
  import opened Messages

  /** Scanner limit: a line of this many bytes or more makes every scan of the file fail. */
  const MAX_LINE_SIZE := 10 * 1024 * 1024

  type Size = n: nat | 0 < n witness 1

  /** A message with the length of its JSON encoding. */
  datatype Entry = Entry(message: Message, size: Size)

  /** A line either decodes to an entry or does not decode. */
  datatype Line = Good(entry: Entry) | Junk(bytes: nat)

  datatype Meta = Meta(summary: string, skip: nat, count: nat)

  /** What is on disk. `open` says that the last line lacks its newline, as a torn append leaves it. */
  datatype Disk = Disk(lines: seq<Line>, open: bool, meta: Meta)

  const EMPTY := Disk([], false, Meta("", 0, 0))

  function Bytes(l: Line): nat {
    match l
    case Good(e) => e.size
    case Junk(n) => n
  }

  predicate TooLong(l: Line) {
    Bytes(l) >= MAX_LINE_SIZE
  }

  /** The file can be scanned to its end. */
  predicate Readable(d: Disk) {
    forall l :: l in d.lines ==> !TooLong(l)
  }

  function NonEmpty(lines: seq<Line>): seq<Line> {
    if lines == [] then []
    else if Bytes(lines[0]) == 0 then NonEmpty(lines[1..])
    else [lines[0]] + NonEmpty(lines[1..])
  }

  function Records(lines: seq<Line>): seq<Entry> {
    if lines == [] then []
    else if lines[0].Good? then [lines[0].entry] + Records(lines[1..])
    else Records(lines[1..])
  }

  function Encode(entries: seq<Entry>): seq<Line> {
    seq(|entries|, i requires 0 <= i < |entries| => Good(entries[i]))
  }

  function Drop<T>(s: seq<T>, n: nat): seq<T> {
    if n <= |s| then s[n..] else []
  }

  /** The lines that are not logically truncated. */
  function Live(d: Disk): seq<Line> {
    Drop(NonEmpty(d.lines), d.meta.skip)
  }

  /** The abstraction: the valid records after `skip`. */
  function History(d: Disk): seq<Entry> {
    Records(Live(d))
  }

  /** What a reader gets: nothing when the file cannot be scanned. */
  function Reads(d: Disk): Option<seq<Entry>> {
    if Readable(d) then Some(History(d)) else None
  }

  /** How many of the first i lines are not empty. */
  ghost function CountTo(lines: seq<Line>, i: nat): nat
    requires i <= |lines|
  {
    |NonEmpty(lines[..i])|
  }

  /** The records among the first i lines, without the first skip ones. */
  ghost function ReadTo(lines: seq<Line>, i: nat, skip: nat): seq<Entry>
    requires i <= |lines|
  {
    Records(Drop(NonEmpty(lines[..i]), skip))
  }

  // ---------- Operations as sequences of atomic writes ----------

  datatype Op =
    | Add(entry: Entry)
    | SetSummary(summary: string)
    | Truncate(keepLast: int)
    | SetHistory(entries: seq<Entry>)
    | Compact

  /** Bytes appended after a line without newline become part of that line, and the line no longer decodes. */
  function AppendLine(lines: seq<Line>, open: bool, l: Line): seq<Line> {
    if open && lines != [] then
      lines[..|lines| - 1] + [Junk(Bytes(lines[|lines| - 1]) + Bytes(l))]
    else lines + [l]
  }

  function TruncatedSkip(n: nat, skip: nat, keepLast: int): nat {
    if keepLast <= 0 then n
    else if keepLast < n - skip then n - keepLast
    else skip
  }

  /** The disk after each write of the operation, in order; empty when the operation fails or has nothing to do. */
  function Writes(op: Op, d: Disk): seq<Disk> {
    match op
    case Add(e) =>
      var d1 := d.(lines := AppendLine(d.lines, d.open, Good(e)), open := false);
      [d1, d1.(meta := d.meta.(count := d.meta.count + 1))]
    case SetSummary(s) =>
      [d.(meta := d.meta.(summary := s))]
    case Truncate(keepLast) =>
      if !Readable(d) then []
      else
        var n := |NonEmpty(d.lines)|;
        [d.(meta := d.meta.(skip := TruncatedSkip(n, d.meta.skip, keepLast), count := n))]
    case SetHistory(entries) =>
      var d1 := d.(meta := d.meta.(skip := 0, count := |entries|));
      [d1, d1.(lines := Encode(entries), open := false)]
    case Compact =>
      if d.meta.skip == 0 || !Readable(d) then []
      else
        var active := History(d);
        var d1 := d.(meta := d.meta.(skip := 0, count := |active|));
        [d1, d1.(lines := Encode(active), open := false)]
  }

  /** Whether the operation returns without error. */
  predicate Succeeds(op: Op, d: Disk) {
    match op
    case Truncate(_) => Readable(d)
    case Compact => d.meta.skip == 0 || Readable(d)
    case _ => true
  }

  function After(op: Op, d: Disk): Disk {
    var w := Writes(op, d);
    if w == [] then d else w[|w| - 1]
  }

  // ---------- The store ----------

  class JSONLStore {
    var disk: Disk
    /** Every disk state so far, one per write. */
    ghost var trail: seq<Disk>

    constructor (disk: Disk)
      ensures this.disk == disk && trail == [disk]
    {
      this.disk := disk;
      trail := [disk];
    }

    ghost predicate Valid()
      reads this
    {
      trail != [] && trail[|trail| - 1] == disk
    }

    method WriteMeta(meta: Meta)
      modifies this
      ensures disk == old(disk).(meta := meta) && trail == old(trail) + [disk]
    {
      disk := disk.(meta := meta);
      trail := trail + [disk];
    }

    method AppendToLog(e: Entry)
      modifies this
      ensures disk == old(disk).(lines := AppendLine(old(disk).lines, old(disk).open, Good(e)), open := false)
      ensures trail == old(trail) + [disk]
    {
      disk := disk.(lines := AppendLine(disk.lines, disk.open, Good(e)), open := false);
      trail := trail + [disk];
    }

    method RewriteJSONL(entries: seq<Entry>)
      modifies this
      ensures disk == old(disk).(lines := Encode(entries), open := false) && trail == old(trail) + [disk]
    {
      var buf: seq<Line> := [];
      for i := 0 to |entries|
        invariant buf == Encode(entries)[..i]
      {
        buf := buf + [Good(entries[i])];
      }
      disk := disk.(lines := buf, open := false);
      trail := trail + [disk];
    }

    method ReadMessages(skip: nat) returns (ok: bool, msgs: seq<Entry>)
      ensures ok == Readable(disk)
      ensures ok ==> msgs == Records(Drop(NonEmpty(disk.lines), skip))
    {
      hide CountTo, ReadTo, NonEmpty, Records, Drop;
      var lines := disk.lines;
      WholeFile(lines, skip);
      msgs := [];
      var lineNum := 0;
      for i := 0 to |lines|
        invariant forall k :: 0 <= k < i ==> !TooLong(lines[k])
        invariant lineNum == CountTo(lines, i) && msgs == ReadTo(lines, i, skip)
      {
        if TooLong(lines[i]) {
          return false, [];
        }
        NextLine(lines, i, skip);
        if Bytes(lines[i]) == 0 {
          continue;
        }
        lineNum := lineNum + 1;
        if lineNum <= skip {
          continue;
        }
        match lines[i] {
          case Junk(_) => continue;
          case Good(entry) => msgs := msgs + [entry];
        }
      }
      return true, msgs;
    }

    method CountLines() returns (ok: bool, n: nat)
      ensures ok == Readable(disk)
      ensures ok ==> n == |NonEmpty(disk.lines)|
    {
      hide CountTo, NonEmpty;
      n := 0;
      var lines := disk.lines;
      WholeFile(lines, 0);
      for i := 0 to |lines|
        invariant forall k :: 0 <= k < i ==> !TooLong(lines[k])
        invariant n == CountTo(lines, i)
      {
        if TooLong(lines[i]) {
          return false, n;
        }
        NextLine(lines, i, 0);
        if Bytes(lines[i]) > 0 {
          n := n + 1;
        }
      }
      return true, n;
    }

    method AddFullMessage(e: Entry) returns (ok: bool)
      requires Valid()
      modifies this
      ensures Valid() && trail == old(trail) + Writes(Add(e), old(disk))
      ensures ok == Succeeds(Add(e), old(disk))
    {
      AppendToLog(e);
      WriteMeta(disk.meta.(count := disk.meta.count + 1));
      ok := true;
    }

    method GetHistory() returns (ok: bool, msgs: seq<Entry>)
      ensures ok == Reads(disk).Some?
      ensures ok ==> msgs == Reads(disk).value
      ensures ok <==> forall l :: l in disk.lines ==> Bytes(l) < 10_485_760
    {
      ok, msgs := ReadMessages(disk.meta.skip);
    }

    method SetSummaryText(summary: string) returns (ok: bool)
      requires Valid()
      modifies this
      ensures Valid() && trail == old(trail) + Writes(SetSummary(summary), old(disk))
      ensures ok == Succeeds(SetSummary(summary), old(disk))
    {
      WriteMeta(disk.meta.(summary := summary));
      ok := true;
    }

    method TruncateHistory(keepLast: int) returns (ok: bool)
      requires Valid()
      modifies this
      ensures Valid() && trail == old(trail) + Writes(Truncate(keepLast), old(disk))
      ensures ok == Succeeds(Truncate(keepLast), old(disk))
    {
      var meta := disk.meta;
      var n;
      ok, n := CountLines();
      if !ok {
        return;
      }
      meta := meta.(count := n);
      if keepLast <= 0 {
        meta := meta.(skip := meta.count);
      } else {
        var effective := meta.count - meta.skip;
        if keepLast < effective {
          meta := meta.(skip := meta.count - keepLast);
        }
      }
      WriteMeta(meta);
    }

    method ReplaceHistory(entries: seq<Entry>) returns (ok: bool)
      requires Valid()
      modifies this
      ensures Valid() && trail == old(trail) + Writes(SetHistory(entries), old(disk))
      ensures ok == Succeeds(SetHistory(entries), old(disk))
    {
      WriteMeta(disk.meta.(skip := 0, count := |entries|));
      RewriteJSONL(entries);
      ok := true;
    }

    method CompactLog() returns (ok: bool)
      requires Valid()
      modifies this
      ensures Valid() && trail == old(trail) + Writes(Compact, old(disk))
      ensures ok == Succeeds(Compact, old(disk))
    {
      if disk.meta.skip == 0 {
        return true;
      }
      var active;
      ok, active := ReadMessages(disk.meta.skip);
      if !ok {
        return;
      }
      WriteMeta(disk.meta.(skip := 0, count := |active|));
      RewriteJSONL(active);
    }
  }

  // ---------- Lines and records ----------

  lemma {:induction false} NonEmptyConcat(a: seq<Line>, b: seq<Line>)
    ensures NonEmpty(a + b) == NonEmpty(a) + NonEmpty(b)
  {
    if a == [] {
      assert a + b == b;
    } else {
      assert (a + b)[1..] == a[1..] + b;
      NonEmptyConcat(a[1..], b);
    }
  }

  lemma {:induction false} RecordsConcat(a: seq<Line>, b: seq<Line>)
    ensures Records(a + b) == Records(a) + Records(b)
  {
    if a == [] {
      assert a + b == b;
    } else {
      assert (a + b)[1..] == a[1..] + b;
      RecordsConcat(a[1..], b);
    }
  }

  lemma {:induction false} SnocLine(lines: seq<Line>, l: Line, skip: nat)
    ensures NonEmpty(lines + [l]) == NonEmpty(lines) + (if Bytes(l) == 0 then [] else [l])
    ensures Records(Drop(NonEmpty(lines + [l]), skip))
      == Records(Drop(NonEmpty(lines), skip))
         + (if Bytes(l) > 0 && |NonEmpty(lines)| >= skip && l.Good? then [l.entry] else [])
  {
    NonEmptyConcat(lines, [l]);
    assert NonEmpty([l]) == if Bytes(l) == 0 then [] else [l];
    var ne := NonEmpty(lines);
    if Bytes(l) > 0 && |ne| >= skip {
      assert Drop(ne + [l], skip) == Drop(ne, skip) + [l];
      RecordsConcat(Drop(ne, skip), [l]);
    } else if Bytes(l) > 0 {
      assert Drop(ne + [l], skip) == [];
    } else {
      assert NonEmpty(lines + [l]) == ne;
    }
  }

  /** One more line of a file. */
  lemma {:induction false} NextLine(lines: seq<Line>, i: nat, skip: nat)
    requires i < |lines|
    ensures CountTo(lines, i + 1) == CountTo(lines, i) + if Bytes(lines[i]) == 0 then 0 else 1
    ensures ReadTo(lines, i + 1, skip)
         == ReadTo(lines, i, skip)
            + if Bytes(lines[i]) > 0 && CountTo(lines, i) >= skip && lines[i].Good? then [lines[i].entry] else []
  {
    SnocLine(lines[..i], lines[i], skip);
    assert lines[..i + 1] == lines[..i] + [lines[i]];
  }

  lemma {:induction false} WholeFile(lines: seq<Line>, skip: nat)
    ensures CountTo(lines, 0) == 0 && CountTo(lines, |lines|) == |NonEmpty(lines)|
    ensures ReadTo(lines, 0, skip) == [] && ReadTo(lines, |lines|, skip) == Records(Drop(NonEmpty(lines), skip))
  {
    assert lines[..|lines|] == lines;
  }

  lemma {:induction false} EncodeDecodes(entries: seq<Entry>)
    ensures NonEmpty(Encode(entries)) == Encode(entries) && Records(Encode(entries)) == entries
  {
    if entries != [] {
      assert Encode(entries)[1..] == Encode(entries[1..]);
      EncodeDecodes(entries[1..]);
    }
  }
}
