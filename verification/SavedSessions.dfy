/** One session across import runs: what repeated imports of its legacy files, in order, leave in the store. */
module SavedSessions {
  import opened SessionStore

  /** What a legacy file saves; `stuck` says that the file cannot be renamed after its import. */
  datatype Saved = Saved(entries: seq<Entry>, summary: string, stuck: bool)

  /** The session after one import. */
  function Imported(f: Saved, d: Disk): Disk {
    Disk(Encode(f.entries), false, Meta(if f.summary == "" then d.meta.summary else f.summary, 0, |f.entries|))
  }

  function ImportedAll(fs: seq<Saved>, d: Disk): Disk {
    if fs == [] then d else Imported(fs[|fs| - 1], ImportedAll(fs[..|fs| - 1], d))
  }

  /** The newest summary that is not empty. */
  function LastSummary(fs: seq<Saved>): string {
    if fs == [] then ""
    else if fs[|fs| - 1].summary != "" then fs[|fs| - 1].summary
    else LastSummary(fs[..|fs| - 1])
  }

  function StuckOnly(fs: seq<Saved>): seq<Saved> {
    if fs == [] then []
    else StuckOnly(fs[..|fs| - 1]) + if fs[|fs| - 1].stuck then [fs[|fs| - 1]] else []
  }

  /** A rerun leaves the session alone: the last stuck file holds the messages of the last file, and if a stuck file has
      a summary, the last such summary is the session's. */
  predicate Agree(fs: seq<Saved>) {
    var stuck := StuckOnly(fs);
    stuck != [] && fs != [] ==>
      && stuck[|stuck| - 1].entries == fs[|fs| - 1].entries
      && (LastSummary(stuck) != "" ==> LastSummary(stuck) == LastSummary(fs))
  }

  /** The last file gives the messages, the last nonempty summary the summary. */
  lemma {:induction false} ImportedAllIs(fs: seq<Saved>, d: Disk)
    requires fs != []
    ensures var es := fs[|fs| - 1].entries;
      ImportedAll(fs, d)
      == Disk(Encode(es), false, Meta(if LastSummary(fs) == "" then d.meta.summary else LastSummary(fs), 0, |es|))
  {
    var init := fs[..|fs| - 1];
    if init != [] {
      ImportedAllIs(init, d);
    }
  }

  lemma {:induction false} ImportedAllCons(f: Saved, fs: seq<Saved>, d: Disk)
    ensures ImportedAll([f] + fs, d) == ImportedAll(fs, Imported(f, d))
    decreases |fs|
  {
    var n := |fs| - 1;
    if fs == [] {
      assert [f] + fs == [f] && [f][..0] == [];
    } else {
      ImportedAllCons(f, fs[..n], d);
      assert ([f] + fs)[..n + 1] == [f] + fs[..n];
    }
  }

  lemma {:induction false} LastSummaryConcat(a: seq<Saved>, b: seq<Saved>)
    ensures LastSummary(a + b) == if LastSummary(b) == "" then LastSummary(a) else LastSummary(b)
    decreases |b|
  {
    var n := |b| - 1;
    if b == [] {
      assert a + b == a;
    } else {
      LastSummaryConcat(a, b[..n]);
      assert (a + b)[..|a| + n] == a + b[..n];
    }
  }

  lemma {:induction false} StuckOnlyConcat(a: seq<Saved>, b: seq<Saved>)
    ensures StuckOnly(a + b) == StuckOnly(a) + StuckOnly(b)
    decreases |b|
  {
    var n := |b| - 1;
    if b == [] {
      assert a + b == a;
    } else {
      var all, tail := a + b, if b[n].stuck then [b[n]] else [];
      StuckOnlyConcat(a, b[..n]);
      assert all[..|all| - 1] == a + b[..n] && all[|all| - 1] == b[n];
      assert StuckOnly(all) == StuckOnly(a + b[..n]) + tail;
      hide StuckOnly;
      assert (StuckOnly(a) + StuckOnly(b[..n])) + tail == StuckOnly(a) + (StuckOnly(b[..n]) + tail);
    }
  }

  lemma {:induction false} StuckOfStuck(fs: seq<Saved>)
    ensures StuckOnly(StuckOnly(fs)) == StuckOnly(fs)
  {
    if fs != [] {
      var n := |fs| - 1;
      StuckOfStuck(fs[..n]);
      StuckOnlyConcat(StuckOnly(fs[..n]), if fs[n].stuck then [fs[n]] else []);
    }
  }

  lemma {:induction false} StuckSummary(fs: seq<Saved>)
    ensures LastSummary(fs) == "" ==> LastSummary(StuckOnly(fs)) == ""
  {
    if fs != [] {
      var n := |fs| - 1;
      StuckSummary(fs[..n]);
      LastSummaryConcat(StuckOnly(fs[..n]), if fs[n].stuck then [fs[n]] else []);
    }
  }

  lemma {:induction false} FirstSummary(fs: seq<Saved>)
    requires fs != [] && LastSummary(fs) == ""
    ensures fs[0].summary == ""
  {
    if |fs| > 1 {
      FirstSummary(fs[..|fs| - 1]);
    }
  }

  /** What may be stored when the files in a are dealt with and those in b are not: the import of the first file of b may
      have begun. */
  predicate MidRun(a: seq<Saved>, b: seq<Saved>, d0: Disk, d: Disk) {
    var before := ImportedAll(a, d0);
    d == before || (b != [] && (d.meta.summary == before.meta.summary || d.meta.summary == b[0].summary != ""))
  }

  /** The summary part of a restart. */
  lemma {:induction false} SummaryRestarts(a: seq<Saved>, b: seq<Saved>, d0: Disk, d: Disk)
    requires MidRun(a, b, d0, d) && Agree(a + b)
    ensures var s, t := LastSummary(StuckOnly(a) + b), LastSummary(a + b);
      (if s == "" then d.meta.summary else s) == if t == "" then d0.meta.summary else t
  {
    hide LastSummary, ImportedAll, StuckOnly;
    LastSummaryConcat(a, b);
    LastSummaryConcat(StuckOnly(a), b);
    if LastSummary(b) == "" {
      StuckOnlyConcat(a, b);
      LastSummaryConcat(StuckOnly(a), StuckOnly(b));
      StuckSummary(b);
      NoSummary(StuckOnly(a + b));
      NoStuck(a + b);
      SummaryOf(a, d0);
      if b != [] {
        FirstSummary(b);
      }
    }
  }

  lemma NoSummary(fs: seq<Saved>)
    ensures fs == [] ==> LastSummary(fs) == ""
  {}

  lemma NoStuck(fs: seq<Saved>)
    ensures fs == [] ==> StuckOnly(fs) == []
  {}

  lemma {:induction false} SummaryOf(fs: seq<Saved>, d: Disk)
    ensures ImportedAll(fs, d).meta.summary == if LastSummary(fs) == "" then d.meta.summary else LastSummary(fs)
  {
    if fs != [] {
      ImportedAllIs(fs, d);
    }
  }

  /** A run that starts over with what an interrupted run left gives the session of the whole run. */
  lemma {:induction false} SessionRestarts(a: seq<Saved>, b: seq<Saved>, d0: Disk, d: Disk)
    requires MidRun(a, b, d0, d) && Agree(a + b)
    ensures ImportedAll(StuckOnly(a) + b, d) == ImportedAll(a + b, d0)
  {
    SummaryRestarts(a, b, d0, d);
    var left, all := StuckOnly(a) + b, a + b;
    if left != [] && all != [] {
      ImportedAllIs(left, d);
      ImportedAllIs(all, d0);
      if b == [] {
        assert left == StuckOnly(a) && all == a;
      }
    } else if left == [] {
      assert all == a;
    }
  }

  /** What is left agrees again, and its stuck files are the same. */
  lemma {:induction false} StillAgrees(a: seq<Saved>, b: seq<Saved>)
    requires Agree(a + b)
    ensures StuckOnly(StuckOnly(a) + b) == StuckOnly(a + b)
    ensures Agree(StuckOnly(a) + b)
  {
    hide LastSummary, StuckOnly;
    StuckOnlyConcat(a, b);
    StuckOnlyConcat(StuckOnly(a), b);
    StuckOfStuck(a);
    LastSummaryConcat(a, b);
    LastSummaryConcat(StuckOnly(a), b);
    LastSummaryConcat(StuckOnly(a), StuckOnly(b));
    StuckSummary(b);
    NoStuck(b);
    NoStuck(a);
    if b == [] {
      assert a + b == a && StuckOnly(a) + b == StuckOnly(a);
    }
  }

  /** A rerun changes nothing exactly if the stuck files agree. */
  lemma {:induction false} UnchangedIffAgree(fs: seq<Saved>, d0: Disk)
    ensures var d := ImportedAll(fs, d0); ImportedAll(StuckOnly(fs), d) == d <==> Agree(fs)
  {
    var stuck, d := StuckOnly(fs), ImportedAll(fs, d0);
    if stuck != [] && fs != [] {
      ImportedAllIs(fs, d0);
      ImportedAllIs(stuck, d);
      StuckSummary(fs);
      EncodeDecodes(stuck[|stuck| - 1].entries);
      EncodeDecodes(fs[|fs| - 1].entries);
    }
  }
}
