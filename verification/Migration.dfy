/** Import of legacy session files as a restartable sequence of writes: pkg/memory/migration.go. */
module Migration {
  import opened SavedSessions
  import opened SessionStore

  /** What a legacy file decodes to. */
  datatype Content = Session(key: string, entries: seq<Entry>, summary: string) | Undecodable

  /** A directory entry; `stuck` says that renaming it fails. */
  datatype File = File(name: string, isDir: bool, content: Content, stuck: bool)

  /** The directory in listing order, and the session store inside it, by file-name stem. */
  datatype World = World(files: seq<File>, store: map<string, Disk>)

  predicate HasSuffix(s: string, suffix: string) {
    |suffix| <= |s| && s[|s| - |suffix|..] == suffix
  }

  predicate IsLegacyName(name: string) {
    HasSuffix(name, ".json") && !HasSuffix(name, ".meta.json") && !HasSuffix(name, ".migrated")
  }

  predicate Imports(f: File) {
    !f.isDir && IsLegacyName(f.name) && f.content.Session?
  }

  /** sanitizeKey: different keys may share one stem. */
  function SanitizeKey(key: string): string {
    seq(|key|, i requires 0 <= i < |key| => if key[i] in ":/\\" then '_' else key[i])
  }

  function Stem(f: File): string
    requires Imports(f)
  {
    SanitizeKey(if f.content.key == "" then f.name[..|f.name| - |".json"|] else f.content.key)
  }

  function DiskAt(store: map<string, Disk>, stem: string): Disk {
    if stem in store then store[stem] else EMPTY
  }

  /** The store after each write that imports f: meta, lines, and the summary if there is one. */
  function StoreWrites(f: File, store: map<string, Disk>): (r: seq<map<string, Disk>>)
    requires Imports(f)
    ensures |r| == if f.content.summary == "" then 2 else 3
  {
    var stem := Stem(f);
    var w := Writes(SetHistory(f.content.entries), DiskAt(store, stem));
    [store[stem := w[0]], store[stem := w[1]]]
    + if f.content.summary == "" then [] else [store[stem := After(SetSummary(f.content.summary), w[1])]]
  }

  function Import(f: File, store: map<string, Disk>): map<string, Disk>
    requires Imports(f)
  {
    var w := StoreWrites(f, store);
    w[|w| - 1]
  }

  function Rename(f: File): File {
    if f.stuck then f else f.(name := f.name + ".migrated")
  }

  /** The directory entry f after a run dealt with it. */
  function Dealt(f: File): File {
    if Imports(f) then Rename(f) else f
  }

  /** The store after a run dealt with f. */
  function Stored(f: File, store: map<string, Disk>): map<string, Disk> {
    if Imports(f) then Import(f, store) else store
  }

  /** The worlds after each write that imports f; `done` and `rest` stand before and after f in the listing. */
  function ImportStates(done: seq<File>, f: File, rest: seq<File>, store: map<string, Disk>): seq<World>
    requires Imports(f)
  {
    var stores := StoreWrites(f, store);
    seq(|stores|, k requires 0 <= k < |stores| => World(done + [f] + rest, stores[k]))
    + [World(done + [Rename(f)] + rest, Import(f, store))]
  }

  /** Every state of a run that has dealt with `done`: the points where the process can be interrupted. */
  function States(done: seq<File>, rest: seq<File>, store: map<string, Disk>): seq<World>
    decreases |rest|
  {
    if rest == [] then []
    else
      (if Imports(rest[0]) then ImportStates(done, rest[0], rest[1..], store) else [])
      + States(done + [Dealt(rest[0])], rest[1..], Stored(rest[0], store))
  }

  /** The end of a run that has dealt with `done`. */
  function Migrated(done: seq<File>, rest: seq<File>, store: map<string, Disk>): World
    decreases |rest|
  {
    if rest == [] then World(done, store)
    else Migrated(done + [Dealt(rest[0])], rest[1..], Stored(rest[0], store))
  }

  function RunStates(w: World): seq<World> {
    States([], w.files, w.store)
  }

  function RunEnd(w: World): World {
    Migrated([], w.files, w.store)
  }

  function Importable(files: seq<File>): seq<File> {
    if files == [] then []
    else if Imports(files[0]) then [files[0]] + Importable(files[1..])
    else Importable(files[1..])
  }

  // ---------- The loop ----------

  class Migrator {
    var world: World
    ghost var trail: seq<World>

    constructor (world: World)
      ensures this.world == world && trail == []
    {
      this.world := world;
      trail := [];
    }

    method WriteStore(stem: string, d: Disk)
      modifies this
      ensures world == World(old(world).files, old(world).store[stem := d]) && trail == old(trail) + [world]
    {
      world := world.(store := world.store[stem := d]);
      trail := trail + [world];
    }

    method ImportFile(done: seq<File>, f: File, rest: seq<File>)
      requires Imports(f) && world.files == done + [f] + rest
      modifies this
      ensures world == World(done + [Rename(f)] + rest, Import(f, old(world).store))
      ensures trail == old(trail) + ImportStates(done, f, rest, old(world).store)
    {
      var stem := Stem(f);
      ghost var states := ImportStates(done, f, rest, world.store);
      var d := DiskAt(world.store, stem);
      d := d.(meta := d.meta.(skip := 0, count := |f.content.entries|));
      WriteStore(stem, d);
      assert trail == old(trail) + states[..1];
      d := d.(lines := Encode(f.content.entries), open := false);
      WriteStore(stem, d);
      assert world == states[1];
      assert trail == old(trail) + states[..2];
      if f.content.summary != "" {
        d := d.(meta := d.meta.(summary := f.content.summary));
        WriteStore(stem, d);
        assert world == states[2];
        assert trail == old(trail) + states[..3];
      }
      world := world.(files := done + [Rename(f)] + rest);
      trail := trail + [world];
      assert world == states[|states| - 1];
      assert states[..|states| - 1] + [states[|states| - 1]] == states;
    }

    /** Deals with one entry of the listing. */
    method DealWith(done: seq<File>, entry: File, rest: seq<File>) returns (imported: bool)
      requires world.files == done + [entry] + rest
      modifies this
      ensures imported == Imports(entry)
      ensures world == World(done + [Dealt(entry)] + rest, Stored(entry, old(world).store))
      ensures trail == old(trail) + if Imports(entry) then ImportStates(done, entry, rest, old(world).store) else []
    {
      imported := false;
      if entry.isDir || !HasSuffix(entry.name, ".json") || HasSuffix(entry.name, ".meta.json")
         || HasSuffix(entry.name, ".migrated") || entry.content.Undecodable?
      {
        return;
      }
      ImportFile(done, entry, rest);
      imported := true;
    }

    /** Deals with every entry of one directory listing, in order. */
    method MigrateFromJSON() returns (migrated: nat)
      modifies this
      ensures world == RunEnd(old(world))
      ensures trail == old(trail) + RunStates(old(world))
      ensures migrated == |Importable(old(world).files)|
    {
      var entries := world.files;
      var done: seq<File>, rest := [], entries;
      migrated := 0;
      ghost var todo := RunStates(world);
      while rest != []
        invariant world.files == done + rest
        invariant Migrated(done, rest, world.store) == RunEnd(old(world))
        invariant todo == States(done, rest, world.store)
        invariant trail + todo == old(trail) + RunStates(old(world))
        invariant migrated + |Importable(rest)| == |Importable(entries)|
        decreases |rest|
      {
        var entry := rest[0];
        assert rest == [entry] + rest[1..] && world.files == done + [entry] + rest[1..];
        ghost var now := if Imports(entry) then ImportStates(done, entry, rest[1..], world.store) else [];
        ghost var later := States(done + [Dealt(entry)], rest[1..], Stored(entry, world.store));
        assert todo == now + later;
        assert trail + (now + later) == (trail + now) + later;
        var imported := DealWith(done, entry, rest[1..]);
        if imported {
          migrated := migrated + 1;
        }
        done, rest, todo := done + [if imported then Rename(entry) else entry], rest[1..], later;
      }
    }
  }

  // ---------- Whole listings ----------

  /** Importing the files of a listing, one after the other. */
  function ImportAll(files: seq<File>, store: map<string, Disk>): map<string, Disk> {
    if files == [] then store else ImportAll(files[1..], Stored(files[0], store))
  }

  /** Only importable files matter. */
  lemma {:induction false} ImportAllOfImportable(files: seq<File>, store: map<string, Disk>)
    ensures ImportAll(files, store) == ImportAll(Importable(files), store)
  {
    if files != [] {
      ImportAllOfImportable(files[1..], Stored(files[0], store));
      var tail := Importable(files[1..]);
      if Imports(files[0]) {
        assert Importable(files) == [files[0]] + tail && ([files[0]] + tail)[1..] == tail;
      }
    }
  }

  lemma {:induction false} ImportableConcat(a: seq<File>, b: seq<File>)
    ensures Importable(a + b) == Importable(a) + Importable(b)
  {
    if a == [] {
      assert a + b == b;
    } else {
      assert (a + b)[1..] == a[1..] + b;
      ImportableConcat(a[1..], b);
    }
  }

  /** Neither a renamed legacy file nor a file the store writes is ever imported. */
  lemma {:induction false} NewFormatIsNeverImported(stem: string, name: string)
    ensures !IsLegacyName(stem + ".jsonl") && !IsLegacyName(stem + ".meta.json") && !IsLegacyName(name + ".migrated")
  {
    var a, c := stem + ".jsonl", name + ".migrated";
    assert a[|a| - 5..] == "jsonl" && "jsonl"[0] != ".json"[0];
    assert c[|c| - 9..] == ".migrated" && |".migrated"| == 9;
  }

  // ---------- One stem ----------

  /** The importable files that cannot be renamed: a later run imports them again. */
  function StuckIn(files: seq<File>): (r: seq<File>)
    ensures forall f :: f in r <==> f in files && Imports(f) && f.stuck
  {
    if files == [] then [] else (if Imports(files[0]) && files[0].stuck then [files[0]] else []) + StuckIn(files[1..])
  }

  /** What the importable files of one session save. */
  function OfStem(files: seq<File>, stem: string): seq<Saved> {
    if files == [] then []
    else
      (if Imports(files[0]) && Stem(files[0]) == stem then [SavedBy(files[0])] else []) + OfStem(files[1..], stem)
  }

  function SavedBy(f: File): Saved
    requires Imports(f)
  {
    Saved(f.content.entries, f.content.summary, f.stuck)
  }

  lemma {:induction false} StuckInConcat(a: seq<File>, b: seq<File>)
    ensures StuckIn(a + b) == StuckIn(a) + StuckIn(b)
  {
    if a == [] {
      assert a + b == b;
    } else {
      assert (a + b)[1..] == a[1..] + b;
      StuckInConcat(a[1..], b);
    }
  }

  lemma {:induction false} OfStemConcat(a: seq<File>, b: seq<File>, stem: string)
    ensures OfStem(a + b, stem) == OfStem(a, stem) + OfStem(b, stem)
  {
    if a == [] {
      assert a + b == b;
    } else {
      assert (a + b)[1..] == a[1..] + b;
      OfStemConcat(a[1..], b, stem);
    }
  }

  lemma {:induction false} StuckOfStem(files: seq<File>, stem: string)
    ensures OfStem(StuckIn(files), stem) == StuckOnly(OfStem(files, stem))
  {
    if files != [] {
      StuckOfStem(files[1..], stem);
      var f := files[0];
      var head := if Imports(f) && f.stuck then [f] else [];
      var mine := if Imports(f) && Stem(f) == stem then [SavedBy(f)] else [];
      OfStemConcat(head, StuckIn(files[1..]), stem);
      StuckOnlyConcat(mine, OfStem(files[1..], stem));
      assert OfStem(head, stem) == StuckOnly(mine);
    }
  }

  lemma {:induction false} OfStemOfImportable(files: seq<File>, stem: string)
    ensures OfStem(Importable(files), stem) == OfStem(files, stem)
  {
    if files != [] {
      OfStemOfImportable(files[1..], stem);
      if Imports(files[0]) {
        assert Importable(files)[1..] == Importable(files[1..]);
      }
    }
  }

  /** What importing a listing does to one session. */
  lemma {:induction false} ImportAllAt(files: seq<File>, store: map<string, Disk>, stem: string)
    ensures DiskAt(ImportAll(files, store), stem) == ImportedAll(OfStem(files, stem), DiskAt(store, stem))
    ensures stem in ImportAll(files, store) <==> stem in store || OfStem(files, stem) != []
  {
    hide DiskAt, Import, ImportedAll;
    if files == [] {
      NothingImported(DiskAt(store, stem));
    } else {
      var f, mine := files[0], OfStem(files[1..], stem);
      ImportAllAt(files[1..], Stored(f, store), stem);
      if Imports(f) {
        ImportAt(f, store, stem);
        ImportedAllCons(SavedBy(f), mine, DiskAt(store, stem));
      }
      assert OfStem(files, stem) == if Imports(f) && Stem(f) == stem then [SavedBy(f)] + mine else mine;
    }
  }

  lemma NothingImported(d: Disk)
    ensures ImportedAll([], d) == d
  {}

  lemma ImportAt(f: File, store: map<string, Disk>, stem: string)
    requires Imports(f)
    ensures DiskAt(Import(f, store), stem)
         == if Stem(f) == stem then Imported(SavedBy(f), DiskAt(store, stem)) else DiskAt(store, stem)
    ensures stem in Import(f, store) <==> stem in store || stem == Stem(f)
  {}

  // ---------- Restarting ----------

  lemma {:induction false} RunImports(done: seq<File>, rest: seq<File>, store: map<string, Disk>)
    ensures Migrated(done, rest, store).store == ImportAll(rest, store)
    decreases |rest|
  {
    if rest != [] {
      RunImports(done + [Dealt(rest[0])], rest[1..], Stored(rest[0], store));
    }
  }

  /** A run imports its whole listing, and leaves exactly the stuck files for the next one. */
  lemma {:induction false} RunLeaves(done: seq<File>, rest: seq<File>, store: map<string, Disk>)
    ensures Migrated(done, rest, store).store == ImportAll(rest, store)
    ensures Importable(Migrated(done, rest, store).files) == Importable(done) + StuckIn(rest)
    decreases |rest|
  {
    RunImports(done, rest, store);
    if rest == [] {
      assert Importable(done) + StuckIn(rest) == Importable(done);
    } else {
      var f, after := rest[0], rest[1..];
      StuckFirst(rest);
      DealtIs(done, f);
      RunLeaves(done + [Dealt(f)], after, Stored(f, store));
      Associate(Importable(done), StuckIn([f]), StuckIn(after));
    }
  }

  lemma Associate<T>(a: seq<T>, b: seq<T>, c: seq<T>)
    ensures (a + b) + c == a + (b + c)
  {}

  lemma {:induction false} StuckFirst(files: seq<File>)
    requires files != []
    ensures StuckIn(files) == StuckIn([files[0]]) + StuckIn(files[1..])
  {
    assert [files[0]][1..] == [] && files == [files[0]] + files[1..];
    StuckInConcat([files[0]], files[1..]);
  }

  lemma {:induction false} DealtIs(done: seq<File>, f: File)
    ensures Importable(done + [Dealt(f)]) == Importable(done) + StuckIn([f])
  {
    NewFormatIsNeverImported("", f.name);
    ImportableConcat(done, [Dealt(f)]);
    assert Importable([Dealt(f)]) == (if Imports(f) && f.stuck then [f] else []) + Importable([Dealt(f)][1..]);
    assert StuckIn([f]) == (if Imports(f) && f.stuck then [f] else []) + StuckIn([f][1..]);
  }

  /** A later listing of an interrupted directory: other entries, such as the store's own files, may have come or
      gone, but the importable ones and the store are as they were. */
  ghost predicate ListedAgain(c: World, again: World) {
    Importable(again.files) == Importable(c.files) && again.store == c.store
  }

  /** The store of a state that has dealt with the first n files of a listing and may be inside the import of the next. */
  ghost predicate StoreAt(files: seq<File>, store: map<string, Disk>, n: nat, c: map<string, Disk>)
    requires n <= |files|
  {
    var before := ImportAll(files[..n], store);
    c == before || (n < |files| && Imports(files[n]) && c in StoreWrites(files[n], before))
  }

  /** c has dealt with the first n files. */
  ghost predicate Dealing(done: seq<File>, rest: seq<File>, store: map<string, Disk>, n: nat, c: World) {
    && n <= |rest| && StoreAt(rest, store, n, c.store)
    && Importable(c.files) == Importable(done) + StuckIn(rest[..n]) + Importable(rest[n..])
  }

  /** Every state of a run has dealt with some number of files. */
  lemma {:induction false} StateDeals(done: seq<File>, rest: seq<File>, store: map<string, Disk>, c: World) returns (n: nat)
    requires c in States(done, rest, store)
    ensures Dealing(done, rest, store, n, c)
    decreases |rest|
  {
    var f, after := rest[0], rest[1..];
    if c in States(done + [Dealt(f)], after, Stored(f, store)) {
      n := StateDeals(done + [Dealt(f)], after, Stored(f, store), c);
      DealtIs(done, f);
      OneMoreDealt(done, rest, store, n, c);
      n := n + 1;
    } else {
      assert rest == [f] + after;
      n := ImportStateDeals(done, f, after, store, c);
    }
  }

  lemma {:induction false} OneMoreDealt(done: seq<File>, rest: seq<File>, store: map<string, Disk>, n: nat, c: World)
    requires rest != [] && Dealing(done + [Dealt(rest[0])], rest[1..], Stored(rest[0], store), n, c)
    requires Importable(done + [Dealt(rest[0])]) == Importable(done) + StuckIn([rest[0]])
    ensures Dealing(done, rest, store, n + 1, c)
  {
    hide Importable, StuckIn, StoreWrites, Stored;
    var f, after := rest[0], rest[1..];
    assert rest[..n + 1] == [f] + after[..n] && rest[n + 1..] == after[n..];
    assert rest[..n + 1][1..] == after[..n];
    StuckInConcat([f], after[..n]);
  }

  lemma {:induction false} ImportOne(f: File, store: map<string, Disk>)
    requires Imports(f)
    ensures ImportAll([f], store) == Import(f, store)
  {
    assert ImportAll([f], store) == ImportAll([f][1..], Stored(f, store));
  }

  lemma {:induction false} ImportStateDeals(done: seq<File>, f: File, after: seq<File>, store: map<string, Disk>, c: World)
    returns (n: nat)
    requires Imports(f) && c in ImportStates(done, f, after, store)
    ensures Dealing(done, [f] + after, store, n, c)
  {
    hide Importable, StuckIn, StoreWrites, Stored;
    NothingDealt();
    var states, rest := ImportStates(done, f, after, store), [f] + after;
    var k :| 0 <= k < |states| && c == states[k];
    assert rest[..0] == [] && rest[0..] == rest && rest[..1] == [f] && rest[1..] == after;
    if k == |states| - 1 {
      n := 1;
      DealtIs(done, f);
      ImportableConcat(done + [Dealt(f)], after);
      ImportOne(f, store);
    } else {
      n := 0;
      ImportableConcat(done, rest);
      assert c.files == done + rest;
      assert c.store == StoreWrites(f, store)[k];
    }
  }

  /** In every session with a stuck file, the stuck files agree with the last file and the last summary: this can be told
      from the listing before the run. */
  predicate StuckAgree(files: seq<File>) {
    forall f :: f in files && Imports(f) && f.stuck ==> Agree(OfStem(files, Stem(f)))
  }

  lemma {:induction false} AgreeEverywhere(files: seq<File>, stem: string)
    requires StuckAgree(files)
    ensures Agree(OfStem(files, stem))
  {
    if f :| f in files && Imports(f) && f.stuck && Stem(f) == stem {
      assert Agree(OfStem(files, Stem(f)));
    } else {
      NoneStuckOfStem(files, stem);
    }
  }

  lemma {:induction false} NoneStuckOfStem(files: seq<File>, stem: string)
    requires forall f :: f in files && Imports(f) && f.stuck ==> Stem(f) != stem
    ensures StuckOnly(OfStem(files, stem)) == []
  {
    StuckOfStem(files, stem);
    NoneOfStem(StuckIn(files), stem);
  }

  lemma {:induction false} NoneOfStem(files: seq<File>, stem: string)
    requires forall f :: f in files && Imports(f) ==> Stem(f) != stem
    ensures OfStem(files, stem) == []
  {
    if files != [] {
      assert files[0] in files;
      NoneOfStem(files[1..], stem);
    }
  }

  /** Every importable file can be renamed: the simplest such listing. */
  ghost predicate NoneStuck(files: seq<File>) {
    forall f :: f in files && Imports(f) ==> !f.stuck
  }

  lemma {:induction false} NoneStuckAgree(files: seq<File>)
    requires NoneStuck(files)
    ensures StuckAgree(files) && StuckIn(files) == []
  {
    if files != [] {
      assert files[0] in files;
      NoneStuckAgree(files[1..]);
    }
  }

  /** What is stored for one session at a state of a run. */
  lemma {:induction false} StoreAtStem(files: seq<File>, store: map<string, Disk>, n: nat, c: map<string, Disk>, stem: string)
    requires n <= |files| && StoreAt(files, store, n, c)
    ensures MidRun(OfStem(files[..n], stem), OfStem(files[n..], stem), DiskAt(store, stem), DiskAt(c, stem))
    ensures stem in store || OfStem(files[..n], stem) != [] ==> stem in c
    ensures stem in c ==> stem in store || OfStem(files, stem) != []
  {
    hide ImportedAll, OfStem, StoreWrites, ImportAll;
    var before := ImportAll(files[..n], store);
    ImportAllAt(files[..n], store, stem);
    assert files == files[..n] + files[n..];
    OfStemConcat(files[..n], files[n..], stem);
    if c != before {
      FirstOfStem(files[n..], stem);
      StoreWritesAt(files[n], before, c, stem);
    }
  }

  lemma FirstOfStem(files: seq<File>, stem: string)
    requires files != [] && Imports(files[0])
    ensures Stem(files[0]) == stem ==> OfStem(files, stem) != [] && OfStem(files, stem)[0] == SavedBy(files[0])
  {}

  lemma {:induction false} StoreWritesAt(f: File, before: map<string, Disk>, c: map<string, Disk>, stem: string)
    requires Imports(f) && c in StoreWrites(f, before)
    ensures stem in c <==> stem in before || stem == Stem(f)
    ensures Stem(f) != stem ==> DiskAt(c, stem) == DiskAt(before, stem)
    ensures DiskAt(c, stem).meta.summary == DiskAt(before, stem).meta.summary ||
      DiskAt(c, stem).meta.summary == f.content.summary != ""
  {
    var w := StoreWrites(f, before);
    var k :| 0 <= k < |w| && c == w[k];
    var disks := Writes(SetHistory(f.content.entries), DiskAt(before, Stem(f)));
    assert k == 0 ==> c == before[Stem(f) := disks[0]];
    assert k == 1 ==> c == before[Stem(f) := disks[1]];
  }

  /** Importing what an interrupted run left gives the store of the whole run, if the stuck files agree. */
  lemma {:induction false} LeftoversReachTheEnd(files: seq<File>, store: map<string, Disk>, n: nat, c: map<string, Disk>)
    requires n <= |files| && StoreAt(files, store, n, c) && StuckAgree(files)
    ensures ImportAll(StuckIn(files[..n]) + Importable(files[n..]), c) == ImportAll(files, store)
  {
    hide ImportAll, StoreAt, StuckIn, Importable;
    var left := StuckIn(files[..n]) + Importable(files[n..]);
    var x, y := ImportAll(left, c), ImportAll(files, store);
    forall stem: string ensures (stem in x <==> stem in y) && DiskAt(x, stem) == DiskAt(y, stem) {
      StemReachesTheEnd(files, store, n, c, stem);
    }
    assert forall stem :: stem in x ==> x[stem] == DiskAt(x, stem) == DiskAt(y, stem) == y[stem];
  }

  lemma SameEmptiness(a: seq<Saved>, b: seq<Saved>)
    ensures StuckOnly(a) + b != [] ==> a + b != []
  {}

  lemma {:induction false} StemReachesTheEnd(files: seq<File>, store: map<string, Disk>, n: nat, c: map<string, Disk>,
                                             stem: string)
    requires n <= |files| && StoreAt(files, store, n, c) && StuckAgree(files)
    ensures var x, y := ImportAll(StuckIn(files[..n]) + Importable(files[n..]), c), ImportAll(files, store);
      (stem in x <==> stem in y) && DiskAt(x, stem) == DiskAt(y, stem)
  {
    hide StoreAt, MidRun, ImportedAll, ImportAll, StuckIn, OfStem, Importable, DiskAt, StuckAgree;
    var p, q := files[..n], files[n..];
    var a, b := OfStem(p, stem), OfStem(q, stem);
    assert files == p + q;
    OfStemConcat(p, q, stem);
    OfStemConcat(StuckIn(p), Importable(q), stem);
    StuckOfStem(p, stem);
    OfStemOfImportable(q, stem);
    ImportAllAt(StuckIn(p) + Importable(q), c, stem);
    ImportAllAt(files, store, stem);
    StoreAtStem(files, store, n, c, stem);
    AgreeEverywhere(files, stem);
    SessionRestarts(a, b, DiskAt(store, stem), DiskAt(c, stem));
    SameEmptiness(a, b);
  }

  /** Interrupting a run after any write or rename and running again leaves the store of the uninterrupted run, and a
      listing on which that holds again. */
  lemma {:induction false} RestartReachesTheSameStore(w: World, c: World, again: World)
    requires StuckAgree(w.files) && c in [w] + RunStates(w) && ListedAgain(c, again)
    ensures RunEnd(again).store == RunEnd(w).store && StuckAgree(again.files)
    ensures Importable(RunEnd(again).files) == StuckIn(w.files)
  {
    hide StuckIn, Importable, ImportAll, StuckAgree, Migrated, States;
    NothingDealt();
    var n := 0;
    if c == w {
      assert w.files[..0] == [] && w.files[0..] == w.files;
      NothingDone(w.files, w.store);
    } else {
      n := StateDeals([], w.files, w.store, c);
    }
    RunLeaves([], w.files, w.store);
    RunLeaves([], again.files, again.store);
    LeftoversReachTheEnd(w.files, w.store, n, c.store);
    ImportAllOfImportable(again.files, again.store);
    LeftoversAgree(w.files, n, again.files);
  }

  lemma NothingDone(files: seq<File>, store: map<string, Disk>)
    ensures StoreAt(files, store, 0, store)
  {}

  lemma {:induction false} LeftoversStuck(files: seq<File>, n: nat, again: seq<File>)
    requires n <= |files| && Importable(again) == StuckIn(files[..n]) + Importable(files[n..])
    ensures StuckIn(again) == StuckIn(files)
  {
    var p, q := files[..n], files[n..];
    assert files == p + q;
    StuckInConcat(p, q);
    StuckInConcat(StuckIn(p), Importable(q));
    StuckOfImportable(again);
    StuckOfImportable(q);
    StuckInTwice(p);
  }

  /** What is left to import has the same stuck files, and they still agree. */
  lemma {:induction false} LeftoversAgree(files: seq<File>, n: nat, again: seq<File>)
    requires n <= |files| && StuckAgree(files)
    requires Importable(again) == StuckIn(files[..n]) + Importable(files[n..])
    ensures StuckIn(again) == StuckIn(files) && StuckAgree(again)
  {
    hide OfStem, Importable, StuckIn, Agree;
    LeftoversStuck(files, n, again);
    forall f | f in again && Imports(f) && f.stuck ensures Agree(OfStem(again, Stem(f))) {
      LeftoversAgreeAt(files, n, again, Stem(f));
    }
  }

  lemma {:induction false} LeftoversAgreeAt(files: seq<File>, n: nat, again: seq<File>, stem: string)
    requires n <= |files| && StuckAgree(files)
    requires Importable(again) == StuckIn(files[..n]) + Importable(files[n..])
    ensures Agree(OfStem(again, stem))
  {
    hide OfStem, Importable, StuckIn, StuckAgree, Agree;
    var p, q := files[..n], files[n..];
    assert files == p + q;
    OfStemConcat(p, q, stem);
    OfStemConcat(StuckIn(p), Importable(q), stem);
    StuckOfStem(p, stem);
    OfStemOfImportable(again, stem);
    OfStemOfImportable(q, stem);
    AgreeEverywhere(files, stem);
    StillAgrees(OfStem(p, stem), OfStem(q, stem));
  }

  lemma {:induction false} StuckOfImportable(files: seq<File>)
    ensures StuckIn(Importable(files)) == StuckIn(files)
  {
    if files != [] {
      StuckOfImportable(files[1..]);
      if Imports(files[0]) {
        assert Importable(files)[1..] == Importable(files[1..]);
      }
    }
  }

  lemma {:induction false} StuckInTwice(files: seq<File>)
    ensures StuckIn(StuckIn(files)) == StuckIn(files)
  {
    if files != [] {
      StuckInTwice(files[1..]);
      StuckInConcat(if Imports(files[0]) && files[0].stuck then [files[0]] else [], StuckIn(files[1..]));
    }
  }

  /** worlds[j + 1] is a later listing of a state in which the run on worlds[j] stopped. */
  ghost predicate Interrupted(worlds: seq<World>, stops: seq<World>, j: nat)
    requires |worlds| == |stops| + 1 && j < |stops|
  {
    stops[j] in [worlds[j]] + RunStates(worlds[j]) && ListedAgain(stops[j], worlds[j + 1])
  }

  lemma {:induction false} OneInterruption(worlds: seq<World>, stops: seq<World>, j: nat)
    requires |worlds| == |stops| + 1 && j < |stops| && Interrupted(worlds, stops, j) && StuckAgree(worlds[j].files)
    ensures StuckAgree(worlds[j + 1].files) && RunEnd(worlds[j + 1]).store == RunEnd(worlds[j]).store
  {
    hide StuckAgree, RunStates, RunEnd, ListedAgain;
    RestartReachesTheSameStore(worlds[j], stops[j], worlds[j + 1]);
  }

  /** The same for any number of interruptions. */
  lemma {:induction false} RestartsReachTheSameStore(worlds: seq<World>, stops: seq<World>, n: nat)
    requires |worlds| == |stops| + 1 && n <= |stops| && StuckAgree(worlds[0].files)
    requires forall j: nat :: j < |stops| ==> Interrupted(worlds, stops, j)
    ensures StuckAgree(worlds[n].files)
    ensures RunEnd(worlds[n]).store == RunEnd(worlds[0]).store
    decreases n
  {
    if n > 0 {
      hide StuckAgree, RunEnd, Interrupted;
      RestartsReachTheSameStore(worlds, stops, n - 1);
      OneInterruption(worlds, stops, n - 1);
    }
  }

  /** A completed import run again leaves the store alone exactly when the stuck files agree with what is stored. */
  lemma {:induction false} RerunChangesNothingIff(w: World, again: World)
    requires ListedAgain(RunEnd(w), again)
    ensures RunEnd(again).store == RunEnd(w).store <==> StuckAgree(w.files)
  {
    hide OfStem, StuckIn, Importable, ImportAll, ImportedAll, Agree, Migrated, DiskAt;
    NothingDealt();
    RunLeaves([], w.files, w.store);
    RunLeaves([], again.files, again.store);
    ImportAllOfImportable(again.files, again.store);
    var n := |w.files|;
    assert w.files[..n] == w.files && w.files[n..] == [];
    assert Importable(again.files) == [] + StuckIn(w.files) == StuckIn(w.files);
    if StuckAgree(w.files) {
      LeftoversReachTheEnd(w.files, w.store, n, again.store);
      assert StuckIn(w.files[..n]) + Importable(w.files[n..]) == StuckIn(w.files);
    }
    if RunEnd(again).store == RunEnd(w).store {
      forall f | f in w.files && Imports(f) && f.stuck ensures Agree(OfStem(w.files, Stem(f))) {
        var stem := Stem(f);
        ImportAllAt(w.files, w.store, stem);
        ImportAllAt(StuckIn(w.files), again.store, stem);
        StuckOfStem(w.files, stem);
        assert ImportAll(StuckIn(w.files), again.store) == again.store;
        UnchangedIffAgree(OfStem(w.files, stem), DiskAt(w.store, stem));
      }
    }
  }

  lemma NothingDealt()
    ensures Importable([]) == [] && StuckIn([]) == []
  {}

  /** Restarting is harmless at every point of a run exactly when the stuck files agree: the whole restart guarantee, in
      terms of the listing before the run. */
  lemma {:induction false} RestartsAreHarmlessIff(w: World)
    ensures StuckAgree(w.files) <==>
      forall c, again :: c in [w] + RunStates(w) + [RunEnd(w)] && ListedAgain(c, again) ==>
        RunEnd(again).store == RunEnd(w).store
  {
    if StuckAgree(w.files) {
      forall c, again | c in [w] + RunStates(w) + [RunEnd(w)] && ListedAgain(c, again)
        ensures RunEnd(again).store == RunEnd(w).store
      {
        if c == RunEnd(w) {
          RerunChangesNothingIff(w, again);
        } else {
          RestartReachesTheSameStore(w, c, again);
        }
      }
    } else {
      var end := RunEnd(w);
      assert end in [w] + RunStates(w) + [end] && ListedAgain(end, end);
      RerunChangesNothingIff(w, end);
    }
  }

  /** Files that do not share a stem do not touch it. */
  lemma {:induction false} OtherStemsAreKept(files: seq<File>, store: map<string, Disk>, stem: string)
    requires forall f :: f in files && Imports(f) ==> Stem(f) != stem
    ensures DiskAt(ImportAll(files, store), stem) == DiskAt(store, stem)
  {
    if files != [] {
      assert files[0] in files;
      OtherStemsAreKept(files[1..], Stored(files[0], store), stem);
    }
  }

  /** A run gives each session the messages, and the summary if any, of the last legacy file with its stem. */
  lemma {:induction false} LastFileWins(files: seq<File>, store: map<string, Disk>, i: nat)
    requires i < |files| && Imports(files[i])
    requires forall j :: i < j < |files| && Imports(files[j]) ==> Stem(files[j]) != Stem(files[i])
    ensures var d := DiskAt(ImportAll(files, store), Stem(files[i]));
      History(d) == files[i].content.entries
      && (files[i].content.summary != "" ==> d.meta.summary == files[i].content.summary)
    decreases i
  {
    if i == 0 {
      OtherStemsAreKept(files[1..], Import(files[0], store), Stem(files[0]));
      EncodeDecodes(files[0].content.entries);
      assert DiskAt(Import(files[0], store), Stem(files[0])).meta.skip == 0;
    } else {
      LastFileWins(files[1..], Stored(files[0], store), i - 1);
    }
  }

  lemma {:induction false} OneOfStem(f: File)
    requires Imports(f)
    ensures OfStem([f], Stem(f)) == [SavedBy(f)]
  {
    assert OfStem([f][1..], Stem(f)) == [];
  }

  /** A listing on which the guarantee fails: its stuck file holds other messages than the last file of the session. */
  lemma {:induction false} StuckRenameChangesTheStore(e: Entry) returns (w: World)
    ensures !StuckAgree(w.files) && RunEnd(RunEnd(w)).store != RunEnd(w).store
  {
    var f := File("a.json", false, Session("k", [], ""), true);
    var g := File("b.json", false, Session("k", [e], ""), false);
    w := World([f, g], map[]);
    var x, y := SavedBy(f), SavedBy(g);
    OneOfStem(f);
    OneOfStem(g);
    OfStemConcat([f], [g], Stem(f));
    assert [f] + [g] == [f, g] && [x] + [y] == [x, y];
    StuckOnlyConcat([x], [y]);
    assert StuckOnly([x]) == [x] && StuckOnly([y]) == [];
    assert f in w.files && !Agree(OfStem(w.files, Stem(f)));
    RerunChangesNothingIff(w, RunEnd(w));
  }
}
