/** Which files an import takes, under which name a session is stored, and what becomes of the files:
    pkg/memory/migration.go and the file names of pkg/memory/jsonl.go. */
module MigrationFiles {
  import opened Migration
  import SessionStore

  // ---------- Names ----------

  /** The characters that may not occur in a file name, and the one that replaces them. */
  predicate IsSeparator(c: char) {
    c == ':' || c == '/' || c == '\\'
  }

  /** The stored name has no separator in it and differs from the key only where the key has one. */
  lemma {:induction false} SanitizeMeans(key: string)
    ensures |SanitizeKey(key)| == |key|
    ensures forall i :: 0 <= i < |key| ==> !IsSeparator(SanitizeKey(key)[i])
    ensures forall i :: 0 <= i < |key| ==> SanitizeKey(key)[i] == key[i] || (IsSeparator(key[i]) && SanitizeKey(key)[i] == '_')
  {
    var s := SanitizeKey(key);
    forall i | 0 <= i < |key|
      ensures !IsSeparator(s[i]) && (s[i] == key[i] || (IsSeparator(key[i]) && s[i] == '_'))
    {
      assert s[i] == if key[i] in ":/\\" then '_' else key[i];
    }
  }

  /** Two keys share a file exactly when they differ only in separators and underscores. */
  lemma {:induction false} SameFileIff(a: string, b: string)
    ensures SanitizeKey(a) == SanitizeKey(b) <==>
      |a| == |b| && forall i :: 0 <= i < |a| ==>
        a[i] == b[i] || ((IsSeparator(a[i]) || a[i] == '_') && (IsSeparator(b[i]) || b[i] == '_'))
  {
    hide SanitizeKey;
    var s, t := SanitizeKey(a), SanitizeKey(b);
    SanitizeMeans(a);
    SanitizeMeans(b);
    if s == t {
      forall i | 0 <= i < |a|
        ensures a[i] == b[i] || ((IsSeparator(a[i]) || a[i] == '_') && (IsSeparator(b[i]) || b[i] == '_'))
      {
        assert s[i] == t[i];
      }
    }
  }

  lemma {:induction false} SuffixOfJoined(stem: string, tail: string, suffix: string)
    requires |suffix| >= |tail|
    ensures HasSuffix(stem + tail, suffix) <==>
      suffix[|suffix| - |tail|..] == tail && HasSuffix(stem, suffix[..|suffix| - |tail|])
  {
    var s, k := stem + tail, |suffix| - |tail|;
    if |suffix| <= |s| {
      assert s[|s| - |suffix|..] == stem[|stem| - k..] + tail;
      assert suffix == suffix[..k] + suffix[k..];
      if s[|s| - |suffix|..] == suffix {
        assert suffix[k..] == s[|s| - |suffix|..][k..] == tail;
        assert suffix[..k] == s[|s| - |suffix|..][..k] == stem[|stem| - k..];
      }
    }
  }

  /** A file is taken for a legacy session exactly when its name is a stem followed by ".json", and the stem does not end
      in ".meta" as those of the store's own files do. */
  lemma {:induction false} LegacyNameIff(name: string)
    ensures IsLegacyName(name) <==> exists stem :: name == stem + ".json" && !HasSuffix(stem, ".meta")
  {
    if HasSuffix(name, ".json") {
      var stem := name[..|name| - 5];
      assert name == stem + ".json";
      JsonName(stem);
      assert forall other :: name == other + ".json" ==> other == (other + ".json")[..|name| - 5] == stem;
    } else {
      forall stem ensures name != stem + ".json" {
        EndsInJson(stem);
      }
    }
  }

  lemma EndsInJson(stem: string)
    ensures HasSuffix(stem + ".json", ".json")
  {}

  lemma {:induction false} JsonName(stem: string)
    ensures IsLegacyName(stem + ".json") <==> !HasSuffix(stem, ".meta")
  {
    var name := stem + ".json";
    assert name[|name| - 5..] == ".json";
    assert ".meta.json"[5..] == ".json" && ".meta.json"[..5] == ".meta";
    SuffixOfJoined(stem, ".json", ".meta.json");
    assert ".migrated"[4..] == "rated" && "rated"[0] != ".json"[0];
    SuffixOfJoined(stem, ".json", ".migrated");
  }

  /** The session is stored under the key in the file, or under the name of the file if it has none. */
  lemma {:induction false} StemIs(f: File, stem: string)
    requires Imports(f) && f.name == stem + ".json"
    ensures f.content.key != "" ==> Stem(f) == SanitizeKey(f.content.key)
    ensures f.content.key == "" ==> Stem(f) == SanitizeKey(stem)
  {
    assert f.name[..|f.name| - |".json"|] == stem;
  }

  // ---------- The files after a run ----------

  /** What a run makes of one file: a backup under a new name, if it was imported and can be renamed; otherwise the file
      stays. */
  ghost predicate BackedUp(f: File, later: File) {
    && later.isDir == f.isDir && later.content == f.content && later.stuck == f.stuck
    && (Imports(f) && !f.stuck ==> later.name == f.name + ".migrated")
    && (!Imports(f) || f.stuck ==> later.name == f.name)
  }

  lemma {:induction false} RunKeepsDone(done: seq<File>, rest: seq<File>, store: map<string, SessionStore.Disk>)
    ensures var files := Migrated(done, rest, store).files;
      && |files| == |done| + |rest|
      && (forall i :: 0 <= i < |done| ==> files[i] == done[i])
      && (forall i :: 0 <= i < |rest| ==> BackedUp(rest[i], files[|done| + i]))
    decreases |rest|
  {
    if rest != [] {
      var files, after, next := Migrated(done, rest, store).files, rest[1..], done + [Dealt(rest[0])];
      RunKeepsDone(next, after, Stored(rest[0], store));
      forall i | 0 <= i < |rest| ensures BackedUp(rest[i], files[|done| + i]) {
        if i > 0 {
          assert rest[i] == after[i - 1];
        } else {
          assert files[|done|] == next[|done|];
        }
      }
    }
  }

  /** A run loses no file: every entry of the listing is still there, in its place, with its content. */
  lemma {:induction false} NoFileIsLost(w: World)
    ensures |RunEnd(w).files| == |w.files|
    ensures forall i :: 0 <= i < |w.files| ==> BackedUp(w.files[i], RunEnd(w).files[i])
  {
    hide BackedUp, Migrated;
    RunKeepsDone([], w.files, w.store);
  }
}
