/** The search cache with similarity lookup: pkg/skills/search_cache.go. */
module SearchCache {
  import opened Common
  import opened Trigrams
  import opened LruOrder

  const SIMILARITY_THRESHOLD := 0.7

  datatype Entry<R> = Entry(query: Text, trigrams: seq<nat>, results: seq<R>, createdAt: nat)

  /** time.Since(createdAt) < ttl at time now */
  predicate Fresh<R>(e: Entry<R>, now: nat, ttl: nat) {
    now - e.createdAt < ttl
  }

  function FreshKeys<R>(entries: map<Text, Entry<R>>, now: nat, ttl: nat): set<Text> {
    set k | k in entries && Fresh(entries[k], now, ttl)
  }

  lemma FreshMeans<R>(entries: map<Text, Entry<R>>, now: nat, ttl: nat)
    ensures forall k :: k in FreshKeys(entries, now, ttl) <==> k in entries && now - entries[k].createdAt < ttl
  {}

  /** How alike two keys are. */
  function Likeness(a: Text, b: Text): real {
    Similarity(TrigramSet(a), TrigramSet(b))
  }

  /** time.Now: each reading may be any moment not before the last one. */
  class Clock {
    var time: nat

    method Now() returns (t: nat)
      modifies this
      ensures t == time >= old(time)
    {
      t := *;
      if t < time {
        t := time;
      }
      time := t;
    }
  }

  class Cache<R> {
    var entries: map<Text, Entry<R>>
    var order: seq<Text>
    const maxEntries: nat
    const ttl: nat
    const normalize: Text -> Text
    const clock: Clock
    /** For each key, when it was last stored or hit, counted in uses of the cache; and its last stored value. */
    ghost var lastUse: map<Text, nat>
    ghost var uses: nat
    ghost var stored: map<Text, seq<R>>

    ghost predicate Valid()
      reads this
    {
      && maxEntries > 0 && ttl > 0
      && OrderOk(order, entries.Keys, lastUse, uses, maxEntries)
      && EntriesOk(entries, stored)
    }

    constructor (maxEntries: int, ttl: int, normalize: Text -> Text)
      ensures Valid() && fresh(clock) && entries == map[] && order == []
      ensures this.maxEntries == (if maxEntries <= 0 then 50 else maxEntries)
      ensures this.ttl == (if ttl <= 0 then 5 * 60 * 1_000_000_000 else ttl) && this.normalize == normalize
    {
      this.maxEntries := if maxEntries <= 0 then 50 else maxEntries;
      this.ttl := if ttl <= 0 then 5 * 60 * 1_000_000_000 else ttl;
      this.normalize := normalize;
      clock := new Clock;
      entries, order := map[], [];
      lastUse, uses, stored := map[], 0, map[];
    }

    /** Marks key as used now. */
    method MoveToEndLocked(key: Text)
      requires Valid() && key in entries
      modifies `order, `lastUse, `uses
      ensures Valid() && order == Without(old(order), key) + [key]
      ensures lastUse == old(lastUse)[key := old(uses)] && uses == old(uses) + 1
    {
      hide OrderOk, EntriesOk;
      TouchOk(order, entries.Keys, lastUse, uses, maxEntries, key);
      order := MoveToEnd(order, key);
      lastUse, uses := lastUse[key := uses], uses + 1;
    }

    /** Drops the entries that are expired at one reading of the clock. */
    method EvictExpiredLocked() returns (now: nat)
      requires Valid()
      modifies `entries, `order, clock
      ensures Valid() && old(clock.time) <= now == clock.time
      ensures order == Filter(old(order), FreshKeys(old(entries), now, ttl))
      ensures entries == Restrict(old(entries), FreshKeys(old(entries), now, ttl))
    {
      hide OrderOk, EntriesOk;
      now := clock.Now();
      FilterOk(order, entries.Keys, FreshKeys(entries, now, ttl), lastUse, uses, maxEntries);
      RestrictOk(entries, stored, FreshKeys(entries, now, ttl));
      var unexpired := (e: Entry<R>) => Fresh(e, now, ttl);
      assert FreshKeys(entries, now, ttl) == Satisfying(entries, unexpired);
      order, entries := DropOthers(order, entries, unexpired, lastUse, uses, maxEntries);
    }

    method NewEntry(key: Text, results: seq<R>) returns (e: Entry<R>)
      modifies clock
      ensures e.query == key && IsTrigrams(e.trigrams, key) && e.results == results
      ensures old(clock.time) <= e.createdAt == clock.time
    {
      var trigrams := BuildTrigrams(key);
      var createdAt := clock.Now();
      e := Entry(key, trigrams, results, createdAt);
    }

    /** A key that is there gets a new entry and moves to the end. */
    method Update(key: Text, results: seq<R>)
      requires Valid() && key in entries && key != []
      modifies this, clock
      ensures Valid() && Stores(key, results, old(entries), old(clock.time), old(stored))
      ensures order == PutOrder(old(order), key, maxEntries)
      ensures lastUse == old(lastUse)[key := old(uses)]
    {
      hide OrderOk, EntriesOk;
      var entry := NewEntry(key, results);
      StoreOk(entries, stored, key, entry);
      entries, stored := entries[key := entry], stored[key := results];
      assert entries.Keys == old(entries).Keys + {key} == old(entries).Keys;
      ListsItsKeys(order, entries.Keys, lastUse, uses, maxEntries);
      MoveToEndLocked(key);
    }

    /** A new key replaces the least recently used one if the cache is full. */
    method Insert(key: Text, results: seq<R>)
      requires Valid() && key !in entries && key != []
      modifies this, clock
      ensures Valid() && Stores(key, results, old(entries), old(clock.time), old(stored))
      ensures order == PutOrder(old(order), key, maxEntries)
      ensures lastUse == old(lastUse)[key := old(uses)]
    {
      hide OrderOk, EntriesOk, PutOrder, Evicted;
      ghost var live, keys := order, entries.Keys;
      PutOk(order, keys, lastUse, uses, maxEntries, key);
      PutNew(order, keys, lastUse, uses, maxEntries, key);
      RestrictOk(entries, stored, keys - Evicted(live, key, maxEntries));
      order, entries := MakeRoom(order, entries, maxEntries, lastUse, uses);
      var entry := NewEntry(key, results);
      StoreOk(entries, stored, key, entry);
      entries, stored := entries[key := entry], stored[key := results];
      order := order + [key];
      lastUse, uses := lastUse[key := uses], uses + 1;
    }

    /** key holds results, stored after `from`; every other entry is as it was before. */
    ghost predicate Stores(key: Text, results: seq<R>, entries0: map<Text, Entry<R>>, from: nat, stored0: map<Text, seq<R>>)
      reads this, clock
    {
      && key in entries && entries[key].results == results && from <= entries[key].createdAt <= clock.time
      && (forall k :: k in entries && k != key ==> k in entries0 && entries[k] == entries0[k])
      && stored == stored0[key := results]
    }

    /** What came of restricted entries came of the entries themselves. */
    lemma StoresMore(key: Text, results: seq<R>, entries0: map<Text, Entry<R>>, keep: set<Text>, from: nat,
                                        stored0: map<Text, seq<R>>)
      requires Stores(key, results, Restrict(entries0, keep), from, stored0)
      ensures Stores(key, results, entries0, from, stored0)
    {}

    /** Stores results under the normalized query. `now` is the clock reading that decided what is expired. */
    method Put(query: Text, results: seq<R>) returns (ghost now: nat)
      requires Valid()
      modifies this, clock
      ensures Valid()
      ensures var key := normalize(query);
        if key == [] then entries == old(entries) && order == old(order) && stored == old(stored)
        else
          && old(clock.time) <= now && Stores(key, results, old(entries), now, old(stored))
          && order == PutOrder(Filter(old(order), FreshKeys(old(entries), now, ttl)), key, maxEntries)
          && lastUse == old(lastUse)[key := old(uses)]
    {
      var key := normalize(query);
      now := clock.time;
      if key == [] {
        return;
      }
      hide OrderOk, EntriesOk, PutOrder, Filter, Restrict, FreshKeys, Stores;
      now := EvictExpiredLocked();
      if key in entries {
        Update(key, results);
      } else {
        Insert(key, results);
      }
      StoresMore(key, results, old(entries), FreshKeys(old(entries), now, ttl), now, old(stored));
    }

    /** k was unexpired when the call began, at the latest. */
    ghost predicate WasFresh(k: Text, from: nat)
      requires k in entries
      reads this
    {
      from - entries[k].createdAt < ttl
    }

    /** The unexpired entry most like key, if any is like it at all; the map is visited in arbitrary order and the
        clock is read for each entry. */
    method BestMatch(key: Text) returns (best: Option<Text>, bestSim: real)
      requires Valid()
      modifies clock
      ensures clock.time >= old(clock.time)
      ensures bestSim == (if best.Some? then Likeness(key, best.value) else 0.0)
      ensures best.Some? ==> best.value in entries && WasFresh(best.value, old(clock.time))
      ensures forall k :: k in FreshKeys(entries, clock.time, ttl) ==> Likeness(key, k) <= bestSim
    {
      hide OrderOk, TrigramSet, Increasing, Similarity;
      var queryTrigrams := BuildTrigrams(key);
      best, bestSim := None, 0.0;
      var remaining := entries.Keys;
      while remaining != {}
        invariant remaining <= entries.Keys && clock.time >= old(clock.time)
        invariant bestSim == (if best.Some? then Likeness(key, best.value) else 0.0)
        invariant best.Some? ==> best.value in entries && WasFresh(best.value, old(clock.time))
        invariant forall k :: k in FreshKeys(entries, clock.time, ttl) && k !in remaining ==> Likeness(key, k) <= bestSim
        decreases |remaining|
      {
        var k :| k in remaining;
        remaining := remaining - {k};
        var entry := entries[k];
        assert EntryOk(entries, stored, k);
        label Before:
        var now := clock.Now();
        assert forall j :: j in FreshKeys(entries, clock.time, ttl) ==> j in FreshKeys(entries, old@Before(clock.time), ttl);
        if Fresh(entry, now, ttl) {
          var sim := JaccardSimilarity(queryTrigrams, entry.trigrams);
          if sim > bestSim {
            best, bestSim := Some(entry.query), sim;
          }
        }
      }
    }

    /** Looks a query up. On a hit, `hit` is the key whose results are returned. */
    method Get(query: Text) returns (results: Option<seq<R>>, ghost hit: Text)
      requires Valid()
      modifies `order, `lastUse, `uses, clock
      ensures Valid() && clock.time >= old(clock.time)
      ensures results.Some? ==>
        && hit in entries && hit in stored && results.value == stored[hit] && WasFresh(hit, old(clock.time))
        && order == Without(old(order), hit) + [hit] && lastUse == old(lastUse)[hit := old(uses)]
        && GoodHit(normalize(query), hit)
      ensures var key := normalize(query);
        key != [] && key in entries && clock.time - entries[key].createdAt < ttl ==> results.Some? && hit == key
      ensures results.None? ==>
        && order == old(order) && lastUse == old(lastUse)
        && (normalize(query) != [] ==>
             forall k :: k in entries && clock.time - entries[k].createdAt < ttl ==> Likeness(normalize(query), k) < 0.7)
    {
      hide OrderOk, Without, TrigramSet, Similarity, IsTrigrams;
      var key := normalize(query);
      hit := key;
      if key == [] {
        return None, hit;
      }
      if key in entries {
        var now := clock.Now();
        if Fresh(entries[key], now, ttl) {
          assert EntryOk(entries, stored, key);
          MoveToEndLocked(key);
          return Some(entries[key].results), key;
        }
      }
      assert key !in FreshKeys(entries, clock.time, ttl);
      var best, bestSim := BestMatch(key);
      FreshMeans(entries, clock.time, ttl);
      if bestSim >= SIMILARITY_THRESHOLD && best.Some? {
        var found := best.value;
        assert EntryOk(entries, stored, found);
        MoveToEndLocked(found);
        return Some(entries[found].results), found;
      }
      results := None;
    }

    /** The exact key, or an unexpired key that is alike enough and at least as alike as every unexpired one. */
    ghost predicate GoodHit(key: Text, hit: Text)
      reads this, clock
    {
      key != [] &&
      (hit == key ||
       (Likeness(key, hit) >= 0.7
        && forall k :: k in entries && clock.time - entries[k].createdAt < ttl ==> Likeness(key, k) <= Likeness(key, hit)))
    }

    function Len(): nat
      reads this
    {
      |entries|
    }

    /** Never more than maxEntries. */
    lemma {:induction false} SizeIsBounded()
      requires Valid()
      ensures Len() == |order| <= maxEntries
    {
      SizeOfDistinct(order, entries.Keys);
    }
  }

  /** What a store keeps, entry by entry: an expired entry goes, and an unexpired one is lost only if the cache is full of
      unexpired entries, the key is not among them, and no other was used longer ago. `order` is that before the store. */
  lemma {:induction false} PutKeeps<R>(order: seq<Text>, entries: map<Text, Entry<R>>, lastUse: map<Text, nat>, uses: nat,
                                       maxEntries: nat, now: nat, ttl: nat, key: Text, k: Text)
    requires maxEntries > 0 && OrderOk(order, entries.Keys, lastUse, uses, maxEntries)
    requires k in entries && k != key
    ensures var kept := PutOrder(Filter(order, FreshKeys(entries, now, ttl)), key, maxEntries);
      && (now - entries[k].createdAt >= ttl ==> k !in kept)
      && (now - entries[k].createdAt < ttl && k !in kept ==>
           && (key in entries ==> now - entries[key].createdAt >= ttl)
           && |FreshKeys(entries, now, ttl)| == maxEntries
           && forall j :: j in entries && now - entries[j].createdAt < ttl ==> lastUse[k] <= lastUse[j])
  {
    var unexpired := FreshKeys(entries, now, ttl);
    var live := Filter(order, unexpired);
    FilterOk(order, entries.Keys, unexpired, lastUse, uses, maxEntries);
    EvictsLeastRecentlyUsed(live, unexpired, lastUse, uses, maxEntries, key);
    SizeOfDistinct(live, unexpired);
  }

  ghost predicate EntryOk<R>(entries: map<Text, Entry<R>>, stored: map<Text, seq<R>>, k: Text)
    requires k in entries
  {
    var e := entries[k];
    k != [] && e.query == k && IsTrigrams(e.trigrams, k) && k in stored && stored[k] == e.results
  }

  ghost predicate EntriesOk<R>(entries: map<Text, Entry<R>>, stored: map<Text, seq<R>>) {
    forall k :: k in entries ==> EntryOk(entries, stored, k)
  }

  lemma {:induction false} StoreOk<R>(entries: map<Text, Entry<R>>, stored: map<Text, seq<R>>, key: Text, e: Entry<R>)
    requires EntriesOk(entries, stored) && key != [] && e.query == key && IsTrigrams(e.trigrams, key)
    ensures EntriesOk(entries[key := e], stored[key := e.results]) && entries[key := e].Keys == entries.Keys + {key}
  {
    forall k | k in entries && k != key ensures EntryOk(entries[key := e], stored[key := e.results], k) {
      assert EntryOk(entries, stored, k);
    }
  }

  lemma {:induction false} RestrictOk<R>(entries: map<Text, Entry<R>>, stored: map<Text, seq<R>>, keep: set<Text>)
    requires EntriesOk(entries, stored) && keep <= entries.Keys
    ensures EntriesOk(Restrict(entries, keep), stored) && Restrict(entries, keep).Keys == keep
  {
    forall k | k in Restrict(entries, keep) ensures EntryOk(Restrict(entries, keep), stored, k) {
      assert EntryOk(entries, stored, k);
    }
  }
}
