/** Orders of keys, least recently used first: what pkg/skills/search_cache.go keeps in `order`. */
module LruOrder {

  predicate Distinct<K(==)>(order: seq<K>) {
    forall i, j :: 0 <= i < j < |order| ==> order[i] != order[j]
  }

  /** order without the first occurrence of key. */
  function Without<K(==)>(order: seq<K>, key: K): seq<K> {
    if order == [] then []
    else if order[0] == key then order[1..]
    else [order[0]] + Without(order[1..], key)
  }

  /** The keys of order that are in keep. */
  function Filter<K(==)>(order: seq<K>, keep: set<K>): seq<K> {
    if order == [] then []
    else if order[0] in keep then [order[0]] + Filter(order[1..], keep)
    else Filter(order[1..], keep)
  }

  /** The order after storing key: moved to the end, or appended after dropping the oldest keys to make room. */
  function PutOrder<K(==)>(live: seq<K>, key: K, maxEntries: nat): seq<K>
    requires maxEntries > 0
  {
    if key in live then Without(live, key) + [key]
    else (if |live| >= maxEntries then live[|live| - maxEntries + 1..] else live) + [key]
  }

  /** Every key of order was used, each before the next and all before now. */
  ghost predicate UsedInOrder<K>(order: seq<K>, lastUse: map<K, nat>, now: nat) {
    && (forall k :: k in order ==> k in lastUse && lastUse[k] < now)
    && (forall i, j :: 0 <= i < j < |order| ==> lastUse[order[i]] < lastUse[order[j]])
  }

  /** order lists the keys, each once, in the order of their last use, and not too many. */
  ghost predicate OrderOk<K(!new)>(order: seq<K>, keys: set<K>, lastUse: map<K, nat>, now: nat, maxEntries: nat) {
    && Distinct(order) && |order| <= maxEntries
    && (forall k :: k in order <==> k in keys)
    && UsedInOrder(order, lastUse, now)
  }

  /** Prefixing an older key keeps an order. */
  lemma {:induction false} OrderCons<K(!new)>(order: seq<K>, rest: seq<K>, lastUse: map<K, nat>, now: nat)
    requires order != [] && Distinct(order) && UsedInOrder(order, lastUse, now)
    requires Distinct(rest) && UsedInOrder(rest, lastUse, now) && forall k :: k in rest ==> k in order[1..]
    ensures Distinct([order[0]] + rest) && UsedInOrder([order[0]] + rest, lastUse, now)
  {
    forall i | 0 <= i < |rest| ensures order[0] != rest[i] && lastUse[order[0]] < lastUse[rest[i]] {
      assert rest[i] in order[1..];
      var j :| 0 <= j < |order[1..]| && order[1..][j] == rest[i];
      assert order[j + 1] == rest[i];
    }
  }

  lemma {:induction false} WithoutMeans<K(!new)>(order: seq<K>, key: K, lastUse: map<K, nat>, now: nat)
    requires Distinct(order) && UsedInOrder(order, lastUse, now)
    ensures var r := Without(order, key);
      && Distinct(r) && UsedInOrder(r, lastUse, now)
      && (forall k :: k in r <==> k in order && k != key)
      && |r| == if key in order then |order| - 1 else |order|
  {
    if order != [] {
      assert order == [order[0]] + order[1..];
      assert forall i :: 0 < i < |order| ==> order[0] != order[i];
      assert order[0] !in order[1..];
      if order[0] != key {
        WithoutMeans(order[1..], key, lastUse, now);
        OrderCons(order, Without(order[1..], key), lastUse, now);
      }
    }
  }

  lemma {:induction false} FilterMeans<K(!new)>(order: seq<K>, keep: set<K>, lastUse: map<K, nat>, now: nat)
    requires Distinct(order) && UsedInOrder(order, lastUse, now)
    ensures var r := Filter(order, keep);
      && Distinct(r) && UsedInOrder(r, lastUse, now) && |r| <= |order|
      && (forall k :: k in r <==> k in order && k in keep)
  {
    if order != [] {
      assert order == [order[0]] + order[1..];
      FilterMeans(order[1..], keep, lastUse, now);
      if order[0] in keep {
        OrderCons(order, Filter(order[1..], keep), lastUse, now);
      }
    }
  }

  lemma {:induction false} FilterSnoc<K>(order: seq<K>, k: K, keep: set<K>)
    ensures Filter(order + [k], keep) == Filter(order, keep) + if k in keep then [k] else []
  {
    if order == [] {
      assert order + [k] == [k] && [k][1..] == [];
    } else {
      assert (order + [k])[1..] == order[1..] + [k];
      FilterSnoc(order[1..], k, keep);
    }
  }

  lemma FilterNothing<K>(keep: set<K>)
    ensures Filter([], keep) == []
  {}

  /** A new key, used now, goes to the end. */
  lemma AppendOk<K(!new)>(order: seq<K>, key: K, lastUse: map<K, nat>, now: nat)
    requires Distinct(order) && UsedInOrder(order, lastUse, now) && key !in order
    ensures Distinct(order + [key]) && UsedInOrder(order + [key], lastUse[key := now], now + 1)
  {}

  /** Using a key again moves it to the end. */
  lemma {:induction false} TouchOk<K(!new)>(order: seq<K>, keys: set<K>, lastUse: map<K, nat>, now: nat, maxEntries: nat, key: K)
    requires OrderOk(order, keys, lastUse, now, maxEntries) && key in keys
    ensures OrderOk(Without(order, key) + [key], keys, lastUse[key := now], now + 1, maxEntries)
  {
    WithoutMeans(order, key, lastUse, now);
    AppendOk(Without(order, key), key, lastUse, now);
  }

  lemma ListsItsKeys<K(!new)>(order: seq<K>, keys: set<K>, lastUse: map<K, nat>, now: nat, maxEntries: nat)
    requires OrderOk(order, keys, lastUse, now, maxEntries)
    ensures forall k :: k in order <==> k in keys
  {}

  lemma {:induction false} FilterOk<K(!new)>(order: seq<K>, keys: set<K>, keep: set<K>, lastUse: map<K, nat>, now: nat,
                                       maxEntries: nat)
    requires OrderOk(order, keys, lastUse, now, maxEntries) && keep <= keys
    ensures OrderOk(Filter(order, keep), keep, lastUse, now, maxEntries)
  {
    FilterMeans(order, keep, lastUse, now);
  }

  /** The oldest key is the least recently used one; dropping it keeps the invariant. */
  lemma {:induction false} DropOldest<K(!new)>(live: seq<K>, keys: set<K>, lastUse: map<K, nat>, now: nat, maxEntries: nat)
    requires OrderOk(live, keys, lastUse, now, maxEntries) && live != []
    ensures OrderOk(live[1..], keys - {live[0]}, lastUse, now, maxEntries)
    ensures forall k :: k in keys ==> lastUse[live[0]] <= lastUse[k]
  {
    assert live == [live[0]] + live[1..];
  }

  /** What a full cache gives up for a new key. */
  function Evicted<K(==)>(live: seq<K>, key: K, maxEntries: nat): set<K>
    requires maxEntries > 0
  {
    if key !in live && |live| == maxEntries then {live[0]} else {}
  }

  /** Storing a key keeps the invariant. */
  lemma {:induction false} PutOk<K(!new)>(live: seq<K>, keys: set<K>, lastUse: map<K, nat>, now: nat, maxEntries: nat, key: K)
    requires maxEntries > 0 && OrderOk(live, keys, lastUse, now, maxEntries)
    ensures OrderOk(PutOrder(live, key, maxEntries), keys - Evicted(live, key, maxEntries) + {key},
                    lastUse[key := now], now + 1, maxEntries)
  {
    if key in keys {
      TouchOk(live, keys, lastUse, now, maxEntries, key);
      assert keys - {} + {key} == keys;
    } else if |live| == maxEntries {
      DropOldest(live, keys, lastUse, now, maxEntries);
      AppendNew(live[1..], keys - {live[0]}, lastUse, now, maxEntries, key);
    } else {
      AppendNew(live, keys, lastUse, now, maxEntries, key);
      assert keys - {} == keys;
    }
  }

  /** Storing a new key, spelled out. */
  lemma PutNew<K(!new)>(live: seq<K>, keys: set<K>, lastUse: map<K, nat>, now: nat, maxEntries: nat,
                                           key: K)
    requires maxEntries > 0 && OrderOk(live, keys, lastUse, now, maxEntries) && key !in keys
    ensures PutOrder(live, key, maxEntries) == (if |live| == maxEntries then live[1..] else live) + [key]
    ensures Evicted(live, key, maxEntries) == if |live| == maxEntries then {live[0]} else {}
  {}

  lemma {:induction false} AppendNew<K(!new)>(order: seq<K>, keys: set<K>, lastUse: map<K, nat>, now: nat,
                                              maxEntries: nat, key: K)
    requires OrderOk(order, keys, lastUse, now, maxEntries) && key !in keys && |order| < maxEntries
    ensures OrderOk(order + [key], keys + {key}, lastUse[key := now], now + 1, maxEntries)
  {
    AppendOk(order, key, lastUse, now);
  }

  /** What is evicted was used before everything that is kept. */
  lemma {:induction false} EvictsLeastRecentlyUsed<K(!new)>(live: seq<K>, keys: set<K>, lastUse: map<K, nat>, now: nat,
                                                            maxEntries: nat, key: K)
    requires maxEntries > 0 && OrderOk(live, keys, lastUse, now, maxEntries)
    ensures forall k :: k in PutOrder(live, key, maxEntries) <==>
      k == key || (k in keys && k !in Evicted(live, key, maxEntries))
    ensures forall e, k :: e in Evicted(live, key, maxEntries) && k in keys ==> lastUse[e] <= lastUse[k]
  {
    PutOk(live, keys, lastUse, now, maxEntries, key);
    if live != [] {
      DropOldest(live, keys, lastUse, now, maxEntries);
    }
  }

  lemma {:induction false} SizeOfDistinct<K(!new)>(order: seq<K>, keys: set<K>)
    requires Distinct(order) && forall k :: k in order <==> k in keys
    ensures |order| == |keys|
  {
    if order == [] {
      assert keys == {};
    } else {
      var n := |order| - 1;
      assert order == order[..n] + [order[n]];
      SizeOfDistinct(order[..n], keys - {order[n]});
    }
  }

  lemma {:induction false} WithoutAt<K>(order: seq<K>, key: K, i: nat)
    requires i < |order|
    ensures Without(order[i..], key)
      == if order[i] == key then order[i + 1..] else [order[i]] + Without(order[i + 1..], key)
  {
    assert order[i..][0] == order[i] && order[i..][1..] == order[i + 1..];
  }

  /** moveToEndLocked */
  method MoveToEnd<K(==)>(order: seq<K>, key: K) returns (r: seq<K>)
    ensures r == Without(order, key) + [key]
  {
    r := order;
    var i := 0;
    ghost var rest := Without(order, key);
    assert order[0..] == order;
    while i < |order| && order[i] != key
      invariant i <= |order| && rest == Without(order[i..], key) && Without(order, key) == order[..i] + rest
    {
      WithoutAt(order, key, i);
      rest := rest[1..];
      i := i + 1;
    }
    if i < |order| {
      WithoutAt(order, key, i);
      r := order[..i] + order[i + 1..];
    }
    r := r + [key];
  }

  /** The keys whose values satisfy p. */
  function Satisfying<K, V>(m: map<K, V>, p: V -> bool): set<K> {
    set k | k in m && p(m[k])
  }

  /** Drops, from a list and a map of the same keys, every key whose value fails p. */
  method DropOthers<K(==,!new), V>(order: seq<K>, entries0: map<K, V>, p: V -> bool,
                                   ghost lastUse: map<K, nat>, ghost now: nat, ghost maxEntries: nat)
    returns (newOrder: seq<K>, entries: map<K, V>)
    requires OrderOk(order, entries0.Keys, lastUse, now, maxEntries)
    ensures newOrder == Filter(order, Satisfying(entries0, p))
    ensures entries == Restrict(entries0, Satisfying(entries0, p))
  {
    hide Filter, UsedInOrder;
    ghost var keep := Satisfying(entries0, p);
    FilterNothing(keep);
    newOrder, entries := [], entries0;
    for i := 0 to |order|
      invariant newOrder == Filter(order[..i], keep)
      invariant forall k :: k in entries <==> k in entries0 && (k in order[..i] ==> k in keep)
      invariant forall k :: k in entries ==> entries[k] == entries0[k]
    {
      var key := order[i];
      assert order[..i + 1] == order[..i] + [key] && key !in order[..i];
      FilterSnoc(order[..i], key, keep);
      if key !in entries || !p(entries[key]) {
        entries := entries - {key};
      } else {
        newOrder := newOrder + [key];
      }
    }
    assert order[..|order|] == order;
  }

  /** m on the keys in keep. */
  function Restrict<K, V>(m: map<K, V>, keep: set<K>): map<K, V> {
    map k | k in m && k in keep :: m[k]
  }

  /** Drops the oldest keys while there is no room for one more. */
  method MakeRoom<K(==,!new), V>(order0: seq<K>, entries0: map<K, V>, maxEntries: nat,
                                 ghost lastUse: map<K, nat>, ghost now: nat)
    returns (order: seq<K>, entries: map<K, V>)
    requires OrderOk(order0, entries0.Keys, lastUse, now, maxEntries) && 0 < maxEntries
    ensures order == if |order0| == maxEntries then order0[1..] else order0
    ensures entries == Restrict(entries0, entries0.Keys - if |order0| == maxEntries then {order0[0]} else {})
  {
    order, entries := order0, entries0;
    SizeOfDistinct(order, entries.Keys);
    while |entries| >= maxEntries && |order| > 0
      invariant |order| == |entries|
      invariant (order == order0 && entries == entries0) ||
        (|order0| == maxEntries && order == order0[1..] && entries == entries0 - {order0[0]})
      decreases |order|
    {
      entries := entries - {order[0]};
      order := order[1..];
      OneFewer(order0, entries0, maxEntries, lastUse, now);
    }
    assert entries0 == Restrict(entries0, entries0.Keys - {});
    assert |order0| > 0 ==> entries0 - {order0[0]} == Restrict(entries0, entries0.Keys - {order0[0]});
  }

  lemma {:induction false} OneFewer<K(!new), V>(order: seq<K>, entries: map<K, V>, maxEntries: nat,
                                                lastUse: map<K, nat>, now: nat)
    requires OrderOk(order, entries.Keys, lastUse, now, maxEntries) && order != []
    ensures |entries - {order[0]}| == |order| - 1
  {
    SizeOfDistinct(order, entries.Keys);
    assert order[0] in entries.Keys;
    assert (entries - {order[0]}).Keys == entries.Keys - {order[0]};
  }
}
