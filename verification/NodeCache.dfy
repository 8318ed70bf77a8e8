/** The `QueryCache` of node/src/cache.js: a map and an access order that is updated with splice, push and
    shift, proved to refine the recency sequence. Keys are the results of `key(sql, params)`. */
module NodeCache {
  import opened Text
  import opened Wrappers
  import opened Recency

  /** The access order, oldest first, that goes with a recency sequence. */
  ghost function OrderOf<V>(r: seq<Entry<V>>): seq<string> {
    if r == [] then [] else OrderOf(r[1..]) + [r[0].key]
  }

  /** The map that goes with a recency sequence. */
  ghost function MapOf<V>(r: seq<Entry<V>>): map<string, Entry<V>> {
    if r == [] then map[] else MapOf(r[1..])[r[0].key := r[0]]
  }

  function Cut(s: seq<string>, i: nat): seq<string>
    requires i < |s|
  {
    s[..i] + s[i + 1..]
  }

  /** `_removeFromOrder`. */
  function Without(s: seq<string>, key: string): seq<string> {
    var i := IndexOf(s, key);
    if i == -1 then s else Cut(s, i)
  }

  lemma {:induction false} IndexOfSnoc(s: seq<string>, x: string, key: string)
    ensures IndexOf(s + [x], key) == if key in s then IndexOf(s, key) else if x == key then |s| else -1
  {
    if s != [] {
      assert (s + [x])[1..] == s[1..] + [x];
      assert s == [s[0]] + s[1..];
      IndexOfSnoc(s[1..], x, key);
    }
  }

  lemma CutSnoc(s: seq<string>, x: string, i: nat)
    requires i <= |s|
    ensures Cut(s + [x], i) == if i < |s| then Cut(s, i) + [x] else s
  {
  }

  lemma WithoutSnoc(s: seq<string>, x: string, key: string)
    ensures Without(s + [x], key) == if key in s then Without(s, key) + [x] else if x == key then s else s + [x]
  {
    IndexOfSnoc(s, x, key);
    var i := IndexOf(s + [x], key);
    if i != -1 {
      CutSnoc(s, x, i);
    }
  }

  lemma {:induction false} OrderHas<V>(r: seq<Entry<V>>, key: string)
    ensures key in OrderOf(r) <==> Has(r, key)
    ensures |OrderOf(r)| == |r|
  {
    if r != [] {
      OrderHas(r[1..], key);
      HasCons(r, key);
    }
  }

  lemma HasCons<V>(r: seq<Entry<V>>, key: string)
    requires r != []
    ensures Has(r, key) <==> r[0].key == key || Has(r[1..], key)
  {
    if Has(r[1..], key) {
      var i :| 0 <= i < |r[1..]| && r[1..][i].key == key;
      assert r[i + 1].key == key;
    }
    if Has(r, key) && r[0].key != key {
      var i :| 0 <= i < |r| && r[i].key == key;
      assert r[1..][i - 1].key == key;
    }
  }

  lemma {:induction false} OrderWithout<V>(r: seq<Entry<V>>, key: string)
    requires Distinct(r)
    ensures Without(OrderOf(r), key) == OrderOf(Keep(r, NotKey(key)))
  {
    if r != [] {
      WithoutSnoc(OrderOf(r[1..]), r[0].key, key);
      OrderHas(r[1..], key);
      if r[0].key == key {
        assert !Has(r[1..], key);
        KeepAbsent(r[1..], key);
      } else {
        OrderWithout(r[1..], key);
        KeepAbsentOrNot(r, key);
      }
    }
  }

  lemma KeepAbsentOrNot<V>(r: seq<Entry<V>>, key: string)
    requires r != [] && r[0].key != key
    ensures OrderOf(Keep(r, NotKey(key))) == OrderOf(Keep(r[1..], NotKey(key))) + [r[0].key]
    ensures !Has(r[1..], key) ==> Keep(r[1..], NotKey(key)) == r[1..]
  {
    assert Keep(r, NotKey(key))[1..] == Keep(r[1..], NotKey(key));
    if !Has(r[1..], key) {
      KeepAbsent(r[1..], key);
    }
  }

  lemma {:induction false} MapHas<V>(r: seq<Entry<V>>, key: string)
    ensures key in MapOf(r) <==> Has(r, key)
    ensures key in MapOf(r) ==> MapOf(r)[key] == r[Find(r, key)]
  {
    if r != [] {
      MapHas(r[1..], key);
      HasCons(r, key);
    }
  }

  lemma {:induction false} MapSize<V>(r: seq<Entry<V>>)
    requires Distinct(r)
    ensures |MapOf(r)| == |r|
  {
    if r != [] {
      MapSize(r[1..]);
      MapHas(r[1..], r[0].key);
      assert !Has(r[1..], r[0].key);
    }
  }

  lemma {:induction false} MapWithout<V>(r: seq<Entry<V>>, key: string)
    ensures MapOf(Keep(r, NotKey(key))) == MapOf(r) - {key}
  {
    if r != [] {
      MapWithout(r[1..], key);
      if r[0].key != key {
        assert Keep(r, NotKey(key))[1..] == Keep(r[1..], NotKey(key));
      }
    }
  }

  lemma OrderFront<V>(e: Entry<V>, r: seq<Entry<V>>)
    ensures OrderOf([e] + r) == OrderOf(r) + [e.key] && MapOf([e] + r) == MapOf(r)[e.key := e]
  {
    assert ([e] + r)[1..] == r;
  }

  /** The oldest entry is at the end of the recency sequence and at the start of the order. */
  lemma {:induction false} OrderOldest<V>(r: seq<Entry<V>>)
    requires Distinct(r) && r != []
    ensures OrderOf(r) != [] && OrderOf(r)[0] == r[|r| - 1].key && OrderOf(r)[1..] == OrderOf(r[..|r| - 1])
    ensures MapOf(r[..|r| - 1]) == MapOf(r) - {r[|r| - 1].key}
  {
    var n := |r| - 1;
    OrderHas(r, "");
    KeepNotKey(r, n);
    assert r[..n] + r[n + 1..] == r[..n];
    MapWithout(r, r[n].key);
    if n > 0 {
      OrderOldest(r[1..]);
      assert r[1..][..n - 1] == r[..n][1..];
      OrderHas(r[1..], "");
    }
  }

  lemma DistinctFront<V>(r: seq<Entry<V>>, e: Entry<V>)
    requires Distinct(r)
    ensures Distinct([e] + Keep(r, NotKey(e.key)))
  {
    var rest := Keep(r, NotKey(e.key));
    KeepDistinct(r, NotKey(e.key));
    KeepHas(r, NotKey(e.key));
    forall i | 0 <= i < |rest| ensures rest[i].key != e.key {
      assert rest[i] in rest;
    }
  }

  lemma RenewBooks<V>(r: seq<Entry<V>>, e: Entry<V>)
    requires Distinct(r)
    ensures
      var r' := [e] + Keep(r, NotKey(e.key));
      && Distinct(r') && OrderOf(r') == Without(OrderOf(r), e.key) + [e.key] && MapOf(r') == MapOf(r)[e.key := e]
  {
    OrderWithout(r, e.key);
    MapWithout(r, e.key);
    OrderFront(e, Keep(r, NotKey(e.key)));
    DistinctFront(r, e);
    assert (MapOf(r) - {e.key})[e.key := e] == MapOf(r)[e.key := e];
  }

  lemma {:induction false} KeepNotIn<V>(r: seq<Entry<V>>, keys: set<string>, key: string)
    ensures Keep(Keep(r, NotIn(keys)), NotKey(key)) == Keep(r, NotIn(keys + {key}))
  {
    if r != [] {
      KeepNotIn(r[1..], keys, key);
    }
  }

  lemma {:induction false} KeepSame<V>(r: seq<Entry<V>>, p: Entry<V> -> bool, q: Entry<V> -> bool)
    requires forall e :: e in r ==> p(e) == q(e)
    ensures Keep(r, p) == Keep(r, q)
  {
    if r != [] {
      KeepSame(r[1..], p, q);
    }
  }

  // ---------- a sweep over all keys ----------

  /** A test that may keep a state from one key to the next. */
  type Test<!S, !V> = (S, Entry<V>) -> (bool, S)

  /** The keys that pass the test when the keys are visited in the given order, and the last state. */
  function Visit<S, V>(test: Test<S, V>, s: S, entries: map<string, Entry<V>>, order: seq<string>): (set<string>, S)
    requires forall i :: 0 <= i < |order| ==> order[i] in entries
  {
    if order == [] then ({}, s)
    else
      var n := |order| - 1;
      var (passed, s1) := Visit(test, s, entries, order[..n]);
      var (hit, s2) := test(s1, entries[order[n]]);
      (if hit then passed + {order[n]} else passed, s2)
  }

  lemma VisitSnoc<S, V>(test: Test<S, V>, s: S, entries: map<string, Entry<V>>, order: seq<string>, key: string)
    requires (forall i :: 0 <= i < |order| ==> order[i] in entries) && key in entries
    ensures
      var (passed, s1) := Visit(test, s, entries, order);
      var (hit, s2) := test(s1, entries[key]);
      Visit(test, s, entries, order + [key]) == (if hit then passed + {key} else passed, s2)
  {
    assert (order + [key])[..|order|] == order;
  }

  /** The state in which the i-th key is tested. */
  function StateAt<S, V>(test: Test<S, V>, s: S, entries: map<string, Entry<V>>, order: seq<string>, i: nat): S
    requires i <= |order| && forall k :: 0 <= k < |order| ==> order[k] in entries
  {
    Visit(test, s, entries, order[..i]).1
  }

  predicate Passes<S, V>(test: Test<S, V>, s: S, entries: map<string, Entry<V>>, order: seq<string>, i: nat)
    requires i < |order| && forall k :: 0 <= k < |order| ==> order[k] in entries
  {
    test(StateAt(test, s, entries, order, i), entries[order[i]]).0
  }

  /** Each key goes or stays by the test in the state left by the keys before it. */
  lemma {:induction false} VisitAt<S, V>(test: Test<S, V>, s: S, entries: map<string, Entry<V>>, order: seq<string>)
    requires forall k :: 0 <= k < |order| ==> order[k] in entries
    requires forall i, j :: 0 <= i < j < |order| ==> order[i] != order[j]
    ensures forall key :: key in Visit(test, s, entries, order).0 ==> key in order
    ensures forall i :: 0 <= i < |order| ==> (order[i] in Visit(test, s, entries, order).0 <==> Passes(test, s, entries, order, i))
    decreases |order|
  {
    if order != [] {
      var n := |order| - 1;
      VisitAt(test, s, entries, order[..n]);
      VisitSnoc(test, s, entries, order[..n], order[n]);
      assert order == order[..n] + [order[n]];
      forall i | 0 <= i < |order|
        ensures order[i] in Visit(test, s, entries, order).0 <==> Passes(test, s, entries, order, i)
      {
        if i < n {
          assert order[..n][..i] == order[..i] && order[..n][i] == order[i];
        } else {
          assert order[n] !in order[..n];
        }
      }
    }
  }

  /** Every key of the cache is visited once. */
  ghost predicate IsTour<V>(entries: map<string, Entry<V>>, order: seq<string>) {
    && (forall i :: 0 <= i < |order| ==> order[i] in entries)
    && (forall key :: key in entries ==> key in order)
    && (forall i, j :: 0 <= i < j < |order| ==> order[i] != order[j])
  }

  /** A sweep over `was` that has visited `order`, still has to visit `todo`, and has dropped `gone`. */
  ghost predicate Touring<V>(was: seq<Entry<V>>, r: seq<Entry<V>>, order: seq<string>, todo: set<string>, gone: set<string>) {
    && Distinct(was) && r == Keep(was, NotIn(gone))
    && todo !! gone && todo <= MapOf(was).Keys && gone <= MapOf(was).Keys
    && (forall i :: 0 <= i < |order| ==> order[i] in MapOf(was) && order[i] !in todo)
    && (forall key :: key in MapOf(was) ==> key in todo || key in order)
    && (forall i, j :: 0 <= i < j < |order| ==> order[i] != order[j])
  }

  lemma TourStart<V>(was: seq<Entry<V>>)
    requires Distinct(was)
    ensures Touring(was, was, [], MapOf(was).Keys, {})
  {
    KeepAll(was, NotIn({}));
  }

  /** What is found under a key that is still to be visited. */
  lemma TourFinds<V>(was: seq<Entry<V>>, r: seq<Entry<V>>, order: seq<string>, todo: set<string>, gone: set<string>, key: string)
    requires Touring(was, r, order, todo, gone) && key in todo
    ensures key in MapOf(r) && Has(r, key) && MapOf(r)[key] == MapOf(was)[key]
  {
    MapHas(was, key);
    MapHas(r, key);
    var e := was[Find(was, key)];
    KeepHas(was, NotIn(gone));
    assert NotIn<V>(gone)(e) && e in r;
    assert Has(r, key) by {
      var i :| 0 <= i < |r| && r[i] == e;
      assert r[i].key == key;
    }
    var f := r[Find(r, key)];
    assert f in r && f in was && f.key == key;
  }

  lemma TourKeeps<V>(was: seq<Entry<V>>, r: seq<Entry<V>>, order: seq<string>, todo: set<string>, gone: set<string>, key: string)
    requires Touring(was, r, order, todo, gone) && key in todo
    ensures Touring(was, r, order + [key], todo - {key}, gone)
  {
    var order' := order + [key];
    assert forall i :: 0 <= i < |order'| ==> order'[i] == if i < |order| then order[i] else key;
    forall k | k in MapOf(was) ensures k in todo - {key} || k in order' {
      assert key == order'[|order|];
    }
  }

  lemma TourDrops<V>(was: seq<Entry<V>>, r: seq<Entry<V>>, order: seq<string>, todo: set<string>, gone: set<string>, key: string)
    requires Touring(was, r, order, todo, gone) && key in todo
    ensures Touring(was, Keep(r, NotKey(key)), order + [key], todo - {key}, gone + {key})
  {
    TourKeeps(was, r, order, todo, gone, key);
    KeepNotIn(was, gone, key);
  }

  class QueryCache<V> {
    const maxSize: int
    const defaultTTLMs: int
    var cache: map<string, Entry<V>>
    var accessOrder: seq<string>
    var hits: nat
    var misses: nat
    ghost var contents: seq<Entry<V>>

    ghost predicate Valid()
      reads this
    {
      && Distinct(contents) && |contents| <= Capacity(maxSize)
      && accessOrder == OrderOf(contents) && cache == MapOf(contents)
    }

    constructor (maxSize: int, defaultTTLMs: int)
      ensures Valid() && contents == [] && hits == misses == 0
      ensures this.maxSize == (if maxSize != 0 then maxSize else 1000)
      ensures this.defaultTTLMs == (if defaultTTLMs != 0 then defaultTTLMs else 60000)
    {
      this.maxSize := if maxSize != 0 then maxSize else 1000;
      this.defaultTTLMs := if defaultTTLMs != 0 then defaultTTLMs else 60000;
      cache, accessOrder, contents := map[], [], [];
      hits, misses := 0, 0;
    }

    method Touch(key: string)
      modifies this`accessOrder
      ensures accessOrder == Without(old(accessOrder), key) + [key]
    {
      RemoveFromOrder(key);
      accessOrder := accessOrder + [key];
    }

    method RemoveFromOrder(key: string)
      modifies this`accessOrder
      ensures accessOrder == Without(old(accessOrder), key)
    {
      var i := IndexOf(accessOrder, key);
      if i != -1 {
        accessOrder := accessOrder[..i] + accessOrder[i + 1..];
      }
    }

    /** Drops a key from the map and from the order. */
    method Drop(key: string)
      requires Valid()
      modifies this`cache, this`accessOrder, this`contents
      ensures Valid() && contents == Keep(old(contents), NotKey(key))
    {
      OrderWithout(contents, key);
      MapWithout(contents, key);
      KeepDistinct(contents, NotKey(key));
      KeepHas(contents, NotKey(key));
      cache := cache - {key};
      RemoveFromOrder(key);
      contents := Keep(contents, NotKey(key));
    }

    method Get(key: string, now: int) returns (value: Option<V>)
      requires Valid()
      modifies this
      ensures Valid() && contents == Lookup(old(contents), key, now).0
      ensures
        var hit := Lookup(old(contents), key, now).1;
        && value == (if hit.Some? then Some(hit.value.value) else None)
        && hits == old(hits) + (if hit.Some? then 1 else 0) && misses == old(misses) + (if hit.Some? then 0 else 1)
    {
      MapHas(contents, key);
      if key !in cache {
        misses := misses + 1;
        return None;
      }
      var entry := cache[key];
      if IsExpired(entry, now) {
        Drop(key);
        misses := misses + 1;
        return None;
      }
      LookupOk(contents, key, now);
      Renew(Counted(entry));
      hits := hits + 1;
      return Some(entry.value);
    }

    /** Stores an entry in the map and makes its key the most recent one. */
    method Renew(e: Entry<V>)
      requires Valid() && |Keep(contents, NotKey(e.key))| < Capacity(maxSize)
      modifies this`cache, this`accessOrder, this`contents
      ensures Valid() && contents == [e] + Keep(old(contents), NotKey(e.key))
    {
      RenewBooks(contents, e);
      cache := cache[e.key := e];
      Touch(e.key);
      contents := [e] + Keep(contents, NotKey(e.key));
    }

    method EvictLRU()
      requires Valid()
      modifies this`cache, this`accessOrder, this`contents
      ensures Valid() && contents == if old(contents) == [] then [] else old(contents)[..|old(contents)| - 1]
    {
      OrderHas(contents, "");
      if |accessOrder| == 0 {
        return;
      }
      OrderOldest(contents);
      var oldest := accessOrder[0];
      accessOrder := accessOrder[1..];
      cache := cache - {oldest};
      contents := contents[..|contents| - 1];
    }

    /** `ttlMs` is the caller's override, if any; a time to live of 0 or less means no expiry. */
    method Set(key: string, value: V, ttlMs: Option<int>, now: int)
      requires Valid()
      modifies this
      ensures Valid() && hits == old(hits) && misses == old(misses)
      ensures
        var ttl := if ttlMs.Some? then ttlMs.value else defaultTTLMs;
        contents == Store(false, maxSize, old(contents),
                          Entry(key, value, now, if ttl > 0 then At(now + ttl) else Never, 0), now)
    {
      MapHas(contents, key);
      MapSize(contents);
      var ttl := if ttlMs.Some? then ttlMs.value else defaultTTLMs;
      var e := Entry(key, value, now, if ttl > 0 then At(now + ttl) else Never, 0);
      InsertOk(maxSize, contents, e);
      if |cache| >= maxSize && key !in cache {
        EvictLRU();
      }
      RoomFor(maxSize, old(contents), contents, e);
      Renew(e);
    }

    method Contains(key: string, now: int) returns (found: bool)
      requires Valid()
      modifies this`cache, this`accessOrder, this`contents
      ensures Valid() && found == (Has(old(contents), key) && !IsExpired(old(contents)[Find(old(contents), key)], now))
      ensures contents == if !found && Has(old(contents), key) then Keep(old(contents), NotKey(key)) else old(contents)
    {
      MapHas(contents, key);
      if key !in cache {
        return false;
      }
      if IsExpired(cache[key], now) {
        Drop(key);
        return false;
      }
      return true;
    }

    method Delete(key: string) returns (had: bool)
      requires Valid()
      modifies this`cache, this`accessOrder, this`contents
      ensures Valid() && had == Has(old(contents), key) && contents == Keep(old(contents), NotKey(key))
    {
      MapHas(contents, key);
      had := key in cache;
      if had {
        Drop(key);
      } else {
        KeepAbsent(contents, key);
      }
    }

    /** Drops the entries that pass a test, visiting the keys of the map in some order. */
    method DropPassing<S>(test: Test<S, V>, s0: S) returns (count: nat, ghost order: seq<string>)
      requires Valid()
      modifies this`cache, this`accessOrder, this`contents
      ensures Valid() && count == |old(contents)| - |contents|
      ensures old(cache) == MapOf(old(contents)) && IsTour(old(cache), order)
      ensures contents == Keep(old(contents), NotIn(Visit(test, s0, old(cache), order).0))
    {
      ghost var was := contents;
      ghost var entries := cache;
      var todo := cache.Keys;
      ghost var gone: set<string> := {};
      var s := s0;
      count, order := 0, [];
      TourStart(was);
      while todo != {}
        invariant Valid() && entries == MapOf(was) && Touring(was, contents, order, todo, gone)
        invariant Visit(test, s0, entries, order) == (gone, s)
        invariant count == |was| - |contents|
        decreases todo
      {
        var key :| key in todo;
        TourFinds(was, contents, order, todo, gone, key);
        VisitSnoc(test, s0, entries, order, key);
        var (hit, next) := test(s, cache[key]);
        if hit {
          TourDrops(was, contents, order, todo, gone, key);
          KeepNotKey(contents, Find(contents, key));
          Drop(key);
          gone := gone + {key};
          count := count + 1;
        } else {
          TourKeeps(was, contents, order, todo, gone, key);
        }
        s, order, todo := next, order + [key], todo - {key};
      }
    }

    /** The `test` of a regular expression on the keys, with the state it keeps between calls. */
    method Invalidate<S>(test: (S, string) -> (bool, S), s0: S) returns (count: nat, ghost order: seq<string>)
      requires Valid()
      modifies this`cache, this`accessOrder, this`contents
      ensures Valid() && count == |old(contents)| - |contents|
      ensures old(cache) == MapOf(old(contents)) && IsTour(old(cache), order)
      ensures contents == Keep(old(contents), NotIn(Visit(OnKey<S, V>(test), s0, old(cache), order).0))
    {
      count, order := DropPassing(OnKey(test), s0);
    }

    method Cleanup(now: int)
      requires Valid()
      modifies this`cache, this`accessOrder, this`contents
      ensures Valid() && contents == Keep(old(contents), Unswept(now))
    {
      ghost var was := contents;
      var count, order := DropPassing(SweepTest(now), ());
      TourPure(was, SweepTest<V>(now), (), order, Unswept<V>(now));
    }

    method Clear()
      modifies this
      ensures Valid() && contents == [] && hits == misses == 0
    {
      cache, accessOrder, contents := map[], [], [];
      hits, misses := 0, 0;
    }
  }

  function OnKey<S, V>(test: (S, string) -> (bool, S)): Test<S, V> {
    (s, e: Entry<V>) => test(s, e.key)
  }

  function SweepTest<V>(now: int): Test<(), V> {
    (s, e: Entry<V>) => (!Unswept<V>(now)(e), ())
  }

  // ---------- which entries a sweep drops ----------

  lemma {:induction false} KeepsAgree<V>(r: seq<Entry<V>>, p: Entry<V> -> bool, q: Entry<V> -> bool)
    ensures Keep(r, p) == Keep(r, q) <==> forall e :: e in r ==> p(e) == q(e)
  {
    if forall e :: e in r ==> p(e) == q(e) {
      KeepSame(r, p, q);
    } else {
      var e :| e in r && p(e) != q(e);
      KeepHas(r, p);
      KeepHas(r, q);
      assert e in Keep(r, p) <==> e !in Keep(r, q);
    }
  }

  /** The entries of a cache without repeated keys are the values of its map. */
  lemma EntryAt<V>(was: seq<Entry<V>>, e: Entry<V>)
    requires Distinct(was)
    ensures e in was <==> e.key in MapOf(was) && MapOf(was)[e.key] == e
  {
    MapHas(was, e.key);
    if e in was {
      var i :| 0 <= i < |was| && was[i] == e;
      FindAt(was, i);
    }
  }

  lemma EntryOf<V>(was: seq<Entry<V>>, key: string)
    requires Distinct(was) && key in MapOf(was)
    ensures MapOf(was)[key] in was && MapOf(was)[key].key == key
  {
    MapHas(was, key);
  }

  /** A sweep keeps exactly the entries of a kind if and only if each of them fails the test in its turn and each of
      the others passes it. */
  lemma TourIff<S, V>(was: seq<Entry<V>>, test: Test<S, V>, s0: S, order: seq<string>, kept: Entry<V> -> bool)
    requires IsTour(MapOf(was), order) && Distinct(was)
    ensures
      Keep(was, NotIn(Visit(test, s0, MapOf(was), order).0)) == Keep(was, kept) <==>
        forall i :: 0 <= i < |order| ==> Passes(test, s0, MapOf(was), order, i) == !kept(MapOf(was)[order[i]])
  {
    var gone := Visit(test, s0, MapOf(was), order).0;
    VisitAt(test, s0, MapOf(was), order);
    KeepsAgree(was, NotIn(gone), kept);
    if forall e :: e in was ==> NotIn<V>(gone)(e) == kept(e) {
      forall i | 0 <= i < |order| ensures Passes(test, s0, MapOf(was), order, i) == !kept(MapOf(was)[order[i]]) {
        EntryOf(was, order[i]);
        assert NotIn<V>(gone)(MapOf(was)[order[i]]) == kept(MapOf(was)[order[i]]);
      }
    }
    if forall i :: 0 <= i < |order| ==> Passes(test, s0, MapOf(was), order, i) == !kept(MapOf(was)[order[i]]) {
      forall e | e in was ensures NotIn<V>(gone)(e) == kept(e) {
        EntryAt(was, e);
        var i :| 0 <= i < |order| && order[i] == e.key;
        assert Passes(test, s0, MapOf(was), order, i) == !kept(MapOf(was)[order[i]]);
      }
    }
  }

  /** A test without a state drops exactly the entries that pass it. */
  lemma TourPure<S(!new), V>(was: seq<Entry<V>>, test: Test<S, V>, s0: S, order: seq<string>, kept: Entry<V> -> bool)
    requires IsTour(MapOf(was), order) && Distinct(was)
    requires forall s, key :: key in MapOf(was) ==> test(s, MapOf(was)[key]).0 == !kept(MapOf(was)[key])
    ensures Keep(was, NotIn(Visit(test, s0, MapOf(was), order).0)) == Keep(was, kept)
  {
    TourIff(was, test, s0, order, kept);
  }

  /** A plain regular expression invalidates exactly the matching keys. */
  lemma PlainInvalidates<S(!new), V>(was: seq<Entry<V>>, test: (S, string) -> (bool, S), s0: S, order: seq<string>,
                               matches: string -> bool)
    requires IsTour(MapOf(was), order) && Distinct(was) && forall s, key :: test(s, key).0 == matches(key)
    ensures
      Keep(was, NotIn(Visit(OnKey<S, V>(test), s0, MapOf(was), order).0)) == Keep(was, Unmatched(matches))
  {
    forall s, key | key in MapOf(was)
      ensures OnKey<S, V>(test)(s, MapOf(was)[key]).0 == !Unmatched<V>(matches)(MapOf(was)[key])
    {
      assert test(s, MapOf(was)[key].key).0 == matches(MapOf(was)[key].key);
    }
    TourPure(was, OnKey<S, V>(test), s0, order, Unmatched(matches));
  }

  // ---------- regular expressions with the flag g ----------

  /** Where the first match at or after a place of a key ends, if there is one. */
  type Expression = (string, nat) -> Option<nat>

  /** What matches from some place on matches from the start. */
  ghost predicate Forward(find: Expression) {
    forall key, last: nat :: find(key, last).Some? ==> find(key, 0).Some?
  }

  /** `test` with the flag g goes on where its last match ended (`lastIndex`), and starts over after a failure. */
  function Searching(find: Expression): (nat, string) -> (bool, nat) {
    (last, key) =>
      match find(key, last)
      case None => (false, 0)
      case Some(end) => (true, end)
  }

  function Matching(find: Expression): string -> bool { key => find(key, 0).Some? }

  /** Where the search for the i-th key starts. */
  function LastIndex(find: Expression, start: nat, order: seq<string>, i: nat): nat
    requires i <= |order|
  {
    if i == 0 then start
    else
      match find(order[i - 1], LastIndex(find, start, order, i - 1))
      case None => 0
      case Some(end) => end
  }

  predicate Found(find: Expression, start: nat, order: seq<string>, i: nat)
    requires i < |order|
  {
    find(order[i], LastIndex(find, start, order, i)).Some?
  }

  /** A matching key that is visited first, or directly after a key in which a match was found, has a match at or
      after the place where the search starts: where the match before it ended. */
  predicate FoundInTurn(find: Expression, start: nat, order: seq<string>, i: nat)
    requires i < |order|
  {
    Matching(find)(order[i]) && (i == 0 || Found(find, start, order, i - 1)) ==> Found(find, start, order, i)
  }

  predicate SparesNone(find: Expression, start: nat, order: seq<string>) {
    forall i :: 0 <= i < |order| ==> FoundInTurn(find, start, order, i)
  }

  lemma {:induction false} LastIndexPrefix(find: Expression, start: nat, order: seq<string>, n: nat, i: nat)
    requires i <= n <= |order|
    ensures LastIndex(find, start, order[..n], i) == LastIndex(find, start, order, i)
  {
    if i > 0 {
      LastIndexPrefix(find, start, order, n, i - 1);
    }
  }

  lemma {:induction false} SearchesAt<V>(find: Expression, start: nat, entries: map<string, Entry<V>>, order: seq<string>)
    requires forall k :: 0 <= k < |order| ==> order[k] in entries && entries[order[k]].key == order[k]
    ensures Visit(OnKey<nat, V>(Searching(find)), start, entries, order).1 == LastIndex(find, start, order, |order|)
    decreases |order|
  {
    if order != [] {
      var n := |order| - 1;
      SearchesAt(find, start, entries, order[..n]);
      LastIndexPrefix(find, start, order, n, n);
    }
  }

  lemma PassesIsFound<V>(find: Expression, start: nat, entries: map<string, Entry<V>>, order: seq<string>, i: nat)
    requires i < |order| && forall k :: 0 <= k < |order| ==> order[k] in entries && entries[order[k]].key == order[k]
    ensures Passes(OnKey<nat, V>(Searching(find)), start, entries, order, i) == Found(find, start, order, i)
  {
    SearchesAt(find, start, entries, order[..i]);
    LastIndexPrefix(find, start, order, i, i);
  }

  /** After a failure the search starts over. */
  lemma FoundAfresh(find: Expression, start: nat, order: seq<string>, i: nat)
    requires 0 < i < |order| && !Found(find, start, order, i - 1)
    ensures Found(find, start, order, i) == Matching(find)(order[i])
  {}

  lemma FoundMatches(find: Expression, start: nat, order: seq<string>, i: nat)
    requires i < |order| && Forward(find) && Found(find, start, order, i)
    ensures Matching(find)(order[i])
  {}

  lemma SparesNoneIff(find: Expression, start: nat, order: seq<string>)
    requires Forward(find)
    ensures
      SparesNone(find, start, order) <==>
        forall i :: 0 <= i < |order| ==> Found(find, start, order, i) == Matching(find)(order[i])
  {
    if SparesNone(find, start, order) {
      forall i | 0 <= i < |order| ensures Found(find, start, order, i) == Matching(find)(order[i]) {
        if Found(find, start, order, i) {
          FoundMatches(find, start, order, i);
        } else if i > 0 && !Found(find, start, order, i - 1) {
          FoundAfresh(find, start, order, i);
        } else {
          assert FoundInTurn(find, start, order, i);
        }
      }
    }
  }

  /** With the flag g, for every order in which the keys are visited: exactly the matching keys go if and only if no
      matching key is searched from a place beyond its last match. */
  lemma GlobalInvalidatesIff<V>(was: seq<Entry<V>>, find: Expression, start: nat, order: seq<string>)
    requires IsTour(MapOf(was), order) && Distinct(was) && Forward(find)
    ensures
      Keep(was, NotIn(Visit(OnKey<nat, V>(Searching(find)), start, MapOf(was), order).0)) ==
        Keep(was, Unmatched(Matching(find)))
      <==> SparesNone(find, start, order)
  {
    var test := OnKey<nat, V>(Searching(find));
    forall k | 0 <= k < |order| ensures MapOf(was)[order[k]].key == order[k] {
      EntryOf(was, order[k]);
    }
    forall i | 0 <= i < |order|
      ensures Passes(test, start, MapOf(was), order, i) == Found(find, start, order, i)
      ensures Unmatched<V>(Matching(find))(MapOf(was)[order[i]]) == !Matching(find)(order[i])
    {
      PassesIsFound(find, start, MapOf(was), order, i);
    }
    TourIff(was, test, start, order, Unmatched(Matching(find)));
    SparesNoneIff(find, start, order);
  }

  /** The expression /c/g for one character. */
  function EndOf(c: char): Expression {
    (key: string, last: nat) => if last <= |key| && c in key[last..] then Some(last + IndexOf(key[last..], c) + 1) else None
  }

  function Global(c: char): (nat, string) -> (bool, nat) { Searching(EndOf(c)) }

  lemma CharacterForward(c: char)
    ensures Forward(EndOf(c)) && forall key :: Matching(EndOf(c))(key) <==> c in key
  {
    forall key: string, last: nat | EndOf(c)(key, last).Some? ensures c in key {
      assert c in key[last..] && key == key[..last] + key[last..];
    }
    forall key: string ensures EndOf(c)(key, 0).Some? <==> c in key {
      assert key[0..] == key;
    }
  }

  /** Exactly the keys with the character go if and only if each of them that is visited directly after one that goes
      holds it at or after the place where the match before it ended. */
  lemma CharacterInvalidatesIff<V>(was: seq<Entry<V>>, c: char, start: nat, order: seq<string>, matches: string -> bool)
    requires IsTour(MapOf(was), order) && Distinct(was) && forall key :: matches(key) <==> c in key
    ensures
      Keep(was, NotIn(Visit(OnKey<nat, V>(Global(c)), start, MapOf(was), order).0)) == Keep(was, Unmatched(matches)) <==>
        SparesNone(EndOf(c), start, order)
  {
    CharacterForward(c);
    GlobalInvalidatesIff(was, EndOf(c), start, order);
    KeepSame(was, Unmatched(matches), Unmatched(Matching(EndOf(c))));
  }

  /** An expression with the flag g can spare the key it is tested on after a match. */
  lemma GlobalSpares<V>(c: char, a: string, b: string, entries: map<string, Entry<V>>)
    requires c !in a && c !in b && a != b
    requires [c] + a in entries && [c] + b in entries
    requires forall key :: key in entries ==> entries[key].key == key
    ensures Visit(OnKey<nat, V>(Global(c)), 0, entries, [[c] + a, [c] + b]).0 == {[c] + a}
  {
    var order := [[c] + a, [c] + b];
    assert order[0][1..] == a && order[1][1..] == b;
    VisitAt(OnKey<nat, V>(Global(c)), 0, entries, order);
    PassesIsFound(EndOf(c), 0, entries, order, 0);
    PassesIsFound(EndOf(c), 0, entries, order, 1);
    GlobalFirst(c, a);
    GlobalThen(c, b);
    assert LastIndex(EndOf(c), 0, order, 1) == 1;
  }

  lemma GlobalFirst(c: char, a: string)
    ensures EndOf(c)([c] + a, 0) == Some(1)
  {
    assert ([c] + a)[0..] == [c] + a;
  }

  lemma GlobalThen(c: char, b: string)
    requires c !in b
    ensures EndOf(c)([c] + b, 1) == None
  {
    assert ([c] + b)[1..] == b;
  }

  lemma RoomAbsent<V>(r: seq<Entry<V>>, r1: seq<Entry<V>>, key: string)
    requires !Has(r, key) && |r1| <= |r| && (forall i :: 0 <= i < |r1| ==> r1[i] == r[i])
    ensures Keep(r1, NotKey(key)) == r1
  {
    assert forall i :: 0 <= i < |r1| ==> r1[i].key != key;
    KeepAbsent(r1, key);
  }

  lemma RoomKept<V>(maxSize: int, r: seq<Entry<V>>, e: Entry<V>)
    requires Distinct(r) && |r| <= Capacity(maxSize) && Has(r, e.key)
    ensures [e] + Keep(r, NotKey(e.key)) == Insert(maxSize, r, e) && |Keep(r, NotKey(e.key))| < Capacity(maxSize)
  {
    KeepNotKey(r, Find(r, e.key));
  }

  /** `Set` on the Node cache is `Insert`: once room is made, the key goes to the front. */
  lemma RoomFor<V>(maxSize: int, r: seq<Entry<V>>, r1: seq<Entry<V>>, e: Entry<V>)
    requires Distinct(r) && |r| <= Capacity(maxSize)
    requires r1 == if !Has(r, e.key) && |r| >= maxSize && r != [] then r[..|r| - 1] else r
    ensures [e] + Keep(r1, NotKey(e.key)) == Insert(maxSize, r, e) && |Keep(r1, NotKey(e.key))| < Capacity(maxSize)
  {
    if Has(r, e.key) {
      RoomKept(maxSize, r, e);
    } else {
      InsertNew(maxSize, r, e);
      RoomAbsent(r, r1, e.key);
    }
  }
}
