/** The LRU cache of go/vedadb/cache.go: a map and a linked list that share their elements, proved to
    refine the recency sequence. */
module GoCache {
  import opened Wrappers
  import opened Recency

  /** An element of the linked list; the map and the list refer to the same objects. */
  class Element<V> {
    var entry: Entry<V>

    constructor (entry: Entry<V>)
      ensures this.entry == entry
    {
      this.entry := entry;
    }
  }

  ghost function Keys<V>(r: seq<Entry<V>>): set<string> {
    if r == [] then {} else {r[0].key} + Keys(r[1..])
  }

  lemma {:induction false} KeysHas<V>(r: seq<Entry<V>>, key: string)
    ensures key in Keys(r) <==> Has(r, key)
  {
    if r != [] {
      KeysHas(r[1..], key);
      if Has(r[1..], key) {
        var i :| 0 <= i < |r[1..]| && r[1..][i].key == key;
        assert r[i + 1].key == key;
      }
      if Has(r, key) && r[0].key != key {
        var i :| 0 <= i < |r| && r[i].key == key;
        assert r[1..][i - 1].key == key;
      }
    }
  }

  /** The map and the list, whose elements hold the entries `r`, have the same keys exactly once. */
  ghost predicate Linked<V>(entries: map<string, Element<V>>, lru: seq<Element<V>>, r: seq<Entry<V>>) {
    && |lru| == |r| && Distinct(r)
    && entries.Keys == Keys(r)
    && (forall i :: 0 <= i < |r| ==> r[i].key in entries && entries[r[i].key] == lru[i])
  }

  /** Lookup in the map finds the list element of the key. */
  lemma LinkedFind<V>(entries: map<string, Element<V>>, lru: seq<Element<V>>, r: seq<Entry<V>>, key: string)
    requires Linked(entries, lru, r)
    ensures key in entries <==> Find(r, key) != -1
    ensures key in entries ==> entries[key] == lru[Find(r, key)]
  {
    KeysHas(r, key);
  }

  lemma {:induction false} KeysRemoved<V>(r: seq<Entry<V>>, i: nat)
    requires i < |r| && Distinct(r)
    ensures Keys(r[..i] + r[i + 1..]) == Keys(r) - {r[i].key}
  {
    var r' := r[..i] + r[i + 1..];
    if i == 0 {
      assert r' == r[1..];
      KeysHas(r[1..], r[0].key);
      assert r[0].key !in Keys(r[1..]);
    } else {
      assert r'[0] == r[0] && r'[1..] == r[1..][..i - 1] + r[1..][i..];
      KeysRemoved(r[1..], i - 1);
      assert r[1..][i - 1] == r[i] && r[0].key != r[i].key;
    }
  }

  lemma LinkedRemove<V>(entries: map<string, Element<V>>, lru: seq<Element<V>>, r: seq<Entry<V>>, i: nat)
    requires Linked(entries, lru, r) && i < |r|
    ensures Linked(entries - {r[i].key}, lru[..i] + lru[i + 1..], r[..i] + r[i + 1..])
  {
    KeysRemoved(r, i);
    WithoutAt(r, i);
    WithoutAt(lru, i);
  }

  lemma WithoutAt<T>(s: seq<T>, i: nat)
    requires i < |s|
    ensures
      var rest := s[..i] + s[i + 1..];
      forall j :: 0 <= j < |rest| ==> rest[j] == s[if j < i then j else j + 1]
  {}

  lemma LinkedFront<V>(entries: map<string, Element<V>>, lru: seq<Element<V>>, r: seq<Entry<V>>, i: nat)
    requires Linked(entries, lru, r) && i < |r|
    ensures Linked(entries, [lru[i]] + (lru[..i] + lru[i + 1..]), [r[i]] + (r[..i] + r[i + 1..]))
  {
    LinkedRemove(entries, lru, r, i);
    LinkedPush(entries - {r[i].key}, lru[..i] + lru[i + 1..], r[..i] + r[i + 1..], lru[i], r[i]);
    assert (entries - {r[i].key})[r[i].key := lru[i]] == entries;
  }

  lemma LinkedPush<V>(entries: map<string, Element<V>>, lru: seq<Element<V>>, r: seq<Entry<V>>, elem: Element<V>, e: Entry<V>)
    requires Linked(entries, lru, r) && e.key !in entries
    ensures Linked(entries[e.key := elem], [elem] + lru, [e] + r)
  {
    assert ([e] + r)[1..] == r;
  }

  lemma LinkedSet<V>(entries: map<string, Element<V>>, lru: seq<Element<V>>, r: seq<Entry<V>>, e: Entry<V>)
    requires Linked(entries, lru, r) && r != [] && e.key == r[0].key
    ensures Linked(entries, lru, [e] + r[1..])
  {
    assert ([e] + r[1..])[1..] == r[1..];
  }

  /** The entries when the walk from the back has come down to position `i`. */
  ghost function Walked<V>(r: seq<Entry<V>>, i: nat, now: int): seq<Entry<V>>
    requires i <= |r|
  {
    r[..i] + Keep(r[i..], Live(now))
  }

  lemma WalkEnds<V>(r: seq<Entry<V>>, now: int)
    ensures Walked(r, |r|, now) == r && Walked(r, 0, now) == Keep(r, Live(now))
  {
    assert r[..|r|] == r && r[|r|..] == [] && r[..0] == [] && r[0..] == r;
  }

  lemma WalkStep<V>(r: seq<Entry<V>>, i: nat, now: int)
    requires i < |r|
    ensures
      var all := Walked(r, i + 1, now);
      && i < |all| && all[i] == r[i]
      && Walked(r, i, now) == if IsExpired(r[i], now) then all[..i] + all[i + 1..] else all
  {
    var rest := Keep(r[i + 1..], Live(now));
    assert r[i..][1..] == r[i + 1..];
    assert r[..i + 1] + rest == r[..i] + ([r[i]] + rest);
  }

  class Cache<V> {
    const maxSize: int
    const defaultTTL: int
    var entries: map<string, Element<V>>
    /** Front = most recently used. */
    var lru: seq<Element<V>>
    var hits: nat
    var misses: nat
    var evictions: nat
    /** The entries of the list elements. */
    ghost var contents: seq<Entry<V>>

    ghost predicate Valid()
      reads this, lru
    {
      && Linked(entries, lru, contents)
      && (forall i :: 0 <= i < |lru| ==> lru[i].entry == contents[i])
      && |lru| <= Capacity(maxSize)
    }

    constructor (maxSize: int, defaultTTL: int)
      ensures Valid() && contents == [] && lru == []
      ensures this.maxSize == maxSize && this.defaultTTL == defaultTTL
      ensures hits == misses == evictions == 0
    {
      this.maxSize, this.defaultTTL := maxSize, defaultTTL;
      entries, lru, contents := map[], [], [];
      hits, misses, evictions := 0, 0, 0;
    }

    /** Where the list holds an element. */
    method Position(elem: Element<V>) returns (i: nat)
      requires Valid() && elem in lru
      ensures i < |lru| && lru[i] == elem && i == Find(contents, elem.entry.key)
    {
      i := 0;
      while lru[i] != elem
        invariant i < |lru| && elem in lru[i..]
        decreases |lru| - i
      {
        i := i + 1;
      }
      FindAt(contents, i);
    }

    /** Removes the element at a list position from the map and the list. */
    method Evict(i: nat)
      requires Valid() && i < |lru|
      modifies this
      ensures Valid() && (forall i :: 0 <= i < |lru| ==> lru[i] in old(lru))
      ensures contents == old(contents)[..i] + old(contents)[i + 1..]
      ensures entries.Keys <= old(entries).Keys
      ensures hits == old(hits) && misses == old(misses) && evictions == old(evictions) + 1
    {
      LinkedRemove(entries, lru, contents, i);
      entries := entries - {lru[i].entry.key};
      lru := lru[..i] + lru[i + 1..];
      contents := contents[..i] + contents[i + 1..];
      evictions := evictions + 1;
    }

    method EvictLRU()
      requires Valid()
      modifies this
      ensures Valid() && hits == old(hits) && misses == old(misses)
      ensures forall i :: 0 <= i < |lru| ==> lru[i] in old(lru)
      ensures entries.Keys <= old(entries).Keys
      ensures contents == if old(contents) == [] then [] else old(contents)[..|old(contents)| - 1]
    {
      if |lru| > 0 {
        Evict(|lru| - 1);
      }
    }

    /** Walks the list from the back and evicts what has expired. */
    method EvictExpired(now: int)
      requires Valid()
      modifies this
      ensures Valid() && contents == Keep(old(contents), Live(now))
      ensures hits == old(hits) && misses == old(misses)
      ensures evictions == old(evictions) + |old(contents)| - |contents|
      ensures forall i :: 0 <= i < |lru| ==> lru[i] in old(lru)
    {
      var i := |lru|;
      WalkEnds(old(contents), now);
      while i > 0
        invariant 0 <= i <= |lru| && i <= |old(contents)| && Valid()
        invariant contents == Walked(old(contents), i, now)
        invariant hits == old(hits) && misses == old(misses)
        invariant evictions == old(evictions) + |old(contents)| - |lru|
        invariant forall j :: 0 <= j < |lru| ==> lru[j] in old(lru)
      {
        i := i - 1;
        WalkStep(old(contents), i, now);
        if IsExpired(lru[i].entry, now) {
          Evict(i);
        }
      }
    }

    method MoveToFront(i: nat)
      requires Valid() && i < |lru|
      modifies this`lru, this`contents
      ensures Valid() && lru != [] && lru[0] == old(lru)[i] && (forall i :: 0 <= i < |lru| ==> lru[i] in old(lru))
      ensures contents == [old(contents)[i]] + (old(contents)[..i] + old(contents)[i + 1..])
    {
      LinkedFront(entries, lru, contents, i);
      lru := [lru[i]] + (lru[..i] + lru[i + 1..]);
      contents := [contents[i]] + (contents[..i] + contents[i + 1..]);
    }

    /** Gives the first element a new entry for the same key. */
    method SetFront(e: Entry<V>)
      requires Valid() && lru != [] && e.key == lru[0].entry.key
      modifies this`contents, lru[0]
      ensures Valid() && contents == [e] + old(contents)[1..] && lru == old(lru)
    {
      forall j | 0 < j < |lru| ensures lru[j] != lru[0] {
        assert contents[0].key != contents[j].key;
      }
      lru[0].entry := e;
      LinkedSet(entries, lru, contents, e);
      contents := [e] + contents[1..];
    }

    /** Moves the element at a list position to the front and gives it a new entry for the same key. */
    method Refresh(i: nat, e: Entry<V>)
      requires Valid() && i < |lru| && e.key == contents[i].key
      modifies this`lru, this`contents, lru[i]
      ensures Valid() && (forall i :: 0 <= i < |lru| ==> lru[i] in old(lru))
      ensures contents == [e] + (old(contents)[..i] + old(contents)[i + 1..])
      ensures old(lru[i]).entry == e
    {
      MoveToFront(i);
      SetFront(e);
      assert lru[0].entry == contents[0];
    }

    method Get(key: string, now: int) returns (r: Option<Entry<V>>)
      requires Valid()
      modifies this, lru
      ensures Valid() && (contents, r) == Lookup(old(contents), key, now)
      ensures hits == old(hits) + (if r.Some? then 1 else 0) && misses == old(misses) + (if r.None? then 1 else 0)
      ensures forall i :: 0 <= i < |lru| ==> lru[i] in old(lru)
    {
      LinkedFind(entries, lru, contents, key);
      if key !in entries {
        misses := misses + 1;
        return None;
      }
      var elem := entries[key];
      var i := Position(elem);
      if IsExpired(elem.entry, now) {
        LookupExpired(contents, i, now);
        Evict(i);
        misses := misses + 1;
        return None;
      }
      LookupHit(contents, i, now);
      Refresh(i, Counted(elem.entry));
      hits := hits + 1;
      return Some(elem.entry);
    }

    /** Puts a new element at the front of the list. */
    method PushFront(e: Entry<V>)
      requires Valid() && e.key !in entries && |lru| < Capacity(maxSize)
      modifies this`lru, this`contents, this`entries
      ensures Valid() && contents == [e] + old(contents)
      ensures forall i :: 0 <= i < |lru| ==> lru[i] in old(lru) || fresh(lru[i])
    {
      var elem := new Element(e);
      LinkedPush(entries, lru, contents, elem, e);
      lru := [elem] + lru;
      entries := entries[e.key := elem];
      contents := [e] + contents;
    }

    method SetWithTTL(key: string, value: V, ttl: int, now: int)
      requires Valid()
      modifies this, lru
      ensures Valid()
      ensures contents == Store(true, maxSize, old(contents), Entry(key, value, now, At(now + ttl), 0), now)
      ensures hits == old(hits) && misses == old(misses)
      ensures forall i :: 0 <= i < |lru| ==> lru[i] in old(lru) || fresh(lru[i])
    {
      EvictExpired(now);
      Put(Entry(key, value, now, At(now + ttl), 0));
    }

    /** `SetWithTTL` after the expired entries are gone. */
    method Put(e: Entry<V>)
      requires Valid()
      modifies this, lru
      ensures Valid() && contents == Insert(maxSize, old(contents), e)
      ensures hits == old(hits) && misses == old(misses)
      ensures forall i :: 0 <= i < |lru| ==> lru[i] in old(lru) || fresh(lru[i])
    {
      LinkedFind(entries, lru, contents, e.key);
      if e.key in entries {
        InsertOver(maxSize, contents, e);
        var i := Position(entries[e.key]);
        Refresh(i, e);
      } else {
        InsertNew(maxSize, contents, e);
        Add(e);
      }
    }

    /** Evicts the oldest entry if at capacity and pushes a new one. */
    method Add(e: Entry<V>)
      requires Valid() && e.key !in entries
      modifies this
      ensures Valid() && hits == old(hits) && misses == old(misses)
      ensures contents == [e] + (if |old(contents)| >= maxSize && old(contents) != []
                                 then old(contents)[..|old(contents)| - 1] else old(contents))
      ensures forall i :: 0 <= i < |lru| ==> lru[i] in old(lru) || fresh(lru[i])
    {
      if |lru| >= maxSize {
        EvictLRU();
      }
      PushFront(e);
    }

    method Set(key: string, value: V, now: int)
      requires Valid()
      modifies this, lru
      ensures Valid()
      ensures contents == Store(true, maxSize, old(contents), Entry(key, value, now, At(now + defaultTTL), 0), now)
      ensures hits == old(hits) && misses == old(misses)
      ensures forall i :: 0 <= i < |lru| ==> lru[i] in old(lru) || fresh(lru[i])
    {
      SetWithTTL(key, value, defaultTTL, now);
    }

    method Delete(key: string)
      requires Valid()
      modifies this
      ensures Valid() && contents == Keep(old(contents), NotKey(key))
      ensures hits == old(hits) && misses == old(misses)
      ensures forall i :: 0 <= i < |lru| ==> lru[i] in old(lru)
    {
      LinkedFind(entries, lru, contents, key);
      if key in entries {
        KeepNotKey(contents, Find(contents, key));
        var i := Position(entries[key]);
        Evict(i);
      } else {
        KeepAbsent(contents, key);
      }
    }

    method Clear()
      requires Valid()
      modifies this
      ensures Valid() && contents == [] && lru == []
      ensures hits == old(hits) && misses == old(misses) && evictions == old(evictions)
    {
      entries, lru, contents := map[], [], [];
    }
  }
}
