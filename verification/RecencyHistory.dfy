/** What a cache remembers. */
module RecencyHistory {
  // The entries of the caches of go/vedadb/cache.go and node/src/cache.js, read off the operations so far: every entry
  // is the one stored last under its key, and one that was used recently enough is still there.

  import opened Wrappers
  import opened Recency

  /** The entry is too old to be given out. */
  predicate TooOld<V>(e: Entry<V>, now: int) { e.expires.At? && now > e.expires.time }

  /** What a cache without a size limit would hold under the key. A read that finds the entry too old drops it; so does
      storing anything in a cache that purges, and a sweep already at the instant of expiry. */
  function Stored<V>(purge: bool, trace: seq<Timed<V>>, key: string): Option<Entry<V>> {
    if trace == [] then None
    else
      var n := |trace| - 1;
      var before, op, now := Stored(purge, trace[..n], key), trace[n].op, trace[n].now;
      if op.Put? && op.entry.key == key then Some(op.entry)
      else if before.None? then None
      else
        var e := before.value;
        match op
        case Get(k) => if k != key then before else if TooOld(e, now) then None else Some(e.(hits := e.hits + 1))
        case Put(_) => if purge && TooOld(e, now) then None else before
        case Delete(k) => if k == key then None else before
        case Clear => None
        case Sweep => if e.expires.At? && now >= e.expires.time then None else before
        case Invalidate(matches) => if matches(key) then None else before
  }

  function More(used: Option<set<string>>, key: string, limit: nat): Option<set<string>> {
    if used.None? || |used.value + {key}| >= limit then None else Some(used.value + {key})
  }

  /** The other keys stored or asked for since the key was used last, as long as they are fewer than the limit. */
  function UsedSince<V>(trace: seq<Timed<V>>, key: string, limit: nat): Option<set<string>> {
    if trace == [] then None
    else
      var n := |trace| - 1;
      var before, op := UsedSince(trace[..n], key, limit), trace[n].op;
      if op.Put? && op.entry.key == key then Some({})
      else if op.Put? then More(before, op.entry.key, limit)
      else if op.Get? && op.key == key then (if before.Some? then Some({}) else None)
      else if op.Get? then More(before, op.key, limit)
      else before
  }

  ghost predicate Sound<V>(purge: bool, trace: seq<Timed<V>>, r: seq<Entry<V>>) {
    forall e :: e in r ==> Stored(purge, trace, e.key) == Some(e)
  }

  /** Whoever stands in front of an entry was used after it. */
  ghost predicate InFront<V>(trace: seq<Timed<V>>, r: seq<Entry<V>>, limit: nat) {
    forall i, j :: 0 <= i < j < |r| && UsedSince(trace, r[j].key, limit).Some? ==>
      r[i].key in UsedSince(trace, r[j].key, limit).value
  }

  ghost predicate Complete<V>(purge: bool, trace: seq<Timed<V>>, r: seq<Entry<V>>, limit: nat) {
    forall key :: Stored(purge, trace, key).Some? && UsedSince(trace, key, limit).Some? ==> Has(r, key)
  }

  ghost predicate Remembers<V>(purge: bool, trace: seq<Timed<V>>, r: seq<Entry<V>>, limit: nat) {
    Sound(purge, trace, r) && InFront(trace, r, limit) && Complete(purge, trace, r, limit)
  }

  // ---------- one operation ----------

  lemma StoredSnoc<V>(purge: bool, trace: seq<Timed<V>>, t: Timed<V>, key: string)
    ensures
      Stored(purge, trace + [t], key) ==
        var before := Stored(purge, trace, key);
        if t.op.Put? && t.op.entry.key == key then Some(t.op.entry)
        else if before.None? then None
        else
          var e := before.value;
          match t.op
          case Get(k) => if k != key then before else if TooOld(e, t.now) then None else Some(e.(hits := e.hits + 1))
          case Put(_) => if purge && TooOld(e, t.now) then None else before
          case Delete(k) => if k == key then None else before
          case Clear => None
          case Sweep => if e.expires.At? && t.now >= e.expires.time then None else before
          case Invalidate(matches) => if matches(key) then None else before
  {
    assert (trace + [t])[..|trace|] == trace;
  }

  lemma UsedSnoc<V>(trace: seq<Timed<V>>, t: Timed<V>, key: string, limit: nat)
    ensures
      UsedSince(trace + [t], key, limit) ==
        var before := UsedSince(trace, key, limit);
        if t.op.Put? && t.op.entry.key == key then Some({})
        else if t.op.Put? then More(before, t.op.entry.key, limit)
        else if t.op.Get? && t.op.key == key then (if before.Some? then Some({}) else None)
        else if t.op.Get? then More(before, t.op.key, limit)
        else before
  {
    assert (trace + [t])[..|trace|] == trace;
  }

  /** The positions of the kept entries, in order. */
  lemma {:induction false} KeepOrder<V>(r: seq<Entry<V>>, p: Entry<V> -> bool, i: nat, j: nat) returns (x: nat, y: nat)
    requires i < j < |Keep(r, p)|
    ensures x < y < |r| && r[x] == Keep(r, p)[i] && r[y] == Keep(r, p)[j]
  {
    if !p(r[0]) {
      x, y := KeepOrder(r[1..], p, i, j);
      x, y := x + 1, y + 1;
    } else if i > 0 {
      x, y := KeepOrder(r[1..], p, i - 1, j - 1);
      x, y := x + 1, y + 1;
    } else {
      x := 0;
      y := KeepAt(r[1..], p, j - 1);
      y := y + 1;
    }
  }

  lemma {:induction false} KeepAt<V>(r: seq<Entry<V>>, p: Entry<V> -> bool, i: nat) returns (x: nat)
    requires i < |Keep(r, p)|
    ensures x < |r| && r[x] == Keep(r, p)[i]
  {
    if !p(r[0]) {
      x := KeepAt(r[1..], p, i);
      x := x + 1;
    } else if i > 0 {
      x := KeepAt(r[1..], p, i - 1);
      x := x + 1;
    } else {
      x := 0;
    }
  }

  lemma HasIn<V>(r: seq<Entry<V>>, key: string)
    ensures Has(r, key) <==> exists e :: e in r && e.key == key
  {
    if e :| e in r && e.key == key {
      var i :| 0 <= i < |r| && r[i] == e;
      assert r[i].key == key;
    }
  }

  /** Dropping entries keeps the order. */
  lemma KeepInFront<V>(trace: seq<Timed<V>>, r: seq<Entry<V>>, limit: nat, p: Entry<V> -> bool)
    requires InFront(trace, r, limit)
    ensures InFront(trace, Keep(r, p), limit)
  {
    var kept := Keep(r, p);
    forall i, j | 0 <= i < j < |kept| && UsedSince(trace, kept[j].key, limit).Some?
      ensures kept[i].key in UsedSince(trace, kept[j].key, limit).value
    {
      var x, y := KeepOrder(r, p, i, j);
    }
  }

  /** An operation that uses no key. */
  lemma QuietInFront<V>(trace: seq<Timed<V>>, t: Timed<V>, r: seq<Entry<V>>, limit: nat)
    requires InFront(trace, r, limit) && !t.op.Put? && !t.op.Get?
    ensures InFront(trace + [t], r, limit)
  {
    forall key ensures UsedSince(trace + [t], key, limit) == UsedSince(trace, key, limit) {
      UsedSnoc(trace, t, key, limit);
    }
  }

  /** Some entries are dropped, and nothing else happens. */
  lemma DropRemembers<V>(purge: bool, trace: seq<Timed<V>>, t: Timed<V>, r: seq<Entry<V>>, limit: nat, p: Entry<V> -> bool)
    requires Remembers(purge, trace, r, limit) && !t.op.Put? && !t.op.Get?
    requires forall e :: e in r ==>
      Stored(purge, trace + [t], e.key) == if p(e) then Stored(purge, trace, e.key) else None
    requires forall key :: Stored(purge, trace + [t], key).Some? ==> Stored(purge, trace, key).Some?
    ensures Remembers(purge, trace + [t], Keep(r, p), limit)
  {
    KeepHas(r, p);
    KeepInFront(trace, r, limit, p);
    QuietInFront(trace, t, Keep(r, p), limit);
    forall key | Stored(purge, trace + [t], key).Some? && UsedSince(trace + [t], key, limit).Some? ensures Has(Keep(r, p), key) {
      UsedSnoc(trace, t, key, limit);
      HasIn(r, key);
      HasIn(Keep(r, p), key);
      var e :| e in r && e.key == key;
    }
  }

  lemma DeleteRemembers<V>(purge: bool, trace: seq<Timed<V>>, t: Timed<V>, r: seq<Entry<V>>, limit: nat)
    requires Remembers(purge, trace, r, limit) && t.op.Delete?
    ensures Remembers(purge, trace + [t], Keep(r, NotKey(t.op.key)), limit)
  {
    forall key ensures Stored(purge, trace + [t], key) == if key == t.op.key then None else Stored(purge, trace, key) {
      StoredSnoc(purge, trace, t, key);
    }
    DropRemembers(purge, trace, t, r, limit, NotKey(t.op.key));
  }

  lemma ClearRemembers<V>(purge: bool, trace: seq<Timed<V>>, t: Timed<V>, limit: nat)
    requires t.op.Clear?
    ensures Remembers(purge, trace + [t], [], limit)
  {
    forall key ensures Stored(purge, trace + [t], key) == None {
      StoredSnoc(purge, trace, t, key);
    }
  }

  lemma SweepRemembers<V>(purge: bool, trace: seq<Timed<V>>, t: Timed<V>, r: seq<Entry<V>>, limit: nat)
    requires Remembers(purge, trace, r, limit) && t.op.Sweep?
    ensures Remembers(purge, trace + [t], Keep(r, Unswept(t.now)), limit)
  {
    forall key
      ensures Stored(purge, trace + [t], key).Some? ==> Stored(purge, trace, key).Some?
    {
      StoredSnoc(purge, trace, t, key);
    }
    forall e | e in r
      ensures Stored(purge, trace + [t], e.key) == if Unswept<V>(t.now)(e) then Stored(purge, trace, e.key) else None
    {
      StoredSnoc(purge, trace, t, e.key);
    }
    DropRemembers(purge, trace, t, r, limit, Unswept(t.now));
  }

  lemma InvalidateRemembers<V>(purge: bool, trace: seq<Timed<V>>, t: Timed<V>, r: seq<Entry<V>>, limit: nat)
    requires Remembers(purge, trace, r, limit) && t.op.Invalidate?
    ensures Remembers(purge, trace + [t], Keep(r, Unmatched(t.op.matches)), limit)
  {
    forall key ensures Stored(purge, trace + [t], key).Some? ==> Stored(purge, trace, key).Some? {
      StoredSnoc(purge, trace, t, key);
    }
    forall e | e in r
      ensures Stored(purge, trace + [t], e.key) == if Unmatched<V>(t.op.matches)(e) then Stored(purge, trace, e.key) else None
    {
      StoredSnoc(purge, trace, t, e.key);
    }
    DropRemembers(purge, trace, t, r, limit, Unmatched(t.op.matches));
  }

  // ---------- reading and storing ----------

  /** An entry comes to the front, and others may leave. */
  lemma FrontInFront<V>(trace: seq<Timed<V>>, t: Timed<V>, rest: seq<Entry<V>>, e: Entry<V>, limit: nat)
    requires InFront(trace, rest, limit) && !Has(rest, e.key)
    requires (t.op.Put? && t.op.entry.key == e.key) || (t.op.Get? && t.op.key == e.key)
    ensures InFront(trace + [t], [e] + rest, limit)
  {
    var r := [e] + rest;
    forall i, j | 0 <= i < j < |r| && UsedSince(trace + [t], r[j].key, limit).Some?
      ensures r[i].key in UsedSince(trace + [t], r[j].key, limit).value
    {
      assert r[j] == rest[j - 1] && r[j].key != e.key;
      UsedSnoc(trace, t, r[j].key, limit);
      if i > 0 {
        assert r[i] == rest[i - 1];
      }
    }
  }

  /** Only the key that is read or stored may leave its place. */
  lemma MissInFront<V>(trace: seq<Timed<V>>, t: Timed<V>, r: seq<Entry<V>>, limit: nat)
    requires InFront(trace, r, limit) && t.op.Get? && !Has(r, t.op.key)
    ensures InFront(trace + [t], r, limit)
  {
    forall i, j | 0 <= i < j < |r| && UsedSince(trace + [t], r[j].key, limit).Some?
      ensures r[i].key in UsedSince(trace + [t], r[j].key, limit).value
    {
      assert r[j].key != t.op.key;
      UsedSnoc(trace, t, r[j].key, limit);
    }
  }

  lemma WithoutKey<V>(r: seq<Entry<V>>, key: string)
    ensures !Has(Keep(r, NotKey(key)), key)
    ensures forall e :: e in Keep(r, NotKey(key)) <==> e in r && e.key != key
    ensures forall k :: k != key ==> (Has(Keep(r, NotKey(key)), k) <==> Has(r, k))
  {
    KeepHas(r, NotKey(key));
    var rest := Keep(r, NotKey(key));
    forall e ensures e in rest <==> e in r && e.key != key {}
    HasIn(rest, key);
    forall k | k != key ensures Has(rest, k) <==> Has(r, k) {
      HasIn(rest, k);
      HasIn(r, k);
    }
  }

  lemma KeptKey<V>(r: seq<Entry<V>>, key: string, x: Entry<V>)
    requires x in Keep(r, NotKey(key))
    ensures x in r && x.key != key
  {
    KeepHas(r, NotKey(key));
    assert NotKey<V>(key)(x);
  }

  lemma HasFront<V>(e: Entry<V>, rest: seq<Entry<V>>, key: string)
    ensures Has([e] + rest, key) <==> e.key == key || Has(rest, key)
  {
    HasIn([e] + rest, key);
    HasIn(rest, key);
  }

  lemma GetStored<V>(purge: bool, trace: seq<Timed<V>>, t: Timed<V>)
    requires t.op.Get?
    ensures forall key :: key != t.op.key ==> Stored(purge, trace + [t], key) == Stored(purge, trace, key)
    ensures
      Stored(purge, trace + [t], t.op.key) ==
        var before := Stored(purge, trace, t.op.key);
        if before.None? || TooOld(before.value, t.now) then None else Some(before.value.(hits := before.value.hits + 1))
  {
    StoredSnoc(purge, trace, t, t.op.key);
    forall key | key != t.op.key ensures Stored(purge, trace + [t], key) == Stored(purge, trace, key) {
      StoredSnoc(purge, trace, t, key);
    }
  }

  lemma FoundIn<V>(r: seq<Entry<V>>, key: string)
    requires Find(r, key) >= 0
    ensures r[Find(r, key)] in r
  {}

  lemma SoundCons<V>(purge: bool, trace: seq<Timed<V>>, e: Entry<V>, rest: seq<Entry<V>>)
    requires Stored(purge, trace, e.key) == Some(e) && forall x :: x in rest ==> Stored(purge, trace, x.key) == Some(x)
    ensures Sound(purge, trace, [e] + rest)
  {
    assert forall x :: x in [e] + rest ==> x == e || x in rest;
  }

  lemma GetSound<V>(purge: bool, trace: seq<Timed<V>>, t: Timed<V>, r: seq<Entry<V>>)
    requires Sound(purge, trace, r) && t.op.Get?
    ensures Sound(purge, trace + [t], Lookup(r, t.op.key, t.now).0)
  {
    GetStored(purge, trace, t);
    WithoutKey(r, t.op.key);
    hide Stored;
    var i := Find(r, t.op.key);
    if i == -1 {
      HasIn(r, t.op.key);
    } else {
      var rest := Keep(r, NotKey(t.op.key));
      FoundIn(r, t.op.key);
      forall x | x in rest ensures Stored(purge, trace + [t], x.key) == Some(x) {
        KeptKey(r, t.op.key, x);
      }
      if !IsExpired(r[i], t.now) {
        SoundCons(purge, trace + [t], Counted(r[i]), Keep(r, NotKey(t.op.key)));
      }
    }
  }

  lemma GetInFront<V>(trace: seq<Timed<V>>, t: Timed<V>, r: seq<Entry<V>>, limit: nat)
    requires InFront(trace, r, limit) && t.op.Get?
    ensures InFront(trace + [t], Lookup(r, t.op.key, t.now).0, limit)
  {
    var i := Find(r, t.op.key);
    if i == -1 {
      MissInFront(trace, t, r, limit);
    } else {
      var rest := Keep(r, NotKey(t.op.key));
      KeepInFront(trace, r, limit, NotKey(t.op.key));
      WithoutKey(r, t.op.key);
      if IsExpired(r[i], t.now) {
        MissInFront(trace, t, rest, limit);
      } else {
        FrontInFront(trace, t, rest, Counted(r[i]), limit);
      }
    }
  }

  lemma GetComplete<V>(purge: bool, trace: seq<Timed<V>>, t: Timed<V>, r: seq<Entry<V>>, limit: nat)
    requires Sound(purge, trace, r) && Complete(purge, trace, r, limit) && t.op.Get?
    ensures Complete(purge, trace + [t], Lookup(r, t.op.key, t.now).0, limit)
  {
    GetStored(purge, trace, t);
    WithoutKey(r, t.op.key);
    var after := Lookup(r, t.op.key, t.now).0;
    forall key | Stored(purge, trace + [t], key).Some? && UsedSince(trace + [t], key, limit).Some? ensures Has(after, key) {
      UsedSnoc(trace, t, key, limit);
      assert Has(r, key);
      if Find(r, t.op.key) >= 0 {
        FoundIn(r, t.op.key);
        HasFront(Counted(r[Find(r, t.op.key)]), Keep(r, NotKey(t.op.key)), key);
      }
    }
  }

  function KeySet<V>(r: seq<Entry<V>>): set<string> { if r == [] then {} else KeySet(r[..|r| - 1]) + {r[|r| - 1].key} }

  lemma HasSnoc<V>(front: seq<Entry<V>>, e: Entry<V>, key: string)
    ensures Has(front + [e], key) <==> Has(front, key) || e.key == key
  {
    HasIn(front + [e], key);
    HasIn(front, key);
    assert e in front + [e];
  }

  lemma DistinctSnoc<V>(front: seq<Entry<V>>, e: Entry<V>)
    requires Distinct(front + [e])
    ensures Distinct(front) && !Has(front, e.key)
  {
    var r := front + [e];
    assert r[|front|] == e && forall i :: 0 <= i < |front| ==> r[i] == front[i];
  }

  lemma KeySetSnoc<V>(front: seq<Entry<V>>, e: Entry<V>)
    ensures KeySet(front + [e]) == KeySet(front) + {e.key}
  {
    assert (front + [e])[..|front|] == front;
  }

  lemma {:induction false} KeySetIs<V>(r: seq<Entry<V>>)
    requires Distinct(r)
    ensures |KeySet(r)| == |r| && forall key :: key in KeySet(r) <==> Has(r, key)
    decreases |r|
  {
    if r != [] {
      var front, e := r[..|r| - 1], r[|r| - 1];
      assert r == front + [e];
      DistinctSnoc(front, e);
      KeySetIs(front);
      KeySetSnoc(front, e);
      hide KeySet, Distinct, Has;
      forall key ensures Has(r, key) <==> Has(front, key) || e.key == key {
        HasSnoc(front, e, key);
      }
    }
  }

  lemma SubsetSize<T>(a: set<T>, b: set<T>)
    requires a <= b
    ensures |a| <= |b|
  {
    assert b == a + (b - a);
  }

  /** The entry that is evicted has been idle for too long. */
  lemma EvictedIsIdle<V>(trace: seq<Timed<V>>, t: Timed<V>, r: seq<Entry<V>>, limit: nat)
    requires Distinct(r) && |r| == limit > 0 && InFront(trace, r, limit) && t.op.Put? && !Has(r, t.op.entry.key)
    ensures UsedSince(trace + [t], r[limit - 1].key, limit).None?
  {
    var front, last, key := r[..limit - 1], r[limit - 1], t.op.entry.key;
    var before := UsedSince(trace, last.key, limit);
    UsedSnoc(trace, t, last.key, limit);
    HasIn(r, key);
    if before.Some? {
      KeySetIs(front);
      forall k | k in KeySet(front) ensures k in before.value {
        var i :| 0 <= i < |front| && front[i].key == k;
        assert r[i].key == k;
      }
      assert key !in KeySet(front) by {
        HasIn(front, key);
        assert forall e :: e in front ==> e in r;
      }
      SubsetSize(KeySet(front) + {key}, before.value + {key});
    }
  }

  /** Expired entries leave first in a cache that purges. */
  function Purged<V>(purge: bool, r: seq<Entry<V>>, now: int): seq<Entry<V>> { if purge then Keep(r, Live(now)) else r }

  lemma PutStored<V>(purge: bool, trace: seq<Timed<V>>, t: Timed<V>, r: seq<Entry<V>>)
    requires Sound(purge, trace, r) && t.op.Put?
    ensures forall e :: e in Purged(purge, r, t.now) && e.key != t.op.entry.key ==> Stored(purge, trace + [t], e.key) == Some(e)
    ensures Stored(purge, trace + [t], t.op.entry.key) == Some(t.op.entry)
  {
    StoredSnoc(purge, trace, t, t.op.entry.key);
    KeepHas(r, Live(t.now));
    forall e | e in Purged(purge, r, t.now) && e.key != t.op.entry.key ensures Stored(purge, trace + [t], e.key) == Some(e) {
      assert purge ==> Live<V>(t.now)(e);
      StoredSnoc(purge, trace, t, e.key);
    }
  }

  /** What a key needs to be still there before something is stored. */
  lemma PurgedHas<V>(purge: bool, trace: seq<Timed<V>>, t: Timed<V>, r: seq<Entry<V>>, limit: nat, key: string)
    requires Sound(purge, trace, r) && Complete(purge, trace, r, limit) && t.op.Put? && key != t.op.entry.key
    requires Stored(purge, trace + [t], key).Some? && UsedSince(trace + [t], key, limit).Some?
    ensures Has(Purged(purge, r, t.now), key)
  {
    StoredSnoc(purge, trace, t, key);
    UsedSnoc(trace, t, key, limit);
    HasIn(r, key);
    HasIn(Purged(purge, r, t.now), key);
    var e :| e in r && e.key == key;
    KeepHas(r, Live(t.now));
    assert purge ==> Live<V>(t.now)(e);
  }

  lemma PutOverRemembers<V>(purge: bool, trace: seq<Timed<V>>, t: Timed<V>, r: seq<Entry<V>>, limit: nat)
    requires Remembers(purge, trace, r, limit) && t.op.Put?
    ensures Remembers(purge, trace + [t], [t.op.entry] + Keep(Purged(purge, r, t.now), NotKey(t.op.entry.key)), limit)
  {
    var e, p := t.op.entry, Purged(purge, r, t.now);
    var rest := Keep(p, NotKey(e.key));
    PutStored(purge, trace, t, r);
    WithoutKey(p, e.key);
    hide Stored, UsedSince;
    forall x | x in rest ensures Stored(purge, trace + [t], x.key) == Some(x) {
      KeptKey(p, e.key, x);
    }
    SoundCons(purge, trace + [t], e, rest);
    PurgedInFront(purge, trace, t, r, limit);
    KeepInFront(trace, p, limit, NotKey(e.key));
    FrontInFront(trace, t, rest, e, limit);
    forall key | Stored(purge, trace + [t], key).Some? && UsedSince(trace + [t], key, limit).Some? ensures Has([e] + rest, key) {
      HasFront(e, rest, key);
      if key != e.key {
        PurgedHas(purge, trace, t, r, limit, key);
      }
    }
  }

  lemma PurgedInFront<V>(purge: bool, trace: seq<Timed<V>>, t: Timed<V>, r: seq<Entry<V>>, limit: nat)
    requires InFront(trace, r, limit)
    ensures InFront(trace, Purged(purge, r, t.now), limit)
  {
    hide InFront;
    KeepInFront(trace, r, limit, Live(t.now));
  }

  /** All but the last entry. */
  lemma AllButLast<V>(trace: seq<Timed<V>>, p: seq<Entry<V>>, limit: nat, key: string)
    requires p != [] && InFront(trace, p, limit)
    ensures
      var rest, last := p[..|p| - 1], p[|p| - 1];
      && InFront(trace, rest, limit) && (forall x :: x in rest ==> x in p)
      && (Has(p, key) <==> Has(rest, key) || last.key == key)
  {
    var rest, last := p[..|p| - 1], p[|p| - 1];
    assert p == rest + [last];
    HasIn(p, key);
    HasIn(rest, key);
    assert last in p;
  }

  lemma PutNewSound<V>(purge: bool, trace: seq<Timed<V>>, t: Timed<V>, r: seq<Entry<V>>, rest: seq<Entry<V>>)
    requires Sound(purge, trace, r) && t.op.Put? && !Has(rest, t.op.entry.key)
    requires forall x :: x in rest ==> x in Purged(purge, r, t.now)
    ensures Sound(purge, trace + [t], [t.op.entry] + rest)
  {
    PutStored(purge, trace, t, r);
    HasIn(rest, t.op.entry.key);
    hide Stored;
    SoundCons(purge, trace + [t], t.op.entry, rest);
  }

  lemma PutNewRemembers<V>(purge: bool, trace: seq<Timed<V>>, t: Timed<V>, r: seq<Entry<V>>, limit: nat)
    requires Remembers(purge, trace, r, limit) && t.op.Put? && Distinct(r) && |r| <= limit && limit > 0
    requires !Has(Purged(purge, r, t.now), t.op.entry.key) && |Purged(purge, r, t.now)| >= limit
    ensures
      var p := Purged(purge, r, t.now);
      Remembers(purge, trace + [t], [t.op.entry] + p[..|p| - 1], limit)
  {
    var e, p := t.op.entry, Purged(purge, r, t.now);
    KeepDistinct(r, Live(t.now));
    KeepHas(r, Live(t.now));
    hide Stored, UsedSince, Sound, InFront, Complete;
    PurgedInFront(purge, trace, t, r, limit);
    var rest := p[..|p| - 1];
    AllButLast(trace, p, limit, e.key);
    PutNewSound(purge, trace, t, r, rest);
    FrontInFront(trace, t, rest, e, limit);
    EvictedIsIdle(trace, t, p, limit);
    PutNewComplete(purge, trace, t, r, limit);
  }

  lemma PutNewComplete<V>(purge: bool, trace: seq<Timed<V>>, t: Timed<V>, r: seq<Entry<V>>, limit: nat)
    requires Sound(purge, trace, r) && Complete(purge, trace, r, limit) && t.op.Put? && Purged(purge, r, t.now) != []
    requires InFront(trace, Purged(purge, r, t.now), limit)
    requires var p := Purged(purge, r, t.now); UsedSince(trace + [t], p[|p| - 1].key, limit).None?
    ensures
      var p := Purged(purge, r, t.now);
      Complete(purge, trace + [t], [t.op.entry] + p[..|p| - 1], limit)
  {
    hide Stored, UsedSince, Sound, InFront;
    var e, p := t.op.entry, Purged(purge, r, t.now);
    var rest := p[..|p| - 1];
    forall key | Stored(purge, trace + [t], key).Some? && UsedSince(trace + [t], key, limit).Some? ensures Has([e] + rest, key) {
      HasFront(e, rest, key);
      if key != e.key {
        PurgedHas(purge, trace, t, r, limit, key);
        AllButLast(trace, p, limit, key);
      }
    }
  }

  lemma PutRemembers<V>(purge: bool, maxSize: int, trace: seq<Timed<V>>, t: Timed<V>, r: seq<Entry<V>>)
    requires Remembers(purge, trace, r, Capacity(maxSize)) && t.op.Put? && Distinct(r) && |r| <= Capacity(maxSize)
    ensures Remembers(purge, trace + [t], Store(purge, maxSize, r, t.op.entry, t.now), Capacity(maxSize))
  {
    var e, p := t.op.entry, Purged(purge, r, t.now);
    PutOverRemembers(purge, trace, t, r, Capacity(maxSize));
    if !Has(p, e.key) {
      if |p| >= Capacity(maxSize) {
        PutNewRemembers(purge, trace, t, r, Capacity(maxSize));
      } else {
        KeepAbsent(p, e.key);
      }
    }
  }

  // ---------- the main results ----------

  lemma ApplyRemembers<V>(purge: bool, maxSize: int, trace: seq<Timed<V>>, t: Timed<V>, r: seq<Entry<V>>)
    requires Remembers(purge, trace, r, Capacity(maxSize)) && Distinct(r) && |r| <= Capacity(maxSize)
    ensures Remembers(purge, trace + [t], Apply(purge, maxSize, r, t), Capacity(maxSize))
  {
    var limit := Capacity(maxSize);
    match t.op {
      case Get(_) =>
        GetSound(purge, trace, t, r);
        GetInFront(trace, t, r, limit);
        GetComplete(purge, trace, t, r, limit);
      case Put(_) => PutRemembers(purge, maxSize, trace, t, r);
      case Delete(_) => DeleteRemembers(purge, trace, t, r, limit);
      case Clear => ClearRemembers(purge, trace, t, limit);
      case Sweep => SweepRemembers(purge, trace, t, r, limit);
      case Invalidate(_) => InvalidateRemembers(purge, trace, t, r, limit);
    }
  }

  lemma {:induction false} RunRemembers<V>(purge: bool, maxSize: int, trace: seq<Timed<V>>)
    ensures Remembers(purge, trace, Run(purge, maxSize, trace), Capacity(maxSize))
  {
    if trace != [] {
      var n := |trace| - 1;
      RunRemembers(purge, maxSize, trace[..n]);
      RunOk(purge, maxSize, trace[..n]);
      ApplyRemembers(purge, maxSize, trace[..n], trace[n], Run(purge, maxSize, trace[..n]));
      assert trace == trace[..n] + [trace[n]];
    }
  }

  /** After every trace: a read gives the entry stored last under its key, with one hit more, and none that was removed
      since or is too old; and it does give it unless as many other keys as the cache has room for were used since. */
  lemma ReadsLastStored<V>(purge: bool, maxSize: int, trace: seq<Timed<V>>, key: string, now: int)
    ensures
      var stored, hit := Stored(purge, trace, key), Lookup(Run(purge, maxSize, trace), key, now).1;
      && (hit.Some? ==>
            stored.Some? && !TooOld(stored.value, now) && hit == Some(stored.value.(hits := stored.value.hits + 1)))
      && (stored.Some? && !TooOld(stored.value, now) ==>
            UsedSince(trace, key, if maxSize < 1 then 1 else maxSize).Some? ==> hit.Some?)
  {
    var r := Run(purge, maxSize, trace);
    RunRemembers(purge, maxSize, trace);
    hide Stored, UsedSince, Run, InFront;
    if Find(r, key) >= 0 {
      FoundIn(r, key);
    }
  }
}
