/** Caches as recency lists. */
module Recency {
  // What the caches of go/vedadb/cache.go and node/src/cache.js share. A cache is a sequence of entries with distinct
  // keys, most recently used first. The clock is a parameter of every operation.

  import opened Wrappers

  datatype Expiry = Never | At(time: int)

  datatype Entry<V> = Entry(key: string, value: V, created: int, expires: Expiry, hits: nat)

  predicate IsExpired<V>(e: Entry<V>, now: int) {
    e.expires.At? && now > e.expires.time
  }

  /** The entries that satisfy `p`, in the same order. */
  function Keep<V>(r: seq<Entry<V>>, p: Entry<V> -> bool): seq<Entry<V>> {
    if r == [] then []
    else if p(r[0]) then [r[0]] + Keep(r[1..], p)
    else Keep(r[1..], p)
  }

  function NotKey<V>(key: string): Entry<V> -> bool { (e: Entry<V>) => e.key != key }
  function NotIn<V>(keys: set<string>): Entry<V> -> bool { (e: Entry<V>) => e.key !in keys }
  function Live<V>(now: int): Entry<V> -> bool { (e: Entry<V>) => !IsExpired(e, now) }

  /** The periodic sweep of the Node cache also drops an entry at the very instant it expires. */
  function Unswept<V>(now: int): Entry<V> -> bool { (e: Entry<V>) => !(e.expires.At? && e.expires.time <= now) }
  function Unmatched<V>(matches: string -> bool): Entry<V> -> bool { (e: Entry<V>) => !matches(e.key) }

  predicate Has<V>(r: seq<Entry<V>>, key: string) {
    exists i :: 0 <= i < |r| && r[i].key == key
  }

  ghost predicate Distinct<V>(r: seq<Entry<V>>) {
    forall i, j :: 0 <= i < j < |r| ==> r[i].key != r[j].key
  }

  /** The position of a key, or -1. */
  function Find<V>(r: seq<Entry<V>>, key: string): (i: int)
    ensures -1 <= i < |r|
    ensures i == -1 <==> !Has(r, key)
    ensures i >= 0 ==> r[i].key == key
  {
    if r == [] then -1
    else if r[0].key == key then 0
    else
      var i := Find(r[1..], key);
      assert r == [r[0]] + r[1..];
      if i == -1 then -1 else i + 1
  }

  lemma FindAt<V>(r: seq<Entry<V>>, i: nat)
    requires Distinct(r) && i < |r|
    ensures Find(r, r[i].key) == i
  {
    var j := Find(r, r[i].key);
    assert r[j].key == r[i].key;
  }

  /** A size limit of 0 or less acts like a limit of 1: the new entry is stored after the eviction. */
  function Capacity(maxSize: int): nat { if maxSize < 1 then 1 else maxSize }

  // ---------- operations ----------

  /** The entry with one hit more. */
  function Counted<V>(e: Entry<V>): Entry<V> { e.(hits := e.hits + 1) }

  /** Reads a key: a hit moves the entry to the front, an expired entry is dropped. */
  function Lookup<V>(r: seq<Entry<V>>, key: string, now: int): (seq<Entry<V>>, Option<Entry<V>>) {
    var i := Find(r, key);
    if i == -1 then (r, None)
    else if IsExpired(r[i], now) then (Keep(r, NotKey(key)), None)
    else ([Counted(r[i])] + Keep(r, NotKey(key)), Some(Counted(r[i])))
  }

  /** Stores an entry: `purge` says whether expired entries are dropped first (Go) or not (Node). */
  function Store<V>(purge: bool, maxSize: int, r: seq<Entry<V>>, e: Entry<V>, now: int): seq<Entry<V>> {
    Insert(maxSize, if purge then Keep(r, Live(now)) else r, e)
  }

  /** Puts an entry in front: in place of the one with its key, or after evicting the last one if full. */
  function Insert<V>(maxSize: int, r: seq<Entry<V>>, e: Entry<V>): seq<Entry<V>> {
    if Has(r, e.key) then [e] + Keep(r, NotKey(e.key))
    else [e] + (if |r| >= Capacity(maxSize) then r[..|r| - 1] else r)
  }

  datatype Op<!V> =
    | Get(key: string)
    | Put(entry: Entry<V>)
    | Delete(key: string)
    | Clear
    | Sweep
    | Invalidate(matches: string -> bool)

  datatype Timed<!V> = Timed(op: Op<V>, now: int)

  function Apply<V>(purge: bool, maxSize: int, r: seq<Entry<V>>, t: Timed<V>): seq<Entry<V>> {
    match t.op
    case Get(key) => Lookup(r, key, t.now).0
    case Put(entry) => Store(purge, maxSize, r, entry, t.now)
    case Delete(key) => Keep(r, NotKey(key))
    case Clear => []
    case Sweep => Keep(r, Unswept(t.now))
    case Invalidate(matches) => Keep(r, Unmatched(matches))
  }

  function Run<V>(purge: bool, maxSize: int, trace: seq<Timed<V>>): seq<Entry<V>> {
    if trace == [] then []
    else
      var n := |trace| - 1;
      Apply(purge, maxSize, Run(purge, maxSize, trace[..n]), trace[n])
  }

  // ---------- lemmas about Keep ----------

  lemma {:induction false} KeepHas<V>(r: seq<Entry<V>>, p: Entry<V> -> bool)
    ensures |Keep(r, p)| <= |r|
    ensures forall e :: e in Keep(r, p) ==> e in r && p(e)
    ensures forall e :: e in r && p(e) ==> e in Keep(r, p)
  {
    if r != [] {
      KeepHas(r[1..], p);
    }
  }

  lemma {:induction false} KeepDistinct<V>(r: seq<Entry<V>>, p: Entry<V> -> bool)
    requires Distinct(r)
    ensures Distinct(Keep(r, p))
  {
    if r != [] {
      var rest := Keep(r[1..], p);
      KeepDistinct(r[1..], p);
      KeepHas(r[1..], p);
      if p(r[0]) {
        forall j | 0 <= j < |rest| ensures rest[j].key != r[0].key {
          assert rest[j] in rest;
          var k :| 0 <= k < |r[1..]| && r[1..][k] == rest[j];
          assert r[0].key != r[k + 1].key;
        }
      }
    }
  }

  lemma {:induction false} KeepAll<V>(r: seq<Entry<V>>, p: Entry<V> -> bool)
    requires forall e :: e in r ==> p(e)
    ensures Keep(r, p) == r
  {
    if r != [] {
      KeepAll(r[1..], p);
    }
  }

  lemma {:induction false} KeepAppend<V>(a: seq<Entry<V>>, b: seq<Entry<V>>, p: Entry<V> -> bool)
    ensures Keep(a + b, p) == Keep(a, p) + Keep(b, p)
  {
    if a == [] {
      assert a + b == b;
    } else {
      KeepAppend(a[1..], b, p);
      assert (a + b)[1..] == a[1..] + b;
    }
  }

  /** Removing a key that sits at position `i` removes just that entry. */
  lemma {:induction false} KeepNotKey<V>(r: seq<Entry<V>>, i: nat)
    requires Distinct(r) && i < |r|
    ensures Keep(r, NotKey(r[i].key)) == r[..i] + r[i + 1..]
  {
    if i == 0 {
      KeepAll(r[1..], NotKey(r[0].key));
    } else {
      KeepNotKey(r[1..], i - 1);
      assert r[1..][i - 1] == r[i];
      assert r[..i] == [r[0]] + r[1..][..i - 1];
    }
  }

  lemma KeepAbsent<V>(r: seq<Entry<V>>, key: string)
    requires !Has(r, key)
    ensures Keep(r, NotKey(key)) == r
  {
    KeepAll(r, NotKey(key));
  }

  lemma LookupHit<V>(r: seq<Entry<V>>, i: nat, now: int)
    requires Distinct(r) && i < |r| && i == Find(r, r[i].key) && !IsExpired(r[i], now)
    ensures Lookup(r, r[i].key, now) == ([Counted(r[i])] + (r[..i] + r[i + 1..]), Some(Counted(r[i])))
  {
    KeepNotKey(r, i);
  }

  lemma LookupExpired<V>(r: seq<Entry<V>>, i: nat, now: int)
    requires Distinct(r) && i < |r| && i == Find(r, r[i].key) && IsExpired(r[i], now)
    ensures Lookup(r, r[i].key, now) == (r[..i] + r[i + 1..], None)
  {
    KeepNotKey(r, i);
  }

  lemma InsertOver<V>(maxSize: int, r: seq<Entry<V>>, e: Entry<V>)
    requires Distinct(r) && Has(r, e.key)
    ensures
      var i := Find(r, e.key);
      Insert(maxSize, r, e) == [e] + (r[..i] + r[i + 1..])
  {
    KeepNotKey(r, Find(r, e.key));
  }

  lemma InsertNew<V>(maxSize: int, r: seq<Entry<V>>, e: Entry<V>)
    requires |r| <= Capacity(maxSize) && !Has(r, e.key)
    ensures Insert(maxSize, r, e) == [e] + (if |r| >= maxSize && r != [] then r[..|r| - 1] else r)
  {}

  // ---------- every run keeps distinct keys and the size bound ----------

  lemma LookupOk<V>(r: seq<Entry<V>>, key: string, now: int)
    requires Distinct(r)
    ensures Distinct(Lookup(r, key, now).0) && |Lookup(r, key, now).0| <= |r|
  {
    KeepDistinct(r, NotKey(key));
    KeepHas(r, NotKey(key));
    var i := Find(r, key);
    if i != -1 {
      KeepNotKey(r, i);
    }
  }

  lemma InsertOk<V>(maxSize: int, r: seq<Entry<V>>, e: Entry<V>)
    requires Distinct(r) && |r| <= Capacity(maxSize)
    ensures Distinct(Insert(maxSize, r, e)) && |Insert(maxSize, r, e)| <= Capacity(maxSize)
  {
    if Has(r, e.key) {
      KeepDistinct(r, NotKey(e.key));
      KeepHas(r, NotKey(e.key));
      KeepNotKey(r, Find(r, e.key));
    }
  }

  lemma StoreOk<V>(purge: bool, maxSize: int, r: seq<Entry<V>>, e: Entry<V>, now: int)
    requires Distinct(r) && |r| <= Capacity(maxSize)
    ensures Distinct(Store(purge, maxSize, r, e, now)) && |Store(purge, maxSize, r, e, now)| <= Capacity(maxSize)
  {
    KeepDistinct(r, Live(now));
    KeepHas(r, Live(now));
    InsertOk(maxSize, if purge then Keep(r, Live(now)) else r, e);
  }

  lemma ApplyOk<V>(purge: bool, maxSize: int, r: seq<Entry<V>>, t: Timed<V>)
    requires Distinct(r) && |r| <= Capacity(maxSize)
    ensures Distinct(Apply(purge, maxSize, r, t)) && |Apply(purge, maxSize, r, t)| <= Capacity(maxSize)
  {
    match t.op
    case Get(key) => LookupOk(r, key, t.now);
    case Put(entry) => StoreOk(purge, maxSize, r, entry, t.now);
    case Delete(key) => KeepDistinct(r, NotKey(key)); KeepHas(r, NotKey(key));
    case Clear =>
    case Sweep => KeepDistinct(r, Unswept(t.now)); KeepHas(r, Unswept(t.now));
    case Invalidate(matches) => KeepDistinct(r, Unmatched(matches)); KeepHas(r, Unmatched(matches));
  }

  lemma {:induction false} RunOk<V>(purge: bool, maxSize: int, trace: seq<Timed<V>>)
    ensures Distinct(Run(purge, maxSize, trace))
    ensures |Run(purge, maxSize, trace)| <= Capacity(maxSize) == if maxSize < 1 then 1 else maxSize
  {
    if trace != [] {
      var n := |trace| - 1;
      RunOk(purge, maxSize, trace[..n]);
      ApplyOk(purge, maxSize, Run(purge, maxSize, trace[..n]), trace[n]);
    }
  }

  // ---------- expired entries go first ----------

  /** Go's `Set` never gives up an unexpired entry while an expired one is present: if anything was
      expired, every unexpired entry but the one being replaced survives. */
  lemma ExpiredGoFirst<V>(maxSize: int, r: seq<Entry<V>>, e: Entry<V>, now: int, young: Entry<V>, dead: Entry<V>)
    requires Distinct(r) && |r| <= Capacity(maxSize)
    requires dead in r && IsExpired(dead, now)
    requires young in r && !IsExpired(young, now) && young.key != e.key
    ensures young in Store(true, maxSize, r, e, now)
  {
    var r1 := Keep(r, Live(now));
    KeepHas(r, Live(now));
    KeepHas(r1, NotKey(e.key));
    KeepShrinks(r, Live(now), dead);
    assert Live<V>(now)(young) && NotKey<V>(e.key)(young);
  }

  lemma {:induction false} KeepShrinks<V>(r: seq<Entry<V>>, p: Entry<V> -> bool, e: Entry<V>)
    requires e in r && !p(e)
    ensures |Keep(r, p)| < |r|
  {
    if r[0] != e {
      KeepShrinks(r[1..], p, e);
    } else {
      KeepHas(r[1..], p);
    }
  }

  // ---------- a smaller cache is always contained in a larger one ----------

  /** `s` can be obtained from `l` by leaving entries out. */
  predicate Subseq<V(==)>(s: seq<Entry<V>>, l: seq<Entry<V>>) {
    s == [] || (l != [] && ((s[0] == l[0] && Subseq(s[1..], l[1..])) || Subseq(s, l[1..])))
  }

  lemma {:induction false} SubseqHas<V>(s: seq<Entry<V>>, l: seq<Entry<V>>)
    requires Subseq(s, l)
    ensures |s| <= |l|
    ensures forall e :: e in s ==> e in l
    decreases |l|
  {
    if s != [] {
      assert s == [s[0]] + s[1..];
      if s[0] == l[0] && Subseq(s[1..], l[1..]) {
        SubseqHas(s[1..], l[1..]);
      } else {
        SubseqHas(s, l[1..]);
      }
    }
  }

  lemma {:induction false} SubseqTail<V>(s: seq<Entry<V>>, l: seq<Entry<V>>)
    requires Subseq(s, l) && s != []
    ensures l != [] && Subseq(s[1..], l[1..])
    decreases |l|
  {
    if !(s[0] == l[0] && Subseq(s[1..], l[1..])) {
      SubseqTail(s, l[1..]);
    }
  }

  /** Filtering keeps the inclusion, and removes at least as much from the larger sequence. */
  lemma {:induction false} SubseqKeep<V>(s: seq<Entry<V>>, l: seq<Entry<V>>, p: Entry<V> -> bool)
    requires Subseq(s, l)
    ensures Subseq(Keep(s, p), Keep(l, p))
    ensures |l| - |Keep(l, p)| >= |s| - |Keep(s, p)|
    decreases |l|
  {
    KeepHas(l, p);
    if s != [] {
      if s[0] == l[0] && Subseq(s[1..], l[1..]) {
        SubseqKeep(s[1..], l[1..], p);
      } else {
        SubseqKeep(s, l[1..], p);
      }
    }
  }

  lemma {:induction false} SubseqDropLast<V>(s: seq<Entry<V>>, l: seq<Entry<V>>)
    requires Subseq(s, l) && s != []
    ensures l != [] && Subseq(s[..|s| - 1], l) && Subseq(s[..|s| - 1], l[..|l| - 1])
    decreases |l|
  {
    if s[0] == l[0] && Subseq(s[1..], l[1..]) {
      if |s| > 1 {
        SubseqDropLast(s[1..], l[1..]);
        assert s[..|s| - 1][1..] == s[1..][..|s| - 2];
        assert l[..|l| - 1][1..] == l[1..][..|l| - 2];
      }
    } else {
      SubseqDropLast(s, l[1..]);
      assert l[..|l| - 1][1..] == l[1..][..|l| - 2];
    }
  }

  lemma SubseqFind<V>(s: seq<Entry<V>>, l: seq<Entry<V>>, key: string)
    requires Subseq(s, l) && Distinct(l)
    ensures Has(s, key) ==> Has(l, key) && s[Find(s, key)] == l[Find(l, key)]
  {
    SubseqHas(s, l);
    if Has(s, key) {
      assert s[Find(s, key)] in l;
    }
  }

  /** The inclusion with the slack it needs: the larger cache has at least as much free room. */
  ghost predicate Nested<V>(small: seq<Entry<V>>, m: int, large: seq<Entry<V>>, n: int) {
    && Subseq(small, large) && Distinct(small) && Distinct(large)
    && |small| <= Capacity(m) && |large| <= Capacity(n)
    && Capacity(n) - |large| >= Capacity(m) - |small|
  }

  lemma KeepNested<V>(small: seq<Entry<V>>, m: int, large: seq<Entry<V>>, n: int, p: Entry<V> -> bool)
    requires Nested(small, m, large, n)
    ensures Nested(Keep(small, p), m, Keep(large, p), n)
  {
    SubseqKeep(small, large, p);
    KeepDistinct(small, p);
    KeepDistinct(large, p);
    KeepHas(small, p);
    KeepHas(large, p);
  }

  lemma LookupNested<V>(small: seq<Entry<V>>, m: int, large: seq<Entry<V>>, n: int, key: string, now: int)
    requires Nested(small, m, large, n)
    ensures Nested(Lookup(small, key, now).0, m, Lookup(large, key, now).0, n)
    ensures Lookup(small, key, now).1.Some? ==> Lookup(large, key, now).1 == Lookup(small, key, now).1
  {
    SubseqFind(small, large, key);
    LookupOk(small, key, now);
    LookupOk(large, key, now);
    KeepNested(small, m, large, n, NotKey(key));
    if !Has(small, key) {
      KeepAbsent(small, key);
    } else {
      KeepNotKey(small, Find(small, key));
    }
    if Has(large, key) {
      KeepNotKey(large, Find(large, key));
    }
  }

  lemma InsertNested<V>(small: seq<Entry<V>>, m: int, large: seq<Entry<V>>, n: int, e: Entry<V>)
    requires Nested(small, m, large, n)
    ensures Nested(Insert(m, small, e), m, Insert(n, large, e), n)
  {
    InsertOk(m, small, e);
    InsertOk(n, large, e);
    SubseqFind(small, large, e.key);
    KeepNested(small, m, large, n, NotKey(e.key));
    if Has(small, e.key) {
      KeepNotKey(small, Find(small, e.key));
      KeepNotKey(large, Find(large, e.key));
    } else {
      KeepAbsent(small, e.key);
      if small != [] {
        SubseqDropLast(small, large);
      }
      if Has(large, e.key) {
        KeepNotKey(large, Find(large, e.key));
        if small != [] {
          SubseqDropLast(small, Keep(large, NotKey(e.key)));
        }
      }
    }
  }

  lemma StoreNested<V>(purge: bool, small: seq<Entry<V>>, m: int, large: seq<Entry<V>>, n: int, e: Entry<V>, now: int)
    requires Nested(small, m, large, n)
    ensures Nested(Store(purge, m, small, e, now), m, Store(purge, n, large, e, now), n)
  {
    KeepNested(small, m, large, n, Live(now));
    if purge {
      InsertNested(Keep(small, Live(now)), m, Keep(large, Live(now)), n, e);
    } else {
      InsertNested(small, m, large, n, e);
    }
  }

  lemma ApplyNested<V>(purge: bool, small: seq<Entry<V>>, m: int, large: seq<Entry<V>>, n: int, t: Timed<V>)
    requires Nested(small, m, large, n) && m <= n
    ensures Nested(Apply(purge, m, small, t), m, Apply(purge, n, large, t), n)
  {
    match t.op
    case Get(key) => LookupNested(small, m, large, n, key, t.now);
    case Put(entry) => StoreNested(purge, small, m, large, n, entry, t.now);
    case Delete(key) => KeepNested(small, m, large, n, NotKey(key));
    case Clear =>
    case Sweep => KeepNested(small, m, large, n, Unswept(t.now));
    case Invalidate(matches) => KeepNested(small, m, large, n, Unmatched(matches));
  }

  lemma {:induction false} RunNested<V>(purge: bool, m: int, n: int, trace: seq<Timed<V>>)
    requires m <= n
    ensures Nested(Run(purge, m, trace), m, Run(purge, n, trace), n)
  {
    if trace != [] {
      var k := |trace| - 1;
      RunNested(purge, m, n, trace[..k]);
      ApplyNested(purge, Run(purge, m, trace[..k]), m, Run(purge, n, trace[..k]), n, trace[k]);
    }
  }

  /** The number of hits among the reads of a trace. */
  function Hits<V>(purge: bool, maxSize: int, trace: seq<Timed<V>>): nat {
    if trace == [] then 0
    else
      var n := |trace| - 1;
      var t := trace[n];
      Hits(purge, maxSize, trace[..n]) +
      (if t.op.Get? && Lookup(Run(purge, maxSize, trace[..n]), t.op.key, t.now).1.Some? then 1 else 0)
  }

  /** Inclusion: after any trace, the recency list of the smaller cache is a subsequence of the larger
      one's; so every hit in the smaller cache is a hit on the same entry in the larger one. */
  lemma LruInclusion<V>(purge: bool, m: int, n: int, trace: seq<Timed<V>>, key: string, now: int)
    requires m <= n
    ensures Subseq(Run(purge, m, trace), Run(purge, n, trace))
    ensures
      var small := Lookup(Run(purge, m, trace), key, now).1;
      small.Some? ==> Lookup(Run(purge, n, trace), key, now).1 == small
  {
    RunNested(purge, m, n, trace);
    LookupNested(Run(purge, m, trace), m, Run(purge, n, trace), n, key, now);
  }

  /** A larger cache never has fewer hits on the same trace. */
  lemma {:induction false} MoreRoomMoreHits<V>(purge: bool, m: int, n: int, trace: seq<Timed<V>>)
    requires m <= n
    ensures Hits(purge, m, trace) <= Hits(purge, n, trace)
  {
    if trace != [] {
      var k := |trace| - 1;
      MoreRoomMoreHits(purge, m, n, trace[..k]);
      if trace[k].op.Get? {
        LruInclusion(purge, m, n, trace[..k], trace[k].op.key, trace[k].now);
      }
    }
  }
}
