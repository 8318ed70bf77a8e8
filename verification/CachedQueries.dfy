/** `CachedClient` of go/vedadb/cache.go. */
module CachedQueries {
  // Reads go through the cache, and a cached answer is never older than the time to live even though the
  // database changes underneath.

  import opened Wrappers
  import opened Recency
  import GoCache

  datatype Query = Query(sql: string, params: seq<string>)

  /** A cached result together with the query it answers. */
  datatype Cached<A> = Cached(query: Query, answer: A)

  /** `server(t, q)` is what the database answers to `q` at time `t`. */
  datatype Setup<!A> = Setup(key: Query -> string, server: (int, Query) -> Result<A, string>, maxSize: int, ttl: int)

  type Store<A> = seq<Entry<Cached<A>>>

  predicate IsLetter(c: char, upper: char, lower: char) { c == upper || c == lower }

  predicate IsSelectQuery(sql: string) {
    && |sql| >= 6
    && IsLetter(sql[0], 'S', 's') && IsLetter(sql[1], 'E', 'e') && IsLetter(sql[2], 'L', 'l')
    && IsLetter(sql[3], 'E', 'e') && IsLetter(sql[4], 'C', 'c') && IsLetter(sql[5], 'T', 't')
  }

  function NewEntry<A>(s: Setup<A>, q: Query, answer: A, now: int): Entry<Cached<A>> {
    Entry(s.key(q), Cached(q, answer), now, At(now + s.ttl), 0)
  }

  /** `QueryWithCache` at time `now`; asking the server and storing its answer is one step. */
  function Ask<A>(s: Setup<A>, r: Store<A>, q: Query, now: int): (Store<A>, Result<A, string>) {
    if !IsSelectQuery(q.sql) then (r, s.server(now, q))
    else
      var (r1, hit) := Lookup(r, s.key(q), now);
      if hit.Some? then (r1, Success(hit.value.value.answer))
      else match s.server(now, q)
        case Failure(e) => (r1, Failure(e))
        case Success(answer) => (Recency.Store(true, s.maxSize, r1, NewEntry(s, q, answer, now), now), Success(answer))
  }

  class CachedClient<A> {
    const setup: Setup<A>
    const cache: GoCache.Cache<Cached<A>>

    constructor (setup: Setup<A>, cache: GoCache.Cache<Cached<A>>)
      ensures this.setup == setup && this.cache == cache
    {
      this.setup, this.cache := setup, cache;
    }

    method QueryWithCache(q: Query, now: int) returns (answer: Result<A, string>)
      requires cache.Valid() && cache.maxSize == setup.maxSize && cache.defaultTTL == setup.ttl
      modifies cache, cache.lru
      ensures cache.Valid()
      ensures (cache.contents, answer) == Ask(setup, old(cache.contents), q, now)
    {
      if !IsSelectQuery(q.sql) {
        return setup.server(now, q);
      }
      var key := setup.key(q);
      var hit := cache.Get(key, now);
      if hit.Some? {
        return Success(hit.value.value.answer);
      }
      var result := setup.server(now, q);
      if result.Failure? {
        return result;
      }
      cache.Set(key, Cached(q, result.value), now);
      return result;
    }

    method InvalidateTable(tablePattern: string)
      requires cache.Valid()
      modifies cache
      ensures cache.Valid() && cache.contents == []
    {
      cache.Clear();
    }
  }

  // ---------- bounded staleness ----------

  datatype Step = AskStep(query: Query, now: int) | DeleteStep(key: string, now: int) | ClearStep(now: int)

  function Apply<A>(s: Setup<A>, r: Store<A>, step: Step): Store<A> {
    match step
    case AskStep(q, now) => Ask(s, r, q, now).0
    case DeleteStep(key, _) => Keep(r, NotKey(key))
    case ClearStep(_) => []
  }

  function Run<A>(s: Setup<A>, steps: seq<Step>): Store<A> {
    if steps == [] then [] else Apply(s, Run(s, steps[..|steps| - 1]), steps[|steps| - 1])
  }

  /** The clock does not go backwards and every query asked is one of `asked`. */
  predicate Timeline(steps: seq<Step>, asked: set<Query>, now: int) {
    && (forall i :: 0 <= i < |steps| ==> steps[i].now <= now && (steps[i].AskStep? ==> steps[i].query in asked))
    && (forall i, j :: 0 <= i < j < |steps| ==> steps[i].now <= steps[j].now)
  }

  /** The key tells the cached queries apart; statements other than SELECT are never looked up. */
  ghost predicate InjectiveOn(key: Query -> string, asked: set<Query>) {
    forall q1, q2 ::
      q1 in asked && q2 in asked && IsSelectQuery(q1.sql) && IsSelectQuery(q2.sql) && key(q1) == key(q2) ==> q1 == q2
  }

  /** The entry holds what the server said, to the query it stands for, when it was created. */
  ghost predicate Genuine<A>(s: Setup<A>, asked: set<Query>, now: int, e: Entry<Cached<A>>) {
    && e.created <= now && e.expires == At(e.created + s.ttl)
    && e.value.query in asked && IsSelectQuery(e.value.query.sql) && e.key == s.key(e.value.query)
    && s.server(e.created, e.value.query) == Success(e.value.answer)
  }

  ghost predicate AllGenuine<A>(s: Setup<A>, asked: set<Query>, now: int, r: Store<A>) {
    forall i :: 0 <= i < |r| ==> Genuine(s, asked, now, r[i])
  }

  lemma KeepGenuine<A>(s: Setup<A>, asked: set<Query>, now: int, r: Store<A>, p: Entry<Cached<A>> -> bool)
    requires AllGenuine(s, asked, now, r)
    ensures AllGenuine(s, asked, now, Keep(r, p))
  {
    KeepHas(r, p);
    var r' := Keep(r, p);
    forall i | 0 <= i < |r'| ensures Genuine(s, asked, now, r'[i]) {
      assert r'[i] in r';
      assert r'[i] in r;
    }
  }

  lemma LookupGenuine<A>(s: Setup<A>, asked: set<Query>, r: Store<A>, key: string, now: int)
    requires AllGenuine(s, asked, now, r)
    ensures AllGenuine(s, asked, now, Lookup(r, key, now).0)
    ensures
      var hit := Lookup(r, key, now).1;
      hit.Some? ==> Genuine(s, asked, now, hit.value) && hit.value.key == key && !IsExpired(hit.value, now)
  {
    KeepGenuine(s, asked, now, r, NotKey(key));
  }

  lemma StoreGenuine<A>(s: Setup<A>, asked: set<Query>, r: Store<A>, e: Entry<Cached<A>>, now: int)
    requires AllGenuine(s, asked, now, r) && Genuine(s, asked, now, e)
    ensures AllGenuine(s, asked, now, Recency.Store(true, s.maxSize, r, e, now))
  {
    KeepGenuine(s, asked, now, r, Live(now));
    KeepGenuine(s, asked, now, Keep(r, Live(now)), NotKey(e.key));
  }

  lemma AskGenuine<A>(s: Setup<A>, asked: set<Query>, r: Store<A>, q: Query, now: int)
    requires AllGenuine(s, asked, now, r) && q in asked
    ensures AllGenuine(s, asked, now, Ask(s, r, q, now).0)
  {
    LookupGenuine(s, asked, r, s.key(q), now);
    if IsSelectQuery(q.sql) && s.server(now, q).Success? {
      StoreGenuine(s, asked, Lookup(r, s.key(q), now).0, NewEntry(s, q, s.server(now, q).value, now), now);
    }
  }

  lemma {:induction false} RunGenuine<A>(s: Setup<A>, steps: seq<Step>, asked: set<Query>, now: int)
    requires Timeline(steps, asked, now)
    ensures AllGenuine(s, asked, now, Run(s, steps))
  {
    if steps != [] {
      var n := |steps| - 1;
      var last := steps[n];
      RunGenuine(s, steps[..n], asked, last.now);
      match last {
        case AskStep(q, t) => AskGenuine(s, asked, Run(s, steps[..n]), q, t);
        case DeleteStep(key, t) => KeepGenuine(s, asked, t, Run(s, steps[..n]), NotKey(key));
        case ClearStep(_) =>
      }
      var r := Run(s, steps);
      forall i | 0 <= i < |r| ensures Genuine(s, asked, now, r[i]) {
        assert Genuine(s, asked, last.now, r[i]);
      }
    }
  }

  /** After any run, an answer given at time `now` is what the server answers now, or what it answered
      at some time in the last `ttl`; provided the cache key tells the queries in use apart. */
  lemma BoundedStaleness<A>(s: Setup<A>, steps: seq<Step>, asked: set<Query>, q: Query, now: int) returns (t: int)
    requires Timeline(steps, asked, now) && q in asked && (s.ttl < 0 || InjectiveOn(s.key, asked))
    ensures s.server(t, q) == Ask(s, Run(s, steps), q, now).1
    ensures t == now || now - s.ttl <= t <= now
  {
    RunGenuine(s, steps, asked, now);
    LookupGenuine(s, asked, Run(s, steps), s.key(q), now);
    var hit := Lookup(Run(s, steps), s.key(q), now).1;
    t := if IsSelectQuery(q.sql) && hit.Some? then hit.value.created else now;
  }

  /** Of two queries with one key, the second is answered with the first's rows. */
  lemma CollisionAnswersTheOther<A>(s: Setup<A>, q1: Query, q2: Query, now: int)
    requires s.key(q1) == s.key(q2) && IsSelectQuery(q1.sql) && IsSelectQuery(q2.sql)
    requires s.server(now, q1).Success? && s.ttl >= 0
    ensures Ask(s, Ask(s, [], q1, now).0, q2, now).1 == s.server(now, q1)
  {
    var e := NewEntry(s, q1, s.server(now, q1).value, now);
    assert Ask(s, [], q1, now).0 == [e];
    FindAt([e], 0);
  }

  // ---------- what is answered from the cache ----------

  function Upper(c: char): char { if 'a' <= c <= 'z' then 'A' + (c - 'a') else c }

  /** The statements that go through the cache are those that begin with SELECT in any case. */
  lemma IsSelectIff(sql: string)
    ensures IsSelectQuery(sql) <==> |sql| >= 6 && forall i :: 0 <= i < 6 ==> Upper(sql[i]) == "SELECT"[i]
  {
    var word := "SELECT";
    if |sql| >= 6 && forall i :: 0 <= i < 6 ==> Upper(sql[i]) == word[i] {
      assert Upper(sql[0]) == word[0] && Upper(sql[1]) == word[1] && Upper(sql[2]) == word[2];
      assert Upper(sql[3]) == word[3] && Upper(sql[4]) == word[4] && Upper(sql[5]) == word[5];
    }
  }

  /** Other statements always reach the server and leave the cache alone. */
  lemma OthersReachTheServer<A>(s: Setup<A>, r: Store<A>, q: Query, now: int)
    requires |q.sql| < 6 || exists i :: 0 <= i < 6 && Upper(q.sql[i]) != "SELECT"[i]
    ensures Ask(s, r, q, now) == (r, s.server(now, q))
  {
    IsSelectIff(q.sql);
  }

  /** A query whose key is not in the cache reaches the server; its answer is stored in front, and a failure is not. */
  lemma MissIsStored<A>(s: Setup<A>, r: Store<A>, q: Query, now: int)
    requires Distinct(r) && !Has(r, s.key(q)) && IsSelectQuery(q.sql)
    ensures
      var (r', answer) := Ask(s, r, q, now);
      && answer == s.server(now, q)
      && (answer.Failure? ==> r' == r)
      && (answer.Success? ==> r' != [] && r'[0] == Entry(s.key(q), Cached(q, answer.value), now, At(now + s.ttl), 0))
  {}

  /** Within the time to live the cache answers alone: the query is answered as before whatever the server says by then
      (`later` may be another server), and the entry comes to the front. */
  lemma HitIsAnswered<A>(s: Setup<A>, later: Setup<A>, r: Store<A>, i: nat, q: Query, now: int)
    requires Distinct(r) && i < |r| && r[i].key == s.key(q) == later.key(q) && IsSelectQuery(q.sql)
    requires r[i].expires.At? && now <= r[i].expires.time
    ensures
      var (r', answer) := Ask(later, r, q, now);
      answer == Success(r[i].value.answer) && r' == [r[i].(hits := r[i].hits + 1)] + (r[..i] + r[i + 1..])
  {
    FindAt(r, i);
    LookupHit(r, i, now);
  }

  /** A query asked again at most `ttl` later, with nothing else in between, is answered as the first time. */
  lemma RepeatIsAnsweredAlike<A>(s: Setup<A>, later: Setup<A>, r: Store<A>, q: Query, t0: int, now: int)
    requires Distinct(r) && |r| <= Capacity(s.maxSize) && !Has(r, s.key(q)) && s.key == later.key && IsSelectQuery(q.sql)
    requires s.server(t0, q).Success? && now <= t0 + s.ttl
    ensures Ask(later, Ask(s, r, q, t0).0, q, now).1 == s.server(t0, q)
  {
    MissIsStored(s, r, q, t0);
    var e := NewEntry(s, q, s.server(t0, q).value, t0);
    StoreOk(true, s.maxSize, r, e, t0);
    HitIsAnswered(s, later, Ask(s, r, q, t0).0, 0, q, now);
  }

  /** An entry beyond its time to live is dropped and the server asked anew. */
  lemma ExpiredIsAskedAnew<A>(s: Setup<A>, r: Store<A>, i: nat, q: Query, now: int)
    requires Distinct(r) && i < |r| && r[i].key == s.key(q) && IsSelectQuery(q.sql)
    requires r[i].expires.At? && now > r[i].expires.time
    ensures
      var (r', answer) := Ask(s, r, q, now);
      && answer == s.server(now, q)
      && (answer.Failure? ==> r' == r[..i] + r[i + 1..])
      && (answer.Success? ==> r' != [] && r'[0] == Entry(s.key(q), Cached(q, answer.value), now, At(now + s.ttl), 0))
  {
    FindAt(r, i);
    LookupExpired(r, i, now);
  }

  // ---------- exactly when all answers are fresh ----------

  predicate InTime(t: int, now: int, ttl: int) { t == now || now - ttl <= t <= now }

  /** The answer after the steps is one the server gave, to this very query, in the last `ttl`. */
  ghost predicate IsFresh<A>(s: Setup<A>, steps: seq<Step>, q: Query, now: int) {
    exists t :: InTime(t, now, s.ttl) && s.server(t, q) == Ask(s, Run(s, steps), q, now).1
  }

  ghost predicate FreshIfAsked<A>(s: Setup<A>, steps: seq<Step>, asked: set<Query>, q: Query, now: int) {
    Timeline(steps, asked, now) && q in asked ==> IsFresh(s, steps, q, now)
  }

  /** For every server and every history of the queries in use, every answer is fresh. */
  ghost predicate AlwaysFresh<A(!new)>(key: Query -> string, maxSize: int, ttl: int, asked: set<Query>) {
    forall server: (int, Query) -> Result<A, string>, steps, q, now ::
      FreshIfAsked(Setup(key, server, maxSize, ttl), steps, asked, q, now)
  }

  /** A server that tells the query `q1` from all others. */
  function Telling<A>(q1: Query, a: A, b: A): (int, Query) -> Result<A, string> {
    (t, q) => Success(if q == q1 then a else b)
  }

  lemma CollisionIsStale<A>(s: Setup<A>, asked: set<Query>, q1: Query, q2: Query, a: A, b: A)
    requires a != b && s.ttl >= 0 && s.server == Telling(q1, a, b)
    requires q1 in asked && q2 in asked && q1 != q2
    requires IsSelectQuery(q1.sql) && IsSelectQuery(q2.sql) && s.key(q1) == s.key(q2)
    ensures !FreshIfAsked(s, [AskStep(q1, 0)], asked, q2, 0)
  {
    var steps := [AskStep(q1, 0)];
    assert steps[..0] == [];
    assert Run(s, steps) == Ask(s, [], q1, 0).0;
    CollisionAnswersTheOther(s, q1, q2, 0);
    assert Ask(s, Run(s, steps), q2, 0).1 == Success(a);
    assert forall t :: s.server(t, q2) == Success(b);
  }

  /** The exact condition, as soon as two results can differ: the key tells the SELECT queries in use apart, or
      the time to live is negative, so that nothing is ever found in the cache. */
  lemma AlwaysFreshIff<A(!new)>(key: Query -> string, maxSize: int, ttl: int, asked: set<Query>, a: A, b: A)
    requires a != b
    ensures AlwaysFresh<A>(key, maxSize, ttl, asked) <==> ttl < 0 || InjectiveOn(key, asked)
  {
    if ttl < 0 || InjectiveOn(key, asked) {
      forall server: (int, Query) -> Result<A, string>, steps, q, now
        ensures FreshIfAsked(Setup(key, server, maxSize, ttl), steps, asked, q, now)
      {
        var s := Setup(key, server, maxSize, ttl);
        if Timeline(steps, asked, now) && q in asked {
          var t := BoundedStaleness(s, steps, asked, q, now);
          assert InTime(t, now, s.ttl);
        }
      }
    } else {
      var q1, q2 :| q1 in asked && q2 in asked && IsSelectQuery(q1.sql) && IsSelectQuery(q2.sql)
                    && key(q1) == key(q2) && q1 != q2;
      CollisionIsStale(Setup(key, Telling(q1, a, b), maxSize, ttl), asked, q1, q2, a, b);
    }
  }

  // ---------- the key of a query ----------

  /** The text that `QueryKey` hashes. */
  function KeyText(q: Query): string {
    q.sql + Bars(q.params)
  }

  function Bars(params: seq<string>): string {
    if params == [] then "" else "|" + params[0] + "|" + Bars(params[1..])
  }

  /** `QueryKey` itself is not injective, whatever the hash does: a parameter can hide in the statement, or two
      parameters in one. */
  lemma KeyTextNotInjective(sql: string, p: string, r: string)
    ensures KeyText(Query(sql, [p])) == KeyText(Query(sql + "|" + p + "|", []))
    ensures KeyText(Query(sql, [p, r])) == KeyText(Query(sql, [p + "||" + r]))
  {
    BarsOne(p);
    BarsOne(r);
    BarsOne(p + "||" + r);
    assert [p, r][1..] == [r];
    SixTexts(sql, p, r);
  }

  lemma BarsOne(p: string)
    ensures Bars([p]) == "|" + p + "|"
  {
    assert [p][1..] == [];
    assert "|" + p + "|" + "" == "|" + p + "|";
  }

  lemma SixTexts(sql: string, p: string, r: string)
    ensures sql + ("|" + p + "|") == (sql + "|" + p + "|") + ""
    ensures "|" + p + "|" + ("|" + r + "|") == "|" + (p + "||" + r) + "|"
  {}

  predicate BarFree(q: Query) {
    '|' !in q.sql && forall i :: 0 <= i < |q.params| ==> '|' !in q.params[i]
  }

  /** The text's first bar, or its end. */
  predicate IsCut(c: string, n: nat) {
    n <= |c| && (forall i :: 0 <= i < n ==> c[i] != '|') && (n < |c| ==> c[n] == '|')
  }

  lemma CutIsThere(a: string, x: string)
    requires '|' !in a && (x == "" || x[0] == '|')
    ensures IsCut(a + x, |a|) && (a + x)[..|a|] == a && (a + x)[|a|..] == x
  {}

  /** Two texts that are cut at their first bars. */
  lemma CutAtBar(a: string, x: string, b: string, y: string)
    requires '|' !in a && '|' !in b && a + x == b + y
    requires (x == "" || x[0] == '|') && (y == "" || y[0] == '|')
    ensures a == b && x == y
  {
    CutIsThere(a, x);
    CutIsThere(b, y);
  }

  lemma {:induction false} BarsInjective(p: seq<string>, r: seq<string>)
    requires (forall i :: 0 <= i < |p| ==> '|' !in p[i]) && (forall i :: 0 <= i < |r| ==> '|' !in r[i])
    requires Bars(p) == Bars(r)
    ensures p == r
  {
    if p != [] && r != [] {
      var x, y := "|" + Bars(p[1..]), "|" + Bars(r[1..]);
      assert Bars(p) == "|" + (p[0] + x) && Bars(r) == "|" + (r[0] + y);
      assert Bars(p)[1..] == p[0] + x && Bars(r)[1..] == r[0] + y;
      CutAtBar(p[0], x, r[0], y);
      assert x[1..] == Bars(p[1..]) && y[1..] == Bars(r[1..]);
      BarsInjective(p[1..], r[1..]);
      assert p == [p[0]] + p[1..] && r == [r[0]] + r[1..];
    }
  }

  /** Where no statement and no parameter holds a bar, the hashed text tells queries apart. */
  lemma KeyTextInjective(q1: Query, q2: Query)
    requires BarFree(q1) && BarFree(q2) && KeyText(q1) == KeyText(q2)
    ensures q1 == q2
  {
    CutAtBar(q1.sql, Bars(q1.params), q2.sql, Bars(q2.params));
    BarsInjective(q1.params, q2.params);
  }

  /** So a caller gets fresh answers who keeps bars out of SELECT queries, if the hash does not collide. */
  lemma BarFreeIsInjective(hash: string -> string, asked: set<Query>)
    requires forall q :: q in asked && IsSelectQuery(q.sql) ==> BarFree(q)
    requires forall q1, q2 :: q1 in asked && q2 in asked && hash(KeyText(q1)) == hash(KeyText(q2)) ==> KeyText(q1) == KeyText(q2)
    ensures InjectiveOn(q => hash(KeyText(q)), asked)
  {
    forall q1, q2 | q1 in asked && q2 in asked && IsSelectQuery(q1.sql) && IsSelectQuery(q2.sql)
                    && hash(KeyText(q1)) == hash(KeyText(q2))
      ensures q1 == q2
    {
      KeyTextInjective(q1, q2);
    }
  }
}
