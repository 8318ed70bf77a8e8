/** The failover manager of go/vedadb/failover.go: node selection, the retry loop and the announcements it makes. */
module Failover {
  import opened Wrappers

  class FailoverNode {
    const name: string
    const priority: int
    var failures: int

    constructor (name: string, priority: int)
      ensures this.name == name && this.priority == priority && failures == 0
    {
      this.name, this.priority, failures := name, priority, 0;
    }

    method RecordFailure()
      modifies `failures
      ensures failures == old(failures) + 1
    {
      failures := failures + 1;
    }
  }

  datatype Strategy = Sequential | Random | Priority

  // ---------- the stable sort ----------

  predicate Sorted(s: seq<FailoverNode>) { forall i, j :: 0 <= i < j < |s| ==> s[i].priority <= s[j].priority }

  function WithPriority(s: seq<FailoverNode>, p: int): seq<FailoverNode> {
    if s == [] then []
    else
      var last := s[|s| - 1];
      if last.priority == p then WithPriority(s[..|s| - 1], p) + [last] else WithPriority(s[..|s| - 1], p)
  }

  /** Behind every node of the same or a lower priority number. */
  function Insert(s: seq<FailoverNode>, x: FailoverNode): seq<FailoverNode> {
    if s == [] then [x]
    else
      var n := |s| - 1;
      if s[n].priority <= x.priority then s + [x] else Insert(s[..n], x) + [s[n]]
  }

  function StableSort(s: seq<FailoverNode>): seq<FailoverNode> {
    if s == [] then [] else Insert(StableSort(s[..|s| - 1]), s[|s| - 1])
  }

  lemma {:induction false} InsertHas(s: seq<FailoverNode>, x: FailoverNode)
    ensures multiset(Insert(s, x)) == multiset(s) + multiset{x}
    decreases |s|
  {
    if s != [] {
      var n := |s| - 1;
      InsertHas(s[..n], x);
      assert s == s[..n] + [s[n]];
    }
  }

  lemma {:induction false} InsertSorted(s: seq<FailoverNode>, x: FailoverNode)
    requires Sorted(s)
    ensures Sorted(Insert(s, x))
    decreases |s|
  {
    if s != [] {
      var n := |s| - 1;
      InsertSorted(s[..n], x);
      if s[n].priority > x.priority {
        InsertBelow(s[..n], x, s[n].priority);
        var before := Insert(s[..n], x);
        assert NoneAbove(before, s[n].priority);
        SortedSnoc(before, s[n]);
      }
    }
  }

  predicate NoneAbove(s: seq<FailoverNode>, bound: int) { forall i :: 0 <= i < |s| ==> s[i].priority <= bound }

  lemma SortedSnoc(s: seq<FailoverNode>, x: FailoverNode)
    requires Sorted(s) && NoneAbove(s, x.priority)
    ensures Sorted(s + [x])
  {}

  lemma InsertBelow(s: seq<FailoverNode>, x: FailoverNode, bound: int)
    requires x.priority <= bound && NoneAbove(s, bound)
    ensures NoneAbove(Insert(s, x), bound)
  {
    var r := Insert(s, x);
    InsertHas(s, x);
    forall i | 0 <= i < |r| ensures r[i].priority <= bound {
      assert r[i] in multiset(r);
      assert r[i] == x || r[i] in s;
    }
  }

  lemma {:induction false} InsertWithPriority(s: seq<FailoverNode>, x: FailoverNode, p: int)
    requires Sorted(s)
    ensures WithPriority(Insert(s, x), p) == if x.priority == p then WithPriority(s, p) + [x] else WithPriority(s, p)
    decreases |s|
  {
    if s == [] {
      assert [] + [x] == [x];
    } else {
      var n := |s| - 1;
      if s[n].priority <= x.priority {
      } else {
        InsertWithPriority(s[..n], x, p);
      }
    }
  }

  /** The sort is a sorted rearrangement that keeps the order among nodes of equal priority. */
  lemma {:induction false} StableSortIs(s: seq<FailoverNode>)
    ensures Sorted(StableSort(s)) && multiset(StableSort(s)) == multiset(s)
    ensures forall p :: WithPriority(StableSort(s), p) == WithPriority(s, p)
    decreases |s|
  {
    if s != [] {
      var n := |s| - 1;
      StableSortIs(s[..n]);
      InsertSorted(StableSort(s[..n]), s[n]);
      InsertHas(StableSort(s[..n]), s[n]);
      assert s == s[..n] + [s[n]];
      forall p ensures WithPriority(StableSort(s), p) == WithPriority(s, p) {
        InsertWithPriority(StableSort(s[..n]), s[n], p);
      }
    }
  }

  lemma {:induction false} WithPriorityHas(s: seq<FailoverNode>, p: int)
    ensures forall x <- WithPriority(s, p) :: x in s && x.priority == p
    decreases |s|
  {
    if s != [] {
      WithPriorityHas(s[..|s| - 1], p);
    }
  }

  lemma LastIsGreatest(a: seq<FailoverNode>, b: seq<FailoverNode>)
    requires a != [] && Sorted(b) && WithPriority(a, a[|a| - 1].priority) == WithPriority(b, a[|a| - 1].priority)
    ensures b != [] && a[|a| - 1].priority <= b[|b| - 1].priority
  {
    var p := a[|a| - 1].priority;
    var found := WithPriority(b, p);
    LastOfGroup(a, p);
    WithPriorityHas(b, p);
    hide WithPriority, Sorted;
    assert found[|found| - 1] in found;
    var i :| 0 <= i < |b| && b[i] == found[|found| - 1];
    SortedLast(b, i);
  }

  lemma SortedLast(s: seq<FailoverNode>, i: nat)
    requires Sorted(s) && i < |s|
    ensures s[i].priority <= s[|s| - 1].priority
  {}

  lemma SameWithoutLast(u: seq<FailoverNode>, v: seq<FailoverNode>, x: FailoverNode)
    requires u + [x] == v + [x]
    ensures u == v
  {
    assert u == (u + [x])[..|u + [x]| - 1];
    assert v == (v + [x])[..|v + [x]| - 1];
  }

  lemma SortHas(s: seq<FailoverNode>, x: FailoverNode)
    ensures x in StableSort(s) <==> x in s
  {
    StableSortIs(s);
    assert x in s <==> x in multiset(s);
    assert x in StableSort(s) <==> x in multiset(StableSort(s));
  }

  predicate SameGroups(a: seq<FailoverNode>, b: seq<FailoverNode>, p: int) { WithPriority(a, p) == WithPriority(b, p) }

  lemma LastOfGroup(a: seq<FailoverNode>, p: int)
    requires a != []
    ensures
      var m := |a| - 1;
      WithPriority(a, p) == if a[m].priority == p then WithPriority(a[..m], p) + [a[m]] else WithPriority(a[..m], p)
  {}

  /** Two sorted lists with the same groups end in the same node, and agree without it. */
  lemma SameLast(a: seq<FailoverNode>, b: seq<FailoverNode>)
    requires a != [] && b != [] && a[|a| - 1].priority == b[|b| - 1].priority
    requires SameGroups(a, b, a[|a| - 1].priority)
    ensures a[|a| - 1] == b[|b| - 1]
  {
    var p := a[|a| - 1].priority;
    LastOfGroup(a, p);
    LastOfGroup(b, p);
    assert a[|a| - 1] == WithPriority(a, p)[|WithPriority(a, p)| - 1];
    assert b[|b| - 1] == WithPriority(b, p)[|WithPriority(b, p)| - 1];
  }

  lemma SameBefore(a: seq<FailoverNode>, b: seq<FailoverNode>, p: int)
    requires a != [] && b != [] && a[|a| - 1] == b[|b| - 1] && SameGroups(a, b, p)
    ensures SameGroups(a[..|a| - 1], b[..|b| - 1], p)
  {
    LastOfGroup(a, p);
    LastOfGroup(b, p);
    if a[|a| - 1].priority == p {
      SameWithoutLast(WithPriority(a[..|a| - 1], p), WithPriority(b[..|b| - 1], p), a[|a| - 1]);
    }
  }

  lemma OwnGroup(a: seq<FailoverNode>)
    ensures a != [] ==> WithPriority(a, a[|a| - 1].priority) != []
  {}

  /** There is one such rearrangement. */
  lemma {:induction false} SortedUnique(a: seq<FailoverNode>, b: seq<FailoverNode>)
    requires Sorted(a) && Sorted(b) && forall p :: SameGroups(a, b, p)
    ensures a == b
    decreases |a| + |b|
  {
    OwnGroup(a);
    OwnGroup(b);
    if b != [] {
      assert SameGroups(a, b, b[|b| - 1].priority);
    }
    if a != [] {
      assert SameGroups(a, b, a[|a| - 1].priority);
      LastIsGreatest(a, b);
      LastIsGreatest(b, a);
      SameLast(a, b);
      var a', b' := a[..|a| - 1], b[..|b| - 1];
      forall p ensures SameGroups(a', b', p) {
        SameBefore(a, b, p);
      }
      SortedUnique(a', b');
      assert a == a' + [a[|a| - 1]] && b == b' + [b[|b| - 1]];
    }
  }

  // ---------- selection ----------

  predicate Free(x: FailoverNode, excluded: set<string>) { x.name !in excluded }

  function FirstFree(s: seq<FailoverNode>, excluded: set<string>): Option<FailoverNode> {
    if s == [] then None else if Free(s[0], excluded) then Some(s[0]) else FirstFree(s[1..], excluded)
  }

  function AllFree(s: seq<FailoverNode>, excluded: set<string>): (r: seq<FailoverNode>)
    ensures forall x <- r :: x in s && Free(x, excluded)
  {
    if s == [] then []
    else
      var last, before := s[|s| - 1], AllFree(s[..|s| - 1], excluded);
      if Free(last, excluded) then before + [last] else before
  }

  /** The node of `selectNode`; the draw stands for the clock in the random strategy. */
  function Chosen(nodes: seq<FailoverNode>, strategy: Strategy, excluded: set<string>, draw: nat): (r: Option<FailoverNode>)
  {
    match strategy
    case Sequential => FirstFree(nodes, excluded)
    case Priority => FirstFree(StableSort(nodes), excluded)
    case Random =>
      var candidates := AllFree(nodes, excluded);
      if candidates == [] then None else Some(candidates[draw % |candidates|])
  }

  lemma {:induction false} FirstFreeIs(s: seq<FailoverNode>, excluded: set<string>, k: nat)
    requires k <= |s| && (forall i :: 0 <= i < k ==> !Free(s[i], excluded)) && (k < |s| ==> Free(s[k], excluded))
    ensures FirstFree(s, excluded) == if k < |s| then Some(s[k]) else None
  {
    if k > 0 {
      FirstFreeIs(s[1..], excluded, k - 1);
    }
  }

  lemma {:induction false} FirstFreeFound(s: seq<FailoverNode>, excluded: set<string>)
    ensures FirstFree(s, excluded).None? <==> forall x <- s :: !Free(x, excluded)
    ensures FirstFree(s, excluded).Some? ==> FirstFree(s, excluded).value in s && Free(FirstFree(s, excluded).value, excluded)
  {
    if s != [] {
      FirstFreeFound(s[1..], excluded);
      assert s == [s[0]] + s[1..];
    }
  }

  lemma {:induction false} FirstFreeSnoc(s: seq<FailoverNode>, x: FailoverNode, excluded: set<string>)
    ensures FirstFree(s + [x], excluded) ==
            if FirstFree(s, excluded).Some? then FirstFree(s, excluded) else if Free(x, excluded) then Some(x) else None
  {
    if s != [] {
      assert (s + [x])[1..] == s[1..] + [x];
      FirstFreeSnoc(s[1..], x, excluded);
    }
  }

  lemma {:induction false} FirstFreeInsert(s: seq<FailoverNode>, x: FailoverNode, excluded: set<string>)
    requires Sorted(s)
    ensures FirstFree(Insert(s, x), excluded) ==
            var best := FirstFree(s, excluded);
            if Free(x, excluded) && (best.None? || x.priority < best.value.priority) then Some(x) else best
    decreases |s|
  {
    if s == [] {
      FirstFreeSnoc([], x, excluded);
      assert [] + [x] == [x];
    } else {
      var n := |s| - 1;
      FirstFreeFound(s, excluded);
      if s[n].priority <= x.priority {
        FirstFreeSnoc(s, x, excluded);
      } else {
        FirstFreeInsert(s[..n], x, excluded);
        FirstFreeSnoc(Insert(s[..n], x), s[n], excluded);
        FirstFreeSnoc(s[..n], s[n], excluded);
        assert s == s[..n] + [s[n]];
      }
    }
  }

  lemma {:induction false} AllFreeEmptyIff(s: seq<FailoverNode>, excluded: set<string>)
    ensures AllFree(s, excluded) == [] <==> forall x <- s :: !Free(x, excluded)
    decreases |s|
  {
    if s != [] {
      var n := |s| - 1;
      AllFreeEmptyIff(s[..n], excluded);
      assert s == s[..n] + [s[n]];
    }
  }

  /** Every strategy finds a node that was not tried as long as there is one. */
  lemma ChosenIsFree(nodes: seq<FailoverNode>, strategy: Strategy, excluded: set<string>, draw: nat)
    ensures var r := Chosen(nodes, strategy, excluded, draw);
            && (r.None? <==> forall x <- nodes :: !Free(x, excluded))
            && (r.Some? ==> r.value in nodes && Free(r.value, excluded))
  {
    match strategy {
      case Sequential => FirstFreeFound(nodes, excluded);
      case Priority =>
        FirstFreeFound(StableSort(nodes), excluded);
        var sorted := StableSort(nodes);
        forall x | x in nodes ensures x in sorted {
          SortHas(nodes, x);
        }
        forall x | x in sorted ensures x in nodes {
          SortHas(nodes, x);
        }
      case Random => AllFreeEmptyIff(nodes, excluded);
    }
  }

  // ---------- runs ----------

  datatype Error = Error(id: int)

  datatype Config = Config(nodes: seq<FailoverNode>, strategy: Strategy, maxRetries: int, retryDelay: int)

  /** The outcome of the n-th call, whether the context is cancelled in the wait after it, and the draws of the
      random strategy. */
  datatype World = World(call: nat -> Option<Error>, cancelled: nat -> bool, draw: nat -> nat)

  datatype Outcome = Succeeded | LastError(error: Error) | AllFailed(last: Option<Error>) | Cancelled

  /** The nodes called, and the pairs passed to the failover callback. */
  datatype Report = Report(tried: seq<FailoverNode>, announced: seq<(FailoverNode, FailoverNode)>, outcome: Outcome)

  function Names(s: seq<FailoverNode>): set<string> { set x <- s :: x.name }

  /** The node of attempt `k` when the nodes in `tried` are behind us. */
  function Next(c: Config, w: World, tried: seq<FailoverNode>, k: nat): Option<FailoverNode> {
    Chosen(c.nodes, c.strategy, Names(tried), w.draw(2 * k))
  }

  /** The node announced after attempt `k` failed. */
  function Announcement(c: Config, w: World, tried: seq<FailoverNode>, k: nat): Option<FailoverNode> {
    Chosen(c.nodes, c.strategy, Names(tried), w.draw(2 * k + 1))
  }

  function Tried(c: Config, w: World, k: nat): seq<FailoverNode> {
    if k == 0 then []
    else
      var before := Tried(c, w, k - 1);
      match Next(c, w, before, k - 1)
      case None => before
      case Some(x) => before + [x]
  }

  function Extended(announced: seq<(FailoverNode, FailoverNode)>, x: FailoverNode, next: Option<FailoverNode>):
    seq<(FailoverNode, FailoverNode)>
  {
    match next
    case None => announced
    case Some(y) => announced + [(x, y)]
  }

  function Announced(c: Config, w: World, k: nat): seq<(FailoverNode, FailoverNode)> {
    if k == 0 then []
    else
      var before, tried := Announced(c, w, k - 1), Tried(c, w, k);
      if tried == [] then before else Extended(before, tried[|tried| - 1], Announcement(c, w, tried, k - 1))
  }

  /** Attempt `i` failed and the loop goes on. */
  predicate Passes(c: Config, w: World, i: nat) {
    && i <= c.maxRetries
    && Next(c, w, Tried(c, w, i), i).Some?
    && w.call(i).Some?
    && !(c.retryDelay > 0 && w.cancelled(i))
  }

  predicate AllPass(c: Config, w: World, n: nat) { forall i :: 0 <= i < n ==> Passes(c, w, i) }

  function LastOutcome(w: World, n: nat): Option<Error> { if n == 0 then None else w.call(n - 1) }

  /** How the loop ends in round `n`, after all rounds before it passed. */
  predicate EndsAt(c: Config, w: World, n: nat, r: Report) {
    var tried, announced := Tried(c, w, n), Announced(c, w, n);
    if n > c.maxRetries then
      r == Report(tried, announced, match LastOutcome(w, n) case None => Succeeded case Some(e) => LastError(e))
    else
      match Next(c, w, tried, n)
      case None => r == Report(tried, announced, AllFailed(LastOutcome(w, n)))
      case Some(x) =>
        if w.call(n).None? then r == Report(tried + [x], announced, Succeeded)
        else c.retryDelay > 0 && w.cancelled(n) && r == Report(tried + [x], Announced(c, w, n + 1), Cancelled)
  }

  ghost predicate IsRun(c: Config, w: World, r: Report) {
    exists n: nat :: AllPass(c, w, n) && EndsAt(c, w, n, r)
  }

  /** The nodes whose call failed. */
  function FailedNodes(r: Report): seq<FailoverNode> {
    if r.outcome.Succeeded? && r.tried != [] then r.tried[..|r.tried| - 1] else r.tried
  }

  lemma {:induction false} TriedLength(c: Config, w: World, n: nat)
    requires AllPass(c, w, n)
    ensures |Tried(c, w, n)| == n
  {
    if n > 0 {
      TriedLength(c, w, n - 1);
      assert Passes(c, w, n - 1);
    }
  }

  predicate DistinctNames(s: seq<FailoverNode>) { forall i, j :: 0 <= i < j < |s| ==> s[i].name != s[j].name }

  lemma {:induction false} TriedDistinct(c: Config, w: World, n: nat)
    ensures DistinctNames(Tried(c, w, n)) && forall x <- Tried(c, w, n) :: x in c.nodes
  {
    if n > 0 {
      TriedDistinct(c, w, n - 1);
      var before := Tried(c, w, n - 1);
      ChosenIsFree(c.nodes, c.strategy, Names(before), w.draw(2 * (n - 1)));
      forall i | 0 <= i < |before| ensures before[i].name in Names(before) {
      }
    }
  }

  /** The local variables of `Execute`. */
  datatype Progress = Progress(
    attempted: set<string>, tried: seq<FailoverNode>, announced: seq<(FailoverNode, FailoverNode)>, lastErr: Option<Error>)

  predicate At(c: Config, w: World, n: nat, p: Progress) {
    AllPass(c, w, n) && p == Progress(Names(Tried(c, w, n)), Tried(c, w, n), Announced(c, w, n), LastOutcome(w, n))
  }

  lemma EndsExhausted(c: Config, w: World, n: nat)
    requires AllPass(c, w, n) && n > c.maxRetries
    ensures n > 0 ==> w.call(n - 1).Some?
    ensures IsRun(c, w, Report(Tried(c, w, n), Announced(c, w, n),
                               match LastOutcome(w, n) case None => Succeeded case Some(e) => LastError(e)))
  {
    assert n > 0 ==> Passes(c, w, n - 1);
    assert EndsAt(c, w, n, Report(Tried(c, w, n), Announced(c, w, n),
                                  match LastOutcome(w, n) case None => Succeeded case Some(e) => LastError(e)));
  }

  lemma NextRound(c: Config, w: World, n: nat, x: FailoverNode)
    requires Next(c, w, Tried(c, w, n), n) == Some(x)
    ensures Tried(c, w, n + 1) == Tried(c, w, n) + [x] && Names(Tried(c, w, n + 1)) == Names(Tried(c, w, n)) + {x.name}
    ensures Announced(c, w, n + 1) ==
            Extended(Announced(c, w, n), x, Chosen(c.nodes, c.strategy, Names(Tried(c, w, n)) + {x.name}, w.draw(2 * n + 1)))
    ensures x in c.nodes && x !in Tried(c, w, n)
  {
    ChosenIsFree(c.nodes, c.strategy, Names(Tried(c, w, n)), w.draw(2 * n));
    assert forall y <- Tried(c, w, n) :: y.name in Names(Tried(c, w, n));
  }

  lemma RoundPasses(c: Config, w: World, n: nat)
    requires AllPass(c, w, n) && n <= c.maxRetries && Next(c, w, Tried(c, w, n), n).Some? && w.call(n).Some?
    requires !(c.retryDelay > 0 && w.cancelled(n))
    ensures AllPass(c, w, n + 1) && w.call(n) == LastOutcome(w, n + 1)
  {
    assert Passes(c, w, n);
  }

  // ---------- the manager ----------

  class FailoverManager {
    const nodes: seq<FailoverNode>
    const strategy: Strategy
    const maxRetries: int
    const retryDelay: int

    constructor (nodes: seq<FailoverNode>, strategy: Strategy, maxRetries: int, retryDelay: int)
      ensures Settings() == Config(nodes, strategy, maxRetries, retryDelay)
    {
      this.nodes, this.strategy, this.maxRetries, this.retryDelay := nodes, strategy, maxRetries, retryDelay;
    }

    function Settings(): Config { Config(nodes, strategy, maxRetries, retryDelay) }

    method SelectSequential(excluded: set<string>) returns (r: Option<FailoverNode>)
      ensures r == FirstFree(nodes, excluded)
    {
      var i := 0;
      while i < |nodes|
        invariant 0 <= i <= |nodes|
        invariant forall k :: 0 <= k < i ==> !Free(nodes[k], excluded)
      {
        var n := nodes[i];
        if n.name in excluded {
          i := i + 1;
          continue;
        }
        FirstFreeIs(nodes, excluded, i);
        return Some(n);
      }
      FirstFreeIs(nodes, excluded, |nodes|);
      r := None;
    }

    method SelectPriority(excluded: set<string>) returns (best: Option<FailoverNode>)
      ensures best == FirstFree(StableSort(nodes), excluded)
    {
      best := None;
      var bestPriority := -1;
      for i := 0 to |nodes|
        invariant best == FirstFree(StableSort(nodes[..i]), excluded)
        invariant best.Some? ==> bestPriority == best.value.priority
      {
        var n := nodes[i];
        assert nodes[..i + 1][..i] == nodes[..i];
        StableSortIs(nodes[..i]);
        FirstFreeInsert(StableSort(nodes[..i]), n, excluded);
        if n.name in excluded {
          continue;
        }
        if best.None? || n.priority < bestPriority {
          best := Some(n);
          bestPriority := n.priority;
        }
      }
      assert nodes[..|nodes|] == nodes;
    }

    method SelectRandom(excluded: set<string>, draw: nat) returns (r: Option<FailoverNode>)
      ensures r == Chosen(nodes, Random, excluded, draw)
    {
      var candidates: seq<FailoverNode> := [];
      for i := 0 to |nodes|
        invariant candidates == AllFree(nodes[..i], excluded)
      {
        assert nodes[..i + 1][..i] == nodes[..i];
        if nodes[i].name !in excluded {
          candidates := candidates + [nodes[i]];
        }
      }
      assert nodes[..|nodes|] == nodes;
      if |candidates| == 0 {
        return None;
      }
      r := Some(candidates[draw % |candidates|]);
    }

    method SelectNode(excluded: set<string>, draw: nat) returns (r: Option<FailoverNode>)
      ensures r == Chosen(nodes, strategy, excluded, draw)
    {
      match strategy {
        case Random => r := SelectRandom(excluded, draw);
        case Priority => r := SelectPriority(excluded);
        case Sequential => r := SelectSequential(excluded);
      }
    }

    /** Tells the failover callback which node would be selected next. */
    method Notify(node: FailoverNode, attempted: set<string>, draw: nat, announced: seq<(FailoverNode, FailoverNode)>)
      returns (r: seq<(FailoverNode, FailoverNode)>)
      ensures r == Extended(announced, node, Chosen(nodes, strategy, attempted, draw))
    {
      r := announced;
      var nextNode := SelectNode(attempted, draw);
      if nextNode.Some? {
        r := r + [(node, nextNode.value)];
      }
    }

    /** Since `start`, the failure counters moved by one for each node in `failed`. */
    ghost predicate Counted(start: map<FailoverNode, int>, failed: seq<FailoverNode>)
      reads set n <- nodes :: n
    {
      forall n <- nodes :: n in start && n.failures == start[n] + (if n in failed then 1 else 0)
    }

    method CountFailure(node: FailoverNode, ghost start: map<FailoverNode, int>, ghost failed: seq<FailoverNode>)
      requires node in nodes && node !in failed && Counted(start, failed)
      modifies set n <- nodes :: n
      ensures Counted(start, failed + [node])
    {
      node.RecordFailure();
    }

    /** One attempt of `Execute`: either the report, or what is known before the next attempt. */
    method Attempt(w: World, attempt: nat, p: Progress, ghost start: map<FailoverNode, int>)
      returns (q: Progress, end: Option<Report>)
      requires At(Settings(), w, attempt, p) && attempt <= maxRetries && Counted(start, p.tried)
      modifies set n <- nodes :: n
      ensures end.None? ==> At(Settings(), w, attempt + 1, q) && Counted(start, q.tried)
      ensures end.Some? ==> IsRun(Settings(), w, end.value) && Counted(start, FailedNodes(end.value))
    {
      ghost var c := Settings();
      q, end := p, None;
      var node := SelectNode(p.attempted, w.draw(2 * attempt));
      if node.None? {
        end := Some(Report(p.tried, p.announced, AllFailed(p.lastErr)));
        return;
      }
      NextRound(c, w, attempt, node.value);
      var attempted, tried := p.attempted + {node.value.name}, p.tried + [node.value];
      var err := w.call(attempt);
      if err.None? {
        end := Some(Report(tried, p.announced, Succeeded));
        assert FailedNodes(end.value) == p.tried;
        return;
      }
      CountFailure(node.value, start, p.tried);
      var announced := Notify(node.value, attempted, w.draw(2 * attempt + 1), p.announced);
      if retryDelay > 0 && w.cancelled(attempt) {
        end := Some(Report(tried, announced, Cancelled));
        return;
      }
      RoundPasses(c, w, attempt);
      q := Progress(attempted, tried, announced, err);
    }

    /** `Execute`: calls the function on one node after the other until it succeeds. */
    method Execute(w: World) returns (r: Report)
      modifies set n <- nodes :: n
      ensures IsRun(Settings(), w, r)
      ensures forall n <- nodes :: n.failures == old(n.failures) + (if n in FailedNodes(r) then 1 else 0)
    {
      ghost var start := map n | n in nodes :: n.failures;
      var p := Progress({}, [], [], None);
      var attempt := 0;
      while attempt <= maxRetries
        invariant At(Settings(), w, attempt, p) && Counted(start, p.tried)
        invariant attempt > 0 ==> attempt <= maxRetries + 1
        decreases maxRetries + 1 - attempt
      {
        var end: Option<Report>;
        p, end := Attempt(w, attempt, p, start);
        if end.Some? {
          return end.value;
        }
        attempt := attempt + 1;
      }
      EndsExhausted(Settings(), w, attempt);
      r := Report(p.tried, p.announced, match p.lastErr case None => Succeeded case Some(e) => LastError(e));
      assert FailedNodes(r) == p.tried;
    }
  }

  // ---------- what the manager promises ----------

  /** The first node of each name. */
  function FirstOfEachName(s: seq<FailoverNode>): seq<FailoverNode> {
    if s == [] then []
    else
      var last, before := s[|s| - 1], FirstOfEachName(s[..|s| - 1]);
      if last.name in Names(before) then before else before + [last]
  }

  function Listed(c: Config): seq<FailoverNode> { if c.strategy.Priority? then StableSort(c.nodes) else c.nodes }

  /** The order in which nodes are tried; the random strategy has none. */
  function Order(c: Config): seq<FailoverNode> { FirstOfEachName(Listed(c)) }

  lemma NextIsFirstFree(c: Config, w: World, tried: seq<FailoverNode>, k: nat)
    requires !c.strategy.Random?
    ensures Next(c, w, tried, k) == FirstFree(Listed(c), Names(tried))
  {
  }

  lemma {:induction false} NamesOfEach(s: seq<FailoverNode>)
    ensures Names(FirstOfEachName(s)) == Names(s)
    decreases |s|
  {
    if s != [] {
      var n := |s| - 1;
      NamesOfEach(s[..n]);
      assert s == s[..n] + [s[n]];
      assert Names(s) == Names(s[..n]) + {s[n].name};
      var before := FirstOfEachName(s[..n]);
      assert Names(before + [s[n]]) == Names(before) + {s[n].name};
    }
  }

  /** With the first k nodes of the order excluded, the next one is selected. */
  lemma {:induction false} FirstFreeFollows(s: seq<FailoverNode>, k: nat)
    requires k <= |FirstOfEachName(s)|
    ensures var order := FirstOfEachName(s);
            FirstFree(s, Names(order[..k])) == if k < |order| then Some(order[k]) else None
    decreases |s|
  {
    var order := FirstOfEachName(s);
    if s != [] {
      var n := |s| - 1;
      var before := FirstOfEachName(s[..n]);
      assert s == s[..n] + [s[n]];
      FirstFreeSnoc(s[..n], s[n], Names(order[..k]));
      if k <= |before| {
        FirstFreeFollows(s[..n], k);
        assert order[..k] == before[..k];
        if k == |before| {
          assert before[..k] == before;
        }
      } else {
        assert order[..k] == order == before + [s[n]];
        NamesOfEach(s);
        FirstFreeFound(s, Names(order));
        assert forall x <- s :: x.name in Names(s);
      }
    }
  }

  function Reached(c: Config, k: nat): seq<FailoverNode> { if k <= |Order(c)| then Order(c)[..k] else Order(c) }

  lemma ReachedStep(c: Config, w: World, k: nat)
    requires !c.strategy.Random?
    ensures Reached(c, k + 1) == match Next(c, w, Reached(c, k), k) case None => Reached(c, k) case Some(x) => Reached(c, k) + [x]
  {
    var order := Order(c);
    NextIsFirstFree(c, w, Reached(c, k), k);
    FirstFreeFollows(Listed(c), if k <= |order| then k else |order|);
    assert order[..|order|] == order;
  }

  /** The nodes are tried in the order, without a gap. */
  lemma {:induction false} TriedFollowsOrder(c: Config, w: World, k: nat)
    requires !c.strategy.Random?
    ensures Tried(c, w, k) == Reached(c, k)
  {
    if k > 0 {
      TriedFollowsOrder(c, w, k - 1);
      ReachedStep(c, w, k - 1);
    }
  }

  lemma {:induction false} DistinctIsKept(s: seq<FailoverNode>)
    requires DistinctNames(s)
    ensures FirstOfEachName(s) == s
    decreases |s|
  {
    if s != [] {
      DistinctIsKept(s[..|s| - 1]);
    }
  }

  lemma InInsert(s: seq<FailoverNode>, x: FailoverNode, y: FailoverNode)
    ensures y in Insert(s, x) <==> y in s || y == x
  {
    InsertHas(s, x);
    assert y in Insert(s, x) <==> y in multiset(Insert(s, x));
    assert y in s <==> y in multiset(s);
  }

  lemma {:induction false} InsertDistinct(s: seq<FailoverNode>, x: FailoverNode)
    requires DistinctNames(s) && forall y <- s :: y.name != x.name
    ensures DistinctNames(Insert(s, x))
    decreases |s|
  {
    if s != [] && s[|s| - 1].priority > x.priority {
      var n := |s| - 1;
      InsertDistinct(s[..n], x);
      var before := Insert(s[..n], x);
      forall i | 0 <= i < |before| ensures before[i].name != s[n].name {
        InInsert(s[..n], x, before[i]);
        assert before[i] in before;
      }
    }
  }

  lemma {:induction false} SortDistinct(s: seq<FailoverNode>)
    requires DistinctNames(s)
    ensures DistinctNames(StableSort(s))
    decreases |s|
  {
    if s != [] {
      var n := |s| - 1;
      SortDistinct(s[..n]);
      forall y | y in StableSort(s[..n]) ensures y.name != s[n].name {
        SortHas(s[..n], y);
        var i :| 0 <= i < n && s[..n][i] == y;
      }
      InsertDistinct(StableSort(s[..n]), s[n]);
    }
  }

  /** The report holds the nodes of the rounds that passed, and perhaps one more. */
  lemma EndTried(c: Config, w: World, n: nat, r: Report)
    requires EndsAt(c, w, n, r)
    ensures r.tried == Tried(c, w, if n <= c.maxRetries && Next(c, w, Tried(c, w, n), n).Some? then n + 1 else n)
  {}

  lemma ReportTried(c: Config, w: World, r: Report) returns (k: nat)
    requires IsRun(c, w, r)
    ensures r.tried == Tried(c, w, k) && (k == 0 || k <= c.maxRetries + 1)
  {
    var n: nat :| AllPass(c, w, n) && EndsAt(c, w, n, r);
    EndTried(c, w, n, r);
    assert n > 0 ==> Passes(c, w, n - 1);
    k := if n <= c.maxRetries && Next(c, w, Tried(c, w, n), n).Some? then n + 1 else n;
  }

  lemma OrderIsList(c: Config)
    requires DistinctNames(c.nodes)
    ensures Order(c) == Listed(c)
  {
    SortDistinct(c.nodes);
    DistinctIsKept(Listed(c));
  }

  /** With distinct names, the nodes are tried in list order under Sequential and in the order of the stable
      sort by priority under Priority. */
  lemma NodesTriedInOrder(c: Config, w: World, r: Report)
    requires IsRun(c, w, r) && DistinctNames(c.nodes)
    ensures c.strategy.Sequential? ==> r.tried <= c.nodes
    ensures c.strategy.Priority? ==> r.tried <= StableSort(c.nodes)
  {
    if !c.strategy.Random? {
      var k := ReportTried(c, w, r);
      TriedFollowsOrder(c, w, k);
      OrderIsList(c);
      assert Reached(c, k) <= Listed(c);
    }
  }

  function Elements(s: seq<FailoverNode>): set<FailoverNode> {
    if s == [] then {} else Elements(s[..|s| - 1]) + {s[|s| - 1]}
  }

  lemma {:induction false} InElements(s: seq<FailoverNode>, x: FailoverNode)
    ensures x in Elements(s) <==> x in s
    decreases |s|
  {
    if s != [] {
      var n := |s| - 1;
      InElements(s[..n], x);
      assert s == s[..n] + [s[n]];
    }
  }

  lemma {:induction false} DistinctCount(s: seq<FailoverNode>)
    requires DistinctNames(s)
    ensures |Elements(s)| == |s|
    decreases |s|
  {
    if s != [] {
      var n := |s| - 1;
      DistinctCount(s[..n]);
      InElements(s[..n], s[n]);
    }
  }

  lemma {:induction false} ElementsCount(s: seq<FailoverNode>)
    ensures |Elements(s)| <= |s|
    decreases |s|
  {
    if s != [] {
      ElementsCount(s[..|s| - 1]);
    }
  }

  lemma DistinctFits(tried: seq<FailoverNode>, nodes: seq<FailoverNode>)
    requires DistinctNames(tried) && forall x <- tried :: x in nodes
    ensures |tried| <= |nodes|
  {
    DistinctCount(tried);
    ElementsCount(nodes);
    forall x | x in Elements(tried) ensures x in Elements(nodes) {
      InElements(tried, x);
      InElements(nodes, x);
    }
    SubsetCount(Elements(tried), Elements(nodes));
  }

  lemma {:induction false} SubsetCount(a: set<FailoverNode>, b: set<FailoverNode>)
    requires a <= b
    ensures |a| <= |b|
    decreases a
  {
    if a != {} {
      var x :| x in a;
      SubsetCount(a - {x}, b - {x});
    }
  }

  /** Under every strategy no name is tried twice, and at most MaxRetries + 1 nodes are tried. */
  lemma NoneTwice(c: Config, w: World, r: Report)
    requires IsRun(c, w, r)
    ensures DistinctNames(r.tried) && (forall x <- r.tried :: x in c.nodes)
    ensures |r.tried| <= |c.nodes| && (r.tried == [] || |r.tried| <= c.maxRetries + 1)
  {
    var k := ReportTried(c, w, r);
    TriedDistinct(c, w, k);
    DistinctFits(r.tried, c.nodes);
    TriedAtMost(c, w, k);
  }

  lemma {:induction false} TriedAtMost(c: Config, w: World, k: nat)
    ensures |Tried(c, w, k)| <= k
  {
    if k > 0 {
      TriedAtMost(c, w, k - 1);
    }
  }

  lemma EndSucceeds(c: Config, w: World, n: nat, r: Report)
    requires AllPass(c, w, n) && EndsAt(c, w, n, r) && c.maxRetries >= 0 && |Tried(c, w, n)| == n
    ensures r.outcome.Succeeded? <==> |r.tried| == n + 1 && w.call(n).None?
    ensures |r.tried| == n || |r.tried| == n + 1
  {
    assert n > 0 ==> Passes(c, w, n - 1);
  }

  /** nil is returned exactly when the last node tried succeeded; with negative MaxRetries it is returned
      although no node was tried. */
  lemma SucceededIff(c: Config, w: World, r: Report)
    requires IsRun(c, w, r)
    ensures r.outcome.Succeeded? <==> c.maxRetries < 0 || (r.tried != [] && w.call(|r.tried| - 1).None?)
    ensures c.maxRetries < 0 ==> r.tried == []
  {
    var n: nat :| AllPass(c, w, n) && EndsAt(c, w, n, r);
    assert n > 0 ==> Passes(c, w, n - 1);
    TriedLength(c, w, n);
    if c.maxRetries >= 0 {
      EndSucceeds(c, w, n, r);
    }
  }

  /** "All nodes failed" means that every node's name was tried and every call failed. */
  lemma AllFailedMeansAll(c: Config, w: World, r: Report)
    requires IsRun(c, w, r) && r.outcome.AllFailed?
    ensures Names(c.nodes) == Names(r.tried)
    ensures forall i :: 0 <= i < |r.tried| ==> w.call(i).Some?
  {
    var n: nat :| AllPass(c, w, n) && EndsAt(c, w, n, r);
    TriedLength(c, w, n);
    TriedDistinct(c, w, n);
    ChosenIsFree(c.nodes, c.strategy, Names(r.tried), w.draw(2 * n));
    forall i | 0 <= i < n ensures w.call(i).Some? {
      assert Passes(c, w, i);
    }
    forall name | name in Names(c.nodes) ensures name in Names(r.tried) {
      var x :| x in c.nodes && x.name == name;
      assert !Free(x, Names(r.tried));
    }
  }

  /** The last node tried, when its call failed and the wait after it was not cancelled. */
  predicate LastWasWaitedFor(c: Config, w: World, last: int) {
    last >= 0 ==> w.call(last).Some? && !(c.retryDelay > 0 && w.cancelled(last))
  }

  /** Each of the nodes has its name among those tried. */
  predicate Covers(tried: seq<FailoverNode>, nodes: seq<FailoverNode>) {
    forall x <- nodes :: exists y <- tried :: y.name == x.name
  }

  lemma EndKinds(c: Config, w: World, n: nat, r: Report)
    requires EndsAt(c, w, n, r) && |Tried(c, w, n)| == n
    ensures
      if n > c.maxRetries then
        |r.tried| == n && r.outcome == match LastOutcome(w, n) case None => Succeeded case Some(e) => LastError(e)
      else if |r.tried| == n then r.outcome == AllFailed(LastOutcome(w, n))
      else |r.tried| == n + 1 && if w.call(n).None? then r.outcome == Succeeded
                                 else r.outcome == Cancelled && c.retryDelay > 0 && w.cancelled(n)
  {
    hide Tried, Announced, Next;
  }

  /** The whole of a run, in terms of what happens around it: all nodes tried before the last failed and were waited
      for, and each ending has its reason. */
  lemma RunIs(c: Config, w: World, r: Report)
    requires IsRun(c, w, r) && c.maxRetries >= 0
    ensures forall i :: 0 <= i < |r.tried| - 1 ==> w.call(i).Some? && !(c.retryDelay > 0 && w.cancelled(i))
    ensures
      var last := |r.tried| - 1;
      match r.outcome
      case Succeeded => last >= 0 && w.call(last) == None
      case LastError(e) => last == c.maxRetries && w.call(last) == Some(e) && LastWasWaitedFor(c, w, last)
      case AllFailed(e) =>
        last < c.maxRetries && e == (if last >= 0 then w.call(last) else None) && LastWasWaitedFor(c, w, last)
      case Cancelled => last >= 0 && w.call(last).Some? && c.retryDelay > 0 && w.cancelled(last)
    ensures r.outcome.AllFailed? ==> Covers(r.tried, c.nodes)
  {
    var n: nat :| AllPass(c, w, n) && EndsAt(c, w, n, r);
    hide Covers, AllPass, EndsAt, IsRun;
    RunAt(c, w, n, r);
    if r.outcome.AllFailed? {
      EveryName(c, w, r);
    }
  }

  lemma RunAt(c: Config, w: World, n: nat, r: Report)
    requires AllPass(c, w, n) && EndsAt(c, w, n, r) && c.maxRetries >= 0
    ensures forall i :: 0 <= i < |r.tried| - 1 ==> w.call(i).Some? && !(c.retryDelay > 0 && w.cancelled(i))
    ensures
      var last := |r.tried| - 1;
      match r.outcome
      case Succeeded => last >= 0 && w.call(last) == None
      case LastError(e) => last == c.maxRetries && w.call(last) == Some(e) && LastWasWaitedFor(c, w, last)
      case AllFailed(e) =>
        last < c.maxRetries && e == (if last >= 0 then w.call(last) else None) && LastWasWaitedFor(c, w, last)
      case Cancelled => last >= 0 && w.call(last).Some? && c.retryDelay > 0 && w.cancelled(last)
  {
    hide EndsAt, Tried, Announced, Next, AllPass, Passes;
    TriedLength(c, w, n);
    EndKinds(c, w, n, r);
    PassedAre(c, w, n);
  }

  lemma PassedAre(c: Config, w: World, n: nat)
    requires AllPass(c, w, n)
    ensures forall i :: 0 <= i < n ==> w.call(i).Some? && !(c.retryDelay > 0 && w.cancelled(i)) && i <= c.maxRetries
  {
    hide Tried, Next;
    forall i | 0 <= i < n ensures w.call(i).Some? && !(c.retryDelay > 0 && w.cancelled(i)) && i <= c.maxRetries {
      assert Passes(c, w, i);
    }
  }

  lemma EveryName(c: Config, w: World, r: Report)
    requires IsRun(c, w, r) && r.outcome.AllFailed?
    ensures Covers(r.tried, c.nodes)
  {
    AllFailedMeansAll(c, w, r);
    hide IsRun;
    forall x | x in c.nodes ensures exists y <- r.tried :: y.name == x.name {
      assert x.name in Names(r.tried);
    }
  }

  /** The nodes whose failure is counted are those whose call failed. */
  lemma FailedAre(c: Config, w: World, r: Report, x: FailoverNode)
    requires IsRun(c, w, r)
    ensures x in FailedNodes(r) <==> exists i :: 0 <= i < |r.tried| && r.tried[i] == x && w.call(i).Some?
  {
    FailedFirst(c, w, r);
    var k := |FailedNodes(r)|;
    hide IsRun, FailedNodes;
    if exists i :: 0 <= i < |r.tried| && r.tried[i] == x && w.call(i).Some? {
      var i :| 0 <= i < |r.tried| && r.tried[i] == x && w.call(i).Some?;
      assert FailedNodes(r)[i] == x;
    }
  }

  lemma FailedFirst(c: Config, w: World, r: Report)
    requires IsRun(c, w, r)
    ensures
      var k := |FailedNodes(r)|;
      && k <= |r.tried| && FailedNodes(r) == r.tried[..k]
      && forall i :: 0 <= i < |r.tried| ==> (w.call(i).Some? <==> i < k)
  {
    SucceededIff(c, w, r);
    if c.maxRetries >= 0 {
      RunIs(c, w, r);
    }
    hide IsRun, Covers;
    assert r.tried[..|r.tried|] == r.tried;
  }

  // ---------- announcements ----------

  /** Each announced node is the one tried next, as far as one is tried. */
  predicate AnnouncedRight(tried: seq<FailoverNode>, announced: seq<(FailoverNode, FailoverNode)>) {
    |announced| <= |tried| &&
    forall i :: 0 <= i < |announced| ==>
      announced[i].0 == tried[i] && (i + 1 < |tried| ==> announced[i].1 == tried[i + 1])
  }

  lemma SameDraw(c: Config, w: World, tried: seq<FailoverNode>, k: nat, l: nat)
    requires !c.strategy.Random?
    ensures Announcement(c, w, tried, k) == Next(c, w, tried, l)
  {
  }

  lemma {:induction false} AnnouncedNext(c: Config, w: World, n: nat)
    requires !c.strategy.Random? && AllPass(c, w, n)
    ensures var tried, announced := Tried(c, w, n), Announced(c, w, n);
            && AnnouncedRight(tried, announced)
            && |tried| == n
            && match Next(c, w, tried, n)
               case Some(x) => |announced| == n && (n > 0 ==> announced[n - 1].1 == x)
               case None => n > 0 ==> |announced| == n - 1
  {
    TriedLength(c, w, n);
    if n > 0 {
      AnnouncedNext(c, w, n - 1);
      TriedLength(c, w, n - 1);
      assert Passes(c, w, n - 1);
      SameDraw(c, w, Tried(c, w, n), n - 1, n);
    }
  }

  lemma AnnouncedMore(c: Config, w: World, n: nat)
    requires !c.strategy.Random? && AllPass(c, w, n) && Next(c, w, Tried(c, w, n), n).Some?
    ensures AnnouncedRight(Tried(c, w, n + 1), Announced(c, w, n))
    ensures AnnouncedRight(Tried(c, w, n + 1), Announced(c, w, n + 1))
  {
    AnnouncedNext(c, w, n);
    NextRound(c, w, n, Next(c, w, Tried(c, w, n), n).value);
  }

  /** Under Sequential and Priority the failover callback is told the node that is tried next. */
  lemma AnnouncementsHold(c: Config, w: World, r: Report)
    requires IsRun(c, w, r) && !c.strategy.Random?
    ensures AnnouncedRight(r.tried, r.announced)
  {
    var n: nat :| AllPass(c, w, n) && EndsAt(c, w, n, r);
    AnnouncedNext(c, w, n);
    if Next(c, w, Tried(c, w, n), n).Some? {
      AnnouncedMore(c, w, n);
    }
  }

  /** The last attempt announces a failover that never happens, unless no node is left. */
  lemma LastAnnouncementIsIdle(c: Config, w: World, r: Report)
    requires IsRun(c, w, r) && !c.strategy.Random? && r.outcome.LastError?
    ensures |r.announced| == |r.tried| <==> exists x <- c.nodes :: x.name !in Names(r.tried)
    ensures |r.announced| == |r.tried| > 0 ==> r.announced[|r.tried| - 1].1 !in r.tried
  {
    var n: nat :| AllPass(c, w, n) && EndsAt(c, w, n, r);
    AnnouncedNext(c, w, n);
    ChosenIsFree(c.nodes, c.strategy, Names(r.tried), w.draw(2 * n));
  }

  predicate AllNamed(nodes: seq<FailoverNode>, tried: seq<FailoverNode>) { forall x <- nodes :: !Free(x, Names(tried)) }

  lemma AnnouncementIff(c: Config, w: World, tried: seq<FailoverNode>, k: nat)
    ensures Announcement(c, w, tried, k).None? <==> AllNamed(c.nodes, tried)
    ensures Next(c, w, tried, k).None? <==> AllNamed(c.nodes, tried)
  {
    ChosenIsFree(c.nodes, c.strategy, Names(tried), w.draw(2 * k + 1));
    ChosenIsFree(c.nodes, c.strategy, Names(tried), w.draw(2 * k));
  }

  lemma {:induction false} AnnouncedCount(c: Config, w: World, n: nat)
    requires AllPass(c, w, n)
    ensures |Announced(c, w, n)| == n - (if n > 0 && AllNamed(c.nodes, Tried(c, w, n)) then 1 else 0)
  {
    if n > 0 {
      AnnouncedCount(c, w, n - 1);
      assert Passes(c, w, n - 1);
      AnnouncementIff(c, w, Tried(c, w, n - 1), n - 1);
      AnnouncementIff(c, w, Tried(c, w, n), n - 1);
      TriedLength(c, w, n);
      hide AllNamed, Announcement, Next, Tried;
    }
  }

  /** The last call failed and the wait after it was cancelled. */
  lemma AnnouncedOnCancel(c: Config, w: World, n: nat, x: FailoverNode)
    requires AllPass(c, w, n) && Next(c, w, Tried(c, w, n), n) == Some(x)
    ensures |Announced(c, w, n + 1)| == n + 1 - (if AllNamed(c.nodes, Tried(c, w, n) + [x]) then 1 else 0)
  {
    AnnouncedCount(c, w, n);
    NextRound(c, w, n, x);
    AnnouncementIff(c, w, Tried(c, w, n), n);
    AnnouncementIff(c, w, Tried(c, w, n) + [x], n);
    hide AllNamed, Next, Tried, AllPass;
  }

  /** The call in round `n` failed, and no other one follows. */
  predicate FailsLast(c: Config, w: World, n: nat) {
    n <= c.maxRetries && Next(c, w, Tried(c, w, n), n).Some? && w.call(n).Some?
  }

  lemma FailedAtEnd(c: Config, w: World, n: nat, r: Report)
    requires EndsAt(c, w, n, r) && |Tried(c, w, n)| == n && (n > 0 ==> LastOutcome(w, n).Some?)
    ensures
      if FailsLast(c, w, n) then
        && FailedNodes(r) == Tried(c, w, n) + [Next(c, w, Tried(c, w, n), n).value]
        && r.announced == Announced(c, w, n + 1)
      else FailedNodes(r) == Tried(c, w, n) && r.announced == Announced(c, w, n)
  {
    hide Tried, Announced, Next;
    var tried := Tried(c, w, n);
    assert forall x: FailoverNode :: (tried + [x])[..|tried|] == tried;
  }

  /** Under every strategy each failed call is announced with a node to go on with, except the last one when no name is
      left. */
  lemma EachFailureIsAnnounced(c: Config, w: World, r: Report)
    requires IsRun(c, w, r)
    ensures
      var failed := FailedNodes(r);
      |r.announced| == |failed| - if failed != [] && forall x <- c.nodes :: x.name in Names(failed) then 1 else 0
  {
    var n: nat :| AllPass(c, w, n) && EndsAt(c, w, n, r);
    hide IsRun;
    TriedLength(c, w, n);
    PassedAre(c, w, n);
    FailedAtEnd(c, w, n, r);
    AnnouncedCount(c, w, n);
    if FailsLast(c, w, n) {
      AnnouncedOnCancel(c, w, n, Next(c, w, Tried(c, w, n), n).value);
    }
    hide EndsAt, Tried, Announced, Next, AllPass, FailedNodes, FailsLast;
    assert AllNamed(c.nodes, FailedNodes(r)) <==> forall x <- c.nodes :: x.name in Names(FailedNodes(r));
  }

  // ---------- the random strategy draws again ----------

  lemma {:induction false} AllFreeDistinct(s: seq<FailoverNode>, excluded: set<string>)
    requires DistinctNames(s)
    ensures DistinctNames(AllFree(s, excluded))
    decreases |s|
  {
    if s != [] {
      AllFreeDistinct(s[..|s| - 1], excluded);
      var before := AllFree(s[..|s| - 1], excluded);
      forall i | 0 <= i < |before| ensures before[i].name != s[|s| - 1].name {
        assert before[i] in s[..|s| - 1];
      }
    }
  }

  /** Under Random the node announced is the one tried next if and only if the two draws agree on it. */
  lemma RandomAnnouncesNextIff(c: Config, w: World, k: nat)
    requires c.strategy.Random? && DistinctNames(c.nodes)
    ensures
      var tried := Tried(c, w, k + 1);
      var m := |AllFree(c.nodes, Names(tried))|;
      (Announcement(c, w, tried, k) == Next(c, w, tried, k + 1)) <==>
        (m == 0 || w.draw(2 * k + 1) % m == w.draw(2 * (k + 1)) % m)
  {
    var candidates := AllFree(c.nodes, Names(Tried(c, w, k + 1)));
    AllFreeDistinct(c.nodes, Names(Tried(c, w, k + 1)));
    if candidates != [] {
      var i, j := w.draw(2 * k + 1) % |candidates|, w.draw(2 * (k + 1)) % |candidates|;
      assert candidates[i] == candidates[j] ==> i == j by {
        if i < j { assert candidates[i].name != candidates[j].name; }
        if j < i { assert candidates[j].name != candidates[i].name; }
      }
    }
  }

  /** Draws under which the callback is told of `y` while `z` is tried next. */
  function Draws(n: nat): nat { if n == 2 then 1 else 0 }

  function Misleading(error: Error): World {
    World((n: nat) => if n == 0 then Some(error) else None, (n: nat) => false, Draws)
  }

  lemma AllFreeSnoc(s: seq<FailoverNode>, x: FailoverNode, excluded: set<string>)
    ensures AllFree(s + [x], excluded) == AllFree(s, excluded) + (if Free(x, excluded) then [x] else [])
  {
    assert (s + [x])[..|s|] == s;
  }

  lemma FreeOfThree(x: FailoverNode, y: FailoverNode, z: FailoverNode, excluded: set<string>)
    ensures
      AllFree([x, y, z], excluded)
        == (if Free(x, excluded) then [x] else []) + (if Free(y, excluded) then [y] else [])
           + (if Free(z, excluded) then [z] else [])
  {
    AllFreeSnoc([], x, excluded);
    AllFreeSnoc([x], y, excluded);
    AllFreeSnoc([x, y], z, excluded);
    assert [] + [x] == [x] && [x] + [y] == [x, y] && [x, y] + [z] == [x, y, z];
  }

  lemma NamesOfThree(x: FailoverNode, y: FailoverNode, z: FailoverNode)
    requires DistinctNames([x, y, z])
    ensures x.name != y.name && x.name != z.name && y.name != z.name
  {
    var s := [x, y, z];
    assert s[0].name != s[1].name && s[0].name != s[2].name && s[1].name != s[2].name;
  }

  lemma MisleadingRounds(c: Config, x: FailoverNode, y: FailoverNode, z: FailoverNode, error: Error)
    requires DistinctNames([x, y, z]) && c.nodes == [x, y, z] && c.strategy.Random?
    ensures
      var w := Misleading(error);
      && Next(c, w, [], 0) == Some(x) && Announcement(c, w, [x], 0) == Some(y) && Next(c, w, [x], 1) == Some(z)
      && Tried(c, w, 1) == [x] && Announced(c, w, 1) == [(x, y)]
  {
    NamesOfThree(x, y, z);
    FreeOfThree(x, y, z, {});
    FreeOfThree(x, y, z, {x.name});
    assert Names([]) == {} && Names([x]) == {x.name};
    assert [] + [x] == [x] && [] + [(x, y)] == [(x, y)];
    assert Tried(c, Misleading(error), 0) == [] && Announced(c, Misleading(error), 0) == [];
  }

  /** With three nodes a failover to `y` can be announced and `z` be tried. */
  lemma RandomAnnouncesAnother(c: Config, x: FailoverNode, y: FailoverNode, z: FailoverNode, error: Error)
    requires DistinctNames([x, y, z]) && c.nodes == [x, y, z] && c.strategy.Random? && c.maxRetries >= 1
    ensures
      var r := Report([x, z], [(x, y)], Succeeded);
      IsRun(c, Misleading(error), r) && !AnnouncedRight(r.tried, r.announced)
  {
    var w := Misleading(error);
    MisleadingRounds(c, x, y, z, error);
    NamesOfThree(x, y, z);
    assert Tried(c, w, 0) == [] && Passes(c, w, 0) && AllPass(c, w, 1);
    assert [x] + [z] == [x, z];
    assert EndsAt(c, w, 1, Report([x, z], [(x, y)], Succeeded));
    assert [(x, y)][0].1 != [x, z][1];
  }
}
