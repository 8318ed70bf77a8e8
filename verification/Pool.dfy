/** The connection pool of node/src/pool.js as a state machine. */
module Pool {
  // Every stretch of code between two awaits is one atomic step; which step comes next is up to the environment.
  // Clients, waiters and pending connection attempts are numbered from one counter.

  import opened Text
  import opened Wrappers

  datatype Config = Config(minSize: int, maxSize: int, idleTimeout: int)

  /** `timed` says whether an idle timer was set for the entry. */
  datatype Idle = Idle(client: nat, timed: bool)

  datatype Event =
    | Handed(waiter: nat, client: nat)
    | TurnedAway(waiter: nat)
    | Drained(total: int)
    | AlreadyDraining(total: int)

  /** The first six components are the fields of the pool. The others are the world around it: attempts
      to connect that are under way, for a caller of `acquire` or for the warm-up; clients that are checked
      out; clients whose connection is gone; armed timers; whether health checks run; promises settled; and
      how many connections the warm-up has added. */
  datatype State = State(
    idle: seq<Idle>,
    active: int,
    total: int,
    waitQueue: seq<nat>,
    closed: bool,
    draining: bool,
    creating: set<nat>,
    warming: set<nat>,
    out: set<nat>,
    dead: set<nat>,
    idleTimers: set<nat>,
    waitTimers: set<nat>,
    health: bool,
    nextId: nat,
    log: seq<Event>,
    warmed: nat)

  const INITIAL := State([], 0, 0, [], false, false, {}, {}, {}, {}, {}, {}, true, 0, [], 0)

  datatype Answer = Refused | Got(client: nat) | Connecting(attempt: nat) | Waiting(waiter: nat)

  // ---------- operations ----------

  function Destroy(s: State, client: nat): State {
    s.(total := s.total - 1, dead := s.dead + {client})
  }

  function ClearIdle(timers: set<nat>, e: Idle): set<nat> {
    if e.timed then timers - {e.client} else timers
  }

  /** The last idle entry is popped and its timer cleared. */
  function WithoutLast(s: State): State
    requires s.idle != []
  {
    var n := |s.idle| - 1;
    s.(idle := s.idle[..n], idleTimers := ClearIdle(s.idleTimers, s.idle[n]))
  }

  /** Pops idle entries from the end until one is connected; dead ones are destroyed. */
  function TakeIdle(s: State): (State, Option<nat>)
    decreases |s.idle|
  {
    if s.idle == [] then (s, None)
    else
      var e, s' := s.idle[|s.idle| - 1], WithoutLast(s);
      if e.client in s.dead then TakeIdle(Destroy(s', e.client))
      else (s'.(active := s.active + 1, out := s.out + {e.client}), Some(e.client))
  }

  function Acquire(c: Config, s: State): (State, Answer) {
    if s.closed || s.draining then (s, Refused)
    else
      var (s', client) := TakeIdle(s);
      if client.Some? then (s', Got(client.value)) else ConnectOrWait(c, s')
  }

  /** No idle connection: reserve room for a new one, or queue up. */
  function ConnectOrWait(c: Config, s: State): (State, Answer) {
    var id := s.nextId;
    if s.total < c.maxSize then
      (s.(total := s.total + 1, active := s.active + 1, creating := s.creating + {id}, nextId := id + 1), Connecting(id))
    else
      (s.(waitQueue := s.waitQueue + [id], waitTimers := s.waitTimers + {id}, nextId := id + 1), Waiting(id))
  }

  /** `_createConnection` succeeds: the client, whatever happened to the pool meanwhile, is handed out. */
  function Connected(s: State, attempt: nat): State {
    s.(creating := s.creating - {attempt}, out := s.out + {s.nextId}, nextId := s.nextId + 1)
  }

  function ConnectFailed(s: State, attempt: nat): State {
    s.(creating := s.creating - {attempt}, total := s.total - 1, active := s.active - 1)
  }

  function PutIdle(c: Config, s: State, client: nat): State {
    var timed := c.idleTimeout > 0 && |s.idle| >= c.minSize;
    s.(idle := s.idle + [Idle(client, timed)],
       idleTimers := if timed then s.idleTimers + {client} else s.idleTimers)
  }

  /** Release of a checked-out client. */
  function Release(c: Config, s: State, client: nat): State {
    var s' := s.(active := s.active - 1, out := s.out - {client});
    if s.closed || s.draining || client in s.dead then Destroy(s', client)
    else if s.waitQueue != [] then HandOver(s', client)
    else PutIdle(c, s', client)
  }

  /** The client goes to the first waiter. */
  function HandOver(s: State, client: nat): State
    requires s.waitQueue != []
  {
    var waiter := s.waitQueue[0];
    s.(waitQueue := s.waitQueue[1..], waitTimers := s.waitTimers - {waiter},
       active := s.active + 1, out := s.out + {client}, log := s.log + [Handed(waiter, client)])
  }

  function WaiterTimedOut(s: State, waiter: nat): State {
    var i := IndexOf(s.waitQueue, waiter);
    s.(waitTimers := s.waitTimers - {waiter},
       waitQueue := if i == -1 then s.waitQueue else s.waitQueue[..i] + s.waitQueue[i + 1..],
       log := s.log + [TurnedAway(waiter)])
  }

  function Where(idle: seq<Idle>, client: nat): (i: int)
    ensures -1 <= i < |idle|
    ensures i >= 0 ==> idle[i].client == client
    ensures i == -1 ==> forall j :: 0 <= j < |idle| ==> idle[j].client != client
  {
    if idle == [] then -1
    else if idle[0].client == client then 0
    else
      var i := Where(idle[1..], client);
      assert idle == [idle[0]] + idle[1..];
      if i == -1 then -1 else i + 1
  }

  function IdleTimedOut(s: State, client: nat): State {
    var s' := s.(idleTimers := s.idleTimers - {client});
    var i := Where(s.idle, client);
    if i == -1 then s' else Destroy(s'.(idle := s.idle[..i] + s.idle[i + 1..]), client)
  }

  function Clients(idle: seq<Idle>): set<nat> {
    if idle == [] then {} else Clients(idle[..|idle| - 1]) + {idle[|idle| - 1].client}
  }

  /** The clients for whose idle entry a timer was set. */
  function TimedIdle(idle: seq<Idle>): set<nat> {
    if idle == [] then {}
    else
      var e := idle[|idle| - 1];
      TimedIdle(idle[..|idle| - 1]) + (if e.timed then {e.client} else {})
  }

  /** `n` consecutive numbers. */
  function Numbers(first: nat, n: nat): set<nat> {
    if n == 0 then {} else Numbers(first, n - 1) + {first + n - 1}
  }

  /** Starts the connections the warm-up thinks are missing. */
  function Warmup(c: Config, s: State): State {
    var needed := (if c.minSize < c.maxSize then c.minSize else c.maxSize) - s.total;
    if needed <= 0 then s
    else s.(warming := s.warming + Numbers(s.nextId, needed), nextId := s.nextId + needed)
  }

  function Warmed(c: Config, s: State, attempt: nat): State {
    PutIdle(c, s.(warming := s.warming - {attempt}, nextId := s.nextId + 1, warmed := s.warmed + 1), s.nextId)
  }

  function Alive(idle: seq<Idle>, dead: set<nat>): seq<Idle> {
    if idle == [] then []
    else
      var e := idle[|idle| - 1];
      var before := Alive(idle[..|idle| - 1], dead);
      if e.client in dead then before else before + [e]
  }

  function TimedDead(idle: seq<Idle>, dead: set<nat>): set<nat> {
    if idle == [] then {}
    else
      var e := idle[|idle| - 1];
      TimedDead(idle[..|idle| - 1], dead) + (if e.timed && e.client in dead then {e.client} else {})
  }

  /** The dead entries leave the idle list, one `_destroyClient` each. */
  function Swept(s: State): State {
    var alive := Alive(s.idle, s.dead);
    s.(idle := alive, total := s.total - (|s.idle| - |alive|), idleTimers := s.idleTimers - TimedDead(s.idle, s.dead))
  }

  function HealthTick(c: Config, s: State): State {
    var s' := Swept(s);
    if !s'.closed && !s'.draining && s'.total < c.minSize then Warmup(c, s') else s'
  }

  function Members(queue: seq<nat>): set<nat> {
    if queue == [] then {} else Members(queue[..|queue| - 1]) + {queue[|queue| - 1]}
  }

  function TurnAll(queue: seq<nat>): seq<Event> {
    seq(|queue|, i requires 0 <= i < |queue| => TurnedAway(queue[i]))
  }

  function IdleClosed(s: State): State {
    s.(idle := [], total := s.total - |s.idle|, dead := s.dead + Clients(s.idle),
       idleTimers := s.idleTimers - TimedIdle(s.idle))
  }

  function WaitersTurned(s: State): State {
    s.(waitQueue := [], waitTimers := s.waitTimers - Members(s.waitQueue), log := s.log + TurnAll(s.waitQueue))
  }

  /** What `drain` and `close` do to the health checks, the idle connections and the waiters. */
  function Emptied(s: State): State {
    WaitersTurned(IdleClosed(s.(health := false)))
  }

  function Finish(s: State): State {
    s.(draining := false, closed := true, log := s.log + [Drained(s.total)])
  }

  /** The call of `drain`. A call during another drain resolves at once. */
  function Drain(s: State): State {
    if s.draining then s.(log := s.log + [AlreadyDraining(s.total)])
    else
      var s' := Emptied(s.(draining := true));
      if s'.active > 0 then s' else Finish(s')
  }

  /** The poll of a drain that is waiting. */
  function DrainPoll(s: State): State {
    if s.draining && s.active <= 0 then Finish(s) else s
  }

  function Close(s: State): State {
    Emptied(s.(closed := true))
  }

  // ---------- runs ----------

  datatype Step =
    | DoAcquire
    | DoConnected(attempt: nat)
    | DoConnectFailed(attempt: nat)
    | DoRelease(client: nat)
    | DoWaiterTimer(waiter: nat)
    | DoIdleTimer(client: nat)
    | DoHealthTick
    | DoWarmup
    | DoWarmed(attempt: nat)
    | DoWarmFailed(attempt: nat)
    | DoDisconnect(client: nat)
    | DoDrain
    | DoDrainPoll
    | DoClose

  /** A step that is not possible in a state changes nothing: only checked-out clients are released, only
      armed timers go off, only attempts under way end. */
  function Apply(c: Config, s: State, step: Step): State {
    match step
    case DoAcquire => Acquire(c, s).0
    case DoConnected(attempt) => if attempt in s.creating then Connected(s, attempt) else s
    case DoConnectFailed(attempt) => if attempt in s.creating then ConnectFailed(s, attempt) else s
    case DoRelease(client) => if client in s.out then Release(c, s, client) else s
    case DoWaiterTimer(waiter) => if waiter in s.waitTimers then WaiterTimedOut(s, waiter) else s
    case DoIdleTimer(client) => if client in s.idleTimers then IdleTimedOut(s, client) else s
    case DoHealthTick => if s.health then HealthTick(c, s) else s
    case DoWarmup => Warmup(c, s)
    case DoWarmed(attempt) => if attempt in s.warming then Warmed(c, s, attempt) else s
    case DoWarmFailed(attempt) => s.(warming := s.warming - {attempt})
    case DoDisconnect(client) => s.(dead := s.dead + {client})
    case DoDrain => Drain(s)
    case DoDrainPoll => DrainPoll(s)
    case DoClose => Close(s)
  }

  function Run(c: Config, s: State, steps: seq<Step>): State
    decreases |steps|
  {
    if steps == [] then s else Run(c, Apply(c, s, steps[0]), steps[1..])
  }

  // ---------- the invariant ----------

  /** The connections the warm-up has added are in the books of nobody. */
  ghost predicate Accounting(s: State) {
    |s.idle| + s.active == s.total + s.warmed && s.active == |s.out| + |s.creating|
  }

  /** Each connection has one owner: it is idle once, or checked out once. */
  ghost predicate Owned(idle: seq<Idle>, out: set<nat>, nextId: nat) {
    && (forall i :: 0 <= i < |idle| ==> idle[i].client < nextId && idle[i].client !in out)
    && (forall i, j :: 0 <= i < j < |idle| ==> idle[i].client != idle[j].client)
  }

  ghost predicate Below(ids: set<nat>, nextId: nat) {
    forall x :: x in ids ==> x < nextId
  }

  ghost predicate Owners(s: State) {
    && Owned(s.idle, s.out, s.nextId) && Below(s.out, s.nextId) && Below(s.creating, s.nextId)
    && s.idleTimers <= TimedIdle(s.idle)
  }

  ghost predicate Increasing(q: seq<nat>) {
    forall i, j :: 0 <= i < j < |q| ==> q[i] < q[j]
  }

  /** The waiters served so far, in order. */
  function Served(log: seq<Event>): seq<nat> {
    if log == [] then []
    else
      var last := log[|log| - 1];
      var before := Served(log[..|log| - 1]);
      if last.Handed? then before + [last.waiter] else before
  }

  /** Waiters are served in the order of their arrival: those served come in increasing order, and
      before everyone who is still waiting. */
  ghost predicate Fair(served: seq<nat>, queue: seq<nat>, nextId: nat) {
    && Increasing(served + queue)
    && (forall i :: 0 <= i < |served + queue| ==> (served + queue)[i] < nextId)
  }

  ghost predicate Waiters(s: State) {
    && s.waitTimers <= Members(s.waitQueue)
    && Fair(Served(s.log), s.waitQueue, s.nextId)
    && (s.closed || s.draining ==> s.waitQueue == [])
  }

  predicate NoWarmup(c: Config) { c.minSize <= 0 || c.maxSize <= 0 }

  ghost predicate Limits(c: Config, s: State) {
    && s.total <= (if c.maxSize > 0 then c.maxSize else 0)
    && (NoWarmup(c) ==> s.warmed == 0 && s.warming == {})
  }

  /** What holds in every pool. */
  ghost predicate Books(c: Config, s: State) {
    Accounting(s) && Owners(s) && Waiters(s) && Limits(c, s)
  }

  /** A drain that resolves after draining leaves no connection. */
  ghost predicate DrainedDry(log: seq<Event>) {
    forall i :: 0 <= i < |log| && log[i].Drained? ==> log[i].total == 0
  }

  /** What holds besides when nothing is warmed up: nobody waits while a connection is idle, and a closed or
      draining pool has no idle connection. */
  ghost predicate Gates(s: State) {
    && (s.waitQueue != [] ==> s.idle == [])
    && (s.closed || s.draining ==> s.idle == [])
    && DrainedDry(s.log)
  }

  // ---------- each step keeps the invariant ----------

  lemma ServedSnoc(log: seq<Event>, e: Event)
    ensures Served(log + [e]) == if e.Handed? then Served(log) + [e.waiter] else Served(log)
  {
    assert (log + [e])[..|log|] == log;
  }

  lemma {:induction false} ServedTurned(log: seq<Event>, queue: seq<nat>)
    ensures Served(log + TurnAll(queue)) == Served(log)
  {
    if queue == [] {
      assert log + TurnAll(queue) == log;
    } else {
      var n := |queue| - 1;
      ServedTurned(log, queue[..n]);
      ServedSnoc(log + TurnAll(queue[..n]), TurnedAway(queue[n]));
      assert log + TurnAll(queue) == log + TurnAll(queue[..n]) + [TurnedAway(queue[n])];
    }
  }

  lemma {:induction false} TimedAt(idle: seq<Idle>, x: nat) returns (i: nat)
    requires x in TimedIdle(idle)
    ensures i < |idle| && idle[i] == Idle(x, true)
  {
    var n := |idle| - 1;
    if idle[n] == Idle(x, true) {
      i := n;
    } else {
      i := TimedAt(idle[..n], x);
    }
  }

  lemma {:induction false} TimedHas(idle: seq<Idle>, i: nat)
    requires i < |idle| && idle[i].timed
    ensures idle[i].client in TimedIdle(idle)
  {
    if i < |idle| - 1 {
      TimedHas(idle[..|idle| - 1], i);
    }
  }

  lemma {:induction false} MembersIff(queue: seq<nat>, x: nat)
    ensures x in Members(queue) <==> x in queue
  {
    if queue != [] {
      MembersIff(queue[..|queue| - 1], x);
      assert queue == queue[..|queue| - 1] + [queue[|queue| - 1]];
    }
  }

  /** The last idle entry leaves the list. */
  lemma PopOwned(idle: seq<Idle>, out: set<nat>, nextId: nat, timers: set<nat>)
    requires idle != [] && Owned(idle, out, nextId) && timers <= TimedIdle(idle)
    ensures
      var (rest, e) := (idle[..|idle| - 1], idle[|idle| - 1]);
      && Owned(rest, out, nextId) && Owned(rest, out + {e.client}, nextId) && e.client !in out && e.client < nextId
      && ClearIdle(timers, e) <= TimedIdle(rest)
  {}

  lemma PopBooks(c: Config, s: State)
    requires Books(c, s) && s.idle != []
    ensures
      var (e, s') := (s.idle[|s.idle| - 1], WithoutLast(s));
      Books(c, Destroy(s', e.client)) && Books(c, s'.(active := s.active + 1, out := s.out + {e.client}))
  {
    PopOwned(s.idle, s.out, s.nextId, s.idleTimers);
    var e := s.idle[|s.idle| - 1];
    assert |s.out + {e.client}| == |s.out| + 1;
  }

  lemma {:induction false} TakeIdleBooks(c: Config, s: State)
    requires Books(c, s)
    ensures Books(c, TakeIdle(s).0)
    decreases |s.idle|
  {
    if s.idle != [] {
      PopBooks(c, s);
      var e := s.idle[|s.idle| - 1];
      if e.client in s.dead {
        TakeIdleBooks(c, Destroy(WithoutLast(s), e.client));
      }
    }
  }

  /** Only the idle list is looked at. */
  lemma {:induction false} TakeIdleFrame(s: State)
    ensures
      var (s', client) := TakeIdle(s);
      && s'.waitQueue == s.waitQueue && s'.closed == s.closed && s'.draining == s.draining && s'.log == s.log
      && |s'.idle| <= |s.idle| && (client.None? ==> s'.idle == []) && s'.total <= s.total
    decreases |s.idle|
  {
    if s.idle != [] {
      var e := s.idle[|s.idle| - 1];
      if e.client in s.dead {
        TakeIdleFrame(Destroy(WithoutLast(s), e.client));
      }
    }
  }

  lemma FairMore(served: seq<nat>, queue: seq<nat>, nextId: nat, more: nat)
    requires Fair(served, queue, nextId) && nextId <= more
    ensures Fair(served, queue, more)
  {}

  lemma FairJoin(served: seq<nat>, queue: seq<nat>, nextId: nat)
    requires Fair(served, queue, nextId)
    ensures Fair(served, queue + [nextId], nextId + 1)
  {
    assert served + (queue + [nextId]) == (served + queue) + [nextId];
  }

  lemma WaitersMore(s: State, s': State)
    requires Waiters(s) && s.nextId <= s'.nextId && s'.waitQueue == s.waitQueue && Served(s'.log) == Served(s.log)
    requires s'.waitTimers <= s.waitTimers && (s'.closed || s'.draining ==> s.closed || s.draining)
    ensures Waiters(s')
  {
    FairMore(Served(s.log), s.waitQueue, s.nextId, s'.nextId);
  }

  lemma ConnectBooks(c: Config, s: State)
    requires Books(c, s) && s.total < c.maxSize
    ensures Books(c, ConnectOrWait(c, s).0)
  {
    WaitersMore(s, ConnectOrWait(c, s).0);
    assert s.nextId !in s.creating && |s.creating + {s.nextId}| == |s.creating| + 1;
  }

  lemma WaitBooks(c: Config, s: State)
    requires Books(c, s) && s.total >= c.maxSize && !s.closed && !s.draining
    ensures Books(c, ConnectOrWait(c, s).0)
  {
    FairJoin(Served(s.log), s.waitQueue, s.nextId);
    assert (s.waitQueue + [s.nextId])[..|s.waitQueue|] == s.waitQueue;
  }

  lemma AcquireBooks(c: Config, s: State)
    requires Books(c, s)
    ensures Books(c, Acquire(c, s).0)
  {
    TakeIdleBooks(c, s);
    TakeIdleFrame(s);
    if !s.closed && !s.draining && TakeIdle(s).1.None? {
      if TakeIdle(s).0.total < c.maxSize {
        ConnectBooks(c, TakeIdle(s).0);
      } else {
        WaitBooks(c, TakeIdle(s).0);
      }
    }
  }

  lemma ConnectedBooks(c: Config, s: State, attempt: nat)
    requires Books(c, s) && attempt in s.creating
    ensures Books(c, Connected(s, attempt))
  {
    WaitersMore(s, Connected(s, attempt));
    assert s.nextId !in s.out;
    assert |s.out + {s.nextId}| == |s.out| + 1 && |s.creating - {attempt}| == |s.creating| - 1;
  }

  lemma FailedBooks(c: Config, s: State, attempt: nat)
    requires Books(c, s) && attempt in s.creating
    ensures Books(c, ConnectFailed(s, attempt))
  {
    WaitersMore(s, ConnectFailed(s, attempt));
    assert |s.creating - {attempt}| == |s.creating| - 1;
  }

  lemma PushOwned(c: Config, s: State, client: nat)
    requires Owned(s.idle, s.out, s.nextId) && s.idleTimers <= TimedIdle(s.idle)
    requires client < s.nextId && client !in s.out && forall i :: 0 <= i < |s.idle| ==> s.idle[i].client != client
    ensures
      var s' := PutIdle(c, s, client);
      Owned(s'.idle, s.out, s.nextId) && s'.idleTimers <= TimedIdle(s'.idle)
  {
    var s' := PutIdle(c, s, client);
    assert s'.idle[..|s.idle|] == s.idle;
  }

  lemma FairServe(served: seq<nat>, queue: seq<nat>, nextId: nat)
    requires Fair(served, queue, nextId) && queue != []
    ensures Fair(served + [queue[0]], queue[1..], nextId)
  {
    assert served + [queue[0]] + queue[1..] == served + queue;
  }

  lemma InCut(queue: seq<nat>, i: nat, x: nat)
    requires i < |queue| && x in queue && x != queue[i]
    ensures x in queue[..i] + queue[i + 1..]
  {
    var j :| 0 <= j < |queue| && queue[j] == x;
    assert (queue[..i] + queue[i + 1..])[if j < i then j else j - 1] == x;
  }

  lemma MembersTail(queue: seq<nat>, i: nat, timers: set<nat>)
    requires i < |queue| && timers <= Members(queue)
    ensures timers - {queue[i]} <= Members(queue[..i] + queue[i + 1..])
  {
    var rest := queue[..i] + queue[i + 1..];
    forall x | x in timers - {queue[i]} ensures x in Members(rest) {
      MembersIff(queue, x);
      InCut(queue, i, x);
      MembersIff(rest, x);
    }
  }

  lemma MembersRest(queue: seq<nat>, timers: set<nat>)
    requires queue != [] && timers <= Members(queue)
    ensures timers - {queue[0]} <= Members(queue[1..])
  {
    MembersTail(queue, 0, timers);
    assert queue[..0] + queue[1..] == queue[1..];
  }

  lemma LogDry(log: seq<Event>, e: Event)
    requires DrainedDry(log) && (e.Drained? ==> e.total == 0)
    ensures DrainedDry(log + [e])
  {}

  lemma HandOverWaiters(s: State, client: nat)
    requires Waiters(s) && s.waitQueue != []
    ensures
      var waiter := s.waitQueue[0];
      Waiters(s.(waitQueue := s.waitQueue[1..], waitTimers := s.waitTimers - {waiter}, log := s.log + [Handed(waiter, client)]))
  {
    var waiter := s.waitQueue[0];
    ServedSnoc(s.log, Handed(waiter, client));
    FairServe(Served(s.log), s.waitQueue, s.nextId);
    MembersRest(s.waitQueue, s.waitTimers);
  }

  lemma ReleaseIdle(c: Config, s: State, client: nat)
    requires Books(c, s) && client in s.out
    ensures Books(c, PutIdle(c, s.(active := s.active - 1, out := s.out - {client}), client))
  {
    var s' := s.(active := s.active - 1, out := s.out - {client});
    assert |s.out - {client}| == |s.out| - 1;
    PushOwned(c, s', client);
    WaitersMore(s, PutIdle(c, s', client));
  }

  lemma ReleaseDestroys(c: Config, s: State, client: nat)
    requires Books(c, s) && client in s.out
    ensures Books(c, Destroy(s.(active := s.active - 1, out := s.out - {client}), client))
  {
    assert |s.out - {client}| == |s.out| - 1;
    WaitersMore(s, Destroy(s.(active := s.active - 1, out := s.out - {client}), client));
  }

  lemma ReleaseBooks(c: Config, s: State, client: nat)
    requires Books(c, s) && client in s.out
    ensures Books(c, Release(c, s, client))
  {
    if s.closed || s.draining || client in s.dead {
      ReleaseDestroys(c, s, client);
    } else if s.waitQueue != [] {
      HandOverWaiters(s, client);
      assert s.out - {client} + {client} == s.out;
    } else {
      ReleaseIdle(c, s, client);
    }
  }

  lemma FairLeave(served: seq<nat>, queue: seq<nat>, nextId: nat, i: nat)
    requires Fair(served, queue, nextId) && i < |queue|
    ensures Fair(served, queue[..i] + queue[i + 1..], nextId)
  {
    var (a, b) := (served + queue, served + (queue[..i] + queue[i + 1..]));
    var k := |served| + i;
    assert forall j :: 0 <= j < |b| ==> b[j] == a[if j < k then j else j + 1];
  }

  lemma WaiterLeaves(s: State, waiter: nat)
    requires Waiters(s) && waiter in s.waitTimers
    ensures Waiters(WaiterTimedOut(s, waiter))
  {
    MembersIff(s.waitQueue, waiter);
    var i := IndexOf(s.waitQueue, waiter);
    ServedSnoc(s.log, TurnedAway(waiter));
    FairLeave(Served(s.log), s.waitQueue, s.nextId, i);
    MembersTail(s.waitQueue, i, s.waitTimers);
    WaiterCut(s, waiter, i);
  }

  lemma WaiterCut(s: State, waiter: nat, i: nat)
    requires IndexOf(s.waitQueue, waiter) == i
    ensures
      var s' := WaiterTimedOut(s, waiter);
      s'.waitQueue == s.waitQueue[..i] + s.waitQueue[i + 1..] && s'.waitTimers == s.waitTimers - {s.waitQueue[i]}
  {}

  lemma WaiterTimerBooks(c: Config, s: State, waiter: nat)
    requires Books(c, s) && waiter in s.waitTimers
    ensures Books(c, WaiterTimedOut(s, waiter))
  {
    WaiterLeaves(s, waiter);
  }

  /** The entry at position `i` leaves the idle list. */
  lemma {:induction false} DropOwned(idle: seq<Idle>, i: nat, out: set<nat>, nextId: nat)
    requires i < |idle| && Owned(idle, out, nextId)
    ensures
      var rest := idle[..i] + idle[i + 1..];
      Owned(rest, out, nextId) && TimedIdle(idle) - {idle[i].client} <= TimedIdle(rest)
  {
    var rest := idle[..i] + idle[i + 1..];
    assert forall j :: 0 <= j < |rest| ==> rest[j] == idle[if j < i then j else j + 1];
    forall x | x in TimedIdle(idle) - {idle[i].client} ensures x in TimedIdle(rest) {
      var j := TimedAt(idle, x);
      TimedHas(rest, if j < i then j else j - 1);
    }
  }

  lemma IdleLeaves(s: State, client: nat)
    requires Owners(s) && client in s.idleTimers
    ensures Owners(IdleTimedOut(s, client))
    ensures Where(s.idle, client) != -1 && |IdleTimedOut(s, client).idle| == |s.idle| - 1
  {
    var j := TimedAt(s.idle, client);
    var i := Where(s.idle, client);
    assert i != -1;
    DropOwned(s.idle, i, s.out, s.nextId);
  }

  lemma IdleTimerBooks(c: Config, s: State, client: nat)
    requires Books(c, s) && client in s.idleTimers
    ensures Books(c, IdleTimedOut(s, client)) && Where(s.idle, client) != -1
  {
    IdleLeaves(s, client);
    WaitersMore(s, IdleTimedOut(s, client));
  }

  lemma {:induction false} AliveIn(idle: seq<Idle>, dead: set<nat>)
    ensures forall e :: e in Alive(idle, dead) ==> e in idle
    ensures |Alive(idle, dead)| <= |idle|
  {
    if idle != [] {
      AliveIn(idle[..|idle| - 1], dead);
      assert idle == idle[..|idle| - 1] + [idle[|idle| - 1]];
    }
  }

  lemma AliveApart(idle: seq<Idle>, dead: set<nat>)
    requires idle != [] && Apart(idle[..|idle| - 1], idle[|idle| - 1].client)
    ensures Apart(Alive(idle[..|idle| - 1], dead), idle[|idle| - 1].client)
  {
    var before := Alive(idle[..|idle| - 1], dead);
    AliveIn(idle[..|idle| - 1], dead);
    forall i | 0 <= i < |before| ensures before[i].client != idle[|idle| - 1].client {
      assert before[i] in before;
    }
  }

  lemma {:induction false} AliveOwned(idle: seq<Idle>, dead: set<nat>, out: set<nat>, nextId: nat)
    requires Owned(idle, out, nextId)
    ensures Owned(Alive(idle, dead), out, nextId)
  {
    if idle != [] {
      var before, e := Alive(idle[..|idle| - 1], dead), idle[|idle| - 1];
      AliveOwned(idle[..|idle| - 1], dead, out, nextId);
      AliveApart(idle, dead);
      OwnedSnoc(before, e, out, nextId);
    }
  }

  predicate Apart(idle: seq<Idle>, client: nat) { forall i :: 0 <= i < |idle| ==> idle[i].client != client }

  lemma OwnedSnoc(idle: seq<Idle>, e: Idle, out: set<nat>, nextId: nat)
    requires Owned(idle, out, nextId) && Apart(idle, e.client) && e.client < nextId && e.client !in out
    ensures Owned(idle + [e], out, nextId)
  {}

  lemma {:induction false} AliveTimed(idle: seq<Idle>, dead: set<nat>)
    ensures TimedIdle(idle) - TimedDead(idle, dead) <= TimedIdle(Alive(idle, dead))
  {
    if idle != [] {
      var n := |idle| - 1;
      AliveTimed(idle[..n], dead);
      if idle[n].client !in dead {
        assert Alive(idle, dead)[..|Alive(idle[..n], dead)|] == Alive(idle[..n], dead);
      }
    }
  }

  lemma SweptBooks(c: Config, s: State)
    requires Books(c, s)
    ensures Books(c, Swept(s))
  {
    AliveIn(s.idle, s.dead);
    AliveOwned(s.idle, s.dead, s.out, s.nextId);
    AliveTimed(s.idle, s.dead);
    WaitersMore(s, Swept(s));
  }

  lemma WarmupBooks(c: Config, s: State)
    requires Books(c, s)
    ensures Books(c, Warmup(c, s))
  {
    WaitersMore(s, Warmup(c, s));
  }

  lemma HealthBooks(c: Config, s: State)
    requires Books(c, s)
    ensures Books(c, HealthTick(c, s))
  {
    SweptBooks(c, s);
    WarmupBooks(c, Swept(s));
  }

  /** A connection of the warm-up becomes idle without being counted. */
  lemma WarmedBooks(c: Config, s: State, attempt: nat)
    requires Books(c, s) && attempt in s.warming
    ensures Books(c, Warmed(c, s, attempt))
  {
    var s' := s.(warming := s.warming - {attempt}, nextId := s.nextId + 1, warmed := s.warmed + 1);
    PushOwned(c, s', s.nextId);
    WaitersMore(s, Warmed(c, s, attempt));
  }

  lemma EmptiedBooks(c: Config, s: State, s0: State)
    requires Books(c, s0) && s == s0.(closed := s.closed, draining := s.draining)
    ensures Books(c, Emptied(s)) && Emptied(s).total == s.active - s.warmed
  {
    ServedTurned(s.log, s.waitQueue);
    var served := Served(s.log);
    assert served + [] == served;
    assert forall i :: 0 <= i < |served| ==> served[i] == (served + s.waitQueue)[i];
  }

  lemma LogBooks(c: Config, s: State, s': State, e: Event)
    requires Books(c, s) && !e.Handed? && s' == s.(closed := s'.closed, draining := s'.draining, log := s.log + [e])
    requires s'.closed || s'.draining ==> s.waitQueue == []
    ensures Books(c, s')
  {
    ServedSnoc(s.log, e);
  }

  lemma DrainBooks(c: Config, s: State)
    requires Books(c, s)
    ensures Books(c, Drain(s))
  {
    if s.draining {
      LogBooks(c, s, Drain(s), AlreadyDraining(s.total));
    } else {
      var s' := Emptied(s.(draining := true));
      EmptiedBooks(c, s.(draining := true), s);
      if s'.active <= 0 {
        LogBooks(c, s', Finish(s'), Drained(s'.total));
      }
    }
  }

  lemma DrainPollBooks(c: Config, s: State)
    requires Books(c, s)
    ensures Books(c, DrainPoll(s))
  {
    if s.draining && s.active <= 0 {
      LogBooks(c, s, Finish(s), Drained(s.total));
    }
  }

  lemma AcquireStepBooks(c: Config, s: State, step: Step)
    requires Books(c, s) && (step.DoAcquire? || step.DoConnected? || step.DoConnectFailed? || step.DoRelease?)
    ensures Books(c, Apply(c, s, step))
  {
    match step {
      case DoAcquire => AcquireBooks(c, s);
      case DoConnected(attempt) => if attempt in s.creating { ConnectedBooks(c, s, attempt); }
      case DoConnectFailed(attempt) => if attempt in s.creating { FailedBooks(c, s, attempt); }
      case DoRelease(client) => if client in s.out { ReleaseBooks(c, s, client); }
    }
  }

  lemma WaiterTimerStep(c: Config, s: State, waiter: nat)
    requires Books(c, s)
    ensures Books(c, Apply(c, s, DoWaiterTimer(waiter)))
  {
    if waiter in s.waitTimers {
      WaiterTimerBooks(c, s, waiter);
    }
  }

  lemma IdleTimerStep(c: Config, s: State, client: nat)
    requires Books(c, s)
    ensures Books(c, Apply(c, s, DoIdleTimer(client)))
  {
    if client in s.idleTimers {
      IdleTimerBooks(c, s, client);
    }
  }

  lemma HealthStep(c: Config, s: State)
    requires Books(c, s)
    ensures Books(c, Apply(c, s, DoHealthTick))
  {
    if s.health {
      HealthBooks(c, s);
    }
  }

  lemma WarmedStep(c: Config, s: State, attempt: nat)
    requires Books(c, s)
    ensures Books(c, Apply(c, s, DoWarmed(attempt)))
  {
    if attempt in s.warming {
      WarmedBooks(c, s, attempt);
    }
  }

  lemma DisconnectBooks(c: Config, s: State, client: nat)
    requires Books(c, s)
    ensures Books(c, s.(dead := s.dead + {client}))
  {}

  lemma WarmFailedBooks(c: Config, s: State, attempt: nat)
    requires Books(c, s)
    ensures Books(c, s.(warming := s.warming - {attempt}))
  {}

  /** Each step keeps the books, with any minimum size. */
  lemma ApplyBooks(c: Config, s: State, step: Step)
    requires Books(c, s)
    ensures Books(c, Apply(c, s, step))
  {
    match step {
      case DoDrain => DrainBooks(c, s);
      case DoDrainPoll => DrainPollBooks(c, s);
      case DoClose => EmptiedBooks(c, s.(closed := true), s);
      case DoAcquire => AcquireStepBooks(c, s, step);
      case DoConnected(_) => AcquireStepBooks(c, s, step);
      case DoConnectFailed(_) => AcquireStepBooks(c, s, step);
      case DoRelease(_) => AcquireStepBooks(c, s, step);
      case DoWaiterTimer(waiter) => WaiterTimerStep(c, s, waiter);
      case DoIdleTimer(client) => IdleTimerStep(c, s, client);
      case DoHealthTick => HealthStep(c, s);
      case DoWarmup => WarmupBooks(c, s);
      case DoWarmed(attempt) => WarmedStep(c, s, attempt);
      case DoWarmFailed(attempt) => WarmFailedBooks(c, s, attempt);
      case DoDisconnect(client) => DisconnectBooks(c, s, client);
    }
  }

  // ---------- the gates of a pool that does not warm up ----------

  lemma AcquireGates(c: Config, s: State)
    requires Gates(s)
    ensures Gates(Acquire(c, s).0)
  {
    TakeIdleFrame(s);
    assert |TakeIdle(s).0.idle| == 0 ==> TakeIdle(s).0.idle == [];
  }

  lemma {:induction false} TurnedDry(log: seq<Event>, queue: seq<nat>)
    requires DrainedDry(log)
    ensures DrainedDry(log + TurnAll(queue))
  {}

  lemma DrainGates(c: Config, s: State)
    requires Gates(s) && Books(c, s) && s.warmed == 0
    ensures Gates(Drain(s)) && Gates(DrainPoll(s))
  {
    if s.draining {
      LogDry(s.log, AlreadyDraining(s.total));
    }
    TurnedDry(s.log, s.waitQueue);
    if s.active <= 0 {
      EmptiedBooks(c, s.(draining := true), s);
      LogDry(Emptied(s.(draining := true)).log, Drained(0));
      LogDry(s.log, Drained(0));
    }
  }

  lemma HealthGates(c: Config, s: State)
    requires Gates(s)
    ensures Gates(HealthTick(c, s))
  {
    AliveIn(s.idle, s.dead);
  }

  lemma ReleaseGates(c: Config, s: State, client: nat)
    requires Gates(s)
    ensures Gates(Release(c, s, client))
  {
    if s.waitQueue != [] {
      LogDry(s.log, Handed(s.waitQueue[0], client));
    }
  }

  lemma WaiterTimerGates(s: State, waiter: nat)
    requires Gates(s)
    ensures Gates(WaiterTimedOut(s, waiter))
  {
    LogDry(s.log, TurnedAway(waiter));
  }

  lemma IdleTimerGates(s: State, client: nat)
    requires Gates(s)
    ensures Gates(IdleTimedOut(s, client))
  {}

  lemma CloseGates(s: State)
    requires Gates(s)
    ensures Gates(Close(s))
  {
    TurnedDry(s.log, s.waitQueue);
  }

  lemma ApplyGates(c: Config, s: State, step: Step)
    requires Gates(s) && Books(c, s) && NoWarmup(c)
    ensures Gates(Apply(c, s, step))
  {
    match step {
      case DoAcquire => AcquireGates(c, s);
      case DoRelease(client) => ReleaseGates(c, s, client);
      case DoWaiterTimer(waiter) => WaiterTimerGates(s, waiter);
      case DoIdleTimer(client) => IdleTimerGates(s, client);
      case DoHealthTick => HealthGates(c, s);
      case DoDrain => DrainGates(c, s);
      case DoDrainPoll => DrainGates(c, s);
      case DoClose => CloseGates(s);
      case _ =>
    }
  }

  // ---------- runs ----------

  lemma {:induction false} RunBooks(c: Config, s: State, steps: seq<Step>)
    requires Books(c, s)
    ensures Books(c, Run(c, s, steps))
    decreases |steps|
  {
    if steps != [] {
      ApplyBooks(c, s, steps[0]);
      RunBooks(c, Apply(c, s, steps[0]), steps[1..]);
    }
  }

  lemma {:induction false} RunGates(c: Config, s: State, steps: seq<Step>)
    requires Books(c, s) && Gates(s) && NoWarmup(c)
    ensures Gates(Run(c, s, steps))
    decreases |steps|
  {
    if steps != [] {
      ApplyBooks(c, s, steps[0]);
      ApplyGates(c, s, steps[0]);
      RunGates(c, Apply(c, s, steps[0]), steps[1..]);
    }
  }

  lemma InitialBooks(c: Config)
    ensures Books(c, INITIAL) && Gates(INITIAL)
  {}

  /** In every run of every pool: idle + checked out + being created = total + the connections warmed up, and
      total is at most maxSize; no connection has two owners; waiters are served in order of arrival; a closed
      or draining pool has no waiters; every armed timer belongs to an idle connection or a waiter. Without a
      minimum size, nobody waits while a connection is idle, a closed or draining pool has no idle
      connection, and a drain that resolves leaves none at all. */
  lemma PoolInvariant(c: Config, steps: seq<Step>)
    ensures Books(c, Run(c, INITIAL, steps))
    ensures NoWarmup(c) ==> Gates(Run(c, INITIAL, steps))
  {
    InitialBooks(c);
    RunBooks(c, INITIAL, steps);
    if NoWarmup(c) {
      RunGates(c, INITIAL, steps);
    }
  }

  ghost predicate BalancedAfter(c: Config, steps: seq<Step>) {
    var s := Run(c, INITIAL, steps);
    |s.idle| + s.active == s.total
  }

  lemma WarmupUnbalances(c: Config)
    requires !NoWarmup(c)
    ensures !BalancedAfter(c, [DoWarmup, DoWarmed(0)])
  {
    var s := Apply(c, INITIAL, DoWarmup);
    FirstNumber(if c.minSize < c.maxSize then c.minSize else c.maxSize);
    var steps := [DoWarmup, DoWarmed(0)];
    assert steps[1..] == [DoWarmed(0)];
    assert Run(c, s, [DoWarmed(0)]) == Run(c, Apply(c, s, DoWarmed(0)), []);
    var end := Run(c, INITIAL, steps);
    assert |end.idle| == 1 && end.total == end.active == 0;
  }

  /** total counts all connections in every run exactly when the warm-up has nothing to do: it puts connections
      into the idle list without counting them. */
  lemma BalancedIffNoWarmup(c: Config)
    ensures (forall steps :: BalancedAfter(c, steps)) <==> NoWarmup(c)
  {
    if NoWarmup(c) {
      forall steps ensures BalancedAfter(c, steps) {
        PoolInvariant(c, steps);
      }
    } else {
      WarmupUnbalances(c);
    }
  }

  lemma {:induction false} FirstNumber(n: nat)
    requires n > 0
    ensures 0 in Numbers(0, n)
  {
    if n > 1 {
      FirstNumber(n - 1);
    }
  }

  // ---------- waiters that are forgotten ----------

  /** Nobody waits although there is room for another connection. */
  ghost predicate Full(c: Config, s: State) {
    s.waitQueue != [] ==> s.total >= c.maxSize
  }

  /** How many dead idle connections an `acquire` finds and destroys. */
  function DeadFound(s: State): int { s.total - TakeIdle(s).0.total }

  /** Steps that free more places than they fill while somebody waits: a failed attempt, the release of a dead
      client; and beside idle connections of the warm-up, an idle timer, a health check that finds a dead one,
      an `acquire` that finds more dead ones than it replaces. */
  predicate Forgets(s: State, step: Step) {
    && s.waitQueue != []
    && match step
       case DoConnectFailed(attempt) => attempt in s.creating
       case DoRelease(client) => client in s.out && client in s.dead
       case DoIdleTimer(client) => client in s.idleTimers
       case DoHealthTick => s.health && Alive(s.idle, s.dead) != s.idle
       case DoAcquire => DeadFound(s) > (if TakeIdle(s).1.None? then 1 else 0)
       case _ => false
  }

  lemma {:induction false} AliveAll(idle: seq<Idle>, dead: set<nat>)
    ensures |Alive(idle, dead)| == |idle| <==> Alive(idle, dead) == idle
  {
    if idle != [] {
      AliveIn(idle[..|idle| - 1], dead);
      AliveAll(idle[..|idle| - 1], dead);
      assert idle == idle[..|idle| - 1] + [idle[|idle| - 1]];
    }
  }

  /** While somebody waits the pool is open, and all its places are taken. */
  lemma WaitingFull(c: Config, s: State)
    requires Books(c, s) && Full(c, s) && s.waitQueue != []
    ensures !s.closed && !s.draining && (c.maxSize >= 0 ==> s.total == c.maxSize)
    ensures c.maxSize < 0 ==> s.total == 0 && s.idle == [] && s.out == {} && s.creating == {} && s.idleTimers == {}
  {
    if c.maxSize < 0 {
      assert |s.out| == 0 && |s.creating| == 0 && |s.idle| == 0;
      assert TimedIdle([]) == {};
    }
  }

  lemma AcquireForgets(c: Config, s: State)
    requires Books(c, s) && Full(c, s)
    ensures Full(c, Acquire(c, s).0) <==> !Forgets(s, DoAcquire)
  {
    TakeIdleFrame(s);
    if s.waitQueue != [] {
      WaitingFull(c, s);
    }
  }

  lemma HealthForgets(c: Config, s: State)
    requires Books(c, s) && Full(c, s) && s.health
    ensures Full(c, HealthTick(c, s)) <==> !Forgets(s, DoHealthTick)
  {
    AliveIn(s.idle, s.dead);
    AliveAll(s.idle, s.dead);
    if s.waitQueue != [] {
      WaitingFull(c, s);
    }
  }

  lemma IdleTimerForgets(c: Config, s: State, client: nat)
    requires Books(c, s) && Full(c, s) && client in s.idleTimers
    ensures Full(c, IdleTimedOut(s, client)) <==> s.waitQueue == []
  {
    IdleLeaves(s, client);
    if s.waitQueue != [] {
      WaitingFull(c, s);
    }
  }

  lemma CallerForgets(c: Config, s: State, step: Step)
    requires Books(c, s) && Full(c, s) && (step.DoConnectFailed? || step.DoRelease?)
    ensures Full(c, Apply(c, s, step)) <==> !Forgets(s, step)
  {
    if s.waitQueue != [] {
      WaitingFull(c, s);
    }
  }

  /** Waiters are left waiting beside a free place exactly when such a step happens. */
  lemma FullUnlessForgotten(c: Config, s: State, step: Step)
    requires Books(c, s) && Full(c, s)
    ensures Full(c, Apply(c, s, step)) <==> !Forgets(s, step)
  {
    match step {
      case DoAcquire => AcquireForgets(c, s);
      case DoHealthTick => if s.health { HealthForgets(c, s); }
      case DoIdleTimer(client) => if client in s.idleTimers { IdleTimerForgets(c, s, client); }
      case DoConnectFailed(_) => CallerForgets(c, s, step);
      case DoRelease(_) => CallerForgets(c, s, step);
      case _ =>
    }
  }

  /** A second `drain` during the first resolves at once, with every checked-out connection still there. */
  lemma SecondDrainReturnsEarly(c: Config, s: State)
    requires Books(c, s) && s.draining
    ensures Drain(s) == s.(log := s.log + [AlreadyDraining(|s.idle| + |s.out| + |s.creating| - s.warmed)])
  {}

  lemma RunCons(c: Config, s: State, step: Step, steps: seq<Step>)
    ensures Run(c, s, [step] + steps) == Run(c, Apply(c, s, step), steps)
  {
    assert ([step] + steps)[1..] == steps;
  }

  /** From the start: a client is checked out, and while the first drain waits for it the second reports itself done. */
  lemma SecondDrainLeavesClients(c: Config)
    requires c.maxSize >= 1
    ensures
      var s := Run(c, INITIAL, [DoAcquire, DoConnected(0), DoDrain, DoDrain]);
      s.draining && !s.closed && s.out == {1} && s.total == s.active == 1 && s.log == [AlreadyDraining(1)]
  {
    RunCons(c, INITIAL, DoAcquire, [DoConnected(0), DoDrain, DoDrain]);
    var connecting := Apply(c, INITIAL, DoAcquire);
    RunCons(c, connecting, DoConnected(0), [DoDrain, DoDrain]);
    var connected := Apply(c, connecting, DoConnected(0));
    RunCons(c, connected, DoDrain, [DoDrain]);
    var draining := Apply(c, connected, DoDrain);
    assert draining.log == [] && draining.draining && draining.total == 1;
    RunCons(c, draining, DoDrain, []);
  }

  /** A run that never forgets a waiter. */
  predicate NeverForgets(c: Config, s: State, steps: seq<Step>)
    decreases |steps|
  {
    steps == [] || (!Forgets(s, steps[0]) && NeverForgets(c, Apply(c, s, steps[0]), steps[1..]))
  }

  lemma {:induction false} FullInRuns(c: Config, s: State, steps: seq<Step>)
    requires Books(c, s) && Full(c, s) && NeverForgets(c, s, steps)
    ensures Full(c, Run(c, s, steps))
    decreases |steps|
  {
    if steps != [] {
      ApplyBooks(c, s, steps[0]);
      FullUnlessForgotten(c, s, steps[0]);
      FullInRuns(c, Apply(c, s, steps[0]), steps[1..]);
    }
  }

  /** From the start on, nobody waits beside a free place until a step of that kind happens; and the first such
      step leaves somebody waiting beside one. */
  lemma NobodyForgotten(c: Config, steps: seq<Step>)
    requires NeverForgets(c, INITIAL, steps)
    ensures Full(c, Run(c, INITIAL, steps))
    ensures forall step :: Full(c, Apply(c, Run(c, INITIAL, steps), step)) <==> !Forgets(Run(c, INITIAL, steps), step)
  {
    InitialBooks(c);
    FullInRuns(c, INITIAL, steps);
    RunBooks(c, INITIAL, steps);
    forall step {
      FullUnlessForgotten(c, Run(c, INITIAL, steps), step);
    }
  }
}
