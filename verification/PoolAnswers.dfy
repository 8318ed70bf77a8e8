/** What callers of the pool get. */
module PoolAnswers {
  // What `acquire`, `release`, the timers, the health check and the end of the pool of node/src/pool.js do with the
  // connections, read off the lists before and after; and what no run ever does.

  import opened Pool
  import opened Text
  import opened Wrappers

  // ---------- acquire ----------

  predicate IsLive(s: State, e: Idle) { e.client !in s.dead }

  predicate IsOpen(s: State) { !s.closed && !s.draining }

  /** The last connected entry of the idle list. */
  predicate LastLive(s: State, k: int) {
    0 <= k < |s.idle| && IsLive(s, s.idle[k]) && forall i :: k < i < |s.idle| ==> !IsLive(s, s.idle[i])
  }

  predicate NoneLive(s: State) { forall i :: 0 <= i < |s.idle| ==> !IsLive(s, s.idle[i]) }

  lemma TakeDead(s: State)
    requires s.idle != [] && !IsLive(s, s.idle[|s.idle| - 1])
    ensures
      var s' := Destroy(WithoutLast(s), s.idle[|s.idle| - 1].client);
      TakeIdle(s) == TakeIdle(s') && s'.dead == s.dead && s'.idle == s.idle[..|s.idle| - 1] && s'.total == s.total - 1
      && s'.active == s.active && s'.out == s.out && s'.idleTimers <= s.idleTimers
  {
    assert s.dead + {s.idle[|s.idle| - 1].client} == s.dead;
  }

  lemma {:induction false} TakesLastLive(s: State, k: int)
    requires LastLive(s, k)
    ensures
      var (t, client) := TakeIdle(s);
      && client == Some(s.idle[k].client) && t.idle == s.idle[..k] && t.dead == s.dead
      && t.total == s.total - (|s.idle| - 1 - k) && t.active == s.active + 1 && t.out == s.out + {s.idle[k].client}
      && t.idleTimers <= s.idleTimers && t.log == s.log && t.waitQueue == s.waitQueue
    decreases |s.idle|
  {
    var n := |s.idle| - 1;
    if k < n {
      TakeDead(s);
      var s' := Destroy(WithoutLast(s), s.idle[n].client);
      assert LastLive(s', k);
      TakesLastLive(s', k);
      assert s.idle[..n][..k] == s.idle[..k];
    }
  }

  lemma {:induction false} TakesNone(s: State)
    requires NoneLive(s)
    ensures
      var (t, client) := TakeIdle(s);
      && client == None && t.idle == [] && t.dead == s.dead && t.total == s.total - |s.idle|
      && t.active == s.active && t.out == s.out && t.idleTimers <= s.idleTimers
      && t.log == s.log && t.waitQueue == s.waitQueue && t.waitTimers == s.waitTimers
      && t.creating == s.creating && t.nextId == s.nextId
    decreases |s.idle|
  {
    if s.idle != [] {
      TakeDead(s);
      TakesNone(Destroy(WithoutLast(s), s.idle[|s.idle| - 1].client));
    }
  }

  lemma {:induction false} FindsLastLive(s: State, n: nat) returns (k: int)
    requires n <= |s.idle|
    requires forall i :: n <= i < |s.idle| ==> !IsLive(s, s.idle[i])
    ensures LastLive(s, k) || (k == -1 && NoneLive(s))
  {
    if n == 0 {
      k := -1;
    } else if IsLive(s, s.idle[n - 1]) {
      k := n - 1;
    } else {
      k := FindsLastLive(s, n - 1);
    }
  }

  /** `acquire` refuses exactly when the pool is closed or draining. Otherwise it hands out the last idle connection
      that is connected, if there is one, and only the dead ones behind it are given up; it connects when there is none
      and the dead ones leave room, and else queues last. No connection that was alive dies. */
  lemma AcquireAnswers(c: Config, s: State) returns (k: int)
    ensures
      var (t, answer) := Acquire(c, s);
      && t.dead == s.dead && (answer.Refused? <==> !IsOpen(s)) && (answer.Refused? ==> t == s)
      && (answer.Got? <==> IsOpen(s) && exists i :: 0 <= i < |s.idle| && IsLive(s, s.idle[i]))
      && (answer.Got? ==>
            && LastLive(s, k) && answer.client == s.idle[k].client
            && t.idle == s.idle[..k] && t.out == s.out + {answer.client} && t.active == s.active + 1
            && t.total == s.total - (|s.idle| - 1 - k) && t.waitQueue == s.waitQueue && t.creating == s.creating)
      && (answer.Connecting? <==> IsOpen(s) && NoneLive(s) && s.total - |s.idle| < c.maxSize)
      && (answer.Connecting? ==>
            && t.idle == [] && t.creating == s.creating + {answer.attempt} && t.out == s.out
            && t.active == s.active + 1 && t.total == s.total - |s.idle| + 1 && t.waitQueue == s.waitQueue)
      && (answer.Waiting? <==> IsOpen(s) && NoneLive(s) && s.total - |s.idle| >= c.maxSize)
      && (answer.Waiting? ==>
            && t.idle == [] && t.waitQueue == s.waitQueue + [answer.waiter] && t.out == s.out && t.active == s.active
            && t.waitTimers == s.waitTimers + {answer.waiter} && t.creating == s.creating)
  {
    k := FindsLastLive(s, |s.idle|);
    if IsOpen(s) {
      if LastLive(s, k) {
        TakesLastLive(s, k);
        TakeIdleElsewhere(s);
      } else {
        TakesNone(s);
      }
    }
  }

  lemma {:induction false} TakeIdleElsewhere(s: State)
    ensures TakeIdle(s).0.creating == s.creating && TakeIdle(s).0.nextId == s.nextId
    decreases |s.idle|
  {
    if s.idle != [] && !IsLive(s, s.idle[|s.idle| - 1]) {
      TakeIdleElsewhere(Destroy(WithoutLast(s), s.idle[|s.idle| - 1].client));
    }
  }

  // ---------- release ----------

  /** A connection that comes back to a pool that is over, or comes back dead, is given up; else it goes to the waiter
      that came first, and without waiters to the end of the idle list, to be closed after a while if there are enough
      idle ones already. */
  lemma ReleaseAnswers(c: Config, s: State, client: nat)
    requires client in s.out
    ensures
      var t := Release(c, s, client);
      var lost := !IsOpen(s) || client in s.dead;
      && t.dead == (if lost then s.dead + {client} else s.dead)
      && t.total == s.total - (if lost then 1 else 0)
      && t.active == s.active - (if lost || s.waitQueue == [] then 1 else 0)
      && t.out == (if lost || s.waitQueue == [] then s.out - {client} else s.out)
      && (lost ==> t.idle == s.idle && t.log == s.log && t.waitQueue == s.waitQueue)
      && (!lost && s.waitQueue != [] ==>
            && t.log == s.log + [Handed(s.waitQueue[0], client)] && t.idle == s.idle
            && t.waitQueue == s.waitQueue[1..] && t.waitTimers == s.waitTimers - {s.waitQueue[0]})
      && (!lost && s.waitQueue == [] ==>
            && t.log == s.log && t.waitQueue == []
            && t.idle == s.idle + [Idle(client, c.idleTimeout > 0 && |s.idle| >= c.minSize)]
            && t.idleTimers == s.idleTimers + (if t.idle[|s.idle|].timed then {client} else {}))
  {
    if s.waitQueue != [] {
      assert s.out - {client} + {client} == s.out;
    }
  }

  /** The clients a step hands out: those newly checked out, and those that waiters get. */
  predicate HandsOut(c: Config, s: State, step: Step, client: nat) {
    var t := Apply(c, s, step);
    || (client in t.out && client !in s.out)
    || (|t.log| > |s.log| && t.log[|t.log| - 1].Handed? && t.log[|t.log| - 1].client == client)
  }

  /** In no run does `acquire` or `release` hand out a connection that is dead. */
  lemma NoDeadHandedOut(c: Config, steps: seq<Step>, step: Step, client: nat)
    requires step.DoAcquire? || step.DoRelease?
    requires HandsOut(c, Run(c, INITIAL, steps), step, client)
    ensures client !in Run(c, INITIAL, steps).dead
  {
    var s := Run(c, INITIAL, steps);
    if step.DoAcquire? {
      var k := AcquireAnswers(c, s);
      AcquireLog(c, s);
    } else if step.client in s.out {
      ReleaseAnswers(c, s, step.client);
    }
  }

  lemma AcquireLog(c: Config, s: State)
    ensures Acquire(c, s).0.log == s.log
  {
    TakeIdleFrame(s);
  }

  // ---------- timers ----------

  /** The entries without a timer. */
  function Untimed(idle: seq<Idle>): nat {
    if idle == [] then 0 else Untimed(idle[..|idle| - 1]) + (if idle[|idle| - 1].timed then 0 else 1)
  }

  /** Each idle entry that is to be closed has an armed timer, as has every waiter; and at most as many idle connections
      as the minimum size have none. */
  ghost predicate Armed(c: Config, s: State) {
    && s.idleTimers == TimedIdle(s.idle)
    && s.waitTimers == Members(s.waitQueue)
    && (c.idleTimeout > 0 ==> Untimed(s.idle) <= if c.minSize > 0 then c.minSize else 0)
  }

  lemma {:induction false} UntimedBound(idle: seq<Idle>)
    ensures Untimed(idle) <= |idle|
  {
    if idle != [] {
      UntimedBound(idle[..|idle| - 1]);
    }
  }

  lemma {:induction false} UntimedPrefix(idle: seq<Idle>, k: nat)
    requires k <= |idle|
    ensures Untimed(idle[..k]) <= Untimed(idle)
    decreases |idle|
  {
    if k < |idle| {
      UntimedPrefix(idle[..|idle| - 1], k);
      assert idle[..|idle| - 1][..k] == idle[..k];
    } else {
      assert idle[..k] == idle;
    }
  }

  lemma IdleSnoc(idle: seq<Idle>, e: Idle)
    ensures Untimed(idle + [e]) == Untimed(idle) + (if e.timed then 0 else 1)
    ensures TimedIdle(idle + [e]) == TimedIdle(idle) + (if e.timed then {e.client} else {})
  {
    assert (idle + [e])[..|idle|] == idle;
  }

  lemma MembersSnoc(queue: seq<nat>, x: nat)
    ensures Members(queue + [x]) == Members(queue) + {x}
  {
    assert (queue + [x])[..|queue|] == queue;
  }

  lemma TimedFresh(idle: seq<Idle>, x: nat)
    requires x in TimedIdle(idle)
    ensures exists i :: 0 <= i < |idle| && idle[i].client == x
  {
    var i := TimedAt(idle, x);
  }

  lemma PopArmed(c: Config, s: State)
    requires Owned(s.idle, s.out, s.nextId) && Armed(c, s) && s.idle != []
    ensures Armed(c, WithoutLast(s))
  {
    var n := |s.idle| - 1;
    var e := s.idle[n];
    assert s.idle == s.idle[..n] + [e];
    IdleSnoc(s.idle[..n], e);
    if e.client in TimedIdle(s.idle[..n]) {
      TimedFresh(s.idle[..n], e.client);
    }
  }

  lemma {:induction false} TakeArmed(c: Config, s: State)
    requires Books(c, s) && Armed(c, s)
    ensures Armed(c, TakeIdle(s).0)
    decreases |s.idle|
  {
    if s.idle != [] {
      PopArmed(c, s);
      PopBooks(c, s);
      if !IsLive(s, s.idle[|s.idle| - 1]) {
        TakeArmed(c, Destroy(WithoutLast(s), s.idle[|s.idle| - 1].client));
      }
    }
  }

  lemma AcquireArmed(c: Config, s: State)
    requires Books(c, s) && Armed(c, s)
    ensures Armed(c, Acquire(c, s).0)
  {
    TakeArmed(c, s);
    TakeIdleFrame(s);
    TakeIdleElsewhere(s);
    MembersSnoc(s.waitQueue, s.nextId);
    TakeWaitTimers(s);
  }

  lemma {:induction false} TakeWaitTimers(s: State)
    ensures TakeIdle(s).0.waitTimers == s.waitTimers
    decreases |s.idle|
  {
    if s.idle != [] && !IsLive(s, s.idle[|s.idle| - 1]) {
      TakeWaitTimers(Destroy(WithoutLast(s), s.idle[|s.idle| - 1].client));
    }
  }

  lemma PutArmed(c: Config, s: State, client: nat)
    requires Armed(c, s)
    ensures Armed(c, PutIdle(c, s, client))
  {
    UntimedBound(s.idle);
    IdleSnoc(s.idle, Idle(client, c.idleTimeout > 0 && |s.idle| >= c.minSize));
  }

  lemma InWithout(queue: seq<nat>, i: nat, x: nat)
    requires i < |queue| && Increasing(queue)
    ensures x in queue[..i] + queue[i + 1..] <==> x in queue && x != queue[i]
  {
    var rest := queue[..i] + queue[i + 1..];
    if x in queue && x != queue[i] {
      var j :| 0 <= j < |queue| && queue[j] == x;
      assert rest[if j < i then j else j - 1] == x;
    }
    if x in rest {
      var j :| 0 <= j < |rest| && rest[j] == x;
      assert queue[if j < i then j else j + 1] == x;
    }
  }

  lemma MembersWithout(queue: seq<nat>, i: nat)
    requires i < |queue| && Increasing(queue)
    ensures Members(queue[..i] + queue[i + 1..]) == Members(queue) - {queue[i]}
  {
    hide Members, Increasing;
    var rest := queue[..i] + queue[i + 1..];
    forall x ensures x in Members(rest) <==> x in Members(queue) - {queue[i]} {
      MembersIff(rest, x);
      MembersIff(queue, x);
      InWithout(queue, i, x);
    }
  }

  lemma QueueIncreasing(served: seq<nat>, queue: seq<nat>)
    requires Increasing(served + queue)
    ensures Increasing(queue)
  {
    forall i, j | 0 <= i < j < |queue| ensures queue[i] < queue[j] {
      assert queue[i] == (served + queue)[|served| + i] && queue[j] == (served + queue)[|served| + j];
    }
  }

  lemma MembersAfterFirst(queue: seq<nat>)
    requires queue != [] && Increasing(queue)
    ensures Members(queue[1..]) == Members(queue) - {queue[0]}
  {
    hide Members, Increasing;
    assert queue[..0] + queue[0 + 1..] == queue[1..];
    MembersWithout(queue, 0);
  }

  lemma HandOverArmed(c: Config, s: State, client: nat)
    requires Waiters(s) && Armed(c, s) && s.waitQueue != []
    ensures Armed(c, HandOver(s, client))
  {
    QueueIncreasing(Served(s.log), s.waitQueue);
    hide Served, Members, TimedIdle, Untimed;
    MembersAfterFirst(s.waitQueue);
  }

  lemma ReleaseArmed(c: Config, s: State, client: nat)
    requires Books(c, s) && Armed(c, s) && client in s.out
    ensures Armed(c, Release(c, s, client))
  {
    var s' := s.(active := s.active - 1, out := s.out - {client});
    if IsOpen(s) && client !in s.dead {
      if s.waitQueue != [] {
        HandOverArmed(c, s', client);
      } else {
        PutArmed(c, s', client);
      }
    }
  }

  lemma WaiterArmed(c: Config, s: State, waiter: nat)
    requires Books(c, s) && Armed(c, s) && waiter in s.waitTimers
    ensures Armed(c, WaiterTimedOut(s, waiter))
  {
    MembersIff(s.waitQueue, waiter);
    QueueIncreasing(Served(s.log), s.waitQueue);
    MembersWithout(s.waitQueue, IndexOf(s.waitQueue, waiter));
  }

  lemma {:induction false} UntimedAppend(xs: seq<Idle>, ys: seq<Idle>)
    ensures Untimed(xs + ys) == Untimed(xs) + Untimed(ys)
    decreases |ys|
  {
    if ys == [] {
      assert xs + ys == xs;
    } else {
      var n := |ys| - 1;
      UntimedAppend(xs, ys[..n]);
      assert xs + ys == (xs + ys[..n]) + [ys[n]];
      IdleSnoc(xs + ys[..n], ys[n]);
    }
  }

  lemma UntimedOne(e: Idle)
    ensures Untimed([e]) == if e.timed then 0 else 1
  {
    assert [e][..0] == [];
  }

  lemma UntimedCut(idle: seq<Idle>, i: nat)
    requires i < |idle|
    ensures Untimed(idle[..i] + idle[i + 1..]) == Untimed(idle) - (if idle[i].timed then 0 else 1)
  {
    hide Untimed;
    UntimedOne(idle[i]);
    UntimedAppend(idle[..i], idle[i + 1..]);
    UntimedAppend(idle[..i], [idle[i]]);
    UntimedAppend(idle[..i] + [idle[i]], idle[i + 1..]);
    assert idle == (idle[..i] + [idle[i]]) + idle[i + 1..];
  }

  lemma TimedStays(idle: seq<Idle>, i: nat, out: set<nat>, nextId: nat, x: nat)
    requires i < |idle| && Owned(idle, out, nextId) && x in TimedIdle(idle[..i] + idle[i + 1..])
    ensures x in TimedIdle(idle) && x != idle[i].client
  {
    var rest := idle[..i] + idle[i + 1..];
    var j := TimedAt(rest, x);
    assert rest[j] == idle[if j < i then j else j + 1];
    TimedHas(idle, if j < i then j else j + 1);
  }

  lemma TimedCut(idle: seq<Idle>, i: nat, out: set<nat>, nextId: nat)
    requires i < |idle| && Owned(idle, out, nextId)
    ensures TimedIdle(idle[..i] + idle[i + 1..]) == TimedIdle(idle) - {idle[i].client}
  {
    hide TimedIdle, Owned;
    var rest := idle[..i] + idle[i + 1..];
    DropOwned(idle, i, out, nextId);
    forall x | x in TimedIdle(rest) ensures x in TimedIdle(idle) - {idle[i].client} {
      TimedStays(idle, i, out, nextId, x);
    }
  }

  lemma IdleTimerArmed(c: Config, s: State, client: nat)
    requires Books(c, s) && Armed(c, s) && client in s.idleTimers
    ensures Armed(c, IdleTimedOut(s, client))
  {
    IdleLeaves(s, client);
    var i := Where(s.idle, client);
    UntimedCut(s.idle, i);
    TimedCut(s.idle, i, s.out, s.nextId);
  }

  lemma {:induction false} AliveUntimed(idle: seq<Idle>, dead: set<nat>)
    ensures Untimed(Alive(idle, dead)) <= Untimed(idle)
  {
    if idle != [] {
      var n := |idle| - 1;
      AliveUntimed(idle[..n], dead);
      IdleSnoc(Alive(idle[..n], dead), idle[n]);
    }
  }

  lemma TimedSets(timed: set<nat>, gone: set<nat>, x: nat)
    requires gone <= timed && x !in timed
    ensures (timed + {x}) - (gone + {x}) == timed - gone && (timed + {x}) - gone == (timed - gone) + {x}
  {}

  lemma OwnedFront(front: seq<Idle>, e: Idle, out: set<nat>, nextId: nat)
    requires Owned(front + [e], out, nextId)
    ensures Owned(front, out, nextId) && Apart(front, e.client)
  {
    var idle := front + [e];
    assert idle[|front|] == e && forall i :: 0 <= i < |front| ==> idle[i] == front[i];
  }

  lemma NothingTimed(dead: set<nat>)
    ensures TimedIdle([]) == {} && TimedDead([], dead) == {} && Alive([], dead) == []
  {}

  lemma {:induction false} AliveTimedExactly(idle: seq<Idle>, dead: set<nat>, out: set<nat>, nextId: nat)
    requires Owned(idle, out, nextId)
    ensures TimedIdle(Alive(idle, dead)) == TimedIdle(idle) - TimedDead(idle, dead)
    ensures TimedDead(idle, dead) <= TimedIdle(idle)
  {
    hide Owned, Apart, TimedIdle, TimedDead, Alive;
    if |idle| == 0 {
      NothingTimed(dead);
      assert idle == [];
    } else {
      var front, e := idle[..|idle| - 1], idle[|idle| - 1];
      assert idle == front + [e];
      OwnedFront(front, e, out, nextId);
      AliveTimedExactly(front, dead, out, nextId);
      AliveTimedStep(front, e, dead);
    }
  }

  lemma AliveTimedStep(front: seq<Idle>, e: Idle, dead: set<nat>)
    requires TimedIdle(Alive(front, dead)) == TimedIdle(front) - TimedDead(front, dead)
    requires TimedDead(front, dead) <= TimedIdle(front) && Apart(front, e.client)
    ensures TimedIdle(Alive(front + [e], dead)) == TimedIdle(front + [e]) - TimedDead(front + [e], dead)
    ensures TimedDead(front + [e], dead) <= TimedIdle(front + [e])
  {
    hide TimedIdle, TimedDead, Alive, Apart;
    var x := e.client;
    ApartIsUntimed(front, x);
    TimedSets(TimedIdle(front), TimedDead(front, dead), x);
    IdleSnoc(front, e);
    IdleSnoc(Alive(front, dead), e);
    AliveSnoc(front, e, dead);
  }

  lemma ApartIsUntimed(idle: seq<Idle>, x: nat)
    requires Apart(idle, x)
    ensures x !in TimedIdle(idle)
  {
    if x in TimedIdle(idle) {
      TimedFresh(idle, x);
    }
  }

  lemma AliveSnoc(front: seq<Idle>, e: Idle, dead: set<nat>)
    ensures Alive(front + [e], dead) == if e.client in dead then Alive(front, dead) else Alive(front, dead) + [e]
    ensures TimedDead(front + [e], dead) == TimedDead(front, dead) + (if e.timed && e.client in dead then {e.client} else {})
  {
    assert (front + [e])[..|front|] == front;
  }

  lemma SweptArmed(c: Config, s: State)
    requires Books(c, s) && Armed(c, s)
    ensures Armed(c, Swept(s))
  {
    AliveUntimed(s.idle, s.dead);
    AliveTimedExactly(s.idle, s.dead, s.out, s.nextId);
  }

  lemma EmptiedArmed(c: Config, s: State)
    requires Armed(c, s)
    ensures Armed(c, Emptied(s))
  {}

  /** Steps that leave the idle list and the queue alone. */
  lemma OthersArmed(c: Config, s: State, step: Step)
    requires Armed(c, s)
    requires
      || step.DoConnected? || step.DoConnectFailed? || step.DoWarmup? || step.DoWarmFailed?
      || step.DoDisconnect? || step.DoDrainPoll?
    ensures Armed(c, Apply(c, s, step))
  {
    hide TimedIdle, Members, Untimed, Numbers;
  }

  lemma DrainArmed(c: Config, s: State)
    requires Armed(c, s)
    ensures Armed(c, Drain(s))
  {
    EmptiedArmed(c, s.(draining := true));
    hide TimedIdle, Members, Untimed, Emptied;
  }

  lemma HealthArmed(c: Config, s: State)
    requires Books(c, s) && Armed(c, s)
    ensures Armed(c, HealthTick(c, s))
  {
    SweptArmed(c, s);
    OthersArmed(c, Swept(s), DoWarmup);
  }

  lemma ApplyArmed(c: Config, s: State, step: Step)
    requires Books(c, s) && Armed(c, s)
    ensures Armed(c, Apply(c, s, step))
  {
    hide Armed, Books, Acquire, Release, WaiterTimedOut, IdleTimedOut, HealthTick, Warmed, Drain, Emptied;
    match step {
      case DoAcquire => AcquireArmed(c, s);
      case DoRelease(client) => if client in s.out { ReleaseArmed(c, s, client); }
      case DoWaiterTimer(waiter) => if waiter in s.waitTimers { WaiterArmed(c, s, waiter); }
      case DoIdleTimer(client) => if client in s.idleTimers { IdleTimerArmed(c, s, client); }
      case DoHealthTick => if s.health { HealthArmed(c, s); }
      case DoWarmed(attempt) => if attempt in s.warming { WarmedArmed(c, s, attempt); }
      case DoDrain => DrainArmed(c, s);
      case DoClose => CloseArmed(c, s);
      case _ => OthersArmed(c, s, step);
    }
  }

  lemma CloseArmed(c: Config, s: State)
    requires Armed(c, s)
    ensures Armed(c, Close(s))
  {
    EmptiedArmed(c, s.(closed := true));
  }

  lemma WarmedArmed(c: Config, s: State, attempt: nat)
    requires Armed(c, s)
    ensures Armed(c, Warmed(c, s, attempt))
  {
    PutArmed(c, s.(warming := s.warming - {attempt}, nextId := s.nextId + 1, warmed := s.warmed + 1), s.nextId);
  }

  lemma {:induction false} RunArmed(c: Config, s: State, steps: seq<Step>)
    requires Books(c, s) && Armed(c, s)
    ensures Armed(c, Run(c, s, steps))
    decreases |steps|
  {
    if steps != [] {
      ApplyBooks(c, s, steps[0]);
      ApplyArmed(c, s, steps[0]);
      RunArmed(c, Apply(c, s, steps[0]), steps[1..]);
    }
  }

  /** In every run each waiter has an armed timer, as has each idle connection that is to be closed, and nothing else has
      one; with an idle timeout at most as many idle connections as the minimum size stay for good. */
  lemma TimersAreArmed(c: Config, steps: seq<Step>)
    ensures Armed(c, Run(c, INITIAL, steps))
  {
    InitialBooks(c);
    RunArmed(c, INITIAL, steps);
  }

  /** After any run a waiter whose timer goes off is turned away, and the others keep their order. */
  lemma WaiterTimerTurnsAway(c: Config, steps: seq<Step>, waiter: nat) returns (i: nat)
    requires waiter in Run(c, INITIAL, steps).waitTimers
    ensures
      var s := Run(c, INITIAL, steps);
      var t := Apply(c, s, DoWaiterTimer(waiter));
      && i < |s.waitQueue| && s.waitQueue[i] == waiter
      && t == s.(waitQueue := s.waitQueue[..i] + s.waitQueue[i + 1..], waitTimers := s.waitTimers - {waiter},
                 log := s.log + [TurnedAway(waiter)])
  {
    TimersAreArmed(c, steps);
    var s := Run(c, INITIAL, steps);
    MembersIff(s.waitQueue, waiter);
    i := IndexOf(s.waitQueue, waiter);
  }

  /** After any run an idle connection whose timer goes off is closed, and the others stay in place. */
  lemma IdleTimerCloses(c: Config, steps: seq<Step>, client: nat) returns (i: nat)
    requires client in Run(c, INITIAL, steps).idleTimers
    ensures
      var s := Run(c, INITIAL, steps);
      var t := Apply(c, s, DoIdleTimer(client));
      && i < |s.idle| && s.idle[i].client == client
      && t == s.(idle := s.idle[..i] + s.idle[i + 1..], idleTimers := s.idleTimers - {client},
                 total := s.total - 1, dead := s.dead + {client})
  {
    TimersAreArmed(c, steps);
    var s := Run(c, INITIAL, steps);
    var j := TimedAt(s.idle, client);
    i := Where(s.idle, client);
  }

  // ---------- the health check ----------

  /** `xs` is what is left of `ys` without the entries of the dead, in place. */
  ghost predicate IsSwept(xs: seq<Idle>, ys: seq<Idle>, dead: set<nat>) {
    exists at: seq<nat> :: Selects(at, xs, ys, dead)
  }

  /** `at` lists the positions of the live entries, in order. */
  ghost predicate Selects(at: seq<nat>, xs: seq<Idle>, ys: seq<Idle>, dead: set<nat>) {
    && |at| == |xs|
    && (forall i :: 0 <= i < |at| ==> at[i] < |ys| && ys[at[i]] == xs[i])
    && (forall i, j :: 0 <= i < j < |at| ==> at[i] < at[j])
    && (forall k :: 0 <= k < |ys| ==> (ys[k].client !in dead <==> k in at))
  }

  lemma SelectsSnoc(at: seq<nat>, xs: seq<Idle>, ys: seq<Idle>, dead: set<nat>, e: Idle)
    requires Selects(at, xs, ys, dead)
    ensures e.client in dead ==> Selects(at, xs, ys + [e], dead)
    ensures e.client !in dead ==> Selects(at + [|ys|], xs + [e], ys + [e], dead)
  {
    forall k | 0 <= k <= |ys| ensures k in at + [|ys|] <==> k in at || k == |ys| {}
    assert |ys| !in at;
  }

  lemma AliveSelectsStep(at: seq<nat>, front: seq<Idle>, e: Idle, dead: set<nat>)
    requires Selects(at, Alive(front, dead), front, dead)
    ensures Selects(if e.client in dead then at else at + [|front|], Alive(front + [e], dead), front + [e], dead)
  {
    hide Selects, Alive;
    AliveSnoc(front, e, dead);
    SelectsSnoc(at, Alive(front, dead), front, dead, e);
  }

  lemma NothingSelects(dead: set<nat>)
    ensures Selects([], Alive([], dead), [], dead)
  {}

  lemma {:induction false} AliveSelects(idle: seq<Idle>, dead: set<nat>) returns (at: seq<nat>)
    ensures Selects(at, Alive(idle, dead), idle, dead)
  {
    hide Selects, Alive;
    if |idle| == 0 {
      at := [];
      NothingSelects(dead);
      assert idle == [];
    } else {
      var front, e := idle[..|idle| - 1], idle[|idle| - 1];
      at := AliveSelects(front, dead);
      AliveSelectsStep(at, front, e, dead);
      at := if e.client in dead then at else at + [|front|];
      assert idle == front + [e];
    }
  }

  lemma {:induction false} NumbersAre(first: nat, n: nat)
    ensures |Numbers(first, n)| == n && forall x :: x in Numbers(first, n) <==> first <= x < first + n
  {
    if n > 0 {
      NumbersAre(first, n - 1);
    }
  }

  /** How many connections are missing to the minimum, which counts only up to the maximum. */
  function Missing(c: Config, total: int): nat {
    var aim := if c.minSize < c.maxSize then c.minSize else c.maxSize;
    if aim <= total then 0 else aim - total
  }

  /** The health check gives up exactly the dead idle connections and leaves the others in order; an open pool below its
      minimum then starts as many connections as are missing. */
  lemma HealthCheckSweeps(c: Config, s: State)
    requires s.health && Below(s.warming, s.nextId)
    ensures
      var t := Apply(c, s, DoHealthTick);
      && IsSwept(t.idle, s.idle, s.dead) && t.total == s.total - (|s.idle| - |t.idle|) && t.dead == s.dead
      && t.out == s.out && t.active == s.active && t.waitQueue == s.waitQueue && t.log == s.log
      && s.warming <= t.warming
      && |t.warming - s.warming| == (if IsOpen(s) && t.total < c.minSize then Missing(c, t.total) else 0)
  {
    var at := AliveSelects(s.idle, s.dead);
    var swept := Swept(s);
    StartsMissing(c, swept);
    assert s.warming - s.warming == {};
  }

  lemma StartsMissing(c: Config, s: State)
    requires Below(s.warming, s.nextId)
    ensures
      var t := Warmup(c, s);
      && s.warming <= t.warming && |t.warming - s.warming| == Missing(c, s.total)
      && t == s.(warming := t.warming, nextId := t.nextId)
  {
    NumbersAre(s.nextId, Missing(c, s.total));
    var t := Warmup(c, s);
    if Missing(c, s.total) > 0 {
      assert t.warming - s.warming == Numbers(s.nextId, Missing(c, s.total));
    } else {
      assert t.warming - s.warming == {};
    }
  }

  // ---------- the end of the pool ----------

  lemma {:induction false} ClientsAre(idle: seq<Idle>)
    ensures forall x :: x in Clients(idle) <==> !Apart(idle, x)
  {
    if idle != [] {
      var n := |idle| - 1;
      ClientsAre(idle[..n]);
      forall x ensures Apart(idle, x) <==> Apart(idle[..n], x) && idle[n].client != x {
        assert idle == idle[..n] + [idle[n]];
        assert Apart(idle, x) ==> forall i :: 0 <= i < n ==> idle[..n][i] == idle[i];
      }
    }
  }

  /** Every waiter is turned away, in order of arrival. */
  ghost predicate TurnsAway(before: seq<Event>, after: seq<Event>, queue: seq<nat>) {
    && |after| == |before| + |queue| && before == after[..|before|]
    && forall i :: 0 <= i < |queue| ==> after[|before| + i] == TurnedAway(queue[i])
  }

  /** Exactly the idle connections are closed, checked-out ones are left to come back, and nobody waits any more. */
  ghost predicate IsEmptied(s: State, t: State) {
    && t.idle == [] && t.waitQueue == [] && t.idleTimers <= s.idleTimers && t.waitTimers <= s.waitTimers && !t.health
    && t.out == s.out && t.active == s.active && t.creating == s.creating && t.total == s.total - |s.idle|
    && (forall x :: x in t.dead <==> x in s.dead || !Apart(s.idle, x))
  }

  /** `close` ends the pool at once; `drain` as soon as nothing is checked out, and until then it only refuses. */
  lemma EndsEmptyThePool(c: Config, s: State)
    ensures var t := Apply(c, s, DoClose); IsEmptied(s, t) && t.closed && TurnsAway(s.log, t.log, s.waitQueue)
    ensures
      var t := Apply(c, s, DoDrain);
      !s.draining ==>
        && IsEmptied(s, t)
        && (s.active > 0 ==> t.draining && t.closed == s.closed && TurnsAway(s.log, t.log, s.waitQueue))
        && (s.active <= 0 ==>
              && !t.draining && t.closed && t.log != [] && t.log[|t.log| - 1] == Drained(s.total - |s.idle|)
              && TurnsAway(s.log, t.log[..|t.log| - 1], s.waitQueue))
  {
    EmptiedIs(s.(closed := true));
    EmptiedIs(s.(draining := true));
    hide Emptied, Apart, Clients, TimedIdle, Members;
    var turned := s.log + TurnAll(s.waitQueue);
    assert (turned + [Drained(s.total - |s.idle|)])[..|turned|] == turned;
  }

  lemma EmptiedIs(s: State)
    ensures
      var t := Emptied(s);
      && IsEmptied(s, t) && TurnsAway(s.log, t.log, s.waitQueue) && t.log == s.log + TurnAll(s.waitQueue)
      && t.closed == s.closed && t.draining == s.draining && t.total == s.total - |s.idle|
  {
    ClientsAre(s.idle);
    hide Clients, TimedIdle, Members, Apart;
  }

  /** A drain that waits ends when nothing is checked out any more. */
  lemma DrainEndsIff(c: Config, s: State)
    requires s.draining
    ensures
      var t := Apply(c, s, DoDrainPoll);
      && (s.active > 0 ==> t == s)
      && (s.active <= 0 ==> t == s.(draining := false, closed := true, log := s.log + [Drained(s.total)]))
  {}
}
