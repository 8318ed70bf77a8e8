/** The `ConnectionPool` class of node/src/pool.js against the state machine of module `Pool`. A method
    that awaits is split at the await; the timers and the environment are fields of the object. */
module ConnectionPools {
  import opened Text
  import opened Wrappers
  import opened Pool

  class ConnectionPool {
    const config: Config
    var idle: seq<Idle>
    var active: int
    var total: int
    var waitQueue: seq<nat>
    var closed: bool
    var draining: bool
    var creating: set<nat>
    var warming: set<nat>
    var out: set<nat>
    var dead: set<nat>
    var idleTimers: set<nat>
    var waitTimers: set<nat>
    var health: bool
    var nextId: nat
    var log: seq<Event>
    ghost var warmed: nat

    ghost function State(): State
      reads this
    {
      Pool.State.State(idle, active, total, waitQueue, closed, draining, creating, warming, out, dead,
                       idleTimers, waitTimers, health, nextId, log, warmed)
    }

    constructor (config: Config)
      ensures this.config == config && State() == INITIAL
    {
      this.config := config;
      idle, active, total, waitQueue, closed, draining := [], 0, 0, [], false, false;
      creating, warming, out, dead, idleTimers, waitTimers := {}, {}, {}, {}, {}, {};
      health, nextId, log, warmed := true, 0, [], 0;
    }

    method DestroyClient(client: nat)
      modifies this`total, this`dead
      ensures State() == Destroy(old(State()), client)
    {
      total := total - 1;
      dead := dead + {client};
    }

    method PopLast() returns (entry: Idle)
      requires idle != []
      modifies this`idle, this`idleTimers
      ensures entry == old(idle[|idle| - 1]) && State() == WithoutLast(old(State()))
    {
      entry := idle[|idle| - 1];
      idle := idle[..|idle| - 1];
      if entry.timed {
        idleTimers := idleTimers - {entry.client};
      }
    }

    method PopIdle() returns (client: Option<nat>)
      modifies this`idle, this`idleTimers, this`active, this`total, this`out, this`dead
      ensures (State(), client) == TakeIdle(old(State()))
    {
      while |idle| > 0
        invariant TakeIdle(State()) == TakeIdle(old(State()))
        decreases |idle|
      {
        var entry := PopLast();
        if entry.client in dead {
          DestroyClient(entry.client);
        } else {
          active := active + 1;
          out := out + {entry.client};
          return Some(entry.client);
        }
      }
      return None;
    }

    /** `acquire` up to its first await. */
    method Acquire() returns (answer: Answer)
      modifies this
      ensures (State(), answer) == Pool.Acquire(config, old(State()))
    {
      if closed || draining {
        return Refused;
      }
      var client := PopIdle();
      if client.Some? {
        return Got(client.value);
      }
      var id := nextId;
      nextId := nextId + 1;
      if total < config.maxSize {
        total := total + 1;
        active := active + 1;
        creating := creating + {id};
        return Connecting(id);
      }
      waitTimers := waitTimers + {id};
      waitQueue := waitQueue + [id];
      return Waiting(id);
    }

    /** `acquire` after its await, on success and on failure. */
    method AcquireConnected(attempt: nat) returns (client: nat)
      requires attempt in creating
      modifies this
      ensures State() == Connected(old(State()), attempt) && client in out
    {
      creating := creating - {attempt};
      client := nextId;
      nextId := nextId + 1;
      out := out + {client};
    }

    method AcquireFailed(attempt: nat)
      requires attempt in creating
      modifies this
      ensures State() == ConnectFailed(old(State()), attempt)
    {
      creating := creating - {attempt};
      total := total - 1;
      active := active - 1;
    }

    method Release(client: nat)
      requires client in out
      modifies this
      ensures State() == Pool.Release(config, old(State()), client)
    {
      out := out - {client};
      active := active - 1;
      if closed || draining || client in dead {
        DestroyClient(client);
        return;
      }
      if |waitQueue| > 0 {
        ServeWaiter(client);
        return;
      }
      PutIdle(client);
    }

    /** Hands the client to the waiter in front. */
    method ServeWaiter(client: nat)
      requires waitQueue != []
      modifies this`waitQueue, this`waitTimers, this`active, this`out, this`log
      ensures State() == HandOver(old(State()), client)
    {
      var waiter := waitQueue[0];
      waitQueue := waitQueue[1..];
      waitTimers := waitTimers - {waiter};
      active := active + 1;
      out := out + {client};
      log := log + [Handed(waiter, client)];
    }

    method PutIdle(client: nat)
      modifies this`idle, this`idleTimers
      ensures State() == Pool.PutIdle(config, old(State()), client)
    {
      var timed := false;
      if config.idleTimeout > 0 && |idle| >= config.minSize {
        timed := true;
        idleTimers := idleTimers + {client};
      }
      idle := idle + [Idle(client, timed)];
    }

    method OnWaiterTimer(waiter: nat)
      requires waiter in waitTimers
      modifies this
      ensures State() == WaiterTimedOut(old(State()), waiter)
    {
      waitTimers := waitTimers - {waiter};
      var i := IndexOf(waitQueue, waiter);
      if i != -1 {
        waitQueue := waitQueue[..i] + waitQueue[i + 1..];
      }
      log := log + [TurnedAway(waiter)];
    }

    method OnIdleTimer(client: nat)
      requires client in idleTimers
      modifies this
      ensures State() == IdleTimedOut(old(State()), client)
    {
      idleTimers := idleTimers - {client};
      var i := Where(idle, client);
      if i != -1 {
        idle := idle[..i] + idle[i + 1..];
        DestroyClient(client);
      }
    }

    method Warmup()
      modifies this`warming, this`nextId
      ensures State() == Pool.Warmup(config, old(State()))
    {
      var needed := if config.minSize < config.maxSize then config.minSize else config.maxSize;
      var i := total;
      while i < needed
        invariant i >= total && (i == total || i <= needed)
        invariant nextId == old(nextId) + (i - total)
        invariant warming == old(warming) + Numbers(old(nextId), i - total)
      {
        warming := warming + {nextId};
        nextId := nextId + 1;
        i := i + 1;
      }
    }

    method WarmupConnected(attempt: nat)
      requires attempt in warming
      modifies this
      ensures State() == Warmed(config, old(State()), attempt)
    {
      warming := warming - {attempt};
      var client := nextId;
      nextId := nextId + 1;
      warmed := warmed + 1;
      PutIdle(client);
    }

    /** The positions of the dead idle entries, highest first. */
    method FindDead() returns (positions: seq<nat>)
      ensures positions == DeadFrom(idle, dead, 0)
    {
      positions := [];
      var i := |idle|;
      while i > 0
        invariant 0 <= i <= |idle|
        invariant positions == DeadFrom(idle, dead, i)
      {
        i := i - 1;
        if idle[i].client in dead {
          positions := positions + [i];
        }
      }
    }

    /** Removes the idle entries at the given positions one by one. */
    method RemovePositions(positions: seq<nat>)
      requires forall k :: 0 <= k < |positions| ==> positions[k] < |idle| - k
      modifies this`idle, this`total, this`dead, this`idleTimers
      ensures State() == RemoveAll(old(State()), positions)
    {
      for k := 0 to |positions|
        invariant State() == RemoveAll(old(State()), positions[..k]) && |idle| == |old(idle)| - k
      {
        var entry := idle[positions[k]];
        idle := idle[..positions[k]] + idle[positions[k] + 1..];
        if entry.timed {
          idleTimers := idleTimers - {entry.client};
        }
        DestroyClient(entry.client);
        assert positions[..k + 1][..k] == positions[..k];
      }
      assert positions[..|positions|] == positions;
    }

    /** Removes the dead idle entries. */
    method SweepDead()
      modifies this`idle, this`total, this`dead, this`idleTimers
      ensures State() == Swept(old(State()))
    {
      DeadBound(idle, dead, 0);
      RemoveAllSweeps(State(), 0);
      assert idle[0..] == idle;
      var positions := FindDead();
      RemovePositions(positions);
    }

    /** The tick of the health-check timer. */
    method HealthCheck()
      modifies this
      ensures State() == HealthTick(config, old(State()))
    {
      SweepDead();
      if !closed && !draining && total < config.minSize {
        Warmup();
      }
    }

    /** Closes every idle connection and empties the list. */
    method CloseIdle()
      modifies this`idle, this`total, this`dead, this`idleTimers
      ensures State() == IdleClosed(old(State()))
    {
      for i := 0 to |idle|
        invariant i <= |idle| && idle == old(idle) && total == old(total)
        invariant dead == old(dead) + Clients(idle[..i]) && idleTimers == old(idleTimers) - TimedIdle(idle[..i])
      {
        assert idle[..i + 1][..i] == idle[..i];
        if idle[i].timed {
          idleTimers := idleTimers - {idle[i].client};
        }
        dead := dead + {idle[i].client};
      }
      assert idle[..|idle|] == idle;
      total := total - |idle|;
      idle := [];
    }

    method RejectWaiters()
      modifies this`waitQueue, this`waitTimers, this`log
      ensures State() == WaitersTurned(old(State()))
    {
      for i := 0 to |waitQueue|
        invariant i <= |waitQueue| && waitQueue == old(waitQueue)
        invariant waitTimers == old(waitTimers) - Members(waitQueue[..i]) && log == old(log) + TurnAll(waitQueue[..i])
      {
        assert waitQueue[..i + 1][..i] == waitQueue[..i];
        assert TurnAll(waitQueue[..i + 1]) == TurnAll(waitQueue[..i]) + [TurnedAway(waitQueue[i])];
        waitTimers := waitTimers - {waitQueue[i]};
        log := log + [TurnedAway(waitQueue[i])];
      }
      assert waitQueue[..|waitQueue|] == waitQueue;
      waitQueue := [];
    }

    method StartDrain()
      modifies this
      ensures State() == Emptied(old(State()).(draining := true))
    {
      draining := true;
      health := false;
      CloseIdle();
      RejectWaiters();
    }

    /** `drain` up to its await; it does not wait when nothing is checked out. */
    method Drain()
      modifies this
      ensures State() == Pool.Drain(old(State()))
    {
      if draining {
        log := log + [AlreadyDraining(total)];
        return;
      }
      StartDrain();
      if active <= 0 {
        FinishDrain();
      }
    }

    method FinishDrain()
      modifies this
      ensures State() == Finish(old(State()))
    {
      draining := false;
      closed := true;
      log := log + [Drained(total)];
    }

    /** The check that a waiting drain repeats, and what follows its await. */
    method CheckDrained()
      modifies this
      ensures State() == DrainPoll(old(State()))
    {
      if draining && active <= 0 {
        FinishDrain();
      }
    }

    method Close()
      modifies this
      ensures State() == Pool.Close(old(State()))
    {
      closed := true;
      health := false;
      RejectWaiters();
      CloseIdle();
    }
  }

  // ---------- removing the dead by position ----------

  /** The positions of dead entries from `i` on, highest first. */
  ghost function DeadFrom(idle: seq<Idle>, dead: set<nat>, i: nat): seq<nat>
    requires i <= |idle|
    decreases |idle| - i
  {
    if i == |idle| then []
    else if idle[i].client in dead then DeadFrom(idle, dead, i + 1) + [i]
    else DeadFrom(idle, dead, i + 1)
  }

  /** The k-th position is still valid after k entries have been removed. */
  lemma {:induction false} DeadBound(idle: seq<Idle>, dead: set<nat>, i: nat)
    requires i <= |idle|
    ensures |DeadFrom(idle, dead, i)| <= |idle| - i
    ensures forall k :: 0 <= k < |DeadFrom(idle, dead, i)| ==> DeadFrom(idle, dead, i)[k] < |idle| - k
    decreases |idle| - i
  {
    if i < |idle| {
      DeadBound(idle, dead, i + 1);
    }
  }

  ghost function RemoveAt(s: State, i: nat): State {
    if i >= |s.idle| then s
    else
      Destroy(s.(idle := s.idle[..i] + s.idle[i + 1..], idleTimers := ClearIdle(s.idleTimers, s.idle[i])), s.idle[i].client)
  }

  ghost function RemoveAll(s: State, positions: seq<nat>): State {
    if positions == [] then s
    else RemoveAt(RemoveAll(s, positions[..|positions| - 1]), positions[|positions| - 1])
  }

  lemma {:induction false} AliveAppend(a: seq<Idle>, b: seq<Idle>, dead: set<nat>)
    ensures Alive(a + b, dead) == Alive(a, dead) + Alive(b, dead)
    ensures TimedDead(a + b, dead) == TimedDead(a, dead) + TimedDead(b, dead)
  {
    if b == [] {
      assert a + b == a;
    } else {
      var n := |b| - 1;
      assert (a + b)[..|a + b| - 1] == a + b[..n];
      AliveAppend(a, b[..n], dead);
    }
  }

  /** The state with the dead entries from position `i` on removed. */
  ghost function SweptFrom(s: State, i: nat): State
    requires i <= |s.idle|
  {
    var alive := Alive(s.idle[i..], s.dead);
    s.(idle := s.idle[..i] + alive, total := s.total - (|s.idle| - i - |alive|),
       idleTimers := s.idleTimers - TimedDead(s.idle[i..], s.dead))
  }

  lemma AliveStep(idle: seq<Idle>, dead: set<nat>, i: nat)
    requires i < |idle|
    ensures
      var (e, rest) := (idle[i], Alive(idle[i + 1..], dead));
      && Alive(idle[i..], dead) == (if e.client in dead then rest else [e] + rest)
      && TimedDead(idle[i..], dead) == TimedDead(idle[i + 1..], dead) + (if e.timed && e.client in dead then {e.client} else {})
  {
    var e := idle[i];
    assert idle[i..] == [e] + idle[i + 1..];
    AliveAppend([e], idle[i + 1..], dead);
    assert [e][..0] == [];
  }

  lemma RemoveAtSplice(t: State, a: seq<Idle>, e: Idle, b: seq<Idle>)
    requires t.idle == a + [e] + b && e.client in t.dead
    ensures RemoveAt(t, |a|) == t.(idle := a + b, total := t.total - 1, idleTimers := ClearIdle(t.idleTimers, e))
  {
    assert t.idle[..|a|] == a && t.idle[|a| + 1..] == b;
    assert t.dead + {e.client} == t.dead;
  }

  lemma SweptDead(s: State, i: nat)
    requires i < |s.idle| && s.idle[i].client in s.dead
    ensures SweptFrom(s, i) == RemoveAt(SweptFrom(s, i + 1), i)
  {
    var e, rest := s.idle[i], Alive(s.idle[i + 1..], s.dead);
    AliveStep(s.idle, s.dead, i);
    assert s.idle[..i + 1] == s.idle[..i] + [e];
    RemoveAtSplice(SweptFrom(s, i + 1), s.idle[..i], e, rest);
    assert ClearIdle(SweptFrom(s, i + 1).idleTimers, e) == s.idleTimers - TimedDead(s.idle[i..], s.dead);
  }

  lemma SweptAlive(s: State, i: nat)
    requires i < |s.idle| && s.idle[i].client !in s.dead
    ensures SweptFrom(s, i) == SweptFrom(s, i + 1)
  {
    AliveStep(s.idle, s.dead, i);
    MoveOne(s.idle, i, Alive(s.idle[i + 1..], s.dead));
  }

  lemma MoveOne<T>(a: seq<T>, i: nat, rest: seq<T>)
    requires i < |a|
    ensures a[..i] + ([a[i]] + rest) == a[..i + 1] + rest
  {}

  lemma {:induction false} RemoveAllSweeps(s: State, i: nat)
    requires i <= |s.idle|
    ensures RemoveAll(s, DeadFrom(s.idle, s.dead, i)) == SweptFrom(s, i)
    decreases |s.idle| - i
  {
    if i == |s.idle| {
      assert s.idle[i..] == [] && s.idle[..i] == s.idle;
      assert s.idle + [] == s.idle;
    } else {
      RemoveAllSweeps(s, i + 1);
      if s.idle[i].client in s.dead {
        SweptDead(s, i);
      } else {
        SweptAlive(s, i);
      }
      var later := DeadFrom(s.idle, s.dead, i + 1);
      assert (later + [i])[..|later|] == later;
    }
  }
}
