/** The line protocol of node/src/protocol.js as a state machine. */
module Protocol {
  // A state holds what a `ProtocolHandler` holds, plus the timers that are armed and the log of everything the
  // handler did to the outside: promises settled, events emitted, bytes written. `JSON.parse` is an arbitrary
  // total classifier of lines.

  import opened Wrappers
  import opened Text

  /** What `JSON.parse` makes of a line. Text that is not JSON, or a value such as `null` whose
      properties cannot be read, is `Unparsable`. */
  datatype Parsed = Unparsable | Json(error: bool, event: bool)

  datatype Config = Config(classify: string -> Parsed, timeout: int, maxQueueSize: int)

  datatype Cause = Disconnected | HandlerClosed | SocketTimeout | CommandTimeout | QueryFailed(line: string)
  datatype Outcome = Resolved(line: string, raw: bool) | Rejected(cause: Cause)
  datatype Refusal = NotConnected | QueueFull

  datatype Effect =
    | Settle(id: nat, outcome: Outcome)
    | EmitEvent(line: string)
    | EmitMessage(line: string, raw: bool)
    | EmitDisconnect
    | EmitTimeout
    | Write(bytes: string)

  /** The two timeout callbacks differ: the one of `pipeline` rejects even when it finds nothing. */
  datatype TimerKind = SendTimer | PipelineTimer

  /** `timed` says that a timer handle is stored; the timer itself may no longer be armed. */
  datatype Pending = Pending(id: nat, timed: bool)

  datatype State = State(
    buffer: string,
    queue: seq<Pending>,
    attached: bool,
    connected: bool,
    commandId: nat,
    timers: map<nat, TimerKind>,
    log: seq<Effect>)

  const INITIAL := State("", [], false, false, 0, map[], [])

  // ---------- operations ----------

  /** The timers left once that of `p` is cleared. */
  function Cleared(timers: map<nat, TimerKind>, p: Pending): map<nat, TimerKind> {
    if p.timed then timers - {p.id} else timers
  }

  /** Takes the oldest pending command off the queue and settles it. */
  function SettleHead(s: State, outcome: Outcome): State
    requires s.queue != []
  {
    var p := s.queue[0];
    s.(queue := s.queue[1..], timers := Cleared(s.timers, p), log := s.log + [Settle(p.id, outcome)])
  }

  /** What a line does to the oldest pending command: settle it, or leave it waiting after an event. */
  datatype Verdict = Reply(outcome: Outcome) | Notice

  function Judge(parsed: Parsed, line: string): Verdict {
    match parsed
    case Unparsable => Reply(Resolved(line, true))
    case Json(error, event) =>
      if error then Reply(Rejected(QueryFailed(line)))
      else if event then Notice
      else Reply(Resolved(line, false))
  }

  /** One trimmed line, as the body of the loop in `_drainBuffer` handles it. */
  function ProcessLine(c: Config, s: State, line: string): State {
    if line == "" then s
    else if s.queue == [] then s.(log := s.log + [Unsolicited(line, c.classify(line))])
    else match Judge(c.classify(line), line)
      case Reply(outcome) => SettleHead(s, outcome)
      case Notice => s.(timers := Cleared(s.timers, s.queue[0]), log := s.log + [EmitEvent(line)])
  }

  function Unsolicited(line: string, parsed: Parsed): Effect {
    match parsed
    case Unparsable => EmitMessage(line, true)
    case Json(_, event) => if event then EmitEvent(line) else EmitMessage(line, false)
  }

  function Drain(c: Config, s: State): (r: State)
    ensures '\n' !in r.buffer
    decreases |s.buffer|
  {
    var i := IndexOf(s.buffer, '\n');
    if i == -1 then s
    else Drain(c, ProcessLine(c, s.(buffer := s.buffer[i + 1..]), Trim(s.buffer[..i])))
  }

  function Feed(c: Config, s: State, chunk: string): State {
    Drain(c, s.(buffer := s.buffer + chunk))
  }

  function RejectAll(s: State, cause: Cause): (r: State)
    ensures r.queue == []
    decreases |s.queue|
  {
    if s.queue == [] then s else RejectAll(SettleHead(s, Rejected(cause)), cause)
  }

  /** JavaScript's `a || b` on numbers, with 0 standing for a missing option as well. */
  function Or(a: int, b: int): int { if a != 0 then a else b }

  /** Issues the next command id and queues its promise. */
  function Enqueue(s: State, kind: TimerKind, timeout: int): State {
    var id := s.commandId + 1;
    s.(commandId := id,
       queue := s.queue + [Pending(id, timeout > 0)],
       timers := if timeout > 0 then s.timers[id := kind] else s.timers)
  }

  function EnqueueMany(s: State, n: nat, kind: TimerKind, timeout: int): State {
    if n == 0 then s else Enqueue(EnqueueMany(s, n - 1, kind, timeout), kind, timeout)
  }

  function Send(c: Config, s: State, command: string, timeout: int): (State, Result<nat, Refusal>) {
    if !s.connected || !s.attached then (s, Failure(NotConnected))
    else if |s.queue| >= c.maxQueueSize then (s, Failure(QueueFull))
    else
      var s' := Enqueue(s, SendTimer, Or(timeout, c.timeout));
      (s'.(log := s'.log + [Write(command + "\n")]), Success(s'.commandId))
  }

  /** The line `pipeline` writes for a command. */
  function WireLine(command: string): string {
    Spaced(Trim(command))
  }

  function Spaced(s: string): string {
    seq(|s|, i requires 0 <= i < |s| => if s[i] == '\n' then ' ' else s[i])
  }

  function WireLines(commands: seq<string>): seq<string> {
    seq(|commands|, i requires 0 <= i < |commands| => WireLine(commands[i]))
  }

  /** On success, the first of the consecutive ids that were issued. */
  function Pipeline(c: Config, s: State, commands: seq<string>, timeout: int): (State, Result<nat, Refusal>) {
    if !s.connected || !s.attached then (s, Failure(NotConnected))
    else if commands == [] then (s, Success(s.commandId + 1))
    else if |s.queue| + |commands| > c.maxQueueSize then (s, Failure(QueueFull))
    else
      var s' := EnqueueMany(s, |commands|, PipelineTimer, Or(timeout, c.timeout));
      (s'.(log := s'.log + [Write(JoinLines(WireLines(commands)))]), Success(s.commandId + 1))
  }

  function Position(queue: seq<Pending>, id: nat): (i: int)
    ensures -1 <= i < |queue|
    ensures i == -1 <==> !IsPending(queue, id)
    ensures i >= 0 ==> queue[i].id == id && forall j :: 0 <= j < i ==> queue[j].id != id
  {
    if queue == [] then -1
    else if queue[0].id == id then 0
    else
      var i := Position(queue[1..], id);
      assert queue == [queue[0]] + queue[1..];
      if i == -1 then -1 else i + 1
  }

  predicate IsPending(queue: seq<Pending>, id: nat) {
    exists i :: 0 <= i < |queue| && queue[i].id == id
  }

  /** An armed timer goes off. */
  function FireTimer(s: State, id: nat): State
    requires id in s.timers
  {
    var i := Position(s.queue, id);
    var s' := s.(timers := s.timers - {id},
                 queue := if i == -1 then s.queue else s.queue[..i] + s.queue[i + 1..]);
    if i != -1 || s.timers[id].PipelineTimer?
    then s'.(log := s.log + [Settle(id, Rejected(CommandTimeout))])
    else s'
  }

  function Close(s: State): State {
    RejectAll(s.(connected := false), HandlerClosed).(buffer := "")
  }

  function SocketClosed(s: State): State {
    var s' := RejectAll(s.(connected := false), Disconnected);
    s'.(log := s'.log + [EmitDisconnect])
  }

  function SocketTimedOut(s: State): State {
    var s' := RejectAll(s, SocketTimeout);
    s'.(log := s'.log + [EmitTimeout])
  }

  // ---------- runs ----------

  datatype Step =
    | DoAttach
    | DoSend(command: string, timeout: int)
    | DoPipeline(commands: seq<string>, timeout: int)
    | DoData(chunk: string)
    | DoTimer(id: nat)
    | DoSocketClosed
    | DoSocketTimedOut
    | DoClose

  function Apply(c: Config, s: State, step: Step): State {
    match step
    case DoAttach => s.(attached := true, connected := true)
    case DoSend(command, timeout) => Send(c, s, command, timeout).0
    case DoPipeline(commands, timeout) => Pipeline(c, s, commands, timeout).0
    case DoData(chunk) => Feed(c, s, chunk)
    case DoTimer(id) => if id in s.timers then FireTimer(s, id) else s
    case DoSocketClosed => SocketClosed(s)
    case DoSocketTimedOut => SocketTimedOut(s)
    case DoClose => Close(s)
  }

  function Run(c: Config, s: State, steps: seq<Step>): State
    decreases |steps|
  {
    if steps == [] then s else Run(c, Apply(c, s, steps[0]), steps[1..])
  }

  // ---------- framing ignores chunk boundaries ----------

  lemma ProcessLineBuffer(c: Config, s: State, line: string, buffer: string)
    ensures ProcessLine(c, s.(buffer := buffer), line) == ProcessLine(c, s, line).(buffer := buffer)
  {}

  lemma DrainStep(c: Config, s: State, i: nat)
    requires i < |s.buffer| && s.buffer[i] == '\n' && '\n' !in s.buffer[..i]
    ensures Drain(c, s) == Drain(c, ProcessLine(c, s, Trim(s.buffer[..i])).(buffer := s.buffer[i + 1..]))
  {
    FirstIndex(s.buffer, '\n', i);
    ProcessLineBuffer(c, s, Trim(s.buffer[..i]), s.buffer[i + 1..]);
  }

  /** Draining before or after more bytes arrive comes to the same. */
  lemma {:induction false} DrainAppend(c: Config, s: State, more: string)
    ensures Drain(c, s.(buffer := s.buffer + more)) == Feed(c, Drain(c, s), more)
    decreases |s.buffer|
  {
    var i := IndexOf(s.buffer, '\n');
    if i != -1 {
      var whole := s.(buffer := s.buffer + more);
      assert whole.buffer[..i] == s.buffer[..i];
      assert whole.buffer[i + 1..] == s.buffer[i + 1..] + more;
      DrainStep(c, s, i);
      DrainStep(c, whole, i);
      ProcessLineBuffer(c, s, Trim(s.buffer[..i]), whole.buffer);
      DrainAppend(c, ProcessLine(c, s, Trim(s.buffer[..i])).(buffer := s.buffer[i + 1..]), more);
    }
  }

  lemma Regroup(a: string, b: string, c: string)
    ensures (a + b) + c == a + (b + c)
  {}

  /** Two chunks with nothing in between act like their concatenation, from any state. */
  lemma FeedTwice(c: Config, s: State, c1: string, c2: string)
    ensures Feed(c, Feed(c, s, c1), c2) == Feed(c, s, c1 + c2)
  {
    DrainAppend(c, s.(buffer := s.buffer + c1), c2);
    Regroup(s.buffer, c1, c2);
  }

  function FeedAll(c: Config, s: State, chunks: seq<string>): State
    decreases |chunks|
  {
    if chunks == [] then s else FeedAll(c, Feed(c, s, chunks[0]), chunks[1..])
  }

  lemma {:induction false} FeedAllIsFeed(c: Config, s: State, chunks: seq<string>)
    requires chunks != [] || '\n' !in s.buffer
    ensures FeedAll(c, s, chunks) == Feed(c, s, Concat(chunks))
    decreases |chunks|
  {
    if chunks == [] {
      assert s.buffer + [] == s.buffer;
    } else {
      FeedAllIsFeed(c, Feed(c, s, chunks[0]), chunks[1..]);
      FeedTwice(c, s, chunks[0], Concat(chunks[1..]));
    }
  }

  /** However the network cuts one stream, the handler ends in the same state with the same log. */
  lemma ChunkingIsInvisible(c: Config, s: State, cut1: seq<string>, cut2: seq<string>)
    requires Concat(cut1) == Concat(cut2)
    requires '\n' !in s.buffer || (cut1 != [] && cut2 != [])
    ensures FeedAll(c, s, cut1) == FeedAll(c, s, cut2)
  {
    FeedAllIsFeed(c, s, cut1);
    FeedAllIsFeed(c, s, cut2);
  }

  // ---------- every command is settled exactly once ----------

  /** How often the promise of a command was resolved or rejected. */
  function Settlements(log: seq<Effect>, id: nat): nat {
    if log == [] then 0
    else
      var last := log[|log| - 1];
      Settlements(log[..|log| - 1], id) + (if last.Settle? && last.id == id then 1 else 0)
  }

  lemma SettlementsSnoc(log: seq<Effect>, e: Effect, id: nat)
    ensures Settlements(log + [e], id) == Settlements(log, id) + (if e.Settle? && e.id == id then 1 else 0)
  {
    assert (log + [e])[..|log|] == log;
  }

  ghost predicate Issued(s: State, id: nat) { 1 <= id <= s.commandId }

  /** The ids 1..commandId are either pending and unsettled, or settled once; no other id is settled. */
  ghost predicate SettledOnce(s: State) {
    forall id: nat ::
      Settlements(s.log, id) == if Issued(s, id) && !IsPending(s.queue, id) then 1 else 0
  }

  /** Ids of issued commands, in increasing order. */
  predicate Ordered(queue: seq<Pending>, last: nat) {
    && (forall i :: 0 <= i < |queue| ==> 1 <= queue[i].id <= last)
    && (forall i, j :: 0 <= i < j < |queue| ==> queue[i].id < queue[j].id)
  }

  ghost predicate QueueOk(s: State) { Ordered(s.queue, s.commandId) }

  ghost predicate TimersOk(s: State) {
    && (forall id: nat :: id in s.timers ==> IsPending(s.queue, id))
    && (forall i :: 0 <= i < |s.queue| ==> s.queue[i].id in s.timers ==> s.queue[i].timed)
  }

  ghost predicate Bounded(c: Config, s: State) {
    && |s.queue| <= (if c.maxQueueSize > 0 then c.maxQueueSize else 0)
    && (!s.connected ==> s.queue == [])
    && '\n' !in s.buffer
  }

  ghost predicate Core(s: State) {
    SettledOnce(s) && QueueOk(s) && TimersOk(s)
  }

  ghost predicate Inv(c: Config, s: State) {
    Core(s) && Bounded(c, s)
  }

  lemma PendingCons(queue: seq<Pending>, id: nat)
    requires queue != []
    ensures IsPending(queue, id) <==> queue[0].id == id || IsPending(queue[1..], id)
  {
    if IsPending(queue, id) && queue[0].id != id {
      var i :| 0 <= i < |queue| && queue[i].id == id;
      assert queue[1..][i - 1].id == id;
    }
    if IsPending(queue[1..], id) {
      var i :| 0 <= i < |queue[1..]| && queue[1..][i].id == id;
      assert queue[i + 1].id == id;
    }
  }

  lemma PendingTail(queue: seq<Pending>, last: nat, id: nat)
    requires queue != [] && Ordered(queue, last)
    ensures IsPending(queue[1..], id) <==> IsPending(queue, id) && id != queue[0].id
  {
    PendingCons(queue, id);
    if IsPending(queue[1..], id) {
      var i :| 0 <= i < |queue[1..]| && queue[1..][i].id == id;
      assert queue[0].id < queue[i + 1].id;
    }
  }

  lemma SettleHeadCore(s: State, outcome: Outcome)
    requires Core(s) && s.queue != []
    ensures Core(SettleHead(s, outcome))
  {
    forall id: nat
      ensures IsPending(SettleHead(s, outcome).queue, id) <==> IsPending(s.queue, id) && id != s.queue[0].id
    {
      PendingTail(s.queue, s.commandId, id);
    }
    SettleHeadSettles(s, outcome);
    SettleHeadBooks(s, outcome);
  }

  lemma SettleHeadSettles(s: State, outcome: Outcome)
    requires SettledOnce(s) && QueueOk(s) && s.queue != []
    requires forall id: nat ::
      IsPending(SettleHead(s, outcome).queue, id) <==> IsPending(s.queue, id) && id != s.queue[0].id
    ensures SettledOnce(SettleHead(s, outcome))
  {
    var s' := SettleHead(s, outcome);
    var head := s.queue[0].id;
    assert Issued(s, head) && IsPending(s.queue, head);
    forall id: nat
      ensures Settlements(s'.log, id) == if Issued(s', id) && !IsPending(s'.queue, id) then 1 else 0
    {
      SettlementsSnoc(s.log, Settle(head, outcome), id);
    }
  }

  lemma SettleHeadBooks(s: State, outcome: Outcome)
    requires QueueOk(s) && TimersOk(s) && s.queue != []
    requires forall id: nat ::
      IsPending(SettleHead(s, outcome).queue, id) <==> IsPending(s.queue, id) && id != s.queue[0].id
    ensures QueueOk(SettleHead(s, outcome)) && TimersOk(SettleHead(s, outcome))
  {}

  /** Effects that settle nothing, and a cleared timer, keep the core invariant. */
  lemma QuietCore(s: State, s': State, e: Effect)
    requires Core(s) && !e.Settle?
    requires s'.log == s.log + [e] && s'.queue == s.queue && s'.commandId == s.commandId
    requires s'.timers.Keys <= s.timers.Keys
    ensures Core(s')
  {
    forall id: nat ensures Settlements(s'.log, id) == Settlements(s.log, id) {
      SettlementsSnoc(s.log, e, id);
    }
    assert forall id: nat :: Issued(s', id) == Issued(s, id);
    assert forall id: nat :: id in s'.timers ==> id in s.timers;
  }

  lemma ProcessLineCore(c: Config, s: State, line: string)
    requires Core(s)
    ensures Core(ProcessLine(c, s, line))
    ensures |ProcessLine(c, s, line).queue| <= |s.queue|
    ensures ProcessLine(c, s, line).connected == s.connected
  {
    var s' := ProcessLine(c, s, line);
    var parsed := c.classify(line);
    if line != "" {
      if s.queue == [] {
        QuietCore(s, s', Unsolicited(line, parsed));
      } else {
        match Judge(parsed, line)
        case Reply(outcome) => SettleHeadCore(s, outcome);
        case Notice => QuietCore(s, s', EmitEvent(line));
      }
    }
  }

  lemma BufferCore(s: State, buffer: string)
    requires Core(s)
    ensures Core(s.(buffer := buffer))
  {
    var s' := s.(buffer := buffer);
    assert forall id: nat :: Issued(s', id) == Issued(s, id);
  }

  lemma {:induction false} DrainCore(c: Config, s: State)
    requires Core(s)
    ensures Core(Drain(c, s))
    ensures |Drain(c, s).queue| <= |s.queue|
    ensures Drain(c, s).connected == s.connected
    decreases |s.buffer|
  {
    var i := IndexOf(s.buffer, '\n');
    if i != -1 {
      var next := ProcessLine(c, s, Trim(s.buffer[..i]));
      ProcessLineCore(c, s, Trim(s.buffer[..i]));
      BufferCore(next, s.buffer[i + 1..]);
      DrainStep(c, s, i);
      DrainCore(c, next.(buffer := s.buffer[i + 1..]));
    }
  }

  lemma {:induction false} RejectAllCore(s: State, cause: Cause)
    requires Core(s)
    ensures Core(RejectAll(s, cause))
    ensures RejectAll(s, cause).(log := [], queue := [], timers := map[]) == s.(log := [], queue := [], timers := map[])
    decreases |s.queue|
  {
    if s.queue != [] {
      SettleHeadCore(s, Rejected(cause));
      RejectAllCore(SettleHead(s, Rejected(cause)), cause);
    }
  }

  lemma PendingSnoc(queue: seq<Pending>, p: Pending, id: nat)
    ensures IsPending(queue + [p], id) <==> p.id == id || IsPending(queue, id)
  {
    if IsPending(queue, id) {
      var i :| 0 <= i < |queue| && queue[i].id == id;
      assert (queue + [p])[i].id == id;
    }
    assert (queue + [p])[|queue|] == p;
  }

  lemma EnqueuePending(s: State, kind: TimerKind, timeout: int)
    ensures forall id: nat ::
      IsPending(Enqueue(s, kind, timeout).queue, id) <==> s.commandId + 1 == id || IsPending(s.queue, id)
  {
    forall id: nat
      ensures IsPending(Enqueue(s, kind, timeout).queue, id) <==> s.commandId + 1 == id || IsPending(s.queue, id)
    {
      PendingSnoc(s.queue, Pending(s.commandId + 1, timeout > 0), id);
    }
  }

  lemma EnqueueSettled(s: State, kind: TimerKind, timeout: int)
    requires SettledOnce(s) && QueueOk(s)
    ensures SettledOnce(Enqueue(s, kind, timeout))
  {
    var s' := Enqueue(s, kind, timeout);
    EnqueuePending(s, kind, timeout);
    assert forall id: nat :: Issued(s', id) <==> Issued(s, id) || id == s.commandId + 1;
  }

  lemma EnqueueCore(s: State, kind: TimerKind, timeout: int)
    requires Core(s)
    ensures Core(Enqueue(s, kind, timeout))
  {
    EnqueueSettled(s, kind, timeout);
    EnqueuePending(s, kind, timeout);
    assert !IsPending(s.queue, s.commandId + 1);
  }

  lemma {:induction false} EnqueueManyCore(s: State, n: nat, kind: TimerKind, timeout: int)
    requires Core(s)
    ensures Core(EnqueueMany(s, n, kind, timeout))
  {
    if n != 0 {
      EnqueueManyCore(s, n - 1, kind, timeout);
      EnqueueCore(EnqueueMany(s, n - 1, kind, timeout), kind, timeout);
    }
  }

  lemma PendingRemoved(queue: seq<Pending>, k: nat, x: nat)
    requires k < |queue|
    requires forall i, j :: 0 <= i < j < |queue| ==> queue[i].id < queue[j].id
    ensures IsPending(queue[..k] + queue[k + 1..], x) <==> IsPending(queue, x) && x != queue[k].id
  {
    var rest := queue[..k] + queue[k + 1..];
    if IsPending(queue, x) && x != queue[k].id {
      var i :| 0 <= i < |queue| && queue[i].id == x;
      assert rest[if i < k then i else i - 1].id == x;
    }
    if IsPending(rest, x) {
      var i :| 0 <= i < |rest| && rest[i].id == x;
      assert queue[if i < k then i else i + 1].id == x;
    }
  }

  lemma FireTimerCore(s: State, id: nat)
    requires Core(s) && id in s.timers
    ensures Core(FireTimer(s, id)) && |FireTimer(s, id).queue| == |s.queue| - 1
  {
    assert IsPending(s.queue, id);
    forall x: nat ensures IsPending(FireTimer(s, id).queue, x) <==> IsPending(s.queue, x) && x != id {
      PendingRemoved(s.queue, Position(s.queue, id), x);
    }
    FireTimerSettles(s, id);
    FireTimerBooks(s, id);
  }

  lemma RemovedOrdered(queue: seq<Pending>, k: nat, last: nat)
    requires Ordered(queue, last) && k < |queue|
    ensures Ordered(queue[..k] + queue[k + 1..], last)
  {
    var rest := queue[..k] + queue[k + 1..];
    assert forall i :: 0 <= i < |rest| ==> rest[i] == queue[if i < k then i else i + 1];
  }

  lemma RemovedTimed(queue: seq<Pending>, k: nat, timers: map<nat, TimerKind>, id: nat)
    requires k < |queue| && forall i :: 0 <= i < |queue| ==> queue[i].id in timers ==> queue[i].timed
    ensures
      var rest := queue[..k] + queue[k + 1..];
      forall i :: 0 <= i < |rest| ==> rest[i].id in timers - {id} ==> rest[i].timed
  {
    var rest := queue[..k] + queue[k + 1..];
    assert forall i :: 0 <= i < |rest| ==> rest[i] == queue[if i < k then i else i + 1];
  }

  lemma FireTimerFields(s: State, id: nat)
    requires id in s.timers && IsPending(s.queue, id)
    ensures
      var (s', k) := (FireTimer(s, id), Position(s.queue, id));
      && 0 <= k < |s.queue| && s'.queue == s.queue[..k] + s.queue[k + 1..]
      && s'.timers == s.timers - {id} && s'.commandId == s.commandId
  {}

  lemma FireTimerBooks(s: State, id: nat)
    requires QueueOk(s) && TimersOk(s) && id in s.timers && IsPending(s.queue, id)
    requires forall x: nat :: IsPending(FireTimer(s, id).queue, x) <==> IsPending(s.queue, x) && x != id
    ensures QueueOk(FireTimer(s, id)) && TimersOk(FireTimer(s, id))
    ensures |FireTimer(s, id).queue| == |s.queue| - 1
  {
    FireTimerFields(s, id);
    RemovedOrdered(s.queue, Position(s.queue, id), s.commandId);
    RemovedTimed(s.queue, Position(s.queue, id), s.timers, id);
  }

  lemma FireTimerSettles(s: State, id: nat)
    requires SettledOnce(s) && QueueOk(s) && id in s.timers && IsPending(s.queue, id)
    requires forall x: nat :: IsPending(FireTimer(s, id).queue, x) <==> IsPending(s.queue, x) && x != id
    ensures SettledOnce(FireTimer(s, id))
  {
    var s' := FireTimer(s, id);
    assert Issued(s, id) by {
      var i :| 0 <= i < |s.queue| && s.queue[i].id == id;
    }
    forall x: nat
      ensures Settlements(s'.log, x) == if Issued(s', x) && !IsPending(s'.queue, x) then 1 else 0
    {
      SettlementsSnoc(s.log, Settle(id, Rejected(CommandTimeout)), x);
    }
  }

  /** One step of any kind keeps the invariant. */
  lemma ApplyInv(c: Config, s: State, step: Step)
    requires Inv(c, s)
    ensures Inv(c, Apply(c, s, step))
  {
    match step
    case DoAttach =>
      var s' := s.(attached := true, connected := true);
      assert forall id: nat :: Issued(s', id) == Issued(s, id);
    case DoSend(command, timeout) =>
      if Send(c, s, command, timeout).1.Success? {
        var s' := Enqueue(s, SendTimer, Or(timeout, c.timeout));
        EnqueueCore(s, SendTimer, Or(timeout, c.timeout));
        QuietCore(s', Apply(c, s, step), Write(command + "\n"));
      }
    case DoPipeline(commands, timeout) =>
      if Pipeline(c, s, commands, timeout).1.Success? && commands != [] {
        var s' := EnqueueMany(s, |commands|, PipelineTimer, Or(timeout, c.timeout));
        EnqueueManyCore(s, |commands|, PipelineTimer, Or(timeout, c.timeout));
        EnqueueManyFrame(s, |commands|, PipelineTimer, Or(timeout, c.timeout));
        QuietCore(s', Apply(c, s, step), Write(JoinLines(WireLines(commands))));
      }
    case DoData(chunk) =>
      BufferCore(s, s.buffer + chunk);
      DrainCore(c, s.(buffer := s.buffer + chunk));
    case DoTimer(id) =>
      if id in s.timers {
        FireTimerCore(s, id);
      }
    case DoSocketClosed =>
      TeardownInv(c, s, Disconnected, EmitDisconnect);
    case DoSocketTimedOut =>
      RejectAllCore(s, SocketTimeout);
      QuietCore(RejectAll(s, SocketTimeout), Apply(c, s, step), EmitTimeout);
    case DoClose =>
      DisconnectCore(s);
      RejectAllCore(s.(connected := false), HandlerClosed);
      BufferCore(RejectAll(s.(connected := false), HandlerClosed), "");
  }

  lemma DisconnectCore(s: State)
    requires Core(s)
    ensures Core(s.(connected := false))
  {
    var s' := s.(connected := false);
    assert forall id: nat :: Issued(s', id) == Issued(s, id);
  }

  lemma TeardownInv(c: Config, s: State, cause: Cause, e: Effect)
    requires Inv(c, s) && !e.Settle?
    ensures
      var s' := RejectAll(s.(connected := false), cause);
      Inv(c, s'.(log := s'.log + [e]))
  {
    DisconnectCore(s);
    var s' := RejectAll(s.(connected := false), cause);
    RejectAllCore(s.(connected := false), cause);
    QuietCore(s', s'.(log := s'.log + [e]), e);
  }

  lemma {:induction false} RunInv(c: Config, s: State, steps: seq<Step>)
    requires Inv(c, s)
    ensures Inv(c, Run(c, s, steps))
    decreases |steps|
  {
    if steps != [] {
      ApplyInv(c, s, steps[0]);
      RunInv(c, Apply(c, s, steps[0]), steps[1..]);
    }
  }

  /** In every run -- timeouts, events, disconnects and closes included -- each issued id is pending and
      unsettled, or settled exactly once; ids stay in order; every armed timer belongs to a pending id. */
  lemma ExactlyOnce(c: Config, steps: seq<Step>)
    ensures Inv(c, Run(c, INITIAL, steps))
  {
    assert Inv(c, INITIAL);
    RunInv(c, INITIAL, steps);
  }

  // ---------- a pipeline is a series of sends ----------

  /** All bytes written so far. */
  function Wire(log: seq<Effect>): string {
    if log == [] then []
    else
      var last := log[|log| - 1];
      Wire(log[..|log| - 1]) + (if last.Write? then last.bytes else "")
  }

  lemma WireSnoc(log: seq<Effect>, e: Effect)
    ensures Wire(log + [e]) == Wire(log) + (if e.Write? then e.bytes else "")
  {
    assert (log + [e])[..|log|] == log;
  }

  function SendEach(c: Config, s: State, commands: seq<string>, timeout: int): State {
    if commands == [] then s
    else Send(c, SendEach(c, s, commands[..|commands| - 1], timeout), commands[|commands| - 1], timeout).0
  }

  /** The same bookkeeping, whatever was logged and whichever kind of timer was armed. */
  predicate SameBooks(a: State, b: State) {
    && a.queue == b.queue && a.commandId == b.commandId && a.timers.Keys == b.timers.Keys
    && a.buffer == b.buffer && a.connected == b.connected && a.attached == b.attached
  }

  ghost predicate SameSettlements(a: State, b: State) {
    forall id: nat :: Settlements(a.log, id) == Settlements(b.log, id)
  }

  lemma WriteQuietly(a: State, b: State, bytes: string)
    requires b.log == a.log + [Write(bytes)]
    ensures SameSettlements(a, b) && Wire(b.log) == Wire(a.log) + bytes
  {
    WireSnoc(a.log, Write(bytes));
    forall id: nat ensures Settlements(b.log, id) == Settlements(a.log, id) {
      SettlementsSnoc(a.log, Write(bytes), id);
    }
  }

  lemma {:induction false} EnqueueManyFrame(s: State, n: nat, kind: TimerKind, timeout: int)
    ensures
      var q := EnqueueMany(s, n, kind, timeout);
      && q.(queue := [], timers := map[], commandId := 0) == s.(queue := [], timers := map[], commandId := 0)
      && |q.queue| == |s.queue| + n && q.commandId == s.commandId + n
  {
    if n != 0 {
      EnqueueManyFrame(s, n - 1, kind, timeout);
    }
  }

  lemma SendAccepted(c: Config, a: State, b: State, command: string, timeout: int)
    requires SameBooks(a, b) && a.connected && a.attached && |a.queue| < c.maxQueueSize
    ensures
      var a' := Send(c, a, command, timeout).0;
      && SameBooks(a', Enqueue(b, PipelineTimer, Or(timeout, c.timeout)))
      && Wire(a'.log) == Wire(a.log) + command + "\n" && SameSettlements(a, a')
  {
    var a' := Send(c, a, command, timeout).0;
    WriteQuietly(a, a', command + "\n");
    assert Wire(a.log) + (command + "\n") == Wire(a.log) + command + "\n";
  }

  lemma {:induction false} SendEachAccepted(c: Config, s: State, commands: seq<string>, timeout: int)
    requires s.connected && s.attached && |s.queue| + |commands| <= c.maxQueueSize
    ensures SameBooks(SendEach(c, s, commands, timeout), EnqueueMany(s, |commands|, PipelineTimer, Or(timeout, c.timeout)))
    ensures Wire(SendEach(c, s, commands, timeout).log) == Wire(s.log) + JoinLines(commands)
    ensures SameSettlements(s, SendEach(c, s, commands, timeout))
  {
    if commands != [] {
      var n := |commands| - 1;
      var t := Or(timeout, c.timeout);
      var sent := SendEach(c, s, commands[..n], timeout);
      SendEachAccepted(c, s, commands[..n], timeout);
      EnqueueManyFrame(s, n, PipelineTimer, t);
      SendAccepted(c, sent, EnqueueMany(s, n, PipelineTimer, t), commands[n], timeout);
      SameSettlementsTrans(s, sent, Send(c, sent, commands[n], timeout).0);
      WireMore(Wire(s.log), commands, n);
    }
  }

  lemma WireMore(wire: string, commands: seq<string>, n: nat)
    requires n + 1 == |commands|
    ensures wire + JoinLines(commands) == (wire + JoinLines(commands[..n])) + commands[n] + "\n"
  {
    JoinLinesSnoc(commands[..n], commands[n]);
    assert commands == commands[..n] + [commands[n]];
    LineMore(wire, JoinLines(commands[..n]), commands[n]);
  }

  lemma LineMore(wire: string, lines: string, line: string)
    ensures wire + (lines + line + "\n") == (wire + lines) + line + "\n"
  {}

  lemma SameSettlementsTrans(a: State, b: State, c: State)
    requires SameSettlements(a, b) && SameSettlements(b, c)
    ensures SameSettlements(a, c)
  {}

  lemma WireLinesExact(commands: seq<string>)
    requires forall i :: 0 <= i < |commands| ==> Trim(commands[i]) == commands[i] && '\n' !in commands[i]
    ensures WireLines(commands) == commands
  {
    forall i | 0 <= i < |commands| ensures WireLine(commands[i]) == commands[i] {
      assert Spaced(commands[i]) == commands[i];
    }
  }

  /** `pipeline` puts one line per command on the wire, whatever characters the commands contain. */
  lemma PipelineWritesOneLineEach(c: Config, s: State, commands: seq<string>, timeout: int)
    requires s.connected && s.attached && |s.queue| + |commands| <= c.maxQueueSize
    ensures |WireLines(commands)| == |commands| && NewlineFree(WireLines(commands))
    ensures
      var t := Pipeline(c, s, commands, timeout).0;
      && Wire(t.log) == Wire(s.log) + JoinLines(WireLines(commands))
      && |t.queue| == |s.queue| + |commands| && SameSettlements(s, t)
  {
    if commands != [] {
      var q := EnqueueMany(s, |commands|, PipelineTimer, Or(timeout, c.timeout));
      EnqueueManyFrame(s, |commands|, PipelineTimer, Or(timeout, c.timeout));
      WriteQuietly(q, Pipeline(c, s, commands, timeout).0, JoinLines(WireLines(commands)));
    }
  }

  /** For trimmed newline-free commands that fit the queue, one `pipeline` call and successive `send`
      calls leave the same queue, ids, armed timers and bytes on the wire, and settle nothing. */
  lemma PipelineIsSends(c: Config, s: State, commands: seq<string>, timeout: int)
    requires s.connected && s.attached && |s.queue| + |commands| <= c.maxQueueSize
    requires forall i :: 0 <= i < |commands| ==> Trim(commands[i]) == commands[i] && '\n' !in commands[i]
    ensures
      var p := Pipeline(c, s, commands, timeout).0;
      var t := SendEach(c, s, commands, timeout);
      SameBooks(p, t) && Wire(p.log) == Wire(t.log) && SameSettlements(p, t)
  {
    SendEachAccepted(c, s, commands, timeout);
    WireLinesExact(commands);
    PipelineWritesOneLineEach(c, s, commands, timeout);
  }
}
