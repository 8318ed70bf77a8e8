/** What the promises of the protocol handler tell. */
module Promises {
  // What a caller of node/src/protocol.js learns: how each promise is settled, read off the line that the server sent
  // and the way the connection ended.

  import opened Protocol
  import opened Channels
  import opened Correlation
  import opened Text
  import opened Wrappers

  // ---------- replies in every run ----------

  /** The outcome is what the server said: a rejection for an error, and otherwise the line, unread if it is not JSON. */
  ghost predicate Says(c: Config, text: string, outcome: Outcome) {
    var line, parsed := Trim(text), c.classify(Trim(text));
    && (outcome == Rejected(QueryFailed(line)) <==> parsed.Json? && parsed.error)
    && (outcome == Resolved(line, false) <==> parsed.Json? && !parsed.error)
    && (outcome == Resolved(line, true) <==> parsed.Unparsable?)
  }

  /** No effect misrepresents the line it was caused by. */
  ghost predicate Truthful(c: Config, e: Effect) {
    match e
    case Settle(_, Resolved(line, raw)) =>
      line != "" && (if raw then c.classify(line) == Unparsable else c.classify(line) == Json(false, false))
    case Settle(_, Rejected(QueryFailed(line))) => line != "" && c.classify(line).Json? && c.classify(line).error
    case Settle(_, _) => true
    case EmitEvent(line) => line != "" && c.classify(line).Json? && c.classify(line).event
    case EmitMessage(line, raw) =>
      line != "" && (if raw then c.classify(line) == Unparsable else c.classify(line).Json? && !c.classify(line).event)
    case _ => true
  }

  ghost predicate AllTruthful(c: Config, log: seq<Effect>) { forall i :: 0 <= i < |log| ==> Truthful(c, log[i]) }

  lemma ProcessTruthful(c: Config, s: State, line: string)
    requires AllTruthful(c, s.log)
    ensures AllTruthful(c, ProcessLine(c, s, line).log)
  {}

  lemma {:induction false} DrainTruthful(c: Config, s: State)
    requires AllTruthful(c, s.log)
    ensures AllTruthful(c, Drain(c, s).log)
    decreases |s.buffer|
  {
    var i := IndexOf(s.buffer, '\n');
    if i != -1 {
      var line := Trim(s.buffer[..i]);
      ProcessTruthful(c, s, line);
      DrainStep(c, s, i);
      DrainTruthful(c, ProcessLine(c, s, line).(buffer := s.buffer[i + 1..]));
    }
  }

  /** The settlements of a whole queue with one cause, oldest first. */
  function Rejections(queue: seq<Pending>, cause: Cause): seq<Effect> {
    seq(|queue|, i requires 0 <= i < |queue| => Settle(queue[i].id, Rejected(cause)))
  }

  lemma {:induction false} RejectAllSettles(s: State, cause: Cause)
    ensures
      var t := RejectAll(s, cause);
      && t.log == s.log + Rejections(s.queue, cause) && t.queue == []
      && t.connected == s.connected && t.attached == s.attached && t.commandId == s.commandId && t.buffer == s.buffer
    decreases |s.queue|
  {
    if s.queue != [] {
      RejectAllSettles(SettleHead(s, Rejected(cause)), cause);
      assert Rejections(s.queue, cause) == [Settle(s.queue[0].id, Rejected(cause))] + Rejections(s.queue[1..], cause);
    } else {
      assert s.log + [] == s.log;
    }
  }

  lemma EnqueueLog(s: State, n: nat, kind: TimerKind, timeout: int)
    ensures EnqueueMany(s, n, kind, timeout).log == s.log
  {
    EnqueueManyFrame(s, n, kind, timeout);
  }

  lemma ApplyTruthful(c: Config, s: State, step: Step)
    requires AllTruthful(c, s.log)
    ensures AllTruthful(c, Apply(c, s, step).log)
  {
    match step {
      case DoPipeline(commands, timeout) => EnqueueLog(s, |commands|, PipelineTimer, Or(timeout, c.timeout));
      case DoData(chunk) => DrainTruthful(c, s.(buffer := s.buffer + chunk));
      case DoSocketClosed => RejectAllSettles(s.(connected := false), Disconnected);
      case DoSocketTimedOut => RejectAllSettles(s, SocketTimeout);
      case DoClose => RejectAllSettles(s.(connected := false), HandlerClosed);
      case _ =>
    }
  }

  lemma {:induction false} RunTruthful(c: Config, s: State, steps: seq<Step>)
    requires AllTruthful(c, s.log)
    ensures AllTruthful(c, Run(c, s, steps).log)
    decreases |steps|
  {
    if steps != [] {
      ApplyTruthful(c, s, steps[0]);
      RunTruthful(c, Apply(c, s, steps[0]), steps[1..]);
    }
  }

  /** In every run a promise is resolved with a line only if the server sent no error in it, marked unread exactly if it
      is not JSON, and rejected as a failed query only for an error; events and messages are what they are said to be. */
  lemma LogIsTruthful(c: Config, steps: seq<Step>)
    ensures AllTruthful(c, Run(c, INITIAL, steps).log)
  {
    RunTruthful(c, INITIAL, steps);
  }

  // ---------- one line ----------

  /** A line that arrives while a command waits: an error rejects the command, an event leaves it where it is, and
      anything else resolves it. */
  lemma LineSettlesOldest(c: Config, s: State, text: string)
    requires s.queue != [] && s.buffer == "" && '\n' !in text && Trim(text) != "" && TimersOk(s)
    ensures
      var t, line, parsed := Feed(c, s, text + "\n"), Trim(text), c.classify(Trim(text));
      && t.buffer == "" && t.commandId == s.commandId && t.connected == s.connected
      && t.timers.Keys == s.timers.Keys - {s.queue[0].id}
      && |t.log| == |s.log| + 1 && t.log[..|s.log|] == s.log
      && (parsed.Json? && !parsed.error && parsed.event ==>
            t.queue == s.queue && t.log[|s.log|] == EmitEvent(line))
      && (!(parsed.Json? && !parsed.error && parsed.event) ==>
            && t.queue == s.queue[1..]
            && t.log[|s.log|].Settle? && t.log[|s.log|].id == s.queue[0].id && Says(c, text, t.log[|s.log|].outcome))
  {
    FedLine(c, s, text);
    assert s.queue[0].id in s.timers ==> s.queue[0].timed;
  }

  lemma FedLine(c: Config, s: State, text: string)
    requires s.buffer == "" && '\n' !in text
    ensures Feed(c, s, text + "\n") == ProcessLine(c, s, Trim(text)).(buffer := "")
  {
    var whole := s.(buffer := text + "\n");
    assert s.buffer + (text + "\n") == text + "\n";
    assert whole.buffer[..|text|] == text && whole.buffer[|text| + 1..] == "";
    DrainStep(c, whole, |text|);
    ProcessLineBuffer(c, s, Trim(text), whole.buffer);
  }

  // ---------- the replies of the server, end to end ----------

  lemma SaysOutcome(c: Config, text: string)
    requires c.classify(Trim(text)) != Json(false, true)
    ensures Says(c, text, OutcomeOf(c, text))
  {}

  lemma {:induction false} AnswersAreAnswers(c: Config, lines: seq<ServerLine>, n: nat)
    requires LinesOk(c, lines) && n < |Answers(lines)|
    ensures IsAnswer(c, Answers(lines)[n])
    decreases |lines|
  {
    var m := |lines| - 1;
    assert LineOk(c, lines[m]);
    if n < |Answers(lines[..m])| {
      AnswersAreAnswers(c, lines[..m], n);
    }
  }

  /** In every run without timeouts: the n-th promise settled is that of command n, and it says what the n-th reply says:
      a query error if and only if the reply carries one, and else the line itself, unread if and only if it is not
      JSON. */
  lemma PromisesSayWhatTheServerSaid(c: Config, moves: seq<Move>)
    requires IsRun(c, START, moves) && IsCalm(moves)
    ensures
      var w := Final(c, START, moves);
      var settled, answers := Settled(w.client.log), Answers(w.emitted);
      && |settled| <= |answers|
      && forall n :: 0 <= n < |settled| ==> settled[n].0 == n + 1 && Says(c, answers[n], settled[n].1)
  {
    RepliesReachTheirCommands(c, moves);
    StartInv(c);
    Channels.RunInv(c, START, moves);
    var w := Final(c, START, moves);
    var settled, answers := Settled(w.client.log), Answers(w.emitted);
    forall n | 0 <= n < |settled| ensures settled[n].0 == n + 1 && Says(c, answers[n], settled[n].1) {
      AnswersAreAnswers(c, w.emitted, n);
      SaysOutcome(c, answers[n]);
      assert settled[n] == Replies(c, answers[..|settled|])[n];
    }
  }

  /** How many of the replies handled so far found a command waiting. */
  function Used(heard: seq<Hearing>): nat {
    if heard == [] then 0 else Used(heard[..|heard| - 1]) + (if heard[|heard| - 1].waiting == [] then 0 else 1)
  }

  lemma {:induction false} AssignedSays(c: Config, heard: seq<Hearing>, answers: seq<string>, j: nat)
    requires j < |heard| == |answers| && heard[j].waiting != []
    requires forall i :: 0 <= i < |answers| ==> IsAnswer(c, answers[i])
    ensures |Assigned(c, heard, answers)| == Used(heard) && Used(heard[..j]) < Used(heard)
    ensures Assigned(c, heard, answers)[Used(heard[..j])].0 == heard[j].waiting[0]
    ensures Says(c, answers[j], Assigned(c, heard, answers)[Used(heard[..j])].1)
    decreases |heard|
  {
    var m := |heard| - 1;
    AssignedCount(c, heard, answers);
    AssignedCount(c, heard[..m], answers[..m]);
    SaysOutcome(c, answers[m]);
    hide Says, IsAnswer, Trim;
    if j < m {
      AssignedSays(c, heard[..m], answers[..m], j);
      assert heard[..m][..j] == heard[..j];
    }
  }

  lemma {:induction false} AssignedCount(c: Config, heard: seq<Hearing>, answers: seq<string>)
    requires |heard| == |answers|
    ensures |Assigned(c, heard, answers)| == Used(heard)
    decreases |heard|
  {
    if heard != [] {
      var m := |heard| - 1;
      AssignedCount(c, heard[..m], answers[..m]);
    }
  }

  /** The same in every run, with any timeouts: the replies that find a command waiting settle the oldest one, in the
      order of the replies, with what they say; and no other promise is settled by a reply. */
  lemma EveryReplySaysWhatTheServerSaid(c: Config, moves: seq<Move>, j: nat)
    requires IsRun(c, START, moves) && j < |Final(c, START, moves).heard| && Final(c, START, moves).heard[j].waiting != []
    ensures
      var w := Final(c, START, moves);
      var replied, k := Replied(w.client.log), Used(w.heard[..j]);
      && |w.heard| <= |Answers(w.emitted)| && k < |replied| == Used(w.heard)
      && replied[k].0 == w.heard[j].waiting[0] && Says(c, Answers(w.emitted)[j], replied[k].1)
  {
    StraightIffLateRepliesAlone(c, moves);
    StartInv(c);
    Channels.RunInv(c, START, moves);
    var w := Final(c, START, moves);
    var answers := Answers(w.emitted)[..|w.heard|];
    forall i | 0 <= i < |answers| ensures IsAnswer(c, answers[i]) {
      AnswersAreAnswers(c, w.emitted, i);
    }
    AssignedSays(c, w.heard, answers, j);
  }

  // ---------- commands ----------

  /** `send` is refused exactly without a connection or at a full queue; otherwise the command is queued last under the
      next number, its line is written, and it may time out exactly if its own limit, or without one the default, is
      positive. */
  lemma SendAnswers(c: Config, s: State, command: string, timeout: int)
    requires QueueOk(s) && TimersOk(s)
    ensures
      var (t, promise) := Send(c, s, command, timeout);
      && (promise == Failure(NotConnected) <==> !s.connected || !s.attached)
      && (promise == Failure(QueueFull) <==> s.connected && s.attached && |s.queue| >= c.maxQueueSize)
      && (promise.Failure? ==> t == s)
      && (promise.Success? ==>
            && promise.value == t.commandId == s.commandId + 1
            && |t.queue| == |s.queue| + 1 && t.queue[..|s.queue|] == s.queue && t.queue[|s.queue|].id == t.commandId
            && t.log == s.log + [Write(command + "\n")]
            && t.timers.Keys == s.timers.Keys + (if t.queue[|s.queue|].timed then {t.commandId} else {})
            && (t.queue[|s.queue|].timed <==> timeout > 0 || (timeout == 0 && c.timeout > 0)))
  {}

  lemma {:induction false} EnqueueManyIs(s: State, n: nat, kind: TimerKind, timeout: int)
    ensures
      var t := EnqueueMany(s, n, kind, timeout);
      && t == s.(commandId := s.commandId + n, queue := t.queue, timers := t.timers)
      && t.queue == s.queue + Numbered(s.commandId + 1, n, timeout > 0)
      && (forall id :: id in t.timers <==> id in s.timers || (timeout > 0 && s.commandId < id <= s.commandId + n))
  {
    if n > 0 {
      EnqueueManyIs(s, n - 1, kind, timeout);
      assert Numbered(s.commandId + 1, n, timeout > 0)
          == Numbered(s.commandId + 1, n - 1, timeout > 0) + [Pending(s.commandId + n, timeout > 0)];
    }
  }

  /** Commands under consecutive numbers. */
  function Numbered(first: nat, n: nat, timed: bool): seq<Pending> {
    seq(n, i requires 0 <= i < n => Pending(first + i, timed))
  }

  /** `pipeline` is refused exactly without a connection or when the whole batch does not fit. Otherwise its commands are
      queued last under the next numbers and written at once, each trimmed and on one line of its own, and each may time
      out as with `send`. An empty batch does nothing. */
  lemma PipelineAnswers(c: Config, s: State, commands: seq<string>, timeout: int) returns (lines: seq<string>)
    ensures
      |lines| == |commands| && forall i :: 0 <= i < |lines| ==>
        var trimmed := Trim(commands[i]);
        && |lines[i]| == |trimmed|
        && forall j :: 0 <= j < |trimmed| ==> lines[i][j] == if trimmed[j] == '\n' then ' ' else trimmed[j]
    ensures
      var (t, promise) := Pipeline(c, s, commands, timeout);
      var n, timed := |commands|, timeout > 0 || (timeout == 0 && c.timeout > 0);
      && (promise == Failure(NotConnected) <==> !s.connected || !s.attached)
      && (promise == Failure(QueueFull) <==> s.connected && s.attached && n > 0 && |s.queue| + n > c.maxQueueSize)
      && (promise.Failure? || n == 0 ==> t == s)
      && (promise.Success? ==> promise.value == s.commandId + 1 && t.commandId == s.commandId + n)
      && (promise.Success? && n > 0 ==>
            && t.log == s.log + [Write(JoinLines(lines))]
            && t.queue == s.queue + Numbered(s.commandId + 1, n, timed)
            && (forall id :: id in t.timers <==> id in s.timers || (timed && s.commandId < id <= s.commandId + n)))
  {
    lines := WireLines(commands);
    EnqueueManyIs(s, |commands|, PipelineTimer, Or(timeout, c.timeout));
    hide EnqueueMany, Numbered, Trim, JoinLines;
  }

  // ---------- the end of a connection ----------

  /** Attaching a socket makes the handler connected and leaves everything else as it was. */
  lemma AttachConnects(c: Config, s: State)
    ensures
      var t := Apply(c, s, DoAttach);
      && t.connected && t.attached && t.queue == s.queue && t.buffer == s.buffer
      && t.commandId == s.commandId && t.timers == s.timers && t.log == s.log
  {}

  /** However the connection ends, every waiting promise is rejected with the reason, oldest first; only a silent socket
      leaves the handler connected, and only `close` drops what was read. */
  lemma EndingsRejectAll(c: Config, s: State)
    ensures
      var t := Apply(c, s, DoSocketClosed);
      && t.log == s.log + Rejections(s.queue, Disconnected) + [EmitDisconnect]
      && t.queue == [] && !t.connected && t.buffer == s.buffer
      && t.attached == s.attached && t.commandId == s.commandId
    ensures
      var t := Apply(c, s, DoSocketTimedOut);
      && t.log == s.log + Rejections(s.queue, SocketTimeout) + [EmitTimeout]
      && t.queue == [] && t.connected == s.connected && t.buffer == s.buffer
      && t.attached == s.attached && t.commandId == s.commandId
    ensures
      var t := Apply(c, s, DoClose);
      && t.log == s.log + Rejections(s.queue, HandlerClosed) && t.queue == [] && !t.connected && t.buffer == ""
      && t.attached == s.attached && t.commandId == s.commandId
  {
    RejectAllSettles(s.(connected := false), Disconnected);
    RejectAllSettles(s, SocketTimeout);
    RejectAllSettles(s.(connected := false), HandlerClosed);
  }

  /** After any run an armed timer that goes off rejects exactly its own command. */
  lemma TimersRejectTheirCommand(c: Config, steps: seq<Step>, id: nat)
    requires id in Run(c, INITIAL, steps).timers
    ensures
      var s := Run(c, INITIAL, steps);
      var t := Apply(c, s, DoTimer(id));
      && IsPending(s.queue, id) && t.log == s.log + [Settle(id, Rejected(CommandTimeout))]
      && (forall other: nat :: IsPending(t.queue, other) <==> IsPending(s.queue, other) && other != id)
      && id !in t.timers
  {
    ExactlyOnce(c, steps);
    var s := Run(c, INITIAL, steps);
    assert IsPending(s.queue, id);
    forall x: nat ensures IsPending(FireTimer(s, id).queue, x) <==> IsPending(s.queue, x) && x != id {
      PendingRemoved(s.queue, Position(s.queue, id), x);
    }
  }
}
