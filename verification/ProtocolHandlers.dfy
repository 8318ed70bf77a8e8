/** The `ProtocolHandler` class of node/src/protocol.js, method by method, against the state machine of
    module `Protocol`. The socket and the promises are represented by the log of effects. */
module ProtocolHandlers {
  import opened Wrappers
  import opened Text
  import opened Protocol

  class ProtocolHandler {
    const config: Config
    var buffer: string
    var queue: seq<Pending>
    var attached: bool
    var connected: bool
    var commandId: nat
    var timers: map<nat, TimerKind>
    var log: seq<Effect>

    ghost function State(): State
      reads this
    {
      Protocol.State.State(buffer, queue, attached, connected, commandId, timers, log)
    }

    constructor (classify: string -> Parsed, timeout: int, maxQueueSize: int)
      ensures config == Config(classify, Or(timeout, 30000), Or(maxQueueSize, 1000))
      ensures State() == INITIAL
    {
      config := Config(classify, Or(timeout, 30000), Or(maxQueueSize, 1000));
      buffer, queue, attached, connected, commandId, timers, log := "", [], false, false, 0, map[], [];
    }

    method Attach()
      modifies this
      ensures State() == Apply(config, old(State()), DoAttach)
    {
      attached, connected := true, true;
    }

    method OnData(chunk: string)
      modifies this
      ensures State() == Feed(config, old(State()), chunk)
    {
      buffer := buffer + chunk;
      DrainBuffer();
    }

    method DrainBuffer()
      modifies this
      ensures State() == Drain(config, old(State()))
    {
      var i := IndexOf(buffer, '\n');
      while i != -1
        invariant i == IndexOf(buffer, '\n')
        invariant Drain(config, State()) == Drain(config, old(State()))
        decreases |buffer|
      {
        DrainStep(config, State(), i);
        TakeLine(i);
        i := IndexOf(buffer, '\n');
      }
    }

    /** The body of the loop: removes the first line of the buffer and handles it. */
    method TakeLine(i: nat)
      requires i < |buffer| && buffer[i] == '\n'
      modifies this
      ensures State() == ProcessLine(config, old(State()), Trim(old(buffer)[..i])).(buffer := old(buffer)[i + 1..])
    {
      var line := Trim(buffer[..i]);
      ProcessLineBuffer(config, State(), line, buffer[i + 1..]);
      buffer := buffer[i + 1..];
      if line == "" {
        return;
      }
      if queue == [] {
        HandleUnsolicited(line);
      } else {
        HandleReply(line);
      }
    }

    method HandleReply(line: string)
      requires queue != [] && line != ""
      modifies this
      ensures State() == ProcessLine(config, old(State()), line)
    {
      var pending := queue[0];
      queue := queue[1..];
      if pending.timed {
        timers := timers - {pending.id};
      }
      match config.classify(line)
      case Unparsable =>
        log := log + [Settle(pending.id, Resolved(line, true))];
      case Json(error, event) =>
        if error {
          log := log + [Settle(pending.id, Rejected(QueryFailed(line)))];
        } else if event {
          log := log + [EmitEvent(line)];
          queue := [pending] + queue;
        } else {
          log := log + [Settle(pending.id, Resolved(line, false))];
        }
    }

    method HandleUnsolicited(line: string)
      requires queue == [] && line != ""
      modifies this`log
      ensures State() == ProcessLine(config, old(State()), line)
    {
      match config.classify(line)
      case Unparsable => log := log + [EmitMessage(line, true)];
      case Json(_, event) =>
        if event {
          log := log + [EmitEvent(line)];
        } else {
          log := log + [EmitMessage(line, false)];
        }
    }

    /** Numbers a command, arms its timer and queues its promise. */
    method QueueUp(kind: TimerKind, limit: int)
      modifies this`commandId, this`timers, this`queue
      ensures State() == Enqueue(old(State()), kind, limit)
    {
      commandId := commandId + 1;
      if limit > 0 {
        timers := timers[commandId := kind];
      }
      queue := queue + [Pending(commandId, limit > 0)];
    }

    method Send(command: string, timeout: int) returns (promise: Result<nat, Refusal>)
      modifies this
      ensures (State(), promise) == Protocol.Send(config, old(State()), command, timeout)
    {
      if !connected || !attached {
        return Failure(NotConnected);
      }
      if |queue| >= config.maxQueueSize {
        return Failure(QueueFull);
      }
      QueueUp(SendTimer, Or(timeout, config.timeout));
      log := log + [Write(command + "\n")];
      return Success(commandId);
    }

    method Pipeline(commands: seq<string>, timeout: int) returns (promise: Result<nat, Refusal>)
      modifies this
      ensures (State(), promise) == Protocol.Pipeline(config, old(State()), commands, timeout)
    {
      if !connected || !attached {
        return Failure(NotConnected);
      }
      if commands == [] {
        return Success(commandId + 1);
      }
      if |queue| + |commands| > config.maxQueueSize {
        return Failure(QueueFull);
      }
      var limit := Or(timeout, config.timeout);
      var first := commandId + 1;
      var batch := "";
      for i := 0 to |commands|
        invariant State() == EnqueueMany(old(State()), i, PipelineTimer, limit)
        invariant batch == JoinLines(WireLines(commands)[..i])
      {
        QueueUp(PipelineTimer, limit);
        batch := batch + WireLine(commands[i]) + "\n";
        JoinLinesSnoc(WireLines(commands)[..i], WireLine(commands[i]));
        assert WireLines(commands)[..i + 1] == WireLines(commands)[..i] + [WireLine(commands[i])];
      }
      assert WireLines(commands)[..|commands|] == WireLines(commands);
      log := log + [Write(batch)];
      return Success(first);
    }

    /** The timeout callback of a command; only an armed timer goes off. */
    method OnTimer(id: nat)
      requires id in timers
      modifies this
      ensures State() == FireTimer(old(State()), id)
    {
      var kind := timers[id];
      timers := timers - {id};
      var i := Position(queue, id);
      if i != -1 {
        queue := queue[..i] + queue[i + 1..];
      }
      if i != -1 || kind.PipelineTimer? {
        log := log + [Settle(id, Rejected(CommandTimeout))];
      }
    }

    method RejectAll(cause: Cause)
      modifies this
      ensures State() == Protocol.RejectAll(old(State()), cause)
    {
      while |queue| > 0
        invariant Protocol.RejectAll(State(), cause) == Protocol.RejectAll(old(State()), cause)
        decreases |queue|
      {
        var pending := queue[0];
        queue := queue[1..];
        if pending.timed {
          timers := timers - {pending.id};
        }
        log := log + [Settle(pending.id, Rejected(cause))];
      }
    }

    method OnSocketClose()
      modifies this
      ensures State() == SocketClosed(old(State()))
    {
      connected := false;
      RejectAll(Disconnected);
      log := log + [EmitDisconnect];
    }

    method OnSocketTimeout()
      modifies this
      ensures State() == SocketTimedOut(old(State()))
    {
      RejectAll(SocketTimeout);
      log := log + [EmitTimeout];
    }

    method Close()
      modifies this
      ensures State() == Protocol.Close(old(State()))
    {
      connected := false;
      RejectAll(HandlerClosed);
      buffer := "";
    }
  }
}
