/** Replies and their commands. */
module Correlation {
  // What follows for every run from the start, with and without timeouts.

  import opened Channels
  import opened Protocol
  import opened Text

  // ---------- runs without timeouts ----------

  predicate IsCalm(moves: seq<Move>) {
    forall i :: 0 <= i < |moves| ==> !moves[i].TimerFires? && !moves[i].SocketTimesOut?
  }

  lemma ProcessLog(c: Config, s: State, line: string) returns (e: Effect)
    requires line != ""
    ensures ProcessLine(c, s, line).log == s.log + [e] && (e.Settle? ==> !IsTimeout(e.outcome))
  {
    if s.queue == [] {
      e := Unsolicited(line, c.classify(line));
    } else {
      match Judge(c.classify(line), line)
      case Reply(outcome) => e := Settle(s.queue[0].id, outcome);
      case Notice => e := EmitEvent(line);
    }
  }

  lemma ProcessExpires(c: Config, s: State, line: string)
    ensures Expired(ProcessLine(c, s, line).log) == Expired(s.log)
  {
    if line != "" {
      var e := ProcessLog(c, s, line);
      Observe(s.log, e);
    }
  }

  lemma {:induction false} DrainExpires(c: Config, s: State)
    ensures Expired(Drain(c, s).log) == Expired(s.log)
    decreases |s.buffer|
  {
    var i := IndexOf(s.buffer, '\n');
    if i != -1 {
      DrainStep(c, s, i);
      ProcessExpires(c, s, Trim(s.buffer[..i]));
      DrainExpires(c, ProcessLine(c, s, Trim(s.buffer[..i])).(buffer := s.buffer[i + 1..]));
    }
  }

  lemma SendExpires(c: Config, s: State, command: string, timeout: int)
    ensures Expired(Send(c, s, command, timeout).0.log) == Expired(s.log)
  {
    Observe(s.log, Write(command + "\n"));
  }

  lemma PipelineExpires(c: Config, s: State, commands: seq<string>, timeout: int)
    ensures Expired(Pipeline(c, s, commands, timeout).0.log) == Expired(s.log)
  {
    EnqueueManyFrame(s, |commands|, PipelineTimer, Or(timeout, c.timeout));
    Observe(s.log, Write(JoinLines(WireLines(commands))));
  }

  lemma CalmStep(c: Config, w: World, m: Move)
    requires Enabled(c, w, m) && !m.TimerFires? && !m.SocketTimesOut?
    ensures Expired(Next(c, w, m).client.log) == Expired(w.client.log)
  {
    match m
    case ClientSend(command, timeout) => SendExpires(c, w.client, command, timeout);
    case ClientPipeline(commands, timeout) => PipelineExpires(c, w.client, commands, timeout);
    case ServerAnswer(_) =>
    case ServerEvent(_) =>
    case Deliver(count) => DrainExpires(c, w.client.(buffer := w.client.buffer + w.toClient[..count]));
  }

  lemma {:induction false} CalmRun(c: Config, w: World, moves: seq<Move>)
    requires IsRun(c, w, moves) && IsCalm(moves)
    ensures Expired(Final(c, w, moves).client.log) == Expired(w.client.log)
    decreases |moves|
  {
    if moves != [] {
      CalmStep(c, w, moves[0]);
      CalmRun(c, Next(c, w, moves[0]), moves[1..]);
    }
  }

  lemma {:induction false} AllAnswered(c: Config, heard: seq<Hearing>, lines: seq<ServerLine>)
    requires |heard| == |Answers(lines)|
    requires forall j :: 0 <= j < |heard| ==> heard[j].waiting != [] && heard[j].waiting[0] == j + 1
    ensures Assigned(c, heard, Answers(lines)) == Replies(c, Answers(lines))
    ensures Announced(c, heard, lines) == Events(lines)
    decreases |lines|
  {
    if lines != [] {
      var m := |lines| - 1;
      var l := lines[m];
      assert lines == lines[..m] + [l];
      LinesSnoc(lines[..m], l);
      if l.Answer? {
        AllAnswered(c, heard[..|heard| - 1], lines[..m]);
        RepliesSnoc(c, Answers(lines[..m]), l.text);
        assert Answers(lines)[..|heard| - 1] == Answers(lines[..m]);
      } else {
        assert Answers(lines) == Answers(lines[..m]) && Events(lines) == Events(lines[..m]) + [Trim(l.text)];
        AllAnswered(c, heard, lines[..m]);
      }
    }
  }

  lemma RepliesSnoc(c: Config, answers: seq<string>, text: string)
    ensures Replies(c, answers + [text]) == Replies(c, answers) + [(|answers| + 1, OutcomeOf(c, text))]
  {}

  /** The ids after the first `k` are pending, in order. */
  ghost predicate PendingFrom(client: State, k: nat) {
    && |client.queue| + k == client.commandId
    && (forall i :: 0 <= i < |client.queue| ==> client.queue[i].id == k + 1 + i)
  }

  lemma {:induction false} OrderedInterval(queue: seq<Pending>, last: nat, k: nat)
    requires Ordered(queue, last) && k <= last && forall id: nat :: IsPending(queue, id) <==> k < id <= last
    ensures |queue| + k == last && forall i :: 0 <= i < |queue| ==> queue[i].id == k + 1 + i
    decreases |queue|
  {
    if k < last {
      assert IsPending(queue, k + 1);
      var i :| 0 <= i < |queue| && queue[i].id == k + 1;
      assert IsPending(queue, queue[0].id);
      forall id: nat ensures IsPending(queue[1..], id) <==> k + 1 < id <= last {
        PendingTail(queue, last, id);
      }
      OrderedInterval(queue[1..], last, k + 1);
      assert forall i :: 1 <= i < |queue| ==> queue[i] == queue[1..][i - 1];
    } else if queue != [] {
      assert IsPending(queue, queue[0].id);
    }
  }

  lemma CalmHeard(client: State, heard: seq<Hearing>)
    requires Books(client, heard) && Expired(client.log) == {}
    ensures LateRepliesAlone(heard) && Exact(client, |heard|)
    ensures forall j :: 0 <= j < |heard| ==> heard[j].waiting != [] && heard[j].waiting[0] == j + 1
  {
    assert forall j :: 0 <= j < |heard| ==> heard[j].expired == {};
    assert LateRepliesAlone(heard);
  }

  // ---------- the main results ----------

  /** The n-th reply handled settles the oldest command that waits, if any does: that is command n, and only
      late replies find none, if and only if replies to timed-out commands are handled when none waits. */
  ghost predicate Correlated(c: Config, w: World) {
    var answers := Answers(w.emitted);
    && |w.heard| <= |answers| == |w.served| && w.served <= w.sent && |w.sent| == w.client.commandId
    && Replied(w.client.log) == Assigned(c, w.heard, answers[..|w.heard|])
    && Verdicts(w.heard)
  }

  lemma InvCorrelates(c: Config, w: World)
    requires WorldInv(c, w)
    ensures Correlated(c, w)
  {
    var p: nat :| Synced(c, w.client, w.heard, w.emitted, p, w.toClient);
    AnswersMonotone(w.emitted, p);
    assert Answers(w.emitted)[..|w.heard|] == Answers(w.emitted[..p]);
  }

  /** The main result, for every run with any timeouts whatsoever. */
  lemma StraightIffLateRepliesAlone(c: Config, moves: seq<Move>)
    requires IsRun(c, START, moves)
    ensures Correlated(c, Final(c, START, moves))
    ensures Straight(Final(c, START, moves).heard) <==> LateRepliesAlone(Final(c, START, moves).heard)
  {
    StartInv(c);
    Channels.RunInv(c, START, moves);
    InvCorrelates(c, Final(c, START, moves));
  }

  /** Nothing is lost: once both channels are empty, no command waits, each has been settled exactly once,
      and every event of the server has been emitted. */
  lemma QuietMeansSettled(c: Config, moves: seq<Move>)
    requires IsRun(c, START, moves)
    requires Final(c, START, moves).toServer == "" && Final(c, START, moves).toClient == ""
    ensures
      var w := Final(c, START, moves);
      && w.client.queue == []
      && (forall id: nat :: Settlements(w.client.log, id) == if 1 <= id <= |w.sent| then 1 else 0)
      && |w.heard| == |Answers(w.emitted)| && Emitted(w.client.log) == Announced(c, w.heard, w.emitted)
      && (IsCalm(moves) ==> Emitted(w.client.log) == Events(w.emitted))
  {
    StartInv(c);
    Channels.RunInv(c, START, moves);
    var w := Final(c, START, moves);
    InvSettles(c, w);
    if IsCalm(moves) {
      CalmRun(c, START, moves);
      CalmHeard(w.client, w.heard);
      AllAnswered(c, w.heard, w.emitted);
    }
  }

  lemma InvSettles(c: Config, w: World)
    requires WorldInv(c, w) && Inv(c, w.client) && w.toServer == "" && w.toClient == ""
    ensures w.client.queue == []
    ensures forall id: nat :: Settlements(w.client.log, id) == if 1 <= id <= |w.sent| then 1 else 0
    ensures |w.heard| == |Answers(w.emitted)| && Emitted(w.client.log) == Announced(c, w.heard, w.emitted)
  {
    var p: nat :| Synced(c, w.client, w.heard, w.emitted, p, "");
    assert w.client.buffer + "" == w.client.buffer;
    JoinLinesHasNewline(Texts(w.emitted[p..]));
    assert w.emitted[..p] == w.emitted;
    JoinLinesHasNewline(w.sent[|w.served|..]);
    NobodySettled(w.client);
  }

  lemma NobodySettled(s: State)
    requires SettledOnce(s) && s.queue == []
    ensures forall id: nat :: Settlements(s.log, id) == if 1 <= id <= s.commandId then 1 else 0
  {
    forall id: nat ensures Settlements(s.log, id) == if 1 <= id <= s.commandId then 1 else 0 {
      assert Issued(s, id) == (1 <= id <= s.commandId) && !IsPending(s.queue, id);
    }
  }

  /** Without timeouts the k promises settled so far are those of the commands 1..k, in order; command n was
      settled by the n-th reply, which the server gave to the n-th command line; the remaining ids are
      pending in order; and the events emitted are the server's, in order. */
  lemma RepliesReachTheirCommands(c: Config, moves: seq<Move>)
    requires IsRun(c, START, moves) && IsCalm(moves)
    ensures
      var w := Final(c, START, moves);
      var settled := Settled(w.client.log);
      var answers := Answers(w.emitted);
      && |settled| <= |answers| == |w.served| && w.served <= w.sent && |w.sent| == w.client.commandId
      && settled == Replies(c, answers[..|settled|])
      && PendingFrom(w.client, |settled|)
      && Emitted(w.client.log) <= Events(w.emitted)
  {
    StartInv(c);
    Channels.RunInv(c, START, moves);
    CalmRun(c, START, moves);
    CalmCorrelates(c, Final(c, START, moves));
  }

  lemma CalmCorrelates(c: Config, w: World)
    requires WorldInv(c, w) && Expired(w.client.log) == {}
    ensures
      var settled := Settled(w.client.log);
      var answers := Answers(w.emitted);
      && |settled| <= |answers| == |w.served| && w.served <= w.sent && |w.sent| == w.client.commandId
      && settled == Replies(c, answers[..|settled|])
      && PendingFrom(w.client, |settled|)
      && Emitted(w.client.log) <= Events(w.emitted)
  {
    var p: nat :| Synced(c, w.client, w.heard, w.emitted, p, w.toClient);
    CalmSynced(c, w.client, w.heard, w.emitted, p, w.toClient);
  }

  lemma CalmSynced(c: Config, client: State, heard: seq<Hearing>, emitted: seq<ServerLine>, p: nat, rest: string)
    requires Synced(c, client, heard, emitted, p, rest) && Expired(client.log) == {}
    ensures
      var settled := Settled(client.log);
      && |settled| <= |Answers(emitted)| && settled == Replies(c, Answers(emitted)[..|settled|])
      && PendingFrom(client, |settled|) && Emitted(client.log) <= Events(emitted)
  {
    NothingExpired(client.log);
    CalmHeard(client, heard);
    AllAnswered(c, heard, emitted[..p]);
    AnswersMonotone(emitted, p);
    assert Answers(emitted)[..|heard|] == Answers(emitted[..p]);
    OrderedInterval(client.queue, client.commandId, |heard|);
  }
}
