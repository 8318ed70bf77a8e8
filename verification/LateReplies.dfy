/** A run of the protocol of node/src/protocol.js from the start, in which a timeout makes the reply to one command settle
    another one. */
module LateReplies {
  // `Correlation` proves when timeouts are harmless; this run shows that they are not always.

  import opened Channels
  import opened Protocol
  import opened Text

  /** Two commands are sent, the first times out, and its reply settles the second. */
  function Misdirecting(a: string, b: string, timeout: int, reply: string): seq<Move> {
    [ClientSend(a, timeout), ClientSend(b, timeout), TimerFires(1), ServerAnswer(reply), Deliver(|reply| + 1)]
  }

  lemma OneReply(c: Config, s: State, reply: string)
    requires s.queue != [] && s.buffer == "" && IsAnswer(c, reply)
    ensures Feed(c, s, reply + "\n") == SettleHead(s, OutcomeOf(c, reply))
    ensures Hears(c, s.(buffer := reply + "\n")) == [HearingOf(s)]
  {
    assert s.buffer + (reply + "\n") == reply + "\n";
    OneLine(c, s.(buffer := reply + "\n"), reply);
    ProcessLineBuffer(c, s, Trim(reply), reply + "\n");
    AnswerSettles(c, s, reply);
  }

  lemma OneLine(c: Config, s: State, line: string)
    requires s.buffer == line + "\n" && '\n' !in line
    ensures Drain(c, s) == ProcessLine(c, s, Trim(line)).(buffer := "")
    ensures Hears(c, s) == HeardAt(c, s, line)
  {
    assert s.buffer[..|line|] == line && s.buffer[|line| + 1..] == "";
    DrainStep(c, s, |line|);
    HearsStep(c, s, |line|);
    DrainNothing(c, ProcessLine(c, s, Trim(line)).(buffer := ""));
  }

  lemma DrainNothing(c: Config, s: State)
    requires s.buffer == ""
    ensures Drain(c, s) == s && Hears(c, s) == []
  {}

  /** Accepting a command in a connected client. */
  lemma SendStep(c: Config, w: World, command: string, timeout: int)
    requires IsCommand(command) && Or(timeout, c.timeout) > 0 && |w.client.queue| < c.maxQueueSize
    requires w.client.connected && w.client.attached
    ensures
      var id := w.client.commandId + 1;
      Next(c, w, ClientSend(command, timeout)) ==
        w.(client := w.client.(commandId := id, queue := w.client.queue + [Pending(id, true)],
                               timers := w.client.timers[id := SendTimer], log := w.client.log + [Write(command + "\n")]),
           sent := w.sent + [command], toServer := w.toServer + command + "\n")
  {}

  /** The world when the first of two commands has timed out and its reply is under way. */
  function Waiting(a: string, b: string, reply: string): World {
    var log := [Write(a + "\n"), Write(b + "\n"), Settle(1, Rejected(CommandTimeout))];
    World(State("", [Pending(2, true)], true, true, 2, map[2 := SendTimer], log),
          b + "\n", reply + "\n", [a, b], [a], [Answer(reply)], [])
  }

  predicate TwoSent(w: World, a: string, b: string) {
    w == START.(client := START.client.(commandId := 2, queue := [Pending(1, true), Pending(2, true)],
                                        timers := map[1 := SendTimer, 2 := SendTimer],
                                        log := [Write(a + "\n"), Write(b + "\n")]),
                sent := [a, b], toServer := a + "\n" + b + "\n")
  }

  lemma SendTwo(c: Config, a: string, b: string, timeout: int)
    requires IsCommand(a) && IsCommand(b) && Or(timeout, c.timeout) > 0 && c.maxQueueSize >= 2
    ensures TwoSent(Next(c, Next(c, START, ClientSend(a, timeout)), ClientSend(b, timeout)), a, b)
  {
    SendStep(c, START, a, timeout);
    SendStep(c, Next(c, START, ClientSend(a, timeout)), b, timeout);
    assert "" + a + "\n" == a + "\n";
  }

  lemma RunCons(c: Config, w: World, m: Move, rest: seq<Move>)
    requires Enabled(c, w, m) && IsRun(c, Next(c, w, m), rest)
    ensures IsRun(c, w, [m] + rest) && Final(c, w, [m] + rest) == Final(c, Next(c, w, m), rest)
  {
    assert ([m] + rest)[1..] == rest;
  }

  /** The first command times out. */
  lemma TimeOut(c: Config, w: World, a: string, b: string, reply: string)
    requires TwoSent(w, a, b)
    ensures Enabled(c, w, TimerFires(1))
    ensures
      Next(c, w, TimerFires(1))
        == Waiting(a, b, reply).(toServer := a + "\n" + b + "\n", toClient := "", served := [], emitted := [])
  {
    FirstTimer(w.client);
  }

  lemma ServeFirst(c: Config, w: World, a: string, rest: string, reply: string)
    requires IsCommand(a) && IsAnswer(c, reply) && w.toServer == a + ("\n" + rest)
    ensures Enabled(c, w, ServerAnswer(reply))
    ensures
      Next(c, w, ServerAnswer(reply))
        == w.(served := w.served + [a], toServer := rest, emitted := w.emitted + [Answer(reply)],
              toClient := w.toClient + reply + "\n")
  {
    FirstCommand(a, rest);
  }

  /** The server answers it all the same. */
  lemma Serve(c: Config, w: World, a: string, b: string, reply: string)
    requires IsCommand(a) && IsAnswer(c, reply)
    requires w == Waiting(a, b, reply).(toServer := a + "\n" + b + "\n", toClient := "", served := [], emitted := [])
    ensures Enabled(c, w, ServerAnswer(reply)) && Next(c, w, ServerAnswer(reply)) == Waiting(a, b, reply)
  {
    TwoLines(a, b);
    ServeFirst(c, w, a, b + "\n", reply);
    FirstOnes(a, Answer(reply), reply);
  }

  lemma TwoLines(a: string, b: string)
    ensures a + "\n" + b + "\n" == a + ("\n" + (b + "\n"))
  {}

  lemma FirstOnes<T>(a: string, l: T, reply: string)
    ensures [] + [a] == [a] && [] + [l] == [l] && "" + reply + "\n" == reply + "\n"
  {}

  lemma FirstTimer(s: State)
    requires s.queue == [Pending(1, true), Pending(2, true)] && s.timers == map[1 := SendTimer, 2 := SendTimer]
    ensures
      FireTimer(s, 1)
        == s.(queue := [Pending(2, true)], timers := map[2 := SendTimer],
              log := s.log + [Settle(1, Rejected(CommandTimeout))])
  {
    assert Position(s.queue, 1) == 0;
    assert s.queue[..0] + s.queue[1..] == [Pending(2, true)];
    assert s.timers - {1} == map[2 := SendTimer];
  }

  lemma FirstCommand(a: string, rest: string)
    requires '\n' !in a
    ensures
      var s := a + ("\n" + rest);
      IndexOf(s, '\n') == |a| && s[..|a|] == a && s[|a| + 1..] == rest
  {
    var s := a + ("\n" + rest);
    assert s[|a|] == '\n' && s[..|a|] == a;
    FirstIndex(s, '\n', |a|);
  }

  lemma WaitingLog(a: string, b: string, reply: string)
    ensures Replied(Waiting(a, b, reply).client.log) == [] && Expired(Waiting(a, b, reply).client.log) == {1}
  {
    var log := [Write(a + "\n"), Write(b + "\n")];
    Observe([], log[0]);
    Observe([log[0]], log[1]);
    Observe(log, Settle(1, Rejected(CommandTimeout)));
    assert [log[0]] == [] + [log[0]] && log == [log[0]] + [log[1]];
    assert Waiting(a, b, reply).client.log == log + [Settle(1, Rejected(CommandTimeout))];
  }

  lemma WaitingReply(c: Config, a: string, b: string, reply: string)
    requires IsAnswer(c, reply)
    ensures
      var client := Waiting(a, b, reply).client;
      && Feed(c, client, reply + "\n").log == client.log + [Settle(2, OutcomeOf(c, reply))]
      && Hears(c, client.(buffer := reply + "\n")) == [Hearing([2], {1})] && !IsTimeout(OutcomeOf(c, reply))
  {
    var client := Waiting(a, b, reply).client;
    WaitingLog(a, b, reply);
    OneReply(c, client, reply);
    AnswerSettles(c, client, reply);
    assert HearingOf(client) == Hearing([2], {1});
  }

  lemma DeliverAll(c: Config, w: World, text: string)
    requires w.toClient == text && w.client.buffer == ""
    ensures
      Delivered(c, w, |text|)
        == w.(client := Feed(c, w.client, text), heard := w.heard + Hears(c, w.client.(buffer := text)), toClient := "")
  {
    assert w.toClient[..|text|] == text && w.toClient[|text|..] == "";
    assert w.client.buffer + text == text;
  }

  lemma RepliedOnce(log: seq<Effect>, outcome: Outcome)
    requires Replied(log) == [] && !IsTimeout(outcome)
    ensures Replied(log + [Settle(2, outcome)]) == [(2, outcome)]
  {
    Observe(log, Settle(2, outcome));
  }

  lemma LateReply(c: Config, a: string, b: string, reply: string)
    requires IsAnswer(c, reply)
    ensures
      var w' := Delivered(c, Waiting(a, b, reply), |reply| + 1);
      && w'.heard == [Hearing([2], {1})] && Replied(w'.client.log) == [(2, OutcomeOf(c, reply))]
      && w'.served == [a] && w'.emitted == [Answer(reply)]
  {
    var w := Waiting(a, b, reply);
    DeliverAll(c, w, reply + "\n");
    WaitingReply(c, a, b, reply);
    WaitingLog(a, b, reply);
    RepliedOnce(w.client.log, OutcomeOf(c, reply));
    assert Delivered(c, w, |reply| + 1).client.log == w.client.log + [Settle(2, OutcomeOf(c, reply))];
  }

  lemma RunTwo(c: Config, w: World, m: Move, n: Move)
    requires Enabled(c, w, m) && Enabled(c, Next(c, w, m), n)
    ensures IsRun(c, w, [m, n]) && Final(c, w, [m, n]) == Next(c, Next(c, w, m), n)
  {
    var w' := Next(c, w, m);
    RunCons(c, w', n, []);
    RunCons(c, w, m, [n]);
    assert [n] == [n] + [] && [m, n] == [m] + [n];
  }

  /** A timeout with another command waiting: the reply the server gave to `a` settles command 2, which is `b`. */
  lemma TimeoutShiftsReplies(c: Config, a: string, b: string, timeout: int, reply: string)
    requires IsCommand(a) && IsCommand(b) && Or(timeout, c.timeout) > 0 && c.maxQueueSize >= 2 && IsAnswer(c, reply)
    ensures IsRun(c, START, Misdirecting(a, b, timeout, reply))
    ensures
      var w := Final(c, START, Misdirecting(a, b, timeout, reply));
      && w.served == [a] && w.emitted == [Answer(reply)]
      && Replied(w.client.log) == [(2, OutcomeOf(c, reply))] && !Straight(w.heard) && !LateRepliesAlone(w.heard)
  {
    var w1 := Next(c, START, ClientSend(a, timeout));
    var late := [TimerFires(1), ServerAnswer(reply), Deliver(|reply| + 1)];
    SendTwo(c, a, b, timeout);
    LateRun(c, Next(c, w1, ClientSend(b, timeout)), a, b, reply);
    RunCons(c, w1, ClientSend(b, timeout), late);
    RunCons(c, START, ClientSend(a, timeout), [ClientSend(b, timeout)] + late);
    assert Misdirecting(a, b, timeout, reply) == [ClientSend(a, timeout)] + ([ClientSend(b, timeout)] + late);
  }

  lemma LateRun(c: Config, w: World, a: string, b: string, reply: string)
    requires TwoSent(w, a, b) && IsCommand(a) && IsCommand(b) && IsAnswer(c, reply)
    ensures
      var late := [TimerFires(1), ServerAnswer(reply), Deliver(|reply| + 1)];
      && IsRun(c, w, late) && Final(c, w, late).served == [a] && Final(c, w, late).emitted == [Answer(reply)]
      && Replied(Final(c, w, late).client.log) == [(2, OutcomeOf(c, reply))]
      && !Straight(Final(c, w, late).heard) && !LateRepliesAlone(Final(c, w, late).heard)
  {
    TimeOut(c, w, a, b, reply);
    var fired := Next(c, w, TimerFires(1));
    Serve(c, fired, a, b, reply);
    LateReply(c, a, b, reply);
    RunTwo(c, fired, ServerAnswer(reply), Deliver(|reply| + 1));
    RunCons(c, w, TimerFires(1), [ServerAnswer(reply), Deliver(|reply| + 1)]);
    NotStraight([Hearing([2], {1})]);
    assert [TimerFires(1)] + [ServerAnswer(reply), Deliver(|reply| + 1)]
        == [TimerFires(1), ServerAnswer(reply), Deliver(|reply| + 1)];
  }

  lemma NotStraight(heard: seq<Hearing>)
    requires |heard| == 1 && heard[0].waiting == [2] && heard[0].expired == {1}
    ensures !Straight(heard) && !LateRepliesAlone(heard)
  {
    assert heard[0].waiting[0] != 0 + 1 && 0 + 1 in heard[0].expired;
  }
}
