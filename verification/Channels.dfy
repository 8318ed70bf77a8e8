/** The protocol of node/src/protocol.js end to end: the client, two FIFO byte channels, a server and the timers; and the
    invariant that every move keeps. */
module Channels {
  // The server answers each command line with one line, in order, and may interleave EVENT lines anywhere; the
  // network hands over any prefix of what is in flight; the timers of commands and the idle timer of the socket
  // may go off at any point. No socket closes in these runs.

  import opened Protocol
  import opened Text
  import opened Wrappers

  datatype ServerLine = Answer(text: string) | Event(text: string)

  /** What the client holds when it handles a reply: the ids waiting, and those that have timed out. */
  datatype Hearing = Hearing(waiting: seq<nat>, expired: set<nat>)

  /** `sent`, `served`, `emitted` and `heard` are histories: the lines the client wrote, the command lines the
      server has read, the lines the server has written, and the replies the client has handled. */
  datatype World = World(
    client: State,
    toServer: string,
    toClient: string,
    sent: seq<string>,
    served: seq<string>,
    emitted: seq<ServerLine>,
    heard: seq<Hearing>)

  datatype Move =
    | ClientSend(command: string, timeout: int)
    | ClientPipeline(commands: seq<string>, timeout: int)
    | ServerAnswer(text: string)
    | ServerEvent(text: string)
    | Deliver(count: nat)
    | TimerFires(id: nat)
    | SocketTimesOut

  const START := World(INITIAL.(attached := true, connected := true), "", "", [], [], [], [])

  predicate IsCommand(line: string) { '\n' !in line && Trim(line) != "" }

  /** A reply: not blank, and not an EVENT unless it also carries an error. */
  predicate IsAnswer(c: Config, text: string) {
    '\n' !in text && Trim(text) != "" && c.classify(Trim(text)) != Json(false, true)
  }

  predicate IsEvent(c: Config, text: string) {
    '\n' !in text && Trim(text) != "" && c.classify(Trim(text)) == Json(false, true)
  }

  /** The moves the environment may make in a world. */
  predicate Enabled(c: Config, w: World, m: Move) {
    match m
    case ClientSend(command, _) => IsCommand(command)
    case ClientPipeline(commands, _) => forall i :: 0 <= i < |commands| ==> IsCommand(WireLine(commands[i]))
    case ServerAnswer(text) => '\n' in w.toServer && IsAnswer(c, text)
    case ServerEvent(text) => IsEvent(c, text)
    case Deliver(count) => count <= |w.toClient|
    case TimerFires(id) => id in w.client.timers
    case SocketTimesOut => true
  }

  function Next(c: Config, w: World, m: Move): World
    requires Enabled(c, w, m)
  {
    match m
    case ClientSend(command, timeout) =>
      var (client, promise) := Send(c, w.client, command, timeout);
      if promise.Failure? then w.(client := client)
      else w.(client := client, sent := w.sent + [command], toServer := w.toServer + command + "\n")
    case ClientPipeline(commands, timeout) =>
      var (client, promise) := Pipeline(c, w.client, commands, timeout);
      if promise.Failure? then w.(client := client)
      else w.(client := client, sent := w.sent + WireLines(commands),
              toServer := w.toServer + JoinLines(WireLines(commands)))
    case ServerAnswer(text) => Served(w).(emitted := w.emitted + [Answer(text)], toClient := w.toClient + text + "\n")
    case ServerEvent(text) => w.(emitted := w.emitted + [Event(text)], toClient := w.toClient + text + "\n")
    case Deliver(count) => Delivered(c, w, count)
    case TimerFires(id) => w.(client := FireTimer(w.client, id))
    case SocketTimesOut => w.(client := SocketTimedOut(w.client))
  }

  /** The server reads one command line. */
  function Served(w: World): World
    requires '\n' in w.toServer
  {
    var i := IndexOf(w.toServer, '\n');
    w.(served := w.served + [w.toServer[..i]], toServer := w.toServer[i + 1..])
  }

  /** The client receives `count` bytes in one chunk. */
  function Delivered(c: Config, w: World, count: nat): World
    requires count <= |w.toClient|
  {
    var chunk := w.toClient[..count];
    w.(client := Feed(c, w.client, chunk),
       heard := w.heard + Hears(c, w.client.(buffer := w.client.buffer + chunk)),
       toClient := w.toClient[count..])
  }

  function Ids(queue: seq<Pending>): seq<nat> {
    seq(|queue|, i requires 0 <= i < |queue| => queue[i].id)
  }

  /** The trimmed line is taken for a reply. */
  predicate IsReply(c: Config, line: string) { line != "" && c.classify(line) != Json(false, true) }

  /** The replies handled while the buffer is drained. */
  function Hears(c: Config, s: State): seq<Hearing>
    decreases |s.buffer|
  {
    var i := IndexOf(s.buffer, '\n');
    if i == -1 then []
    else
      var line := Trim(s.buffer[..i]);
      (if IsReply(c, line) then [HearingOf(s)] else [])
      + Hears(c, ProcessLine(c, s.(buffer := s.buffer[i + 1..]), line))
  }

  function HearingOf(s: State): Hearing { Hearing(Ids(s.queue), Expired(s.log)) }

  /** A run is a sequence of moves each of which is enabled when it is made. */
  predicate IsRun(c: Config, w: World, moves: seq<Move>)
    decreases |moves|
  {
    moves == [] || (Enabled(c, w, moves[0]) && IsRun(c, Next(c, w, moves[0]), moves[1..]))
  }

  function Final(c: Config, w: World, moves: seq<Move>): World
    requires IsRun(c, w, moves)
    decreases |moves|
  {
    if moves == [] then w else Final(c, Next(c, w, moves[0]), moves[1..])
  }

  // ---------- what a reader observes ----------

  predicate IsTimeout(outcome: Outcome) { outcome in {Rejected(CommandTimeout), Rejected(SocketTimeout)} }

  /** The promises settled so far, in order. */
  function Settled(log: seq<Effect>): seq<(nat, Outcome)> {
    if log == [] then []
    else
      var last := log[|log| - 1];
      Settled(log[..|log| - 1]) + (if last.Settle? then [(last.id, last.outcome)] else [])
  }

  /** Those settled by a reply, and the ids of the others, which have timed out. */
  function Replied(log: seq<Effect>): seq<(nat, Outcome)> {
    if log == [] then []
    else
      var last := log[|log| - 1];
      Replied(log[..|log| - 1]) + (if last.Settle? && !IsTimeout(last.outcome) then [(last.id, last.outcome)] else [])
  }

  function Expired(log: seq<Effect>): set<nat> {
    if log == [] then {}
    else
      var last := log[|log| - 1];
      Expired(log[..|log| - 1]) + (if last.Settle? && IsTimeout(last.outcome) then {last.id} else {})
  }

  /** The events emitted so far, in order. */
  function Emitted(log: seq<Effect>): seq<string> {
    if log == [] then []
    else
      var last := log[|log| - 1];
      Emitted(log[..|log| - 1]) + (if last.EmitEvent? then [last.line] else [])
  }

  lemma Observe(log: seq<Effect>, e: Effect)
    ensures Replied(log + [e]) == Replied(log) + (if e.Settle? && !IsTimeout(e.outcome) then [(e.id, e.outcome)] else [])
    ensures Expired(log + [e]) == Expired(log) + (if e.Settle? && IsTimeout(e.outcome) then {e.id} else {})
    ensures Emitted(log + [e]) == Emitted(log) + (if e.EmitEvent? then [e.line] else [])
  {
    assert (log + [e])[..|log|] == log;
  }

  lemma {:induction false} NothingExpired(log: seq<Effect>)
    requires Expired(log) == {}
    ensures Settled(log) == Replied(log)
  {
    if log != [] {
      NothingExpired(log[..|log| - 1]);
    }
  }

  function Answers(lines: seq<ServerLine>): seq<string> {
    if lines == [] then []
    else
      var last := lines[|lines| - 1];
      Answers(lines[..|lines| - 1]) + (if last.Answer? then [last.text] else [])
  }

  function Events(lines: seq<ServerLine>): seq<string> {
    if lines == [] then []
    else
      var last := lines[|lines| - 1];
      Events(lines[..|lines| - 1]) + (if last.Event? then [Trim(last.text)] else [])
  }

  function Texts(lines: seq<ServerLine>): seq<string> {
    seq(|lines|, i requires 0 <= i < |lines| => lines[i].text)
  }

  lemma LinesSnoc(lines: seq<ServerLine>, l: ServerLine)
    ensures Answers(lines + [l]) == Answers(lines) + (if l.Answer? then [l.text] else [])
    ensures Events(lines + [l]) == Events(lines) + (if l.Event? then [Trim(l.text)] else [])
  {
    assert (lines + [l])[..|lines|] == lines;
  }

  lemma {:induction false} AnswersMonotone(lines: seq<ServerLine>, n: nat)
    requires n <= |lines|
    ensures Answers(lines[..n]) <= Answers(lines)
    ensures Events(lines[..n]) <= Events(lines)
  {
    if n == |lines| {
      assert lines[..n] == lines;
    } else {
      var m := |lines| - 1;
      AnswersMonotone(lines[..m], n);
      assert lines[..m][..n] == lines[..n];
    }
  }

  /** What the reply `text` does to the command it belongs to; a notice is no reply. */
  function OutcomeOf(c: Config, text: string): Outcome {
    match Judge(c.classify(Trim(text)), Trim(text))
    case Reply(outcome) => outcome
    case Notice => Resolved(Trim(text), false)
  }

  // ---------- the replies and the commands ----------

  predicate LineOk(c: Config, l: ServerLine) {
    if l.Answer? then IsAnswer(c, l.text) else IsEvent(c, l.text)
  }

  /** What the replies do, in order, when the n-th one settles id n. */
  function Replies(c: Config, answers: seq<string>): seq<(nat, Outcome)> {
    seq(|answers|, i requires 0 <= i < |answers| => (i + 1, OutcomeOf(c, answers[i])))
  }

  /** What they do in fact: each settles the oldest id that waits, if there is one. */
  function Assigned(c: Config, heard: seq<Hearing>, answers: seq<string>): seq<(nat, Outcome)>
    requires |heard| == |answers|
  {
    if heard == [] then []
    else
      var m := |heard| - 1;
      var w := heard[m].waiting;
      Assigned(c, heard[..m], answers[..m]) + (if w == [] then [] else [(w[0], OutcomeOf(c, answers[m]))])
  }

  lemma AssignedSnoc(c: Config, heard: seq<Hearing>, answers: seq<string>, h: Hearing, text: string)
    requires |heard| == |answers|
    ensures
      Assigned(c, heard + [h], answers + [text])
        == Assigned(c, heard, answers) + (if h.waiting == [] then [] else [(h.waiting[0], OutcomeOf(c, text))])
  {
    assert (heard + [h])[..|heard|] == heard && (answers + [text])[..|answers|] == answers;
  }

  /** The events the client emits: those of the server, and replies of type event for which nobody waits. */
  function Announced(c: Config, heard: seq<Hearing>, lines: seq<ServerLine>): seq<string>
    requires |heard| == |Answers(lines)|
    decreases |lines|
  {
    if lines == [] then []
    else
      var m := |lines| - 1;
      if lines[m].Event? then Announced(c, heard, lines[..m]) + [Trim(lines[m].text)]
      else
        var k := |heard| - 1;
        Announced(c, heard[..k], lines[..m])
        + (if heard[k].waiting == [] && IsOfTypeEvent(c, lines[m].text) then [Trim(lines[m].text)] else [])
  }

  predicate IsOfTypeEvent(c: Config, text: string) {
    c.classify(Trim(text)).Json? && c.classify(Trim(text)).event
  }

  lemma AnnouncedEvent(c: Config, heard: seq<Hearing>, lines: seq<ServerLine>, text: string)
    requires |heard| == |Answers(lines)|
    ensures Answers(lines + [Event(text)]) == Answers(lines)
    ensures Announced(c, heard, lines + [Event(text)]) == Announced(c, heard, lines) + [Trim(text)]
  {
    LinesSnoc(lines, Event(text));
    assert (lines + [Event(text)])[..|lines|] == lines;
  }

  lemma AnnouncedAnswer(c: Config, heard: seq<Hearing>, lines: seq<ServerLine>, h: Hearing, text: string)
    requires |heard| == |Answers(lines)|
    ensures Answers(lines + [Answer(text)]) == Answers(lines) + [text]
    ensures
      Announced(c, heard + [h], lines + [Answer(text)])
        == Announced(c, heard, lines) + (if h.waiting == [] && IsOfTypeEvent(c, text) then [Trim(text)] else [])
  {
    LinesSnoc(lines, Answer(text));
    assert (lines + [Answer(text)])[..|lines|] == lines && (heard + [h])[..|heard|] == heard;
  }

  /** Every reply that settles a command settles its own. */
  predicate Straight(heard: seq<Hearing>) {
    forall j :: 0 <= j < |heard| ==> heard[j].waiting != [] ==> heard[j].waiting[0] == j + 1
  }

  /** Every reply to a command that has timed out comes when no command waits. */
  predicate LateRepliesAlone(heard: seq<Hearing>) {
    forall j :: 0 <= j < |heard| ==> j + 1 in heard[j].expired ==> heard[j].waiting == []
  }

  /** Every reply that settles nothing belongs to a command that has timed out. */
  predicate OnlyLateUnused(heard: seq<Hearing>) {
    forall j :: 0 <= j < |heard| ==> heard[j].waiting == [] ==> j + 1 in heard[j].expired
  }

  predicate Within(heard: seq<Hearing>, expired: set<nat>) {
    forall j :: 0 <= j < |heard| ==> heard[j].expired <= expired
  }

  lemma HeardSnoc(heard: seq<Hearing>, h: Hearing)
    ensures
      var n := |heard| + 1;
      && (Straight(heard + [h]) <==> Straight(heard) && (h.waiting != [] ==> h.waiting[0] == n))
      && (LateRepliesAlone(heard + [h]) <==> LateRepliesAlone(heard) && (n in h.expired ==> h.waiting == []))
      && (OnlyLateUnused(heard + [h]) <==> OnlyLateUnused(heard) && (h.waiting == [] ==> n in h.expired))
  {
    var all := heard + [h];
    assert all[|heard|] == h && forall j :: 0 <= j < |heard| ==> all[j] == heard[j];
  }

  // ---------- the invariant ----------

  /** The effects so far are those of the server lines `done`. */
  ghost predicate Told(c: Config, client: State, done: seq<ServerLine>, heard: seq<Hearing>) {
    && |heard| == |Answers(done)|
    && Replied(client.log) == Assigned(c, heard, Answers(done))
    && Emitted(client.log) == Announced(c, heard, done)
  }

  /** The ids after the first `n` wait, except those that have timed out. */
  ghost predicate Exact(client: State, n: nat) {
    forall id: nat :: IsPending(client.queue, id) <==> n < id <= client.commandId && id !in Expired(client.log)
  }

  ghost predicate Verdicts(heard: seq<Hearing>) {
    && (Straight(heard) <==> LateRepliesAlone(heard))
    && (LateRepliesAlone(heard) ==> OnlyLateUnused(heard))
  }

  ghost predicate Counted(client: State, n: nat) {
    && Ordered(client.queue, client.commandId)
    && |client.queue| + n <= client.commandId
    && (forall id :: id in Expired(client.log) ==> id <= client.commandId)
  }

  ghost predicate Books(client: State, heard: seq<Hearing>) {
    && Counted(client, |heard|)
    && Verdicts(heard)
    && Within(heard, Expired(client.log))
    && (LateRepliesAlone(heard) ==> Exact(client, |heard|))
  }

  /** The first `p` server lines are processed, the others are in the client's buffer and then in `rest`. */
  ghost predicate Synced(c: Config, client: State, heard: seq<Hearing>, emitted: seq<ServerLine>, p: nat, rest: string) {
    && p <= |emitted|
    && Told(c, client, emitted[..p], heard)
    && Books(client, heard)
    && client.buffer + rest == JoinLines(Texts(emitted[p..]))
  }

  ghost predicate LinesOk(c: Config, lines: seq<ServerLine>) {
    forall i :: 0 <= i < |lines| ==> LineOk(c, lines[i])
  }

  ghost predicate Wired(c: Config, w: World) {
    && w.client.connected && w.client.attached
    && |w.sent| == w.client.commandId
    && |w.served| <= |w.sent| && w.served == w.sent[..|w.served|]
    && w.toServer == JoinLines(w.sent[|w.served|..])
    && NewlineFree(w.sent)
    && |Answers(w.emitted)| == |w.served|
    && LinesOk(c, w.emitted)
  }

  ghost predicate WorldInv(c: Config, w: World) {
    && Wired(c, w)
    && exists p: nat :: Synced(c, w.client, w.heard, w.emitted, p, w.toClient)
  }

  // ---------- the books when a reply comes ----------

  /** The reply to the next command finds it at the head of the queue, unless it has timed out. */
  lemma ExactHead(client: State, n: nat)
    requires Exact(client, n) && Ordered(client.queue, client.commandId) && n < client.commandId
    ensures client.queue == [] ==> n + 1 in Expired(client.log)
    ensures client.queue != [] ==> (client.queue[0].id == n + 1 <==> n + 1 !in Expired(client.log))
  {
    if n + 1 !in Expired(client.log) {
      assert IsPending(client.queue, n + 1);
      var i :| 0 <= i < |client.queue| && client.queue[i].id == n + 1;
      assert IsPending(client.queue, client.queue[0].id);
    } else if client.queue != [] {
      assert IsPending(client.queue, client.queue[0].id);
    }
  }

  lemma VerdictsSnoc(client: State, heard: seq<Hearing>)
    requires Books(client, heard) && |heard| < client.commandId
    ensures Verdicts(heard + [HearingOf(client)])
  {
    var h := HearingOf(client);
    HeardSnoc(heard, h);
    if LateRepliesAlone(heard) {
      ExactHead(client, |heard|);
      assert client.queue != [] ==> h.waiting[0] == client.queue[0].id;
    }
  }

  lemma WithinSnoc(heard: seq<Hearing>, h: Hearing, expired: set<nat>)
    requires Within(heard, expired) && h.expired <= expired
    ensures Within(heard + [h], expired)
  {}

  /** A reply that finds nobody waiting. */
  lemma UnusedBooks(client: State, client': State, heard: seq<Hearing>)
    requires Books(client, heard) && |heard| < client.commandId && client.queue == []
    requires client'.queue == [] && client'.commandId == client.commandId
    requires Expired(client'.log) == Expired(client.log)
    ensures Books(client', heard + [HearingOf(client)])
  {
    var n := |heard|;
    VerdictsSnoc(client, heard);
    WithinSnoc(heard, HearingOf(client), Expired(client.log));
    HeardSnoc(heard, HearingOf(client));
    if LateRepliesAlone(heard) {
      ExactHead(client, n);
      forall id: nat
        ensures IsPending(client'.queue, id) <==> n + 1 < id <= client'.commandId && id !in Expired(client'.log)
      {
        assert IsPending(client.queue, id) == IsPending(client'.queue, id);
      }
    }
  }

  /** A reply that settles the oldest command. */
  lemma UsedBooks(client: State, client': State, heard: seq<Hearing>)
    requires Books(client, heard) && |heard| < client.commandId && client.queue != []
    requires client'.queue == client.queue[1..] && client'.commandId == client.commandId
    requires Expired(client'.log) == Expired(client.log)
    ensures Books(client', heard + [HearingOf(client)])
  {
    var h := HearingOf(client);
    VerdictsSnoc(client, heard);
    WithinSnoc(heard, h, Expired(client.log));
    HeardSnoc(heard, h);
    if LateRepliesAlone(heard + [h]) {
      ExactHead(client, |heard|);
      assert |h.waiting| == |client.queue|;
      UsedExact(client, client', |heard|);
    }
  }

  lemma UsedExact(client: State, client': State, n: nat)
    requires Exact(client, n) && Ordered(client.queue, client.commandId) && client.queue != []
    requires client.queue[0].id == n + 1
    requires client'.queue == client.queue[1..] && client'.commandId == client.commandId
    requires Expired(client'.log) == Expired(client.log)
    ensures Exact(client', n + 1)
  {
    forall id: nat
      ensures IsPending(client'.queue, id) <==> n + 1 < id <= client'.commandId && id !in Expired(client'.log)
    {
      PendingTail(client.queue, client.commandId, id);
    }
  }

  // ---------- one line ----------

  lemma KeepBooks(client: State, client': State, heard: seq<Hearing>)
    requires Books(client, heard)
    requires client'.queue == client.queue && client'.commandId == client.commandId
    requires Expired(client'.log) == Expired(client.log)
    ensures Books(client', heard)
  {}

  lemma ProcessEvent(c: Config, client: State, line: string)
    requires line != "" && c.classify(line) == Json(false, true)
    ensures
      var next := ProcessLine(c, client, line);
      next.log == client.log + [EmitEvent(line)] && next.queue == client.queue && next.commandId == client.commandId
  {}

  lemma EventTold(c: Config, client: State, done: seq<ServerLine>, heard: seq<Hearing>, text: string)
    requires Told(c, client, done, heard) && Books(client, heard) && IsEvent(c, text)
    ensures
      var next := ProcessLine(c, client, Trim(text));
      Told(c, next, done + [Event(text)], heard) && Books(next, heard)
  {
    AnnouncedEvent(c, heard, done, text);
    Observe(client.log, EmitEvent(Trim(text)));
    ProcessEvent(c, client, Trim(text));
    KeepBooks(client, ProcessLine(c, client, Trim(text)), heard);
  }

  lemma AnswerSettles(c: Config, s: State, text: string)
    requires s.queue != [] && IsAnswer(c, text)
    ensures ProcessLine(c, s, Trim(text)) == SettleHead(s, OutcomeOf(c, text)) && !IsTimeout(OutcomeOf(c, text))
  {}

  lemma AnswerUsed(c: Config, client: State, done: seq<ServerLine>, heard: seq<Hearing>, text: string)
    requires Told(c, client, done, heard) && IsAnswer(c, text) && client.queue != []
    ensures
      var next := ProcessLine(c, client, Trim(text));
      && Told(c, next, done + [Answer(text)], heard + [HearingOf(client)])
      && next.queue == client.queue[1..] && next.commandId == client.commandId
      && Expired(next.log) == Expired(client.log)
  {
    AnswerSettles(c, client, text);
    Observe(client.log, Settle(client.queue[0].id, OutcomeOf(c, text)));
    AnnouncedAnswer(c, heard, done, HearingOf(client), text);
    AssignedSnoc(c, heard, Answers(done), HearingOf(client), text);
    assert HearingOf(client).waiting[0] == client.queue[0].id;
  }

  lemma UnusedEffect(c: Config, client: State, text: string)
    requires IsAnswer(c, text) && client.queue == []
    ensures
      var e := Unsolicited(Trim(text), c.classify(Trim(text)));
      && ProcessLine(c, client, Trim(text)) == client.(log := client.log + [e]) && !e.Settle?
      && (e.EmitEvent? <==> IsOfTypeEvent(c, text)) && (e.EmitEvent? ==> e.line == Trim(text))
  {}

  lemma AnswerUnused(c: Config, client: State, done: seq<ServerLine>, heard: seq<Hearing>, text: string)
    requires Told(c, client, done, heard) && IsAnswer(c, text) && client.queue == []
    ensures
      var next := ProcessLine(c, client, Trim(text));
      && Told(c, next, done + [Answer(text)], heard + [HearingOf(client)])
      && next.queue == [] && next.commandId == client.commandId
      && Expired(next.log) == Expired(client.log)
  {
    UnusedEffect(c, client, text);
    Observe(client.log, Unsolicited(Trim(text), c.classify(Trim(text))));
    AnnouncedAnswer(c, heard, done, HearingOf(client), text);
    AssignedSnoc(c, heard, Answers(done), HearingOf(client), text);
  }

  lemma AnswerTold(c: Config, client: State, done: seq<ServerLine>, heard: seq<Hearing>, text: string)
    requires Told(c, client, done, heard) && Books(client, heard) && IsAnswer(c, text) && |heard| < client.commandId
    ensures
      var next := ProcessLine(c, client, Trim(text));
      Told(c, next, done + [Answer(text)], heard + [HearingOf(client)]) && Books(next, heard + [HearingOf(client)])
  {
    if client.queue == [] {
      AnswerUnused(c, client, done, heard, text);
      UnusedBooks(client, ProcessLine(c, client, Trim(text)), heard);
    } else {
      AnswerUsed(c, client, done, heard, text);
      UsedBooks(client, ProcessLine(c, client, Trim(text)), heard);
    }
  }

  lemma ProcessKeeps(c: Config, client: State, line: string)
    ensures
      var next := ProcessLine(c, client, line);
      && next.commandId == client.commandId && next.connected == client.connected
      && next.attached == client.attached && next.buffer == client.buffer
  {}

  // ---------- draining ----------

  /** What draining hears, line by line. */
  function HeardAt(c: Config, client: State, text: string): seq<Hearing> {
    if IsReply(c, Trim(text)) then [HearingOf(client)] else []
  }

  lemma HearsStep(c: Config, s: State, i: nat)
    requires i < |s.buffer| && s.buffer[i] == '\n' && '\n' !in s.buffer[..i]
    ensures
      Hears(c, s) ==
        HeardAt(c, s, s.buffer[..i]) + Hears(c, ProcessLine(c, s, Trim(s.buffer[..i])).(buffer := s.buffer[i + 1..]))
  {
    FirstIndex(s.buffer, '\n', i);
    ProcessLineBuffer(c, s, Trim(s.buffer[..i]), s.buffer[i + 1..]);
  }

  /** The next complete line in the buffer is the next server line. */
  lemma NextLine(client: State, todo: seq<ServerLine>, rest: string, i: nat)
    requires client.buffer + rest == JoinLines(Texts(todo)) && NewlineFree(Texts(todo))
    requires i < |client.buffer| && client.buffer[i] == '\n' && '\n' !in client.buffer[..i]
    ensures todo != [] && client.buffer[..i] == todo[0].text
    ensures client.buffer[i + 1..] + rest == JoinLines(Texts(todo[1..]))
  {
    var text := client.buffer + rest;
    assert text[..i] == client.buffer[..i] && text[i + 1..] == client.buffer[i + 1..] + rest;
    FirstLine(text, Texts(todo), i);
    assert Texts(todo)[1..] == Texts(todo[1..]);
  }

  lemma ProcessNext(c: Config, client: State, heard: seq<Hearing>, emitted: seq<ServerLine>, p: nat)
    requires p < |emitted| && LineOk(c, emitted[p]) && |Answers(emitted)| <= client.commandId
    requires Told(c, client, emitted[..p], heard) && Books(client, heard)
    ensures
      var next := ProcessLine(c, client, Trim(emitted[p].text));
      var heard' := heard + HeardAt(c, client, emitted[p].text);
      Told(c, next, emitted[..p + 1], heard') && Books(next, heard')
  {
    var l := emitted[p];
    assert emitted[..p + 1] == emitted[..p] + [l];
    if l.Answer? {
      LinesSnoc(emitted[..p], l);
      AnswersMonotone(emitted, p + 1);
      AnswerTold(c, client, emitted[..p], heard, l.text);
    } else {
      EventTold(c, client, emitted[..p], heard, l.text);
      assert heard + [] == heard;
    }
  }

  lemma BufferKeeps(c: Config, client: State, buffer: string, done: seq<ServerLine>, heard: seq<Hearing>)
    requires Told(c, client, done, heard) && Books(client, heard)
    ensures Told(c, client.(buffer := buffer), done, heard) && Books(client.(buffer := buffer), heard)
  {
    KeepBooks(client, client.(buffer := buffer), heard);
  }

  lemma ProcessSynced(c: Config, client: State, heard: seq<Hearing>, emitted: seq<ServerLine>, p: nat, rest: string, i: nat)
    requires Synced(c, client, heard, emitted, p, rest) && LinesOk(c, emitted)
    requires |Answers(emitted)| <= client.commandId
    requires i < |client.buffer| && client.buffer[i] == '\n' && '\n' !in client.buffer[..i]
    ensures
      var line := client.buffer[..i];
      var next := ProcessLine(c, client, Trim(line)).(buffer := client.buffer[i + 1..]);
      Synced(c, next, heard + HeardAt(c, client, line), emitted, p + 1, rest)
  {
    NextLine(client, emitted[p..], rest, i);
    assert emitted[p..][1..] == emitted[p + 1..];
    ProcessNext(c, client, heard, emitted, p);
    var line := client.buffer[..i];
    BufferKeeps(c, ProcessLine(c, client, Trim(line)), client.buffer[i + 1..], emitted[..p + 1],
                heard + HeardAt(c, client, line));
  }

  lemma Regroup<T>(a: seq<T>, b: seq<T>, c: seq<T>)
    ensures (a + b) + c == a + (b + c)
  {}

  lemma {:induction false} DrainSynced(c: Config, client: State, heard: seq<Hearing>, emitted: seq<ServerLine>, p: nat, rest: string)
    returns (q: nat)
    requires Synced(c, client, heard, emitted, p, rest) && LinesOk(c, emitted)
    requires |Answers(emitted)| <= client.commandId
    ensures Synced(c, Drain(c, client), heard + Hears(c, client), emitted, q, rest)
    decreases |client.buffer|
  {
    var i := IndexOf(client.buffer, '\n');
    if i == -1 {
      q := p;
      assert heard + [] == heard;
    } else {
      var line := client.buffer[..i];
      var next := ProcessLine(c, client, Trim(line)).(buffer := client.buffer[i + 1..]);
      ProcessSynced(c, client, heard, emitted, p, rest, i);
      ProcessKeeps(c, client, Trim(line));
      q := DrainSynced(c, next, heard + HeardAt(c, client, line), emitted, p + 1, rest);
      DrainStep(c, client, i);
      HearsStep(c, client, i);
      Regroup(heard, HeardAt(c, client, line), Hears(c, next));
    }
  }

  lemma {:induction false} DrainKeeps(c: Config, s: State)
    ensures
      var r := Drain(c, s);
      r.commandId == s.commandId && r.connected == s.connected && r.attached == s.attached
    decreases |s.buffer|
  {
    var i := IndexOf(s.buffer, '\n');
    if i != -1 {
      DrainStep(c, s, i);
      ProcessKeeps(c, s, Trim(s.buffer[..i]));
      DrainKeeps(c, ProcessLine(c, s, Trim(s.buffer[..i])).(buffer := s.buffer[i + 1..]));
    }
  }

  lemma DeliverSynced(c: Config, w: World, count: nat, p: nat) returns (q: nat)
    requires Synced(c, w.client, w.heard, w.emitted, p, w.toClient) && LinesOk(c, w.emitted)
    requires |Answers(w.emitted)| <= w.client.commandId && count <= |w.toClient|
    ensures
      var w' := Delivered(c, w, count);
      Synced(c, w'.client, w'.heard, w'.emitted, q, w'.toClient)
  {
    var fed := w.client.(buffer := w.client.buffer + w.toClient[..count]);
    var rest := w.toClient[count..];
    Regroup(w.client.buffer, w.toClient[..count], rest);
    assert w.toClient == w.toClient[..count] + rest;
    BufferKeeps(c, w.client, fed.buffer, w.emitted[..p], w.heard);
    q := DrainSynced(c, fed, w.heard, w.emitted, p, rest);
  }

  /** The wires are as they were, and the client has processed some more. */
  lemma Rewired(c: Config, w: World, w': World, p: nat)
    requires Wired(c, w) && w' == w.(client := w'.client, toClient := w'.toClient, heard := w'.heard)
    requires
      && w'.client.commandId == w.client.commandId
      && w'.client.connected == w.client.connected && w'.client.attached == w.client.attached
    requires Synced(c, w'.client, w'.heard, w'.emitted, p, w'.toClient)
    ensures WorldInv(c, w')
  {}

  lemma DeliverInv(c: Config, w: World, count: nat)
    requires WorldInv(c, w) && count <= |w.toClient|
    ensures WorldInv(c, Delivered(c, w, count))
  {
    var p: nat :| Synced(c, w.client, w.heard, w.emitted, p, w.toClient);
    var q := DeliverSynced(c, w, count, p);
    DrainKeeps(c, w.client.(buffer := w.client.buffer + w.toClient[..count]));
    Rewired(c, w, Delivered(c, w, count), q);
  }

  // ---------- the server ----------

  lemma EmitSynced(c: Config, client: State, heard: seq<Hearing>, emitted: seq<ServerLine>, p: nat, rest: string, l: ServerLine)
    requires Synced(c, client, heard, emitted, p, rest)
    ensures Synced(c, client, heard, emitted + [l], p, rest + l.text + "\n")
  {
    assert (emitted + [l])[..p] == emitted[..p];
    assert Texts((emitted + [l])[p..]) == Texts(emitted[p..]) + [l.text];
    JoinLinesSnoc(Texts(emitted[p..]), l.text);
    MoreText(client.buffer, rest, l.text);
  }

  lemma MoreText(buffer: string, rest: string, text: string)
    ensures buffer + (rest + text + "\n") == (buffer + rest) + text + "\n"
  {}

  lemma ServedWired(c: Config, w: World)
    requires Wired(c, w) && '\n' in w.toServer
    ensures
      var w' := Served(w);
      && |w'.served| == |w.served| + 1 <= |w.sent| && w'.served == w.sent[..|w'.served|]
      && w'.toServer == JoinLines(w.sent[|w'.served|..])
  {
    var todo := w.sent[|w.served|..];
    FirstLine(w.toServer, todo, IndexOf(w.toServer, '\n'));
    TakeOne(w.sent, |w.served|);
  }

  lemma TakeOne<T>(s: seq<T>, n: nat)
    requires n < |s|
    ensures s[..n] + [s[n]] == s[..n + 1] && s[n..][0] == s[n] && s[n..][1..] == s[n + 1..]
  {}

  lemma LinesOkSnoc(c: Config, lines: seq<ServerLine>, l: ServerLine)
    requires LinesOk(c, lines) && LineOk(c, l)
    ensures LinesOk(c, lines + [l])
  {}

  lemma EmitWired(c: Config, w: World, l: ServerLine)
    requires WorldInv(c, w) && LineOk(c, l)
    ensures
      var w' := w.(emitted := w.emitted + [l], toClient := w.toClient + l.text + "\n");
      && Answers(w'.emitted) == Answers(w.emitted) + (if l.Answer? then [l.text] else [])
      && LinesOk(c, w'.emitted) && exists p: nat :: Synced(c, w'.client, w'.heard, w'.emitted, p, w'.toClient)
  {
    var p: nat :| Synced(c, w.client, w.heard, w.emitted, p, w.toClient);
    EmitSynced(c, w.client, w.heard, w.emitted, p, w.toClient, l);
    LinesSnoc(w.emitted, l);
    LinesOkSnoc(c, w.emitted, l);
  }

  // ---------- the client ----------

  lemma EnqueueBooks(s: State, heard: seq<Hearing>, kind: TimerKind, timeout: int)
    requires Books(s, heard)
    ensures Books(Enqueue(s, kind, timeout), heard)
  {
    var s' := Enqueue(s, kind, timeout);
    if LateRepliesAlone(heard) {
      forall id: nat
        ensures IsPending(s'.queue, id) <==> |heard| < id <= s'.commandId && id !in Expired(s'.log)
      {
        PendingSnoc(s.queue, Pending(s.commandId + 1, timeout > 0), id);
      }
    }
  }

  lemma {:induction false} EnqueueManyBooks(s: State, n: nat, heard: seq<Hearing>, kind: TimerKind, timeout: int)
    requires Books(s, heard)
    ensures Books(EnqueueMany(s, n, kind, timeout), heard)
  {
    if n != 0 {
      EnqueueManyBooks(s, n - 1, heard, kind, timeout);
      EnqueueBooks(EnqueueMany(s, n - 1, kind, timeout), heard, kind, timeout);
    }
  }

  /** An effect that is neither a settlement nor an event. */
  lemma QuietSynced(c: Config, client: State, e: Effect, heard: seq<Hearing>, emitted: seq<ServerLine>, p: nat, rest: string)
    requires Synced(c, client, heard, emitted, p, rest) && !e.Settle? && !e.EmitEvent?
    ensures Synced(c, client.(log := client.log + [e]), heard, emitted, p, rest)
  {
    Observe(client.log, e);
    KeepBooks(client, client.(log := client.log + [e]), heard);
  }

  lemma AcceptSynced(c: Config, client: State, client': State, heard: seq<Hearing>, emitted: seq<ServerLine>, p: nat,
                     rest: string, n: nat, kind: TimerKind, timeout: int, bytes: string)
    requires Synced(c, client, heard, emitted, p, rest)
    requires
      var q := EnqueueMany(client, n, kind, timeout);
      client' == q || client' == q.(log := q.log + [Write(bytes)])
    ensures Synced(c, client', heard, emitted, p, rest)
  {
    var q := EnqueueMany(client, n, kind, timeout);
    EnqueueManyFrame(client, n, kind, timeout);
    EnqueueManyBooks(client, n, heard, kind, timeout);
    assert Synced(c, q, heard, emitted, p, rest);
    QuietSynced(c, q, Write(bytes), heard, emitted, p, rest);
  }

  lemma AcceptInv(c: Config, w: World, w': World, lines: seq<string>, kind: TimerKind, timeout: int, bytes: string)
    requires WorldInv(c, w) && NewlineFree(lines)
    requires
      var q := EnqueueMany(w.client, |lines|, kind, timeout);
      w'.client == q || w'.client == q.(log := q.log + [Write(bytes)])
    requires w' == w.(client := w'.client, sent := w.sent + lines, toServer := w.toServer + JoinLines(lines))
    ensures WorldInv(c, w')
  {
    var p: nat :| Synced(c, w.client, w.heard, w.emitted, p, w.toClient);
    AcceptSynced(c, w.client, w'.client, w.heard, w.emitted, p, w.toClient, |lines|, kind, timeout, bytes);
    EnqueueManyFrame(w.client, |lines|, kind, timeout);
    SentMore(w.sent, |w.served|, lines);
  }

  lemma SentMore(sent: seq<string>, n: nat, lines: seq<string>)
    requires n <= |sent| && NewlineFree(sent) && NewlineFree(lines)
    ensures (sent + lines)[..n] == sent[..n] && NewlineFree(sent + lines)
    ensures JoinLines((sent + lines)[n..]) == JoinLines(sent[n..]) + JoinLines(lines)
  {
    JoinLinesAppend(sent[n..], lines);
    DropSum(sent, n, lines);
  }

  lemma DropSum<T>(a: seq<T>, n: nat, b: seq<T>)
    requires n <= |a|
    ensures (a + b)[n..] == a[n..] + b && (a + b)[..n] == a[..n]
  {}

  lemma OneMoreLine(text: string, line: string)
    ensures text + line + "\n" == text + JoinLines([line])
  {
    assert JoinLines([line]) == line + "\n" + JoinLines([]) == line + "\n";
  }

  lemma EnqueueOne(s: State, kind: TimerKind, timeout: int)
    ensures EnqueueMany(s, 1, kind, timeout) == Enqueue(s, kind, timeout)
  {
    assert EnqueueMany(s, 0, kind, timeout) == s;
  }

  lemma SendInv(c: Config, w: World, command: string, timeout: int)
    requires WorldInv(c, w) && IsCommand(command)
    ensures WorldInv(c, Next(c, w, ClientSend(command, timeout)))
  {
    if Send(c, w.client, command, timeout).1.Success? {
      OneMoreLine(w.toServer, command);
      EnqueueOne(w.client, SendTimer, Or(timeout, c.timeout));
      AcceptInv(c, w, Next(c, w, ClientSend(command, timeout)), [command], SendTimer, Or(timeout, c.timeout),
                command + "\n");
    }
  }

  lemma PipelineInv(c: Config, w: World, commands: seq<string>, timeout: int)
    requires WorldInv(c, w) && NewlineFree(WireLines(commands))
    requires Enabled(c, w, ClientPipeline(commands, timeout))
    ensures WorldInv(c, Next(c, w, ClientPipeline(commands, timeout)))
  {
    if Pipeline(c, w.client, commands, timeout).1.Success? {
      AcceptInv(c, w, Next(c, w, ClientPipeline(commands, timeout)), WireLines(commands), PipelineTimer,
                Or(timeout, c.timeout), JoinLines(WireLines(commands)));
    }
  }

  // ---------- the timers ----------

  lemma FireFrame(s: State, id: nat)
    requires Core(s) && id in s.timers
    ensures
      var s' := FireTimer(s, id);
      && s'.log == s.log + [Settle(id, Rejected(CommandTimeout))]
      && s'.(queue := [], timers := map[], log := []) == s.(queue := [], timers := map[], log := [])
      && |s'.queue| == |s.queue| - 1 && Ordered(s'.queue, s.commandId) && IsPending(s.queue, id)
      && Expired(s'.log) == Expired(s.log) + {id}
  {
    assert IsPending(s.queue, id);
    RemovedOrdered(s.queue, Position(s.queue, id), s.commandId);
    Observe(s.log, Settle(id, Rejected(CommandTimeout)));
  }

  lemma FireExact(s: State, id: nat, n: nat)
    requires Exact(s, n) && Core(s) && id in s.timers
    ensures Exact(FireTimer(s, id), n)
  {
    var s' := FireTimer(s, id);
    FireFrame(s, id);
    forall x: nat
      ensures IsPending(s'.queue, x) <==> n < x <= s'.commandId && x !in Expired(s'.log)
    {
      PendingRemoved(s.queue, Position(s.queue, id), x);
    }
  }

  lemma FireBooks(s: State, id: nat, heard: seq<Hearing>)
    requires Books(s, heard) && Core(s) && id in s.timers
    ensures
      var s' := FireTimer(s, id);
      && Books(s', heard) && s'.log == s.log + [Settle(id, Rejected(CommandTimeout))]
      && s'.(queue := [], timers := map[], log := []) == s.(queue := [], timers := map[], log := [])
  {
    FireFrame(s, id);
    WithinMore(heard, Expired(s.log), Expired(FireTimer(s, id).log));
    if LateRepliesAlone(heard) {
      FireExact(s, id, |heard|);
    }
  }

  lemma WithinMore(heard: seq<Hearing>, a: set<nat>, b: set<nat>)
    requires Within(heard, a) && a <= b
    ensures Within(heard, b)
  {}

  lemma FireSynced(c: Config, client: State, id: nat, heard: seq<Hearing>, emitted: seq<ServerLine>, p: nat, rest: string)
    requires Synced(c, client, heard, emitted, p, rest) && Core(client) && id in client.timers
    ensures Synced(c, FireTimer(client, id), heard, emitted, p, rest)
  {
    FireBooks(client, id, heard);
    Observe(client.log, Settle(id, Rejected(CommandTimeout)));
  }

  lemma FireInv(c: Config, w: World, id: nat)
    requires WorldInv(c, w) && Core(w.client) && id in w.client.timers
    ensures WorldInv(c, Next(c, w, TimerFires(id)))
  {
    var p: nat :| Synced(c, w.client, w.heard, w.emitted, p, w.toClient);
    FireSynced(c, w.client, id, w.heard, w.emitted, p, w.toClient);
    Rewired(c, w, Next(c, w, TimerFires(id)), p);
  }

  /** Rejecting everything: all that waited has timed out, and nothing else is observed. */
  lemma {:induction false} RejectAllObserved(s: State, cause: Cause)
    requires IsTimeout(Rejected(cause))
    ensures
      var log := RejectAll(s, cause).log;
      && Replied(log) == Replied(s.log) && Emitted(log) == Emitted(s.log)
      && (forall id :: id in Expired(log) <==> id in Expired(s.log) || IsPending(s.queue, id))
    decreases |s.queue|
  {
    if s.queue != [] {
      Observe(s.log, Settle(s.queue[0].id, Rejected(cause)));
      RejectAllObserved(SettleHead(s, Rejected(cause)), cause);
      forall id: nat ensures IsPending(s.queue, id) <==> s.queue[0].id == id || IsPending(s.queue[1..], id) {
        PendingCons(s.queue, id);
      }
    }
  }

  lemma {:induction false} RejectAllFrame(s: State, cause: Cause)
    ensures RejectAll(s, cause).(log := [], queue := [], timers := map[]) == s.(log := [], queue := [], timers := map[])
    decreases |s.queue|
  {
    if s.queue != [] {
      RejectAllFrame(SettleHead(s, Rejected(cause)), cause);
    }
  }

  lemma RejectBooks(s: State, heard: seq<Hearing>)
    requires Books(s, heard)
    ensures Books(RejectAll(s, SocketTimeout), heard)
  {
    var s' := RejectAll(s, SocketTimeout);
    RejectAllObserved(s, SocketTimeout);
    RejectAllFrame(s, SocketTimeout);
    assert forall id: nat :: IsPending(s.queue, id) ==> id <= s.commandId;
    WithinMore(heard, Expired(s.log), Expired(s'.log));
    if LateRepliesAlone(heard) {
      assert forall id: nat :: !IsPending(s'.queue, id);
    }
  }

  lemma RejectSynced(c: Config, client: State, heard: seq<Hearing>, emitted: seq<ServerLine>, p: nat, rest: string)
    requires Synced(c, client, heard, emitted, p, rest)
    ensures Synced(c, RejectAll(client, SocketTimeout), heard, emitted, p, rest)
  {
    RejectAllObserved(client, SocketTimeout);
    RejectAllFrame(client, SocketTimeout);
    RejectBooks(client, heard);
  }

  lemma SocketInv(c: Config, w: World)
    requires WorldInv(c, w)
    ensures WorldInv(c, Next(c, w, SocketTimesOut))
  {
    var p: nat :| Synced(c, w.client, w.heard, w.emitted, p, w.toClient);
    RejectAllFrame(w.client, SocketTimeout);
    RejectSynced(c, w.client, w.heard, w.emitted, p, w.toClient);
    QuietSynced(c, RejectAll(w.client, SocketTimeout), EmitTimeout, w.heard, w.emitted, p, w.toClient);
    Rewired(c, w, Next(c, w, SocketTimesOut), p);
  }

  // ---------- runs ----------

  lemma NextInv(c: Config, w: World, m: Move)
    requires WorldInv(c, w) && Core(w.client) && Enabled(c, w, m)
    ensures WorldInv(c, Next(c, w, m))
  {
    match m
    case ClientSend(command, timeout) => SendInv(c, w, command, timeout);
    case ClientPipeline(commands, timeout) => PipelineInv(c, w, commands, timeout);
    case ServerAnswer(text) => AnswerInv(c, w, text);
    case ServerEvent(text) => EmitWired(c, w, Event(text));
    case Deliver(count) => DeliverInv(c, w, count);
    case TimerFires(id) => FireInv(c, w, id);
    case SocketTimesOut => SocketInv(c, w);
  }

  lemma AnswerInv(c: Config, w: World, text: string)
    requires WorldInv(c, w) && Enabled(c, w, ServerAnswer(text))
    ensures WorldInv(c, Next(c, w, ServerAnswer(text)))
  {
    EmitWired(c, w, Answer(text));
    ServedWired(c, w);
  }

  /** The client alone is the state machine of `Protocol`. */
  lemma NextClient(c: Config, w: World, m: Move)
    requires Inv(c, w.client) && Enabled(c, w, m)
    ensures Inv(c, Next(c, w, m).client)
  {
    NextIsStep(c, w, m);
    match StepOf(w, m) {
      case None =>
      case Some(step) => ApplyInv(c, w.client, step);
    }
  }

  /** What a move is for the client. */
  function StepOf(w: World, m: Move): Option<Step> {
    match m
    case ClientSend(command, timeout) => Some(DoSend(command, timeout))
    case ClientPipeline(commands, timeout) => Some(DoPipeline(commands, timeout))
    case ServerAnswer(_) => None
    case ServerEvent(_) => None
    case Deliver(count) => if count <= |w.toClient| then Some(DoData(w.toClient[..count])) else None
    case TimerFires(id) => Some(DoTimer(id))
    case SocketTimesOut => Some(DoSocketTimedOut)
  }

  lemma NextIsStep(c: Config, w: World, m: Move)
    requires Enabled(c, w, m)
    ensures
      match StepOf(w, m)
      case None => Next(c, w, m).client == w.client
      case Some(step) => Next(c, w, m).client == Apply(c, w.client, step)
  {}

  lemma {:induction false} RunInv(c: Config, w: World, moves: seq<Move>)
    requires WorldInv(c, w) && Inv(c, w.client) && IsRun(c, w, moves)
    ensures WorldInv(c, Final(c, w, moves)) && Inv(c, Final(c, w, moves).client)
    decreases |moves|
  {
    if moves != [] {
      NextInv(c, w, moves[0]);
      NextClient(c, w, moves[0]);
      RunInv(c, Next(c, w, moves[0]), moves[1..]);
    }
  }

  lemma StartInv(c: Config)
    ensures WorldInv(c, START) && Inv(c, START.client)
  {
    StartClient(c);
    StartBooks(START.client);
    assert Synced(c, START.client, [], START.emitted, 0, START.toClient);
  }

  lemma StartClient(c: Config)
    ensures Inv(c, START.client)
  {
    assert Inv(c, INITIAL);
    ApplyInv(c, INITIAL, DoAttach);
  }

  lemma StartBooks(s: State)
    requires s.queue == [] && s.log == [] && s.commandId == 0
    ensures Books(s, [])
  {
    assert forall id: nat :: !IsPending(s.queue, id);
  }
}
