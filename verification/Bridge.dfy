/** The bridge between the agent's pipe and the exam host: numbered commands, one enable slot, bounded responses. */
module Bridge {
  import opened Bytes
  import Lifecycle

  const MAX_MESSAGES: nat := 64
  const MAX_COMMANDS: nat := 4
  const MAX_PAYLOAD: nat := 64 * 1024

  datatype Kind = AnswerAck | StateResponse | ExamBegin | TelemetryEnable | ExamStart | ExamStop | OtherKind
  datatype Message = Message(kind: Kind, payload: seq<byte>)
  datatype Command = Command(message: Message, publication: nat)

  /** What happened at the bridge, in order. */
  datatype Event =
    | CommandPublished(message: Message)
    | EnablePublished(message: Message)
    | CommandTaken(command: Command)
    | EnableHanded(publication: nat, message: Message)

  datatype State = State(
    messages: seq<Message>, enable: Option<Message>, enablePublication: nat, commands: seq<Command>, publication: nat,
    log: seq<Event>)

  const EMPTY := State([], None, 0, [], 0, [])

  // ---- operations ----

  predicate IsResponse(k: Kind) {
    k == AnswerAck || k == StateResponse || k == ExamBegin
  }

  datatype Accepted = Accepted(s: State, ok: bool)

  function PublishResponse(s: State, m: Message): Accepted {
    if !IsResponse(m.kind) || |m.payload| > MAX_PAYLOAD then Accepted(s, false)
    else
      var kept := if |s.messages| >= MAX_MESSAGES then s.messages[1..] else s.messages;
      Accepted(s.(messages := kept + [m]), true)
  }

  function PublishEnable(s: State, m: Message): Accepted {
    if m.kind != TelemetryEnable || |m.payload| > MAX_PAYLOAD || s.publication == U64_MAX then Accepted(s, false)
    else
      Accepted(s.(enable := Some(m), enablePublication := s.publication, log := s.log + [EnablePublished(m)]), true)
  }

  function WithoutStarts(commands: seq<Command>): seq<Command> {
    if commands == [] then []
    else (if commands[0].message.kind == ExamStart then [] else [commands[0]]) + WithoutStarts(commands[1..])
  }

  /** A stop supersedes everything queued, a start only queued starts; either makes an earlier enable obsolete. */
  function PublishCommand(s: State, m: Message): Accepted {
    if (m.kind != ExamStart && m.kind != ExamStop) || |m.payload| > MAX_PAYLOAD then Accepted(s, false)
    else if s.publication == U64_MAX then Accepted(s.(enable := None, commands := []), false)
    else
      var kept := if m.kind == ExamStop then [] else WithoutStarts(s.commands);
      var room := if |kept| >= MAX_COMMANDS then kept[1..] else kept;
      Accepted(s.(publication := s.publication + 1, enable := None,
                  commands := room + [Command(m, s.publication + 1)], log := s.log + [CommandPublished(m)]), true)
  }

  datatype Taken<+T> = Taken(s: State, value: Option<T>)

  function TakeCommand(s: State): Taken<Command> {
    if s.commands == [] then Taken(s, None)
    else Taken(s.(commands := s.commands[1..], log := s.log + [CommandTaken(s.commands[0])]), Some(s.commands[0]))
  }

  /** A host running command `p` takes the enable meant for it; an older one is dropped, a newer one waits. */
  function TakeEnable(s: State, p: nat): Taken<Message> {
    if s.enable.None? || s.enablePublication > p then Taken(s, None)
    else if s.enablePublication < p then Taken(s.(enable := None), None)
    else Taken(s.(enable := None, log := s.log + [EnableHanded(p, s.enable.value)]), s.enable)
  }

  function TakeAnyEnable(s: State): Taken<Message> {
    Taken(s.(enable := None), s.enable)
  }

  function TakeResponse(s: State): Taken<Message> {
    if s.messages == [] then Taken(s, None) else Taken(s.(messages := s.messages[1..]), Some(s.messages[0]))
  }

  function Prepare(s: State, decode: Message -> Option<Lifecycle.Identity>, context: Lifecycle.Identity,
                   p: nat): State {
    var drop := s.enable.Some? && s.enablePublication <= p &&
                (s.enablePublication < p || decode(s.enable.value) != Some(context));
    s.(messages := [], enable := if drop then None else s.enable)
  }

  function ClearThrough(s: State, p: nat): State {
    s.(messages := [], enable := if s.enable.Some? && s.enablePublication <= p then None else s.enable)
  }

  datatype Call =
    | DoResponse(message: Message)
    | DoEnable(message: Message)
    | DoCommand(message: Message)
    | DoTakeCommand
    | DoTakeEnable(publication: nat)
    | DoTakeAnyEnable
    | DoTakeResponse
    | DoClearCommands
    | DoClearResponses
    | DoPrepare(decode: Message -> Option<Lifecycle.Identity>, context: Lifecycle.Identity, publication: nat)
    | DoClearThrough(publication: nat)
    | DoClear

  function Step(s: State, c: Call): State {
    match c
    case DoResponse(m) => PublishResponse(s, m).s
    case DoEnable(m) => PublishEnable(s, m).s
    case DoCommand(m) => PublishCommand(s, m).s
    case DoTakeCommand => TakeCommand(s).s
    case DoTakeEnable(p) => TakeEnable(s, p).s
    case DoTakeAnyEnable => TakeAnyEnable(s).s
    case DoTakeResponse => TakeResponse(s).s
    case DoClearCommands => s.(commands := [])
    case DoClearResponses => s.(messages := [])
    case DoPrepare(decode, context, p) => Prepare(s, decode, context, p)
    case DoClearThrough(p) => ClearThrough(s, p)
    case DoClear => s.(messages := [], enable := None)
  }

  function Run(s: State, calls: seq<Call>): State
    decreases |calls|
  {
    if calls == [] then s else Run(Step(s, calls[0]), calls[1..])
  }

  // ---- what the log says ----

  /** Number of commands published so far: the publication number of the latest one. */
  function Published(log: seq<Event>): nat {
    if log == [] then 0 else Published(log[..|log| - 1]) + if log[|log| - 1].CommandPublished? then 1 else 0
  }

  /** Every enable handed to the host of command p was published after command p and before the next one. */
  ghost predicate EnablesBelong(log: seq<Event>) {
    forall i :: 0 <= i < |log| && log[i].EnableHanded? ==> HandedInTime(log, i)
  }

  ghost predicate HandedInTime(log: seq<Event>, i: nat)
    requires i < |log| && log[i].EnableHanded?
  {
    exists j :: 0 <= j < i && log[j] == EnablePublished(log[i].message) &&
                Published(log[..j]) == log[i].publication == Published(log[..i])
  }

  /** Commands are taken in the order of their publication, each at most once, with their own messages. */
  ghost predicate CommandsInOrder(log: seq<Event>) {
    && (forall i, j :: 0 <= i < j < |log| && log[i].CommandTaken? && log[j].CommandTaken? ==>
                         log[i].command.publication < log[j].command.publication)
    && (forall i :: 0 <= i < |log| && log[i].CommandTaken? ==> WasPublished(log[..i], log[i].command))
  }

  /** The command with this publication number carried this message. */
  ghost predicate WasPublished(log: seq<Event>, c: Command) {
    exists j :: 0 <= j < |log| && log[j] == CommandPublished(c.message) && Published(log[..j + 1]) == c.publication
  }

  /** The queue is at most a stop followed by a start, ending in the newest command. */
  predicate QueueShape(commands: seq<Command>, publication: nat) {
    && |commands| <= 2
    && (forall c :: c in commands ==> c.message.kind == ExamStart || c.message.kind == ExamStop)
    && (|commands| == 2 ==>
          commands[0].message.kind == ExamStop && commands[1].message.kind == ExamStart &&
          commands[0].publication < commands[1].publication)
    && (commands != [] ==> commands[|commands| - 1].publication == publication)
  }

  ghost predicate EnableFresh(s: State) {
    s.enable.Some? ==>
      s.enablePublication == s.publication &&
      exists j :: 0 <= j < |s.log| && s.log[j] == EnablePublished(s.enable.value) &&
                  Published(s.log[..j]) == s.publication
  }

  /** The queue holds published commands that come after everything taken from it so far. */
  ghost predicate QueueOk(s: State) {
    && QueueShape(s.commands, s.publication)
    && (forall c :: c in s.commands ==> WasPublished(s.log, c))
    && (forall i :: 0 <= i < |s.log| && s.log[i].CommandTaken? ==>
          s.log[i].command.publication <= s.publication &&
          forall c :: c in s.commands ==> s.log[i].command.publication < c.publication)
  }

  ghost predicate Inv(s: State) {
    s.publication == Published(s.log) && QueueOk(s) && EnableFresh(s) && EnablesBelong(s.log) && CommandsInOrder(s.log)
  }

  // ---- growing the log ----

  lemma PublishedPush(log: seq<Event>, e: Event)
    ensures Published(log + [e]) == Published(log) + if e.CommandPublished? then 1 else 0
  {
    assert (log + [e])[..|log|] == log;
  }

  lemma PrefixPush(log: seq<Event>, e: Event, j: nat)
    requires j <= |log|
    ensures (log + [e])[..j] == log[..j]
  {
  }

  lemma WasPublishedPush(log: seq<Event>, e: Event, c: Command)
    requires WasPublished(log, c)
    ensures WasPublished(log + [e], c)
  {
    var j :| 0 <= j < |log| && log[j] == CommandPublished(c.message) && Published(log[..j + 1]) == c.publication;
    PrefixPush(log, e, j + 1);
  }

  lemma EnablesPush(log: seq<Event>, e: Event)
    requires EnablesBelong(log) && (e.EnableHanded? ==> HandedInTime(log + [e], |log|))
    ensures EnablesBelong(log + [e])
  {
    hide Published;
    var grown := log + [e];
    forall i | 0 <= i < |grown| && grown[i].EnableHanded?
      ensures HandedInTime(grown, i)
    {
      if i < |log| {
        assert HandedInTime(log, i);
        var j :| 0 <= j < i && log[j] == EnablePublished(log[i].message) &&
                 Published(log[..j]) == log[i].publication == Published(log[..i]);
        PrefixPush(log, e, j);
        PrefixPush(log, e, i);
      }
    }
  }

  lemma CommandsPush(log: seq<Event>, e: Event)
    requires CommandsInOrder(log)
    requires e.CommandTaken? ==> WasPublished(log, e.command) &&
                                 forall i :: 0 <= i < |log| && log[i].CommandTaken? ==>
                                   log[i].command.publication < e.command.publication
    ensures CommandsInOrder(log + [e])
  {
    hide WasPublished;
    var grown := log + [e];
    forall i | 0 <= i < |grown| && grown[i].CommandTaken?
      ensures WasPublished(grown[..i], grown[i].command)
    {
      PrefixPush(log, e, i);
      assert i == |log| ==> log[..i] == log;
    }
  }

  lemma FreshPush(s: State, e: Event)
    requires EnableFresh(s) && !e.CommandPublished?
    ensures EnableFresh(s.(log := s.log + [e]))
  {
    hide Published;
    if s.enable.Some? {
      var j :| 0 <= j < |s.log| && s.log[j] == EnablePublished(s.enable.value) &&
               Published(s.log[..j]) == s.publication;
      PrefixPush(s.log, e, j);
      assert (s.log + [e])[j] == s.log[j];
    }
  }

  // ---- every call keeps the invariant ----

  lemma EnableKeepsInv(s: State, m: Message)
    requires Inv(s)
    ensures Inv(PublishEnable(s, m).s)
  {
    hide Published, WasPublished, QueueShape, EnablesBelong, CommandsInOrder;
    if PublishEnable(s, m).ok {
      var e := EnablePublished(m);
      var t := PublishEnable(s, m).s;
      PublishedPush(s.log, e);
      EnablesPush(s.log, e);
      CommandsPush(s.log, e);
      forall c | c in s.commands
        ensures WasPublished(t.log, c)
      {
        WasPublishedPush(s.log, e, c);
      }
      PrefixPush(s.log, e, |s.log|);
      assert s.log[..|s.log|] == s.log;
      assert t.log[|s.log|] == e && Published(t.log[..|s.log|]) == s.publication;
    }
  }

  lemma QueueAfterPublishing(commands: seq<Command>, publication: nat, m: Message)
    requires QueueShape(commands, publication) && (m.kind == ExamStart || m.kind == ExamStop)
    requires forall c :: c in commands ==> c.publication <= publication
    ensures var kept := if m.kind == ExamStop then [] else WithoutStarts(commands);
            && |kept| <= 1 && (forall c :: c in kept ==> c in commands)
            && QueueShape(kept + [Command(m, publication + 1)], publication + 1)
  {
    if |commands| == 2 {
      assert WithoutStarts(commands[1..]) == [];
      assert commands == [commands[0]] + commands[1..];
    } else if |commands| == 1 {
      assert WithoutStarts(commands[1..]) == [];
    }
  }

  lemma QueueIsPast(s: State)
    requires QueueOk(s)
    ensures forall c :: c in s.commands ==> c.publication <= s.publication
  {
  }

  lemma CommandKeepsInv(s: State, m: Message)
    requires Inv(s)
    ensures Inv(PublishCommand(s, m).s)
  {
    hide Published, WasPublished, EnablesBelong, CommandsInOrder;
    if PublishCommand(s, m).ok {
      var e := CommandPublished(m);
      var t := PublishCommand(s, m).s;
      QueueIsPast(s);
      QueueAfterPublishing(s.commands, s.publication, m);
      hide QueueShape, WithoutStarts;
      PublishedPush(s.log, e);
      EnablesPush(s.log, e);
      CommandsPush(s.log, e);
      NewCommandPublished(s.log, m);
      forall c | c in t.commands
        ensures WasPublished(t.log, c)
      {
        if c in s.commands {
          WasPublishedPush(s.log, e, c);
        }
      }
      forall i | 0 <= i < |t.log| && t.log[i].CommandTaken?
        ensures t.log[i].command.publication <= t.publication
        ensures forall c :: c in t.commands ==> t.log[i].command.publication < c.publication
      {
        assert t.log[i] == s.log[i];
      }
    }
  }

  lemma NewCommandPublished(log: seq<Event>, m: Message)
    ensures WasPublished(log + [CommandPublished(m)], Command(m, Published(log) + 1))
  {
    var grown := log + [CommandPublished(m)];
    PublishedPush(log, CommandPublished(m));
    assert grown[..|log| + 1] == grown;
  }

  lemma TakeCommandKeepsInv(s: State)
    requires Inv(s)
    ensures Inv(TakeCommand(s).s)
  {
    hide Published, WasPublished, EnablesBelong, CommandsInOrder;
    if s.commands != [] {
      var e := CommandTaken(s.commands[0]);
      var t := TakeCommand(s).s;
      QueueIsPast(s);
      assert QueueShape(t.commands, t.publication);
      assert forall c :: c in t.commands ==> c in s.commands && s.commands[0].publication < c.publication;
      hide QueueShape;
      PublishedPush(s.log, e);
      EnablesPush(s.log, e);
      CommandsPush(s.log, e);
      FreshPush(s, e);
      assert EnableFresh(t);
      forall c | c in t.commands
        ensures WasPublished(t.log, c)
      {
        WasPublishedPush(s.log, e, c);
      }
      forall i | 0 <= i < |t.log| && t.log[i].CommandTaken?
        ensures t.log[i].command.publication <= t.publication
        ensures forall c :: c in t.commands ==> t.log[i].command.publication < c.publication
      {
        if i < |s.log| {
          assert t.log[i] == s.log[i];
        }
      }
    }
  }

  lemma TakeEnableKeepsInv(s: State, p: nat)
    requires Inv(s)
    ensures Inv(TakeEnable(s, p).s)
  {
    hide Published, WasPublished, QueueShape, EnablesBelong, CommandsInOrder;
    if s.enable.Some? && s.enablePublication == p {
      var e := EnableHanded(p, s.enable.value);
      var t := TakeEnable(s, p).s;
      var j :| 0 <= j < |s.log| && s.log[j] == EnablePublished(s.enable.value) &&
               Published(s.log[..j]) == s.publication;
      PrefixPush(s.log, e, j);
      PrefixPush(s.log, e, |s.log|);
      assert s.log[..|s.log|] == s.log;
      assert t.log[j] == s.log[j] && t.log[|s.log|] == e;
      assert HandedInTime(t.log, |s.log|);
      PublishedPush(s.log, e);
      EnablesPush(s.log, e);
      CommandsPush(s.log, e);
      forall c | c in s.commands
        ensures WasPublished(t.log, c)
      {
        WasPublishedPush(s.log, e, c);
      }
    }
  }

  lemma StepKeepsInv(s: State, c: Call)
    requires Inv(s)
    ensures Inv(Step(s, c))
  {
    hide Published, EnablesBelong, CommandsInOrder, WasPublished, PublishEnable, PublishCommand, TakeCommand,
         TakeEnable;
    match c {
      case DoEnable(m) => EnableKeepsInv(s, m);
      case DoCommand(m) => CommandKeepsInv(s, m);
      case DoTakeCommand => TakeCommandKeepsInv(s);
      case DoTakeEnable(p) => TakeEnableKeepsInv(s, p);
      case _ =>
    }
  }

  lemma {:induction false} RunKeepsInv(s: State, calls: seq<Call>)
    requires Inv(s)
    ensures Inv(Run(s, calls))
    decreases |calls|
  {
    hide Inv, Step;
    if calls != [] {
      StepKeepsInv(s, calls[0]);
      RunKeepsInv(Step(s, calls[0]), calls[1..]);
    }
  }

  lemma EmptyOk()
    ensures Inv(EMPTY)
  {
  }

  /**
   * In every run an enable reaches the host of command p only if it was published after command p and before any later
   * one, and it is handed over before any later one.
   */
  lemma EnablesReachTheirCommand(calls: seq<Call>)
    ensures EnablesBelong(Run(EMPTY, calls).log)
  {
    hide Run, Step, EnablesBelong, CommandsInOrder, QueueOk, EnableFresh;
    EmptyOk();
    RunKeepsInv(EMPTY, calls);
  }

  /** In every run commands are taken once, in order, as published, from a queue of at most a stop and then a start. */
  lemma CommandsReachTheHost(calls: seq<Call>)
    ensures var s := Run(EMPTY, calls);
            CommandsInOrder(s.log) && QueueShape(s.commands, Published(s.log))
  {
    hide Run, Step, EnablesBelong, CommandsInOrder, QueueShape, EnableFresh;
    EmptyOk();
    RunKeepsInv(EMPTY, calls);
  }

  function Drain(s: State): (r: Taken<Command>)
    decreases |s.commands|
  {
    var t := TakeCommand(s);
    if t.value.None? || t.s.commands == [] then t else Drain(t.s)
  }

  /** Draining a nonempty queue ends with the command published last. */
  lemma DrainEndsInNewest(s: State)
    requires Inv(s) && s.commands != []
    ensures var d := Drain(s);
            d.s.commands == [] && d.value.Some? && d.value.value.publication == Published(s.log)
    decreases |s.commands|
  {
    hide Published, EnablesBelong, CommandsInOrder, WasPublished;
    TakeCommandKeepsInv(s);
    var t := TakeCommand(s).s;
    PublishedPush(s.log, CommandTaken(s.commands[0]));
    if t.commands != [] {
      DrainEndsInNewest(t);
    }
  }

  /** The calls that can change the response queue. */
  predicate TouchesResponses(c: Call) {
    c.DoResponse? || c.DoTakeResponse? || c.DoClearResponses? || c.DoPrepare? || c.DoClearThrough? || c.DoClear?
  }

  /** The calls that can change nothing but the response queue. */
  predicate OnlyResponses(c: Call) {
    c.DoResponse? || c.DoTakeResponse? || c.DoClearResponses?
  }

  function ResponseCalls(calls: seq<Call>): seq<Call> {
    if calls == [] then []
    else (if TouchesResponses(calls[0]) then [calls[0]] else []) + ResponseCalls(calls[1..])
  }

  function OtherCalls(calls: seq<Call>): seq<Call> {
    if calls == [] then [] else (if OnlyResponses(calls[0]) then [] else [calls[0]]) + OtherCalls(calls[1..])
  }

  /** The same enable slot, command queue and history, whatever responses are queued. */
  predicate SameSlots(s: State, t: State) {
    s == t.(messages := s.messages)
  }

  /** In every run the responses are those of the run without any enable or command: neither evicts a response. */
  lemma {:induction false} ResponsesUndisturbed(s: State, t: State, calls: seq<Call>)
    requires s.messages == t.messages
    ensures Run(s, calls).messages == Run(t, ResponseCalls(calls)).messages
    decreases |calls|
  {
    if calls != [] {
      var c := calls[0];
      if TouchesResponses(c) {
        assert ResponseCalls(calls)[1..] == ResponseCalls(calls[1..]);
        ResponsesUndisturbed(Step(s, c), Step(t, c), calls[1..]);
      } else {
        assert ResponseCalls(calls) == ResponseCalls(calls[1..]);
        ResponsesUndisturbed(Step(s, c), t, calls[1..]);
      }
    }
  }

  /** In every run enables and commands are those of the run without any response. */
  lemma {:induction false} SlotsUndisturbed(s: State, t: State, calls: seq<Call>)
    requires SameSlots(s, t)
    ensures SameSlots(Run(s, calls), Run(t, OtherCalls(calls)))
    decreases |calls|
  {
    if calls != [] {
      var c := calls[0];
      if OnlyResponses(c) {
        assert OtherCalls(calls) == OtherCalls(calls[1..]);
        SlotsUndisturbed(Step(s, c), t, calls[1..]);
      } else {
        assert OtherCalls(calls)[1..] == OtherCalls(calls[1..]);
        SlotsUndisturbed(Step(s, c), Step(t, c), calls[1..]);
      }
    }
  }

  /** The enable waiting for command p was checked against a context, or published since `mark` events ago. */
  ghost predicate CheckedOrNew(s: State, decode: Message -> Option<Lifecycle.Identity>, context: Lifecycle.Identity,
                               p: nat, mark: nat) {
    && mark <= |s.log|
    && (s.enable.Some? && s.enablePublication <= p ==>
          decode(s.enable.value) == Some(context) || EnablePublished(s.enable.value) in s.log[mark..])
  }

  lemma {:induction false} StaysCheckedOrNew(s: State, decode: Message -> Option<Lifecycle.Identity>,
                                             context: Lifecycle.Identity, p: nat, mark: nat, calls: seq<Call>)
    requires CheckedOrNew(s, decode, context, p, mark)
    ensures CheckedOrNew(Run(s, calls), decode, context, p, mark)
    decreases |calls|
  {
    if calls != [] {
      var t := Step(s, calls[0]);
      if |t.log| > |s.log| {
        assert t.log[mark..] == s.log[mark..] + [t.log[|s.log|]];
      }
      StaysCheckedOrNew(t, decode, context, p, mark, calls[1..]);
    }
  }

  /**
   * However long a prepared host waits and whatever the pipe does meanwhile, the enable it is handed for its command
   * names its own exam, unless it was published only after the preparation.
   */
  lemma PreparedEnableMatches(s: State, decode: Message -> Option<Lifecycle.Identity>, context: Lifecycle.Identity,
                              p: nat, calls: seq<Call>)
    ensures var prepared := Prepare(s, decode, context, p);
            var later := Run(prepared, calls);
            var handed := TakeEnable(later, p).value;
            |s.log| <= |later.log| &&
            (handed.Some? ==>
               decode(handed.value) == Some(context) || EnablePublished(handed.value) in later.log[|s.log|..])
  {
    hide Run;
    StaysCheckedOrNew(Prepare(s, decode, context, p), decode, context, p, |s.log|, calls);
  }

  /** A call that leaves the enable published for command p and its message in its slot. */
  predicate LeavesEnable(c: Call, p: nat, m: Message, context: Lifecycle.Identity) {
    match c
    case DoEnable(other) => other.kind != TelemetryEnable || |other.payload| > 64 * 1024
    case DoCommand(other) => (other.kind != ExamStart && other.kind != ExamStop) || |other.payload| > 64 * 1024
    case DoTakeEnable(q) => q < p
    case DoTakeAnyEnable => false
    case DoPrepare(decode, name, q) => q < p || (q == p && decode(m) == Some(name) && name == context)
    case DoClearThrough(q) => q < p
    case DoClear => false
    case _ => true
  }

  lemma {:induction false} EnableStays(s: State, m: Message, context: Lifecycle.Identity, calls: seq<Call>)
    requires s.enable == Some(m) && s.enablePublication == s.publication
    requires forall i :: 0 <= i < |calls| ==> LeavesEnable(calls[i], s.publication, m, context)
    ensures var t := Run(s, calls);
            t.enable == Some(m) && t.enablePublication == t.publication == s.publication
    decreases |calls|
  {
    if calls != [] {
      assert LeavesEnable(calls[0], s.publication, m, context);
      EnableStays(Step(s, calls[0]), m, context, calls[1..]);
    }
  }

  /**
   * A well-formed enable that is published for the latest command is handed to the host of that command, through any
   * number of preparations that it matches and whatever responses, refused messages and takings come between.
   */
  lemma EnableIsHandedOver(s: State, m: Message, context: Lifecycle.Identity, calls: seq<Call>)
    requires m.kind == TelemetryEnable && |m.payload| <= 64 * 1024 && s.publication < U64_MAX
    requires forall i :: 0 <= i < |calls| ==> LeavesEnable(calls[i], s.publication, m, context)
    ensures PublishEnable(s, m).ok
    ensures TakeEnable(Run(PublishEnable(s, m).s, calls), s.publication).value == Some(m)
  {
    EnableStays(PublishEnable(s, m).s, m, context, calls);
  }

  function Newest<T>(s: seq<T>, n: nat): seq<T> {
    if |s| <= n then s else s[|s| - n..]
  }

  function AllResponses(ms: seq<Message>): seq<Call> {
    if ms == [] then [] else [DoResponse(ms[0])] + AllResponses(ms[1..])
  }

  /** The queue of responses keeps the newest 64 in their order, and the oldest of them is taken first. */
  lemma {:induction false} NewestResponsesKept(s: State, ms: seq<Message>)
    requires |s.messages| <= 64
    requires forall i :: 0 <= i < |ms| ==>
               (ms[i].kind == AnswerAck || ms[i].kind == StateResponse || ms[i].kind == ExamBegin) &&
               |ms[i].payload| <= 64 * 1024
    ensures var t := Run(s, AllResponses(ms));
            t.messages == Newest(s.messages + ms, 64) &&
            (t.messages != [] ==>
               TakeResponse(t).value == Some(t.messages[0]) && TakeResponse(t).s.messages == t.messages[1..])
    decreases |ms|
  {
    if ms == [] {
      assert s.messages + ms == s.messages;
    } else {
      hide Newest;
      var t := PublishResponse(s, ms[0]).s;
      assert AllResponses(ms)[1..] == AllResponses(ms[1..]);
      NewestPush(s.messages, ms[0], ms[1..]);
      assert [ms[0]] + ms[1..] == ms;
      NewestResponsesKept(t, ms[1..]);
      assert Run(s, AllResponses(ms)) == Run(t, AllResponses(ms[1..]));
    }
  }

  lemma NewestPush<T>(s: seq<T>, x: T, rest: seq<T>)
    requires |s| <= 64
    ensures var kept := (if |s| >= 64 then s[1..] else s) + [x];
            Newest(kept + rest, 64) == Newest(s + ([x] + rest), 64)
  {
    var kept := (if |s| >= 64 then s[1..] else s) + [x];
    assert |s| < 64 ==> kept + rest == s + ([x] + rest);
    assert |s| == 64 ==> kept + rest == (s + ([x] + rest))[1..];
  }

  lemma StartsSnoc(commands: seq<Command>, c: Command)
    ensures WithoutStarts(commands + [c]) == WithoutStarts(commands) + if c.message.kind == ExamStart then [] else [c]
  {
    if commands == [] {
      assert WithoutStarts([]) == [] && [c][1..] == [];
    } else {
      assert (commands + [c])[1..] == commands[1..] + [c];
      StartsSnoc(commands[1..], c);
    }
  }

  // ---- the bridge as an object ----

  class ExamBridge {
    var messages: seq<Message>
    var enable: Option<Message>
    var enablePublication: nat
    var commands: seq<Command>
    var commandPublication: nat
    ghost var log: seq<Event>

    ghost function View(): State
      reads this
    {
      State(messages, enable, enablePublication, commands, commandPublication, log)
    }

    constructor ()
      ensures View() == EMPTY
    {
      messages, enable, enablePublication, commands, commandPublication, log := [], None, 0, [], 0, [];
    }

    method Publish(m: Message) returns (ok: bool)
      modifies this
      ensures Accepted(View(), ok) ==
              if m.kind == TelemetryEnable then PublishEnable(old(View()), m) else PublishResponse(old(View()), m)
    {
      if m.kind == TelemetryEnable {
        ok := PublishTelemetryEnable(m);
        return;
      }
      if !IsResponse(m.kind) || |m.payload| > MAX_PAYLOAD {
        return false;
      }
      if |messages| >= MAX_MESSAGES {
        messages := messages[1..];
      }
      messages := messages + [m];
      ok := true;
    }

    method PublishTelemetryEnable(m: Message) returns (ok: bool)
      modifies this
      ensures Accepted(View(), ok) == PublishEnable(old(View()), m)
    {
      if m.kind != TelemetryEnable || |m.payload| > MAX_PAYLOAD || commandPublication == U64_MAX {
        return false;
      }
      enable, enablePublication := Some(m), commandPublication;
      log := log + [EnablePublished(m)];
      ok := true;
    }

    method EraseStarts()
      modifies this`commands
      ensures commands == WithoutStarts(old(commands))
    {
      var kept: seq<Command> := [];
      for i := 0 to |commands|
        invariant commands == old(commands)
        invariant kept == WithoutStarts(commands[..i])
      {
        StartsSnoc(commands[..i], commands[i]);
        assert commands[..i + 1] == commands[..i] + [commands[i]];
        if commands[i].message.kind != ExamStart {
          kept := kept + [commands[i]];
        }
      }
      assert commands[..|commands|] == commands;
      commands := kept;
    }

    method PublishExamCommand(m: Message) returns (ok: bool)
      modifies this
      ensures Accepted(View(), ok) == PublishCommand(old(View()), m)
    {
      if (m.kind != ExamStart && m.kind != ExamStop) || |m.payload| > MAX_PAYLOAD {
        return false;
      }
      if commandPublication == U64_MAX {
        enable, commands := None, [];
        return false;
      }
      commandPublication := commandPublication + 1;
      enable := None;
      if m.kind == ExamStop {
        commands := [];
      } else {
        EraseStarts();
      }
      if |commands| >= MAX_COMMANDS {
        commands := commands[1..];
      }
      commands := commands + [Command(m, commandPublication)];
      log := log + [CommandPublished(m)];
      ok := true;
    }

    method TryPopExamCommand() returns (command: Option<Command>)
      modifies this
      ensures Taken(View(), command) == TakeCommand(old(View()))
    {
      if commands == [] {
        return None;
      }
      command := Some(commands[0]);
      log := log + [CommandTaken(commands[0])];
      commands := commands[1..];
    }

    method TryPopTelemetryEnable(publication: nat) returns (m: Option<Message>)
      modifies this
      ensures Taken(View(), m) == TakeEnable(old(View()), publication)
    {
      if enable.None? || enablePublication > publication {
        return None;
      }
      m := if enablePublication < publication then None else enable;
      if m.Some? {
        log := log + [EnableHanded(publication, m.value)];
      }
      enable := None;
    }

    method PrepareForStart(decode: Message -> Option<Lifecycle.Identity>, context: Lifecycle.Identity, publication: nat)
      modifies this
      ensures View() == Prepare(old(View()), decode, context, publication)
    {
      messages := [];
      if enable.Some? && enablePublication <= publication {
        var decoded := decode(enable.value);
        if enablePublication < publication || decoded != Some(context) {
          enable := None;
        }
      }
    }

    method ClearThroughPublication(publication: nat)
      modifies this
      ensures View() == ClearThrough(old(View()), publication)
    {
      messages := [];
      if enable.Some? && enablePublication <= publication {
        enable := None;
      }
    }

    method TryPop() returns (m: Option<Message>)
      modifies this
      ensures Taken(View(), m) == TakeResponse(old(View()))
    {
      if messages == [] {
        return None;
      }
      m := Some(messages[0]);
      messages := messages[1..];
    }

    method ClearExamCommands()
      modifies this
      ensures View() == Step(old(View()), DoClearCommands)
    {
      commands := [];
    }

    method Clear()
      modifies this
      ensures View() == Step(old(View()), DoClear)
    {
      messages, enable := [], None;
    }
  }
}
