/**
 The managed-agent session driver as a function of its environment: what each
 stream delivers and when, what the history call answers, what the user decides
 and which follow-ups arrive. `ManagedSessionRunner.dfy` holds the same driver
 with its loops and mutable objects and is proved equal to `Drive`.
 */
module ManagedSession {
  import opened Prelude

  // ------------------------------------------------------------ vocabulary

  datatype StopReason = NoReason | RequiresAction | BudgetReached | OtherReason

  datatype Kind =
    | AgentMessage(text: string)
    | AgentThinking
    | ToolUse(name: string)      // agent.tool_use, agent.mcp_tool_use
    | ToolResult(output: string) // agent.tool_result, agent.mcp_tool_result
    | StatusRunning
    | StatusIdle(stopReason: StopReason)
    | SessionError(message: string)
    | StatusTerminated
    | OtherKind

  /** An empty id stands for an event without one. */
  datatype Event = Event(id: string, kind: Kind)

  datatype Outgoing =
    | UserMessage(text: string)
    | ToolConfirmation(toolUseId: string, allow: bool)
    | UserInterrupt

  /** Why a run fails; each reason is written as a phase and an error code. */
  datatype Failure =
    | ApprovalTimeout   // approval_timeout, APPROVAL_TIMEOUT
    | BudgetExhausted   // managed_budget_reached, MANAGED_BUDGET_REACHED
    | WorkerError       // worker_error, WORKER_ERROR
    | SessionTerminated // managed_session_terminated, MANAGED_SESSION_TERMINATED
    | StreamNotOpened   // managed_stream_failed, MANAGED_STREAM_FAILED
    | RuntimeTimeout    // runtime_timeout, WORKER_TIMEOUT
    | StreamGone        // managed_stream_lost, MANAGED_STREAM_LOST

  datatype Phase = AwaitingToolApproval | ExecutingSession | Done | FailedBy(why: Failure)

  /** The closing summary: the agent's last message, or a fixed sentence. */
  datatype Closing = LastMessage(text: string) | DefaultClosing

  datatype LogEntry =
    | AgentIsThinking                  // task.progress
    | AgentIsWorking                   // task.progress
    | WaitingForApproval(tool: string) // task.progress
    | ToolCalled(tool: string)         // task.log
    | ToolAnswered(output: string)     // task.log
    | FollowUpSent                     // task.log
    | ToolRunning(tool: string)        // task.running
    | TaskCompleted(summary: Closing)  // task.completed
    | TaskFailed(why: Failure)         // task.failed

  datatype Effect =
    | AssistantMessage(text: string)
    | TaskEvent(entry: LogEntry)
    | SetStatus(status: TaskStatus, phase: Phase)
    | RequestApproval(tool: string)
    | Send(outgoing: Outgoing)
    | Reconnecting(attempt: nat)

  /** How the wait for one approval ends. A rejection reaches the driver after the
      approval service has marked the task FAILED. */
  datatype Decision = Granted | Rejected | NoAnswer

  /** What the environment contributes while one event is handled: the time it
      takes, the follow-ups queued just before it, the answer if it asks. */
  datatype Input = Input(cost: nat, replies: seq<string>, decision: Decision)
  type Oracle = nat -> Input

  datatype Core = Core(
    pendingTool: Option<Event>, replies: seq<string>, summary: Option<string>,
    status: TaskStatus, completed: bool)

  datatype Reaction = Reaction(core: Core, effects: seq<Effect>, done: bool)

  // --------------------------------------------------------- one event

  function Failing(core: Core, why: Failure): Reaction {
    Reaction(core.(status := Failed), [SetStatus(Failed, FailedBy(why)), TaskEvent(TaskFailed(why))], true)
  }

  function ConfirmTool(core: Core, tool: Event, decision: Decision): Reaction {
    var name := if tool.kind.ToolUse? then tool.kind.name else "tool";
    var asked := [RequestApproval(name), SetStatus(WaitingApproval, AwaitingToolApproval),
                  TaskEvent(WaitingForApproval(name))];
    match decision
    case NoAnswer =>
      var failing := Failing(core, ApprovalTimeout);
      failing.(effects := asked + [Send(UserInterrupt)] + failing.effects)
    case Rejected =>
      Reaction(core.(status := Failed, pendingTool := None),
               asked + [Send(ToolConfirmation(tool.id, false)), Send(UserInterrupt)], true)
    case Granted =>
      Reaction(core.(status := Running, pendingTool := None),
               asked + [Send(ToolConfirmation(tool.id, true)),
                        SetStatus(Running, ExecutingSession), TaskEvent(ToolRunning(name))],
               false)
  }

  function Summary(core: Core): Closing {
    if core.summary.Some? && core.summary.value != "" then LastMessage(core.summary.value) else DefaultClosing
  }

  function React(core: Core, e: Event, input: Input): Reaction {
    Dispatch(core.(replies := core.replies + input.replies), e, input.decision)
  }

  function Dispatch(core: Core, e: Event, decision: Decision): Reaction {
    match e.kind
    case AgentMessage(text) =>
      if text == "" then Reaction(core, [], false)
      else Reaction(core.(summary := Some(text)), [AssistantMessage(text)], false)
    case AgentThinking => Reaction(core, [TaskEvent(AgentIsThinking)], false)
    case ToolUse(name) => Reaction(core.(pendingTool := Some(e)), [TaskEvent(ToolCalled(name))], false)
    case ToolResult(output) =>
      Reaction(core.(pendingTool := None), if output == "" then [] else [TaskEvent(ToolAnswered(output))], false)
    case StatusRunning => Reaction(core, [TaskEvent(AgentIsWorking)], false)
    case StatusIdle(stopReason) =>
      if core.pendingTool.Some? && (stopReason.NoReason? || stopReason.RequiresAction?) then
        ConfirmTool(core, core.pendingTool.value, decision)
      else if core.replies != [] then
        Reaction(core.(replies := core.replies[1..]),
                 [Send(UserMessage(core.replies[0])), TaskEvent(FollowUpSent)], false)
      else if stopReason.BudgetReached? then
        Failing(core, BudgetExhausted)
      else
        Reaction(core.(status := Completed, completed := true),
                 [TaskEvent(TaskCompleted(Summary(core))), SetStatus(Completed, Done)], true)
    case SessionError(message) => Failing(core, WorkerError)
    case StatusTerminated =>
      if core.completed || core.status.Completed? || core.status.Failed? || core.status.Cancelled?
      then Reaction(core, [], true)
      else Failing(core, SessionTerminated)
    case OtherKind => Reaction(core, [], false)
  }

  /** `handled` is history: the events that passed the duplicate check, in order. */
  datatype Session = Session(
    core: Core, seen: set<string>, effects: seq<Effect>, handled: seq<Event>, clock: nat)

  function Emit(s: Session, effects: seq<Effect>): Session {
    s.(effects := s.effects + effects)
  }

  function Handle(oracle: Oracle, s: Session, e: Event): (Session, bool) {
    if e.id != "" && e.id in s.seen then (s, false)
    else
      var input := oracle(|s.handled|);
      var r := React(s.core, e, input);
      (Session(r.core, if e.id != "" then s.seen + {e.id} else s.seen,
               s.effects + r.effects, s.handled + [e], s.clock + input.cost),
       r.done)
  }

  function HandleAll(oracle: Oracle, s: Session, events: seq<Event>): (Session, bool)
    decreases |events|
  {
    if events == [] then (s, false)
    else
      var (s', done) := Handle(oracle, s, events[0]);
      if done then (s', true) else HandleAll(oracle, s', events[1..])
  }

  // ------------------------------------------------------------ the driver

  datatype Item = Incoming(event: Event) | StreamClosed | StreamFailed

  /** The item comes `wait` ticks after the driver starts waiting for it. */
  datatype Arrival = Arrival(wait: nat, item: Item)

  /** One stream. `history` is what the list call answers, None when it raises.
      After the last arrival the stream stays silent. */
  datatype Connection = Connection(opens: bool, history: Option<seq<Event>>, arrivals: seq<Arrival>)
  type Link = nat -> Connection

  datatype LoopEnd = TaskDone | Expired | Dropped
  datatype Exit = Finished | OpenFailed | TimedOut | StreamLost
  datatype Outcome = Outcome(session: Session, exit: Exit, streams: nat)

  const MAX_RECONNECTS: nat := 3

  function History(c: Connection): seq<Event> {
    if c.history.Some? then c.history.value else []
  }

  function ReadLoop(oracle: Oracle, deadline: nat, s: Session, arrivals: seq<Arrival>): (Session, LoopEnd)
    decreases |arrivals|
  {
    if s.clock >= deadline then (s, Expired)
    else if arrivals == [] || arrivals[0].wait > deadline - s.clock then (s.(clock := deadline), Expired)
    else
      var s1 := s.(clock := s.clock + arrivals[0].wait);
      if !arrivals[0].item.Incoming? then (s1, Dropped)
      else
        var (s2, done) := Handle(oracle, s1, arrivals[0].item.event);
        if done then (s2, TaskDone) else ReadLoop(oracle, deadline, s2, arrivals[1..])
  }

  function FailWith(s: Session, why: Failure): Session {
    var r := Failing(s.core, why);
    s.(core := r.core, effects := s.effects + r.effects)
  }

  /** The prompt on the first stream, the replayed history on a later one. */
  function Greet(oracle: Oracle, s: Session, prompt: string, c: Connection, reconnects: nat): (Session, bool) {
    if reconnects == 0 then (Emit(s, [Send(UserMessage(prompt))]), false)
    else HandleAll(oracle, s, History(c))
  }

  function Drive(oracle: Oracle, link: Link, deadline: nat, prompt: string, s: Session, reconnects: nat): Outcome
    requires reconnects <= MAX_RECONNECTS
    decreases MAX_RECONNECTS - reconnects, 1
  {
    var c := link(reconnects);
    if !c.opens then Outcome(FailWith(s, StreamNotOpened), OpenFailed, reconnects + 1)
    else
      var (s1, replayed) := Greet(oracle, s, prompt, c, reconnects);
      if replayed then Outcome(s1, Finished, reconnects + 1)
      else Follow(oracle, link, deadline, prompt, s1, reconnects)
  }

  /** The driver once the stream is open and greeted. */
  function Follow(oracle: Oracle, link: Link, deadline: nat, prompt: string, s: Session, reconnects: nat): Outcome
    requires reconnects <= MAX_RECONNECTS
    decreases MAX_RECONNECTS - reconnects, 0
  {
    var (s2, end) := ReadLoop(oracle, deadline, s, link(reconnects).arrivals);
    match end
    case TaskDone => Outcome(s2, Finished, reconnects + 1)
    case Expired =>
      Outcome(FailWith(Emit(s2, [Send(UserInterrupt)]), RuntimeTimeout), TimedOut, reconnects + 1)
    case Dropped =>
      if reconnects == MAX_RECONNECTS
      then Outcome(FailWith(s2, StreamGone), StreamLost, reconnects + 1)
      else Drive(oracle, link, deadline, prompt, Emit(s2, [Reconnecting(reconnects + 1)]), reconnects + 1)
  }

  function Fresh(replies: seq<string>): Session {
    Session(Core(None, replies, None, Running, false), {}, [], [], 0)
  }

  // ------------------------------------------------------- exact deduplication

  /** The events whose id has not occurred before; events without an id all stay. */
  function FirstOccurrences(seen: set<string>, events: seq<Event>): seq<Event>
    decreases |events|
  {
    if events == [] then []
    else if events[0].id == "" then [events[0]] + FirstOccurrences(seen, events[1..])
    else if events[0].id in seen then FirstOccurrences(seen, events[1..])
    else [events[0]] + FirstOccurrences(seen + {events[0].id}, events[1..])
  }

  /** Handling any sequence of events, repeats anywhere, is handling its first
      occurrences: same state, same effects, same stopping point. */
  lemma {:induction false} DeduplicationIsExact(oracle: Oracle, s: Session, events: seq<Event>)
    ensures HandleAll(oracle, s, events) == HandleAll(oracle, s, FirstOccurrences(s.seen, events))
    decreases |events|
  {
    if events != [] {
      var kept := FirstOccurrences(s.seen, events);
      var (s', done) := Handle(oracle, s, events[0]);
      DeduplicationIsExact(oracle, s', events[1..]);
      if events[0].id == "" || events[0].id !in s.seen {
        assert kept[1..] == FirstOccurrences(s'.seen, events[1..]);
      }
    }
  }

  ghost predicate Repeats(seen: set<string>, before: seq<Event>, e: Event) {
    e.id != "" && (e.id in seen || exists j :: 0 <= j < |before| && before[j].id == e.id)
  }

  /** What `FirstOccurrences` keeps: an event stays exactly when it has no id, or
      an id neither already seen nor carried by an event before it. */
  lemma {:induction false} FirstOccurrencesMeaning(seen: set<string>, before: seq<Event>, e: Event)
    ensures FirstOccurrences(seen, before + [e])
            == FirstOccurrences(seen, before) + (if Repeats(seen, before, e) then [] else [e])
    decreases |before|
  {
    if before == [] {
      assert before + [e] == [e];
    } else {
      var head, rest := before[0], before[1..];
      assert (before + [e])[1..] == rest + [e];
      var seen' := if head.id == "" then seen else seen + {head.id};
      FirstOccurrencesMeaning(seen', rest, e);
      assert Repeats(seen, before, e) <==> Repeats(seen', rest, e) by {
        if Repeats(seen, before, e) && e.id !in seen' {
          var j :| 0 <= j < |before| && before[j].id == e.id;
          assert rest[j - 1].id == e.id;
        }
        if Repeats(seen', rest, e) && e.id !in seen' {
          var j :| 0 <= j < |rest| && rest[j].id == e.id;
          assert before[j + 1].id == e.id;
        }
      }
      assert head.id != "" && head.id in seen ==> seen' == seen;
    }
  }

  // ---------------------------------------------- invariants of every run

  function FollowUps(effects: seq<Effect>): seq<string> {
    if effects == [] then []
    else
      var before := FollowUps(effects[..|effects| - 1]);
      var e := effects[|effects| - 1];
      if e.Send? && e.outgoing.UserMessage? then before + [e.outgoing.text] else before
  }

  function Confirmed(effects: seq<Effect>): seq<string> {
    if effects == [] then []
    else
      var before := Confirmed(effects[..|effects| - 1]);
      var e := effects[|effects| - 1];
      if e.Send? && e.outgoing.ToolConfirmation? then before + [e.outgoing.toolUseId] else before
  }

  /** The follow-ups queued while the first n events were handled. */
  function Arrived(oracle: Oracle, n: nat): seq<string> {
    if n == 0 then [] else Arrived(oracle, n - 1) + oracle(n - 1).replies
  }

  lemma {:induction false} LogsConcat(a: seq<Effect>, b: seq<Effect>)
    ensures FollowUps(a + b) == FollowUps(a) + FollowUps(b)
    ensures Confirmed(a + b) == Confirmed(a) + Confirmed(b)
    decreases |b|
  {
    if b == [] {
      assert a + b == a;
    } else {
      assert (a + b)[..|a + b| - 1] == a + b[..|b| - 1];
      LogsConcat(a, b[..|b| - 1]);
    }
  }

  lemma {:induction false} QuietEffects(effects: seq<Effect>)
    requires forall e :: e in effects ==> e.Send? ==> e.outgoing.UserInterrupt?
    ensures FollowUps(effects) == [] && Confirmed(effects) == []
  {
    if effects != [] {
      QuietEffects(effects[..|effects| - 1]);
    }
  }

  lemma {:induction false} OneSend(before: seq<Effect>, sent: Outgoing, after: seq<Effect>)
    requires forall e :: e in before + after ==> e.Send? ==> e.outgoing.UserInterrupt?
    ensures FollowUps(before + [Send(sent)] + after) == if sent.UserMessage? then [sent.text] else []
    ensures Confirmed(before + [Send(sent)] + after) == if sent.ToolConfirmation? then [sent.toolUseId] else []
  {
    assert forall e :: e in before || e in after ==> e in before + after;
    QuietEffects(before);
    QuietEffects(after);
    LogsConcat(before, [Send(sent)]);
    LogsConcat(before + [Send(sent)], after);
    assert [Send(sent)][..0] == [];
  }

  /** Follow-ups are conserved and stay in order: those sent, then those waiting,
      are those that were ever queued. `sentFirst` is what was sent or queued
      before any event. */
  ghost predicate FifoInv(oracle: Oracle, sentFirst: seq<string>, s: Session) {
    FollowUps(s.effects) + s.core.replies == sentFirst + Arrived(oracle, |s.handled|)
  }

  ghost predicate NoRepeats(ids: seq<string>) {
    forall i, j :: 0 <= i < j < |ids| && ids[i] != "" ==> ids[i] != ids[j]
  }

  ghost predicate ConfirmInv(s: Session) {
    && NoRepeats(Confirmed(s.effects))
    && (forall id :: id in Confirmed(s.effects) && id != "" ==> id in s.seen)
    && (s.core.pendingTool.Some? && s.core.pendingTool.value.id != "" ==>
          && s.core.pendingTool.value.id in s.seen
          && s.core.pendingTool.value.id !in Confirmed(s.effects))
  }

  predicate Live(core: Core) {
    !core.completed && !core.status.Cancelled? && !core.status.Completed?
  }

  predicate Terminal(core: Core) {
    core.status.Failed? || (core.status.Completed? && core.replies == [])
  }

  ghost predicate SessionInv(oracle: Oracle, sentFirst: seq<string>, s: Session, done: bool) {
    && FifoInv(oracle, sentFirst, s)
    && ConfirmInv(s)
    && (if done then Terminal(s.core) else Live(s.core))
  }

  /** What one reaction does to the two logs and the status. */
  ghost predicate Sound(core: Core, e: Event, replies: seq<string>, r: Reaction) {
    && FollowUps(r.effects) + r.core.replies == core.replies + replies
    && (if r.done then Terminal(r.core) else Live(r.core))
    && (Confirmed(r.effects) == [] || (core.pendingTool.Some?
          && Confirmed(r.effects) == [core.pendingTool.value.id] && r.core.pendingTool.None?))
    && (r.core.pendingTool.Some? ==> r.core.pendingTool == core.pendingTool || r.core.pendingTool == Some(e))
    && (r.core.pendingTool == Some(e) && r.core.pendingTool != core.pendingTool ==> Confirmed(r.effects) == [])
  }

  lemma {:induction false} ReactFacts(core: Core, e: Event, input: Input)
    requires Live(core)
    ensures Sound(core, e, input.replies, React(core, e, input))
  {
    var queued := core.replies + input.replies;
    if e.kind.StatusIdle? && core.pendingTool.Some? && (e.kind.stopReason.NoReason? || e.kind.stopReason.RequiresAction?) {
      ConfirmFacts(core.(replies := queued), core.pendingTool.value, input.decision);
    } else if e.kind.StatusIdle? && queued != [] {
      FollowUpFacts(core, e, input);
    } else {
      QuietFacts(core, e, input);
    }
  }

  lemma {:induction false} FollowUpFacts(core: Core, e: Event, input: Input)
    requires Live(core) && e.kind.StatusIdle? && core.replies + input.replies != []
    requires core.pendingTool.None? || !(e.kind.stopReason.NoReason? || e.kind.stopReason.RequiresAction?)
    ensures Sound(core, e, input.replies, React(core, e, input))
  {
    var queued := core.replies + input.replies;
    SentFollowUp(queued[0]);
    assert [queued[0]] + queued[1..] == queued;
  }

  lemma {:induction false} SentFollowUp(text: string)
    ensures FollowUps([Send(UserMessage(text)), TaskEvent(FollowUpSent)]) == [text]
    ensures Confirmed([Send(UserMessage(text)), TaskEvent(FollowUpSent)]) == []
  {
    var note := [TaskEvent(FollowUpSent)];
    OneSend([], UserMessage(text), note);
    assert [] + [Send(UserMessage(text))] + note
        == [Send(UserMessage(text)), TaskEvent(FollowUpSent)];
  }

  lemma {:induction false} QuietFacts(core: Core, e: Event, input: Input)
    requires Live(core)
    requires e.kind.StatusIdle? ==> core.replies + input.replies == []
    requires e.kind.StatusIdle? ==> core.pendingTool.None? || !(e.kind.stopReason.NoReason? || e.kind.stopReason.RequiresAction?)
    ensures Sound(core, e, input.replies, React(core, e, input))
  {
    var r := React(core, e, input);
    SendsNothing(core, e, input);
    QuietEffects(r.effects);
    assert [] + r.core.replies == core.replies + input.replies;
  }

  /** Every other reaction sends nothing and leaves the queue alone. */
  lemma {:induction false} SendsNothing(core: Core, e: Event, input: Input)
    requires Live(core)
    requires e.kind.StatusIdle? ==> core.replies + input.replies == []
    requires e.kind.StatusIdle? ==> core.pendingTool.None? || !(e.kind.stopReason.NoReason? || e.kind.stopReason.RequiresAction?)
    ensures var r := React(core, e, input);
      && (forall x :: x in r.effects ==> !x.Send?)
      && r.core.replies == core.replies + input.replies
      && (if r.done then Terminal(r.core) else Live(r.core))
      && (r.core.pendingTool.Some? ==> r.core.pendingTool == core.pendingTool || r.core.pendingTool == Some(e))
  {
  }

  lemma ConfirmFacts(core: Core, tool: Event, decision: Decision)
    requires Live(core)
    ensures var r := ConfirmTool(core, tool, decision);
      && FollowUps(r.effects) == [] && r.core.replies == core.replies
      && (decision.NoAnswer? ==> Confirmed(r.effects) == [] && r.core.pendingTool == core.pendingTool)
      && (!decision.NoAnswer? ==> Confirmed(r.effects) == [tool.id] && r.core.pendingTool.None?)
      && (if r.done then Terminal(r.core) else Live(r.core))
  {
    var r := ConfirmTool(core, tool, decision);
    if decision.NoAnswer? {
      QuietEffects(r.effects);
    } else {
      var sent := ToolConfirmation(tool.id, decision.Granted?);
      assert r.effects == r.effects[..3] + [Send(sent)] + r.effects[4..];
      OneSend(r.effects[..3], sent, r.effects[4..]);
    }
  }

  lemma HandleKeepsInv(oracle: Oracle, sentFirst: seq<string>, s: Session, e: Event)
    requires SessionInv(oracle, sentFirst, s, false)
    ensures var (s', done) := Handle(oracle, s, e); SessionInv(oracle, sentFirst, s', done)
  {
    if e.id == "" || e.id !in s.seen {
      ReactFacts(s.core, e, oracle(|s.handled|));
      LogsConcat(s.effects, React(s.core, e, oracle(|s.handled|)).effects);
      HandleKeepsFifo(oracle, sentFirst, s, e);
      HandleKeepsConfirm(oracle, s, e);
    }
  }

  lemma HandleKeepsFifo(oracle: Oracle, sentFirst: seq<string>, s: Session, e: Event)
    requires FifoInv(oracle, sentFirst, s) && (e.id == "" || e.id !in s.seen)
    requires var r := React(s.core, e, oracle(|s.handled|));
      && FollowUps(r.effects) + r.core.replies == s.core.replies + oracle(|s.handled|).replies
      && FollowUps(s.effects + r.effects) == FollowUps(s.effects) + FollowUps(r.effects)
    ensures FifoInv(oracle, sentFirst, Handle(oracle, s, e).0)
  {
    var n := |s.handled|;
    var r := React(s.core, e, oracle(n));
    var s' := Handle(oracle, s, e).0;
    Regroup(FollowUps(s.effects), FollowUps(r.effects), r.core.replies, s.core.replies,
            oracle(n).replies, sentFirst, Arrived(oracle, n));
    assert s'.effects == s.effects + r.effects && s'.core == r.core && |s'.handled| == n + 1;
  }

  lemma Regroup(sent: seq<string>, sentNow: seq<string>, left: seq<string>, waiting: seq<string>,
                queued: seq<string>, first: seq<string>, arrived: seq<string>)
    requires sentNow + left == waiting + queued
    requires sent + waiting == first + arrived
    ensures (sent + sentNow) + left == first + (arrived + queued)
  {
    assert (sent + sentNow) + left == sent + (sentNow + left);
    assert (sent + waiting) + queued == sent + (waiting + queued);
  }

  lemma HandleKeepsConfirm(oracle: Oracle, s: Session, e: Event)
    requires ConfirmInv(s) && Live(s.core) && (e.id == "" || e.id !in s.seen)
    ensures ConfirmInv(Handle(oracle, s, e).0)
  {
    var r := React(s.core, e, oracle(|s.handled|));
    ReactFacts(s.core, e, oracle(|s.handled|));
    LogsConcat(s.effects, r.effects);
    assert Confirmed(s.effects + r.effects) == Confirmed(s.effects) + Confirmed(r.effects);
    if Confirmed(r.effects) == [] {
      assert Confirmed(s.effects + r.effects) == Confirmed(s.effects);
    }
  }

  lemma {:induction false} HandleAllKeepsInv(oracle: Oracle, sentFirst: seq<string>, s: Session, events: seq<Event>)
    requires SessionInv(oracle, sentFirst, s, false)
    ensures var (s', done) := HandleAll(oracle, s, events); SessionInv(oracle, sentFirst, s', done)
    decreases |events|
  {
    if events != [] {
      HandleKeepsInv(oracle, sentFirst, s, events[0]);
      var (s', done) := Handle(oracle, s, events[0]);
      if !done {
        HandleAllKeepsInv(oracle, sentFirst, s', events[1..]);
      }
    }
  }

  lemma {:induction false} ReadLoopKeepsInv(oracle: Oracle, deadline: nat, sentFirst: seq<string>, s: Session, arrivals: seq<Arrival>)
    requires SessionInv(oracle, sentFirst, s, false)
    ensures var (s', end) := ReadLoop(oracle, deadline, s, arrivals); SessionInv(oracle, sentFirst, s', end.TaskDone?)
    decreases |arrivals|
  {
    if s.clock < deadline && arrivals != [] && arrivals[0].wait <= deadline - s.clock && arrivals[0].item.Incoming? {
      var s1 := s.(clock := s.clock + arrivals[0].wait);
      HandleKeepsInv(oracle, sentFirst, s1, arrivals[0].item.event);
      var (s2, done) := Handle(oracle, s1, arrivals[0].item.event);
      if !done {
        ReadLoopKeepsInv(oracle, deadline, sentFirst, s2, arrivals[1..]);
      }
    }
  }

  /** Appending effects that are no messages, on the way to a failure or not. */
  lemma QuietKeepsInv(oracle: Oracle, sentFirst: seq<string>, s: Session, s': Session, done: bool)
    requires SessionInv(oracle, sentFirst, s, false)
    requires s.effects <= s'.effects
    requires forall e :: e in s'.effects[|s.effects|..] ==> e.Send? ==> e.outgoing.UserInterrupt?
    requires s'.seen == s.seen && s'.handled == s.handled
    requires s'.core == if done then s.core.(status := Failed) else s.core
    ensures SessionInv(oracle, sentFirst, s', done)
  {
    var more := s'.effects[|s.effects|..];
    assert s'.effects == s.effects + more;
    LogsConcat(s.effects, more);
    QuietEffects(more);
  }

  lemma {:induction false} DriveKeepsInv(oracle: Oracle, link: Link, deadline: nat, prompt: string, sentFirst: seq<string>, s: Session, reconnects: nat)
    requires 1 <= reconnects <= MAX_RECONNECTS && SessionInv(oracle, sentFirst, s, false)
    ensures SessionInv(oracle, sentFirst, Drive(oracle, link, deadline, prompt, s, reconnects).session, true)
    ensures Drive(oracle, link, deadline, prompt, s, reconnects).streams <= MAX_RECONNECTS + 1
    decreases MAX_RECONNECTS - reconnects, 1
  {
    var c := link(reconnects);
    if !c.opens {
      UnopenedKeepsInv(oracle, link, deadline, prompt, sentFirst, s, reconnects);
    } else {
      HandleAllKeepsInv(oracle, sentFirst, s, History(c));
      var (s1, replayed) := HandleAll(oracle, s, History(c));
      DriveUnfolds(oracle, link, deadline, prompt, s, reconnects, s1, replayed);
      if !replayed {
        FollowKeepsInv(oracle, link, deadline, prompt, sentFirst, s1, reconnects);
      }
    }
  }

  lemma {:induction false} UnopenedKeepsInv(oracle: Oracle, link: Link, deadline: nat, prompt: string, sentFirst: seq<string>, s: Session, reconnects: nat)
    requires reconnects <= MAX_RECONNECTS && SessionInv(oracle, sentFirst, s, false) && !link(reconnects).opens
    ensures SessionInv(oracle, sentFirst, Drive(oracle, link, deadline, prompt, s, reconnects).session, true)
    ensures Drive(oracle, link, deadline, prompt, s, reconnects).streams == reconnects + 1
  {
    QuietKeepsInv(oracle, sentFirst, s, Drive(oracle, link, deadline, prompt, s, reconnects).session, true);
  }

  lemma {:induction false} FollowKeepsInv(oracle: Oracle, link: Link, deadline: nat, prompt: string, sentFirst: seq<string>, s: Session, reconnects: nat)
    requires reconnects <= MAX_RECONNECTS && SessionInv(oracle, sentFirst, s, false)
    ensures SessionInv(oracle, sentFirst, Follow(oracle, link, deadline, prompt, s, reconnects).session, true)
    ensures Follow(oracle, link, deadline, prompt, s, reconnects).streams <= MAX_RECONNECTS + 1
    decreases MAX_RECONNECTS - reconnects, 0
  {
    ReadLoopKeepsInv(oracle, deadline, sentFirst, s, link(reconnects).arrivals);
    var (s2, end) := ReadLoop(oracle, deadline, s, link(reconnects).arrivals);
    var o := Follow(oracle, link, deadline, prompt, s, reconnects);
    FollowUnfolds(oracle, link, deadline, prompt, s, reconnects, s2, end);
    if end.Expired? || (end.Dropped? && reconnects == MAX_RECONNECTS) {
      QuietKeepsInv(oracle, sentFirst, s2, o.session, true);
    } else if end.Dropped? {
      var s3 := Emit(s2, [Reconnecting(reconnects + 1)]);
      QuietKeepsInv(oracle, sentFirst, s2, s3, false);
      DriveKeepsInv(oracle, link, deadline, prompt, sentFirst, s3, reconnects + 1);
    }
  }

  lemma {:induction false} DriveUnfolds(oracle: Oracle, link: Link, deadline: nat, prompt: string, s: Session, reconnects: nat, s1: Session, replayed: bool)
    requires reconnects <= MAX_RECONNECTS && link(reconnects).opens
    requires (s1, replayed) == Greet(oracle, s, prompt, link(reconnects), reconnects)
    ensures Drive(oracle, link, deadline, prompt, s, reconnects)
            == if replayed then Outcome(s1, Finished, reconnects + 1)
               else Follow(oracle, link, deadline, prompt, s1, reconnects)
  {
  }

  lemma {:induction false} FollowUnfolds(oracle: Oracle, link: Link, deadline: nat, prompt: string, s: Session, reconnects: nat, s2: Session, end: LoopEnd)
    requires reconnects <= MAX_RECONNECTS && (s2, end) == ReadLoop(oracle, deadline, s, link(reconnects).arrivals)
    ensures Follow(oracle, link, deadline, prompt, s, reconnects)
      == match end
         case TaskDone => Outcome(s2, Finished, reconnects + 1)
         case Expired =>
           Outcome(s2.(core := s2.core.(status := Failed),
                       effects := s2.effects + [Send(UserInterrupt)]
                                  + [SetStatus(Failed, FailedBy(RuntimeTimeout)), TaskEvent(TaskFailed(RuntimeTimeout))]),
                   TimedOut, reconnects + 1)
         case Dropped =>
           if reconnects == MAX_RECONNECTS
           then Outcome(s2.(core := s2.core.(status := Failed),
                            effects := s2.effects + [SetStatus(Failed, FailedBy(StreamGone)),
                                                     TaskEvent(TaskFailed(StreamGone))]),
                        StreamLost, reconnects + 1)
           else Drive(oracle, link, deadline, prompt, Emit(s2, [Reconnecting(reconnects + 1)]), reconnects + 1)
  {
  }

  // ------------------------------------------------------------- main results

  /** For every event script, decision and drop pattern: the driver opens at most
      four streams and leaves the task FAILED, or COMPLETED with no follow-up
      waiting; follow-ups left in the order they were queued, each at most once,
      after the prompt; and no tool-use id was answered twice. */
  lemma {:induction false} EveryRunEndsWell(oracle: Oracle, link: Link, deadline: nat, prompt: string, replies: seq<string>)
    ensures var o := Drive(oracle, link, deadline, prompt, Fresh(replies), 0);
      var s := o.session;
      var greeting := if link(0).opens then [prompt] else [];
      && 1 <= o.streams <= 4
      && (s.core.status.Failed? || s.core.status.Completed?)
      && FollowUps(s.effects) + s.core.replies == greeting + replies + Arrived(oracle, |s.handled|)
      && (s.core.status.Completed? ==>
            FollowUps(s.effects) == greeting + replies + Arrived(oracle, |s.handled|))
      && NoRepeats(Confirmed(s.effects))
  {
    var s := Fresh(replies);
    var o := Drive(oracle, link, deadline, prompt, s, 0);
    if !link(0).opens {
      assert SessionInv(oracle, [] + replies, s, false);
      QuietKeepsInv(oracle, [] + replies, s, o.session, true);
    } else {
      var s1 := Emit(s, [Send(UserMessage(prompt))]);
      assert s1.effects == [Send(UserMessage(prompt))] && s1.effects[..0] == [];
      assert SessionInv(oracle, [prompt] + replies, s1, false);
      FollowKeepsInv(oracle, link, deadline, prompt, [prompt] + replies, s1, 0);
    }
  }
}
