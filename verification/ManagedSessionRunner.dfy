/**
 The managed session driver with its loops and mutable objects. The environment
 is held by the runner: `oracle` answers each handled event, `link` each stream.
 Every method is proved equal to its function in `ManagedSession`.
 */
module ManagedSessionRunner {
  import opened Prelude
  import opened ManagedSession

  class LiveSession {
    var pendingTool: Option<Event>
    var seenEventIds: set<string>
    var completed: bool

    constructor ()
      ensures pendingTool == None && seenEventIds == {} && !completed
    {
      pendingTool, seenEventIds, completed := None, {}, false;
    }
  }

  class RuntimeState {
    var approvalGranted: Option<bool>
    var pendingReplies: seq<string>
    var finalSummary: Option<string>

    constructor ()
      ensures approvalGranted == None && pendingReplies == [] && finalSummary == None
    {
      approvalGranted, pendingReplies, finalSummary := None, [], None;
    }
  }

  class Runner {
    const oracle: Oracle
    const link: Link
    const deadline: nat

    var status: TaskStatus     // the task row
    var effects: seq<Effect>   // events, messages and sends, in order
    var handled: seq<Event>
    var clock: nat
    var streamsOpened: nat

    constructor (oracle: Oracle, link: Link, timeout: nat, status: TaskStatus)
      ensures this.oracle == oracle && this.link == link && deadline == timeout
      ensures this.status == status && effects == [] && handled == [] && clock == 0 && streamsOpened == 0
    {
      this.oracle, this.link, deadline := oracle, link, timeout;
      this.status, effects, handled, clock, streamsOpened := status, [], [], 0, 0;
    }

    function View(state: RuntimeState, live: LiveSession): Session
      reads this, state, live
    {
      Session(Core(live.pendingTool, state.pendingReplies, state.finalSummary, status, live.completed),
              live.seenEventIds, effects, handled, clock)
    }

    method AppendEvent(entry: LogEntry)
      modifies this`effects
      ensures effects == old(effects) + [TaskEvent(entry)]
    {
      effects := effects + [TaskEvent(entry)];
    }

    method Transition(newStatus: TaskStatus, phase: Phase)
      modifies this`effects, this`status
      ensures status == newStatus && effects == old(effects) + [SetStatus(newStatus, phase)]
    {
      status := newStatus;
      effects := effects + [SetStatus(newStatus, phase)];
    }

    method SendOut(outgoing: Outgoing)
      modifies this`effects
      ensures effects == old(effects) + [Send(outgoing)]
    {
      effects := effects + [Send(outgoing)];
    }

    method Fail(why: Failure)
      modifies this`effects, this`status
      ensures status == Failed
      ensures effects == old(effects) + [SetStatus(Failed, FailedBy(why)), TaskEvent(TaskFailed(why))]
    {
      Transition(Failed, FailedBy(why));
      AppendEvent(TaskFailed(why));
    }

    method Complete(state: RuntimeState)
      modifies this`effects, this`status
      ensures status == Completed
      ensures var summary := if state.finalSummary.Some? && state.finalSummary.value != ""
                             then LastMessage(state.finalSummary.value) else DefaultClosing;
        effects == old(effects) + [TaskEvent(TaskCompleted(summary)), SetStatus(Completed, Done)]
    {
      var summary := DefaultClosing;
      if state.finalSummary.Some? && state.finalSummary.value != "" {
        summary := LastMessage(state.finalSummary.value);
      }
      AppendEvent(TaskCompleted(summary));
      Transition(Completed, Done);
    }

    /** The wait for the approval event: a rejection finds the task already FAILED. */
    method AwaitApproval(state: RuntimeState, decision: Decision) returns (answered: bool)
      modifies this`status, state`approvalGranted
      ensures answered == !decision.NoAnswer?
      ensures answered ==> state.approvalGranted == Some(decision.Granted?)
      ensures status == if decision.Rejected? then Failed else old(status)
    {
      match decision
      case NoAnswer => answered := false;
      case Rejected => status := Failed; state.approvalGranted := Some(false); answered := true;
      case Granted => state.approvalGranted := Some(true); answered := true;
    }

    /** The approval row, the fresh state, WAITING_APPROVAL and its event. */
    method AskUser(state: RuntimeState, name: string)
      modifies this`effects, this`status, state`approvalGranted
      ensures effects == old(effects) + [RequestApproval(name), SetStatus(WaitingApproval, AwaitingToolApproval),
                                         TaskEvent(WaitingForApproval(name))]
      ensures status == WaitingApproval && state.approvalGranted == None
    {
      effects := effects + [RequestApproval(name)];
      state.approvalGranted := None;
      Transition(WaitingApproval, AwaitingToolApproval);
      AppendEvent(WaitingForApproval(name));
    }

    method Confirm(state: RuntimeState, live: LiveSession, decision: Decision) returns (done: bool)
      requires live.pendingTool.Some?
      modifies this`effects, this`status, state`approvalGranted, live`pendingTool
      ensures var before := old(View(state, live));
        var r := ConfirmTool(before.core, before.core.pendingTool.value, decision);
        && View(state, live) == before.(core := r.core, effects := before.effects + r.effects)
        && done == r.done
    {
      ghost var before := View(state, live);
      var tool := live.pendingTool.value;
      var name := if tool.kind.ToolUse? then tool.kind.name else "tool";
      AskUser(state, name);
      var answered := AwaitApproval(state, decision);
      if !answered {
        SendOut(UserInterrupt);
        Fail(ApprovalTimeout);
        assert effects == before.effects + ConfirmTool(before.core, tool, decision).effects;
        return true;
      }
      var granted := state.approvalGranted == Some(true);
      live.pendingTool := None;
      SendOut(ToolConfirmation(tool.id, granted));
      if !granted {
        SendOut(UserInterrupt);
        assert effects == before.effects + ConfirmTool(before.core, tool, decision).effects;
        return true;
      }
      Transition(Running, ExecutingSession);
      AppendEvent(ToolRunning(name));
      assert effects == before.effects + ConfirmTool(before.core, tool, decision).effects;
      return false;
    }

    method HandleEvent(state: RuntimeState, live: LiveSession, event: Event) returns (done: bool)
      modifies this`effects, this`status, this`handled, this`clock, state, live
      ensures (View(state, live), done) == Handle(oracle, old(View(state, live)), event)
    {
      if event.id != "" {
        if event.id in live.seenEventIds {
          return false;
        }
        live.seenEventIds := live.seenEventIds + {event.id};
      }
      var input := oracle(|handled|);
      handled := handled + [event];
      clock := clock + input.cost;
      state.pendingReplies := state.pendingReplies + input.replies;
      done := Dispatch(state, live, event, input.decision);
    }

    method Dispatch(state: RuntimeState, live: LiveSession, event: Event, decision: Decision) returns (done: bool)
      modifies this`effects, this`status, state, live
      ensures var before := old(View(state, live));
        var r := ManagedSession.Dispatch(before.core, event, decision);
        && View(state, live) == before.(core := r.core, effects := before.effects + r.effects)
        && done == r.done
    {
      match event.kind
      case AgentMessage(text) =>
        if text != "" {
          effects := effects + [AssistantMessage(text)];
          state.finalSummary := Some(text);
        }
        return false;
      case AgentThinking =>
        AppendEvent(AgentIsThinking);
        return false;
      case ToolUse(name) =>
        AppendEvent(ToolCalled(name));
        live.pendingTool := Some(event);
        return false;
      case ToolResult(output) =>
        live.pendingTool := None;
        if output != "" {
          AppendEvent(ToolAnswered(output));
        }
        return false;
      case StatusRunning =>
        AppendEvent(AgentIsWorking);
        return false;
      case StatusIdle(stopReason) =>
        done := OnIdle(state, live, event, decision);
      case SessionError(message) =>
        Fail(WorkerError);
        return true;
      case StatusTerminated =>
        if live.completed {
          return true;
        }
        if status == Completed || status == Failed || status == Cancelled {
          return true;
        }
        Fail(SessionTerminated);
        return true;
      case OtherKind =>
        return false;
    }

    /** The idle event: ask, send the next follow-up, or end the task. */
    method OnIdle(state: RuntimeState, live: LiveSession, event: Event, decision: Decision) returns (done: bool)
      requires event.kind.StatusIdle?
      modifies this`effects, this`status, state, live
      ensures var before := old(View(state, live));
        var r := ManagedSession.Dispatch(before.core, event, decision);
        && View(state, live) == before.(core := r.core, effects := before.effects + r.effects)
        && done == r.done
    {
      if live.pendingTool.Some? && (event.kind.stopReason.NoReason? || event.kind.stopReason.RequiresAction?) {
        done := Confirm(state, live, decision);
        return;
      }
      if state.pendingReplies != [] {
        var reply := state.pendingReplies[0];
        state.pendingReplies := state.pendingReplies[1..];
        SendOut(UserMessage(reply));
        AppendEvent(FollowUpSent);
        return false;
      }
      if event.kind.stopReason.BudgetReached? {
        Fail(BudgetExhausted);
        return true;
      }
      Complete(state);
      live.completed := true;
      return true;
    }

    /** The history call; one that raises is logged and answered with nothing. */
    method FetchHistory(connection: Connection) returns (events: seq<Event>)
      ensures events == History(connection)
    {
      if connection.history.Some? {
        events := connection.history.value;
      } else {
        events := [];
      }
    }

    /** The prompt on the first stream, the missed history on a later one. */
    method Greet(state: RuntimeState, live: LiveSession, prompt: string, connection: Connection, firstMessageSent: bool)
      returns (replayed: bool)
      modifies this`effects, this`status, this`handled, this`clock, state, live
      ensures (View(state, live), replayed)
              == ManagedSession.Greet(oracle, old(View(state, live)), prompt, connection, if firstMessageSent then 1 else 0)
    {
      if !firstMessageSent {
        SendOut(UserMessage(prompt));
        return false;
      }
      var history := FetchHistory(connection);
      replayed := Replay(state, live, history);
    }

    method Drive(state: RuntimeState, live: LiveSession, prompt: string)
      modifies this, state, live
      ensures var o := ManagedSession.Drive(oracle, link, deadline, prompt, old(View(state, live)), 0);
        View(state, live) == o.session && streamsOpened == old(streamsOpened) + o.streams
    {
      ghost var o := ManagedSession.Drive(oracle, link, deadline, prompt, View(state, live), 0);
      ghost var opened0 := streamsOpened;
      var reconnects := 0;
      var firstMessageSent := false;
      while true
        invariant reconnects <= MAX_RECONNECTS && firstMessageSent == (reconnects > 0)
        invariant o == ManagedSession.Drive(oracle, link, deadline, prompt, View(state, live), reconnects)
        invariant streamsOpened == opened0 + reconnects
        decreases MAX_RECONNECTS - reconnects
      {
        var connection := link(reconnects);
        streamsOpened := streamsOpened + 1;
        if !connection.opens {
          Fail(StreamNotOpened);
          return;
        }
        ghost var s := View(state, live);
        var replayed := Greet(state, live, prompt, connection, firstMessageSent);
        firstMessageSent := true;
        DriveUnfolds(oracle, link, deadline, prompt, s, reconnects, View(state, live), replayed);
        if replayed {
          return;
        }
        var again := FollowStream(state, live, prompt, reconnects);
        if !again {
          return;
        }
        reconnects := reconnects + 1;
      }
    }

    /** One open stream, from the greeting to a return or the next attempt. */
    method FollowStream(state: RuntimeState, live: LiveSession, ghost prompt: string, reconnects: nat) returns (again: bool)
      requires reconnects <= MAX_RECONNECTS
      modifies this`effects, this`status, this`handled, this`clock, state, live
      ensures var o := Follow(oracle, link, deadline, prompt, old(View(state, live)), reconnects);
        && (again ==> reconnects < MAX_RECONNECTS
                      && o == ManagedSession.Drive(oracle, link, deadline, prompt, View(state, live), reconnects + 1))
        && (!again ==> View(state, live) == o.session && o.streams == reconnects + 1)
    {
      ghost var s := View(state, live);
      var end := ReadStream(state, live, link(reconnects).arrivals);
      ghost var s2 := View(state, live);
      FollowUnfolds(oracle, link, deadline, prompt, s, reconnects, s2, end);
      match end
      case TaskDone =>
        return false;
      case Expired =>
        SendOut(UserInterrupt);
        Fail(RuntimeTimeout);
        return false;
      case Dropped =>
        if reconnects == MAX_RECONNECTS {
          Fail(StreamGone);
          return false;
        }
        effects := effects + [Reconnecting(reconnects + 1)];
        assert View(state, live) == Emit(s2, [Reconnecting(reconnects + 1)]);
        return true;
    }

    method Replay(state: RuntimeState, live: LiveSession, history: seq<Event>) returns (done: bool)
      modifies this`effects, this`status, this`handled, this`clock, state, live
      ensures (View(state, live), done) == HandleAll(oracle, old(View(state, live)), history)
    {
      ghost var all := HandleAll(oracle, View(state, live), history);
      var i := 0;
      while i < |history|
        invariant i <= |history|
        invariant all == HandleAll(oracle, View(state, live), history[i..])
      {
        done := HandleEvent(state, live, history[i]);
        assert history[i..][1..] == history[i + 1..];
        if done {
          return;
        }
        i := i + 1;
      }
      return false;
    }

    /** The inner loop: look at the clock, wait for the queue until the deadline. */
    method ReadStream(state: RuntimeState, live: LiveSession, arrivals: seq<Arrival>) returns (end: LoopEnd)
      modifies this`effects, this`status, this`handled, this`clock, state, live
      ensures (View(state, live), end) == ReadLoop(oracle, deadline, old(View(state, live)), arrivals)
    {
      ghost var all := ReadLoop(oracle, deadline, View(state, live), arrivals);
      var i := 0;
      while true
        invariant i <= |arrivals|
        invariant all == ReadLoop(oracle, deadline, View(state, live), arrivals[i..])
        decreases |arrivals| - i, if clock < deadline then 1 else 0
      {
        if clock >= deadline {
          return Expired;
        }
        var remaining := deadline - clock;
        if i == |arrivals| || arrivals[i].wait > remaining {
          clock := clock + remaining;  // the wait timed out: look at the clock again
          continue;
        }
        clock := clock + arrivals[i].wait;
        var item := arrivals[i].item;
        assert arrivals[i..][0] == arrivals[i] && arrivals[i..][1..] == arrivals[i + 1..];
        i := i + 1;
        match item
        case StreamClosed => return Dropped;
        case StreamFailed => return Dropped;
        case Incoming(event) =>
          var done := HandleEvent(state, live, event);
          if done {
            return TaskDone;
          }
      }
    }
  }
}
