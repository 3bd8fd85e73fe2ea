/**
 The managed driver read off the events it handled: which tool call was waiting,
 which follow-ups were, what each event therefore led to and what it left in the
 log. None of it refers to the driver's own state.
 */
module ManagedHistory {
  import opened Prelude
  import opened ManagedSession
  import opened ManagedRefinement
  import opened ManagedTranscript

  /** An idle event that asks the user about the waiting tool call. */
  predicate IsAsking(e: Event, waiting: Option<Event>) {
    waiting.Some? && e.kind.StatusIdle? && (e.kind.stopReason.NoReason? || e.kind.stopReason.RequiresAction?)
  }

  /** The tool call still waiting after the events: the last one, unless a result or
      an answer has come since. */
  function Pending(oracle: Oracle, events: seq<Event>): Option<Event> {
    if events == [] then None
    else
      var n := |events| - 1;
      var before := Pending(oracle, events[..n]);
      if events[n].kind.ToolUse? then Some(events[n])
      else if events[n].kind.ToolResult? then None
      else if IsAsking(events[n], before) && !oracle(n).decision.NoAnswer? then None
      else before
  }

  /** The follow-ups still waiting after the events: each idle event that asks nothing
      takes the oldest. */
  function Waiting(oracle: Oracle, replies: seq<string>, events: seq<Event>): seq<string> {
    if events == [] then replies
    else
      var n := |events| - 1;
      var queue := Waiting(oracle, replies, events[..n]) + oracle(n).replies;
      if events[n].kind.StatusIdle? && !IsAsking(events[n], Pending(oracle, events[..n])) && queue != []
      then queue[1..] else queue
  }

  /** The last event and what it meets. */
  datatype Turn = Turn(event: Event, tool: Option<Event>, queue: seq<string>, decision: Decision, said: seq<string>)

  function LastTurn(oracle: Oracle, replies: seq<string>, events: seq<Event>): Turn
    requires events != []
  {
    var n := |events| - 1;
    Turn(events[n], Pending(oracle, events[..n]), Waiting(oracle, replies, events[..n]) + oracle(n).replies,
         oracle(n).decision, Said(events[..n]))
  }

  datatype Verdict = GoesOn | Completes | Refused | Fails(why: Failure)

  function VerdictOf(t: Turn): Verdict {
    match t.event.kind
    case SessionError(_) => Fails(WorkerError)
    case StatusTerminated => Fails(SessionTerminated)
    case StatusIdle(stopReason) =>
      if IsAsking(t.event, t.tool) then
        if t.decision.Granted? then GoesOn else if t.decision.Rejected? then Refused else Fails(ApprovalTimeout)
      else if t.queue != [] then GoesOn
      else if stopReason.BudgetReached? then Fails(BudgetExhausted)
      else Completes
    case _ => GoesOn
  }

  function StatusOf(v: Verdict): TaskStatus {
    match v
    case GoesOn => Running
    case Completes => TaskStatus.Completed
    case _ => TaskStatus.Failed
  }

  /** A failure is told twice, in the task row and in the log. */
  function Told(why: Failure): seq<Effect> {
    [SetStatus(Failed, FailedBy(why)), TaskEvent(TaskFailed(why))]
  }

  function Asked(tool: Event): seq<Effect> {
    var name := if tool.kind.ToolUse? then tool.kind.name else "tool";
    [RequestApproval(name), SetStatus(WaitingApproval, AwaitingToolApproval), TaskEvent(WaitingForApproval(name))]
  }

  /** What an answer sends, and what follows it. */
  function Answered(tool: Event, decision: Decision): seq<Effect> {
    var name := if tool.kind.ToolUse? then tool.kind.name else "tool";
    match decision
    case Granted =>
      [Send(ToolConfirmation(tool.id, true)), SetStatus(Running, ExecutingSession), TaskEvent(ToolRunning(name))]
    case Rejected => [Send(ToolConfirmation(tool.id, false)), Send(UserInterrupt)]
    case NoAnswer => [Send(UserInterrupt)] + Told(ApprovalTimeout)
  }

  function Left(t: Turn): seq<Effect> {
    match t.event.kind
    case AgentMessage(text) => if text == "" then [] else [AssistantMessage(text)]
    case AgentThinking => [TaskEvent(AgentIsThinking)]
    case ToolUse(name) => [TaskEvent(ToolCalled(name))]
    case ToolResult(output) => if output == "" then [] else [TaskEvent(ToolAnswered(output))]
    case StatusRunning => [TaskEvent(AgentIsWorking)]
    case StatusIdle(_) =>
      if IsAsking(t.event, t.tool) then Asked(t.tool.value) + Answered(t.tool.value, t.decision)
      else if t.queue != [] then [Send(UserMessage(t.queue[0])), TaskEvent(FollowUpSent)]
      else if VerdictOf(t).Fails? then Told(VerdictOf(t).why)
      else [TaskEvent(TaskCompleted(ClosingOf(t.said))), SetStatus(Completed, Done)]
    case SessionError(_) => Told(WorkerError)
    case StatusTerminated => Told(SessionTerminated)
    case OtherKind => []
  }

  function ClosingOf(said: seq<string>): Closing {
    if said == [] then DefaultClosing else LastMessage(said[|said| - 1])
  }

  function Transcript(oracle: Oracle, replies: seq<string>, events: seq<Event>): seq<Effect> {
    if events == [] then []
    else Transcript(oracle, replies, events[..|events| - 1]) + Left(LastTurn(oracle, replies, events))
  }

  /** The driver's state as the history tells it, while the run goes on. */
  function Standing(oracle: Oracle, replies: seq<string>, events: seq<Event>): Core {
    var said := Said(events);
    Core(Pending(oracle, events), Waiting(oracle, replies, events),
         if said == [] then None else Some(said[|said| - 1]), Running, false)
  }

  // ------------------------------------------------------------- one event

  /** A state that agrees with what the turn says. */
  ghost predicate Meets(core: Core, replies: seq<string>, t: Turn) {
    && core.pendingTool == t.tool && core.replies + replies == t.queue
    && core.status == Running && !core.completed
    && core.summary == (if t.said == [] then None else Some(t.said[|t.said| - 1]))
    && (t.said != [] ==> t.said[|t.said| - 1] != "")
  }

  ghost predicate Agrees(r: Reaction, t: Turn) {
    && r.effects == Left(t)
    && r.core.status == StatusOf(VerdictOf(t))
    && (r.core.completed <==> VerdictOf(t).Completes?)
    && (r.done <==> !VerdictOf(t).GoesOn?)
  }

  lemma {:induction false} ReactionAgrees(core: Core, e: Event, input: Input, t: Turn)
    requires t.event == e && t.decision == input.decision && Meets(core, input.replies, t)
    ensures Agrees(React(core, e, input), t)
  {
    if e.kind.StatusIdle? {
      IdleAgrees(core.(replies := t.queue), t);
    } else {
      OtherAgrees(core.(replies := t.queue), t);
    }
  }

  lemma {:induction false} OtherAgrees(core: Core, t: Turn)
    requires Meets(core, [], t) && !t.event.kind.StatusIdle?
    ensures Agrees(ManagedSession.Dispatch(core, t.event, t.decision), t)
  {
  }

  lemma {:induction false} IdleAgrees(core: Core, t: Turn)
    requires Meets(core, [], t) && t.event.kind.StatusIdle?
    ensures Agrees(ManagedSession.Dispatch(core, t.event, t.decision), t)
  {
    assert core.replies == t.queue;
    if IsAsking(t.event, t.tool) {
      AskingAgrees(core, t.tool.value, t.decision);
    }
  }

  lemma {:induction false} AskingAgrees(core: Core, tool: Event, decision: Decision)
    requires core.status == Running && !core.completed
    ensures var r := ConfirmTool(core, tool, decision);
      && r.effects == Asked(tool) + Answered(tool, decision)
      && !r.core.completed
      && r.core.status == (if decision.Granted? then Running else Failed)
      && (r.done <==> !decision.Granted?)
  {
    match decision {
      case NoAnswer =>
        assert Asked(tool) + [Send(UserInterrupt)] + Told(ApprovalTimeout) == Asked(tool) + ([Send(UserInterrupt)] + Told(ApprovalTimeout));
      case _ =>
    }
  }

  /** How the reaction moves the waiting tool call and the queue. */
  lemma {:induction false} ReactionMoves(core: Core, e: Event, input: Input)
    ensures var r := React(core, e, input);
      var queue := core.replies + input.replies;
      && r.core.pendingTool == (if e.kind.ToolUse? then Some(e) else if e.kind.ToolResult? then None
                                else if IsAsking(e, core.pendingTool) && !input.decision.NoAnswer? then None
                                else core.pendingTool)
      && r.core.replies == (if e.kind.StatusIdle? && !IsAsking(e, core.pendingTool) && queue != [] then queue[1..] else queue)
  {
  }

  // ------------------------------------------------------------- a whole pass

  lemma {:induction false} HistorySnoc(oracle: Oracle, replies: seq<string>, events: seq<Event>)
    requires events != []
    ensures var n := |events| - 1;
      var t := LastTurn(oracle, replies, events);
      && Pending(oracle, events) == (if t.event.kind.ToolUse? then Some(t.event) else if t.event.kind.ToolResult? then None
                                     else if IsAsking(t.event, t.tool) && !t.decision.NoAnswer? then None else t.tool)
      && Waiting(oracle, replies, events)
         == (if t.event.kind.StatusIdle? && !IsAsking(t.event, t.tool) && t.queue != [] then t.queue[1..] else t.queue)
      && Transcript(oracle, replies, events) == Transcript(oracle, replies, events[..n]) + Left(t)
  {
  }

  ghost predicate Tracks(oracle: Oracle, replies: seq<string>, events: seq<Event>, pass: Reaction) {
    && pass.effects == Transcript(oracle, replies, events)
    && pass.core.pendingTool == Pending(oracle, events) && pass.core.replies == Waiting(oracle, replies, events)
    && if events == [] then pass.core == Fresh(replies).core && !pass.done
       else
         var v := VerdictOf(LastTurn(oracle, replies, events));
         pass.core.status == StatusOf(v) && (pass.core.completed <==> v.Completes?) && (pass.done <==> !v.GoesOn?)
  }

  /** A pass over any events agrees with their history at every turn. */
  lemma {:induction false} PassFollowsHistory(oracle: Oracle, replies: seq<string>, events: seq<Event>)
    requires Unfinished(oracle, Fresh(replies).core, events)
    ensures Tracks(oracle, replies, events, Straight(oracle, Fresh(replies).core, events))
    decreases |events|
  {
    if events != [] {
      var n := |events| - 1;
      var start := Fresh(replies).core;
      UnfinishedPrefix(oracle, start, events, n);
      PassFollowsHistory(oracle, replies, events[..n]);
      TurnIsMet(oracle, replies, events);
      TurnFollowsHistory(oracle, replies, events, Straight(oracle, start, events[..n]));
      StraightSnoc(oracle, start, events, n);
      assert events[..n + 1] == events;
    }
  }

  lemma {:induction false} UnfinishedPrefix(oracle: Oracle, start: Core, events: seq<Event>, n: nat)
    requires Unfinished(oracle, start, events) && n < |events|
    ensures Unfinished(oracle, start, events[..n]) && !Straight(oracle, start, events[..n]).done
  {
    forall k | 0 <= k < n ensures !Straight(oracle, start, events[..n][..k]).done {
      assert events[..n][..k] == events[..k];
    }
  }

  lemma {:induction false} TurnIsMet(oracle: Oracle, replies: seq<string>, events: seq<Event>)
    requires events != [] && Unfinished(oracle, Fresh(replies).core, events)
    requires var before := events[..|events| - 1]; Tracks(oracle, replies, before, Straight(oracle, Fresh(replies).core, before))
    ensures var n := |events| - 1;
      Meets(Straight(oracle, Fresh(replies).core, events[..n]).core, oracle(n).replies, LastTurn(oracle, replies, events))
  {
    var n := |events| - 1;
    UnfinishedPrefix(oracle, Fresh(replies).core, events, n);
    PassWritesWhatWasSaid(oracle, Fresh(replies).core, events[..n]);
    SaidIsNotEmpty(events[..n]);
  }

  lemma {:induction false} TurnFollowsHistory(oracle: Oracle, replies: seq<string>, events: seq<Event>, before: Reaction)
    requires events != []
    requires var n := |events| - 1;
      && Meets(before.core, oracle(n).replies, LastTurn(oracle, replies, events))
      && before.effects == Transcript(oracle, replies, events[..n])
    ensures var n := |events| - 1;
      var r := React(before.core, events[n], oracle(n));
      var t := LastTurn(oracle, replies, events);
      && before.effects + r.effects == Transcript(oracle, replies, events)
      && r.core.pendingTool == Pending(oracle, events) && r.core.replies == Waiting(oracle, replies, events)
      && Agrees(r, t)
  {
    var n := |events| - 1;
    ReactionAgrees(before.core, events[n], oracle(n), LastTurn(oracle, replies, events));
    ReactionMoves(before.core, events[n], oracle(n));
    HistorySnoc(oracle, replies, events);
  }

  // ---------------------------------------------------------- main results

  /** Every run, whatever its environment, is what the history of its handled events
      says: the effects turn by turn, the tool call and the follow-ups left waiting,
      and where it stopped. */
  lemma {:induction false} RunFollowsItsHistory(oracle: Oracle, link: Link, deadline: nat, prompt: string, replies: seq<string>)
    ensures var o := Drive(oracle, link, deadline, prompt, Fresh(replies), 0);
      var s := o.session;
      var greeting := if link(0).opens then [Send(UserMessage(prompt))] else [];
      && WithoutNotes(s.effects) == greeting + Transcript(oracle, replies, s.handled) + Tail(o.exit)
      && s.core.pendingTool == Pending(oracle, s.handled) && s.core.replies == Waiting(oracle, replies, s.handled)
      && (o.exit.Finished? <==> s.handled != [] && !VerdictOf(LastTurn(oracle, replies, s.handled)).GoesOn?)
      && (forall n :: 0 < n < |s.handled| ==> VerdictOf(LastTurn(oracle, replies, s.handled[..n])).GoesOn?)
  {
    EveryRunIsStraight(oracle, link, deadline, prompt, replies);
    var handled := Drive(oracle, link, deadline, prompt, Fresh(replies), 0).session.handled;
    assert handled[..|handled|] == handled;
    PassFollowsHistory(oracle, replies, handled);
    forall n | 0 < n < |handled| ensures VerdictOf(LastTurn(oracle, replies, handled[..n])).GoesOn? {
      PrefixGoesOn(oracle, replies, handled, n);
    }
  }

  lemma {:induction false} PrefixGoesOn(oracle: Oracle, replies: seq<string>, events: seq<Event>, n: nat)
    requires Unfinished(oracle, Fresh(replies).core, events) && 0 < n < |events|
    ensures VerdictOf(LastTurn(oracle, replies, events[..n])).GoesOn?
  {
    UnfinishedPrefix(oracle, Fresh(replies).core, events, n);
    PassFollowsHistory(oracle, replies, events[..n]);
  }

  // ---------------------------------------------------------------- answers

  /** Handled event n asked about the call `tool`, and the user answered. */
  ghost predicate AnsweredAt(oracle: Oracle, events: seq<Event>, n: nat, tool: string, allow: bool) {
    && n < |events|
    && var waiting := Pending(oracle, events[..n]);
    && IsAsking(events[n], waiting) && waiting.value.id == tool
    && (if allow then oracle(n).decision.Granted? else oracle(n).decision.Rejected?)
  }

  predicate Confirms(x: Effect) {
    x.Send? && x.outgoing.ToolConfirmation?
  }

  /** One event: whatever it confirms is the waiting tool call, allowed exactly when
      the user granted it and denied exactly when the user rejected it. */
  lemma {:induction false} ConfirmationCarriesDecision(core: Core, e: Event, input: Input, x: Effect)
    requires x in React(core, e, input).effects && Confirms(x)
    ensures IsAsking(e, core.pendingTool) && x.outgoing.toolUseId == core.pendingTool.value.id
    ensures if x.outgoing.allow then input.decision.Granted? else input.decision.Rejected?
  {
  }

  lemma {:induction false} TurnConfirms(t: Turn, x: Effect)
    requires x in Left(t) && Confirms(x)
    ensures IsAsking(t.event, t.tool) && x.outgoing.toolUseId == t.tool.value.id
    ensures if x.outgoing.allow then t.decision.Granted? else t.decision.Rejected?
  {
  }

  lemma {:induction false} TranscriptConfirms(oracle: Oracle, replies: seq<string>, events: seq<Event>, x: Effect)
    requires x in Transcript(oracle, replies, events) && Confirms(x)
    ensures exists n: nat :: AnsweredAt(oracle, events, n, x.outgoing.toolUseId, x.outgoing.allow)
    decreases |events|
  {
    var last := |events| - 1;
    var t := LastTurn(oracle, replies, events);
    HistorySnoc(oracle, replies, events);
    if x in Left(t) {
      TurnConfirms(t, x);
      assert AnsweredAt(oracle, events, last, x.outgoing.toolUseId, x.outgoing.allow);
    } else {
      TranscriptConfirms(oracle, replies, events[..last], x);
      var n: nat :| AnsweredAt(oracle, events[..last], n, x.outgoing.toolUseId, x.outgoing.allow);
      assert events[..last][..n] == events[..n];
      assert AnsweredAt(oracle, events, n, x.outgoing.toolUseId, x.outgoing.allow);
    }
  }

  lemma {:induction false} AnswerIsInTranscript(oracle: Oracle, replies: seq<string>, events: seq<Event>, n: nat, tool: string, allow: bool)
    requires AnsweredAt(oracle, events, n, tool, allow)
    ensures Send(ToolConfirmation(tool, allow)) in Transcript(oracle, replies, events)
    decreases |events|
  {
    var last := |events| - 1;
    TranscriptSnoc(oracle, replies, events);
    if n < last {
      assert events[..last][..n] == events[..n];
      AnswerIsInTranscript(oracle, replies, events[..last], n, tool, allow);
    } else {
      TurnAnswers(LastTurn(oracle, replies, events), allow);
    }
  }

  lemma {:induction false} TranscriptSnoc(oracle: Oracle, replies: seq<string>, events: seq<Event>)
    requires events != []
    ensures var before := Transcript(oracle, replies, events[..|events| - 1]);
      var left := Left(LastTurn(oracle, replies, events));
      && Transcript(oracle, replies, events) == before + left
      && forall x :: x in Transcript(oracle, replies, events) <==> x in before || x in left
  {
  }

  lemma {:induction false} TurnAnswers(t: Turn, allow: bool)
    requires IsAsking(t.event, t.tool)
    requires if allow then t.decision.Granted? else t.decision.Rejected?
    ensures Send(ToolConfirmation(t.tool.value.id, allow)) in Left(t)
  {
    var answered := Answered(t.tool.value, t.decision);
    assert answered[0] == Send(ToolConfirmation(t.tool.value.id, allow));
    assert answered[0] in Asked(t.tool.value) + answered;
  }

  lemma {:induction false} NotesAside(effects: seq<Effect>, x: Effect)
    requires !x.Reconnecting?
    ensures x in effects <==> x in WithoutNotes(effects)
    decreases |effects|
  {
    if effects != [] {
      NotesAside(effects[..|effects| - 1], x);
      assert effects == effects[..|effects| - 1] + [effects[|effects| - 1]];
    }
  }

  /** Over a whole run a tool call is confirmed, allowed or denied, exactly when a
      handled idle event asked about it and the user decided so. */
  lemma {:induction false} AnswersCarryTheDecision(oracle: Oracle, link: Link, deadline: nat, prompt: string, replies: seq<string>, tool: string, allow: bool)
    ensures var s := Drive(oracle, link, deadline, prompt, Fresh(replies), 0).session;
      Send(ToolConfirmation(tool, allow)) in s.effects
      <==> exists n: nat :: AnsweredAt(oracle, s.handled, n, tool, allow)
  {
    RunFollowsItsHistory(oracle, link, deadline, prompt, replies);
    var s := Drive(oracle, link, deadline, prompt, Fresh(replies), 0).session;
    var x := Send(ToolConfirmation(tool, allow));
    NotesAside(s.effects, x);
    if x in Transcript(oracle, replies, s.handled) {
      TranscriptConfirms(oracle, replies, s.handled, x);
    }
    if n: nat :| AnsweredAt(oracle, s.handled, n, tool, allow) {
      AnswerIsInTranscript(oracle, replies, s.handled, n, tool, allow);
    }
  }

  /** The event ends the wait of the tool call. */
  predicate Settles(oracle: Oracle, tool: Event, e: Event, n: nat) {
    e.kind.ToolUse? || e.kind.ToolResult? || (IsAsking(e, Some(tool)) && !oracle(n).decision.NoAnswer?)
  }

  /** Event i is the tool call, and nothing after it ends its wait. */
  ghost predicate WaitsFrom(oracle: Oracle, events: seq<Event>, tool: Event, i: nat) {
    && i < |events| && events[i] == tool && tool.kind.ToolUse?
    && forall j :: i < j < |events| ==> !Settles(oracle, tool, events[j], j)
  }

  /** A tool call waits exactly as long as no other call, no result and no answer has
      come after it. */
  lemma {:induction false} PendingMeaning(oracle: Oracle, events: seq<Event>, tool: Event)
    ensures Pending(oracle, events) == Some(tool) <==> exists i: nat :: WaitsFrom(oracle, events, tool, i)
    decreases |events|
  {
    if events != [] {
      var n := |events| - 1;
      PendingMeaning(oracle, events[..n], tool);
      if events[n] == tool && tool.kind.ToolUse? {
        assert WaitsFrom(oracle, events, tool, n);
      } else {
        WaitsOn(oracle, events, tool);
      }
    }
  }

  lemma WaitsOn(oracle: Oracle, events: seq<Event>, tool: Event)
    requires events != [] && !(events[|events| - 1] == tool && tool.kind.ToolUse?)
    ensures var n := |events| - 1;
      (exists i: nat :: WaitsFrom(oracle, events, tool, i))
      <==> (exists i: nat :: WaitsFrom(oracle, events[..n], tool, i)) && !Settles(oracle, tool, events[n], n)
  {
    var n := |events| - 1;
    if i: nat :| WaitsFrom(oracle, events, tool, i) {
      assert i < n && !Settles(oracle, tool, events[n], n);
      assert WaitsFrom(oracle, events[..n], tool, i);
    }
    if i: nat :| WaitsFrom(oracle, events[..n], tool, i) {
      if !Settles(oracle, tool, events[n], n) {
        forall j | i < j < |events| ensures !Settles(oracle, tool, events[j], j) {
          if j < n {
            assert events[..n][j] == events[j];
          }
        }
        assert WaitsFrom(oracle, events, tool, i);
      }
    }
  }

  // ---------------------------------------------------------------- endings

  /** COMPLETED exactly when the last handled event is idle, asks about no tool call,
      finds no follow-up and does not report an exhausted budget. */
  lemma {:induction false} CompletedExactlyWhen(oracle: Oracle, link: Link, deadline: nat, prompt: string, replies: seq<string>)
    ensures var s := Drive(oracle, link, deadline, prompt, Fresh(replies), 0).session;
      var n := |s.handled| - 1;
      s.core.status == TaskStatus.Completed
      <==> && s.handled != [] && s.handled[n].kind.StatusIdle?
           && !IsAsking(s.handled[n], Pending(oracle, s.handled[..n]))
           && Waiting(oracle, replies, s.handled[..n]) + oracle(n).replies == []
           && !s.handled[n].kind.stopReason.BudgetReached?
  {
    EveryRunIsStraight(oracle, link, deadline, prompt, replies);
    var handled := Drive(oracle, link, deadline, prompt, Fresh(replies), 0).session.handled;
    assert handled[..|handled|] == handled;
    PassFollowsHistory(oracle, replies, handled);
  }

  /** What a run's effects end with. */
  function LastWords(oracle: Oracle, replies: seq<string>, events: seq<Event>, exit: Exit): seq<Effect> {
    match exit
    case OpenFailed => Told(StreamNotOpened)
    case TimedOut => [Send(UserInterrupt)] + Told(RuntimeTimeout)
    case StreamLost => Told(StreamGone)
    case Finished =>
      if events == [] then []
      else
        var t := LastTurn(oracle, replies, events);
        match VerdictOf(t)
        case GoesOn => []
        case Completes => [TaskEvent(TaskCompleted(ClosingOf(t.said))), SetStatus(Completed, Done)]
        case Refused => if t.tool.None? then [] else [Send(ToolConfirmation(t.tool.value.id, false)), Send(UserInterrupt)]
        case Fails(why) => Told(why)
  }

  ghost predicate EndsIn(effects: seq<Effect>, words: seq<Effect>) {
    |words| <= |effects| && effects[|effects| - |words|..] == words
  }

  lemma {:induction false} TurnEndsInItsVerdict(oracle: Oracle, replies: seq<string>, events: seq<Event>)
    requires events != []
    ensures EndsIn(Left(LastTurn(oracle, replies, events)), LastWords(oracle, replies, events, Finished))
  {
    var t := LastTurn(oracle, replies, events);
    if IsAsking(t.event, t.tool) {
      var answered := Answered(t.tool.value, t.decision);
      AnswerEndsInItsVerdict(t);
      EndsInMore(Asked(t.tool.value), answered, LastWords(oracle, replies, events, Finished));
    }
  }

  lemma {:induction false} AnswerEndsInItsVerdict(t: Turn)
    requires IsAsking(t.event, t.tool)
    ensures t.decision.Rejected? ==>
      EndsIn(Answered(t.tool.value, t.decision), [Send(ToolConfirmation(t.tool.value.id, false)), Send(UserInterrupt)])
    ensures t.decision.NoAnswer? ==> EndsIn(Answered(t.tool.value, t.decision), Told(ApprovalTimeout))
    ensures EndsIn(Answered(t.tool.value, t.decision), [])
  {
    assert ([Send(UserInterrupt)] + Told(ApprovalTimeout))[1..] == Told(ApprovalTimeout);
  }

  /** Every run closes with the words of its own ending: each failure with its own
      reason, in the row and in the log, a refusal with the denial and the interrupt. */
  lemma {:induction false} EveryEndingTellsItsReason(oracle: Oracle, link: Link, deadline: nat, prompt: string, replies: seq<string>)
    ensures var o := Drive(oracle, link, deadline, prompt, Fresh(replies), 0);
      EndsIn(WithoutNotes(o.session.effects), LastWords(oracle, replies, o.session.handled, o.exit))
  {
    RunFollowsItsHistory(oracle, link, deadline, prompt, replies);
    var o := Drive(oracle, link, deadline, prompt, Fresh(replies), 0);
    WordsClose(oracle, replies, o.session.handled, o.exit, if link(0).opens then [Send(UserMessage(prompt))] else []);
  }

  lemma {:induction false} WordsClose(oracle: Oracle, replies: seq<string>, events: seq<Event>, exit: Exit, greeting: seq<Effect>)
    requires exit.Finished? ==> events != []
    ensures EndsIn(greeting + Transcript(oracle, replies, events) + Tail(exit), LastWords(oracle, replies, events, exit))
  {
    if exit.Finished? {
      FinishedWords(oracle, replies, events, greeting);
    } else {
      TailIsLastWords(oracle, replies, events, exit);
      EndsInMore(greeting + Transcript(oracle, replies, events), Tail(exit), Tail(exit));
    }
  }

  lemma {:induction false} TailIsLastWords(oracle: Oracle, replies: seq<string>, events: seq<Event>, exit: Exit)
    requires !exit.Finished?
    ensures LastWords(oracle, replies, events, exit) == Tail(exit) && EndsIn(Tail(exit), Tail(exit))
  {
  }

  lemma {:induction false} FinishedWords(oracle: Oracle, replies: seq<string>, events: seq<Event>, greeting: seq<Effect>)
    requires events != []
    ensures EndsIn(greeting + Transcript(oracle, replies, events) + [], LastWords(oracle, replies, events, Finished))
  {
    var before, left := Transcript(oracle, replies, events[..|events| - 1]), Left(LastTurn(oracle, replies, events));
    TranscriptSnoc(oracle, replies, events);
    TurnEndsInItsVerdict(oracle, replies, events);
    EndsInMore(greeting + before, left, LastWords(oracle, replies, events, Finished));
    Regroups(greeting, before, left);
  }

  lemma Regroups(a: seq<Effect>, b: seq<Effect>, c: seq<Effect>)
    ensures a + (b + c) + [] == (a + b) + c
  {
  }

  lemma EndsInMore(before: seq<Effect>, after: seq<Effect>, words: seq<Effect>)
    requires EndsIn(after, words)
    ensures EndsIn(before + after, words)
  {
    var all := before + after;
    assert all[|all| - |words|..] == after[|after| - |words|..];
  }
}
