/**
 What a managed run leaves for the user: the assistant's messages are carried over
 one for one, and a completed run closes with the last of them.
 */
module ManagedTranscript {
  import opened Prelude
  import opened ManagedSession
  import opened ManagedRefinement

  /** The texts the agent said, and the texts written for the user. */
  function Said(events: seq<Event>): seq<string> {
    if events == [] then []
    else
      var before := Said(events[..|events| - 1]);
      var e := events[|events| - 1];
      if e.kind.AgentMessage? && e.kind.text != "" then before + [e.kind.text] else before
  }

  function Written(effects: seq<Effect>): seq<string> {
    if effects == [] then []
    else
      var before := Written(effects[..|effects| - 1]);
      var e := effects[|effects| - 1];
      if e.AssistantMessage? then before + [e.text] else before
  }

  lemma {:induction false} WrittenConcat(a: seq<Effect>, b: seq<Effect>)
    ensures Written(a + b) == Written(a) + Written(b)
    ensures (forall e :: e in b ==> !e.AssistantMessage?) ==> Written(b) == []
    decreases |b|
  {
    if b == [] {
      assert a + b == a;
    } else {
      assert (a + b)[..|a + b| - 1] == a + b[..|b| - 1];
      WrittenConcat(a, b[..|b| - 1]);
    }
  }

  /** A pass that is still going or has just ended wrote exactly what was said, and
      its summary is the last of it. */
  lemma {:induction false} PassWritesWhatWasSaid(oracle: Oracle, start: Core, events: seq<Event>)
    requires start.summary.None? && Unfinished(oracle, start, events)
    ensures var pass := Straight(oracle, start, events); var said := Said(events);
      && Written(pass.effects) == said
      && pass.core.summary == (if said == [] then None else Some(said[|said| - 1]))
    decreases |events|
  {
    if events != [] {
      var n := |events| - 1;
      var before := Straight(oracle, start, events[..n]);
      forall k | 0 <= k < n ensures !Straight(oracle, start, events[..n][..k]).done {
        assert events[..n][..k] == events[..k];
      }
      PassWritesWhatWasSaid(oracle, start, events[..n]);
      WritesOneMore(before, events[n], oracle(n), Said(events[..n]));
      StraightSnoc(oracle, start, events, n);
      assert events[..n + 1] == events;
    }
  }

  lemma {:induction false} WritesOneMore(before: Reaction, e: Event, input: Input, said: seq<string>)
    requires Written(before.effects) == said
    requires before.core.summary == if said == [] then None else Some(said[|said| - 1])
    ensures var r := React(before.core, e, input);
      var said' := if e.kind.AgentMessage? && e.kind.text != "" then said + [e.kind.text] else said;
      && Written(before.effects + r.effects) == said'
      && r.core.summary == (if said' == [] then None else Some(said'[|said'| - 1]))
  {
    WrittenConcat(before.effects, React(before.core, e, input).effects);
    ReactionWrites(before.core, e, input);
  }

  lemma {:induction false} ReactionWrites(core: Core, e: Event, input: Input)
    ensures var r := React(core, e, input);
      if e.kind.AgentMessage? && e.kind.text != ""
      then Written(r.effects) == [e.kind.text] && r.core.summary == Some(e.kind.text)
      else Written(r.effects) == [] && r.core.summary == core.summary
  {
    var r := React(core, e, input);
    if e.kind.AgentMessage? && e.kind.text != "" {
      assert r.effects[..0] == [];
    } else {
      OthersWriteNothing(core, e, input);
      WrittenConcat([], r.effects);
    }
  }

  lemma {:induction false} OthersWriteNothing(core: Core, e: Event, input: Input)
    requires !(e.kind.AgentMessage? && e.kind.text != "")
    ensures var r := React(core, e, input);
      (forall x :: x in r.effects ==> !x.AssistantMessage?) && r.core.summary == core.summary
  {
    if e.kind.StatusIdle? {
      IdleWritesNothing(core.(replies := core.replies + input.replies), e, input.decision);
    }
  }

  lemma {:induction false} IdleWritesNothing(core: Core, e: Event, decision: Decision)
    requires e.kind.StatusIdle?
    ensures var r := ManagedSession.Dispatch(core, e, decision);
      (forall x :: x in r.effects ==> !x.AssistantMessage?) && r.core.summary == core.summary
  {
    if core.pendingTool.Some? {
      AskingWritesNothing(core, core.pendingTool.value, decision);
    }
  }

  lemma {:induction false} AskingWritesNothing(core: Core, tool: Event, decision: Decision)
    ensures var r := ConfirmTool(core, tool, decision);
      (forall x :: x in r.effects ==> !x.AssistantMessage?) && r.core.summary == core.summary
  {
  }

  /** Over a whole run the assistant's messages are conserved: those written for the
      user are those the handled events said, in order, each once, and the summary kept is the
      last of them. */
  lemma {:induction false} MessagesAreConserved(oracle: Oracle, link: Link, deadline: nat, prompt: string, replies: seq<string>)
    ensures var s := Drive(oracle, link, deadline, prompt, Fresh(replies), 0).session;
      && Written(WithoutNotes(s.effects)) == Said(s.handled)
      && s.core.summary == (var said := Said(s.handled); if said == [] then None else Some(said[|said| - 1]))
  {
    EveryRunIsStraight(oracle, link, deadline, prompt, replies);
    var o := Drive(oracle, link, deadline, prompt, Fresh(replies), 0);
    var sentFirst := if link(0).opens then [Send(UserMessage(prompt))] else [];
    var handled := o.session.handled;
    assert handled[..|handled|] == handled;
    var pass := Straight(oracle, Fresh(replies).core, handled);
    PassWritesWhatWasSaid(oracle, Fresh(replies).core, handled);
    TailWritesNothing(o.exit);
    WrittenAround(sentFirst, pass.effects, Tail(o.exit));
  }

  lemma {:induction false} WrittenAround(before: seq<Effect>, passed: seq<Effect>, after: seq<Effect>)
    requires forall e :: e in before || e in after ==> !e.AssistantMessage?
    ensures Written(before + passed + after) == Written(passed)
  {
    WrittenConcat(before + passed, after);
    WrittenConcat(before, passed);
    WrittenConcat([], before);
    assert [] + before == before;
  }

  lemma TailWritesNothing(exit: Exit)
    ensures forall e :: e in Tail(exit) ==> !e.AssistantMessage?
  {
  }

  lemma {:induction false} UnfinishedIsLive(oracle: Oracle, start: Core, events: seq<Event>)
    requires ManagedSession.Live(start) && !Straight(oracle, start, events).done
    ensures ManagedSession.Live(Straight(oracle, start, events).core)
    decreases |events|
  {
    if events != [] {
      var n := |events| - 1;
      UnfinishedIsLive(oracle, start, events[..n]);
      ReactFacts(Straight(oracle, start, events[..n]).core, events[n], oracle(n));
    }
  }

  lemma {:induction false} SaidIsNotEmpty(events: seq<Event>)
    ensures forall i :: 0 <= i < |Said(events)| ==> Said(events)[i] != ""
  {
    if events != [] {
      SaidIsNotEmpty(events[..|events| - 1]);
    }
  }

  function Completion(events: seq<Event>): seq<Effect> {
    var said := Said(events);
    [TaskEvent(TaskCompleted(if said == [] then DefaultClosing else LastMessage(said[|said| - 1]))), SetStatus(Completed, Done)]
  }

  /** From a live state only the idle event completes the task. */
  lemma {:induction false} CompletingReaction(core: Core, e: Event, input: Input)
    requires ManagedSession.Live(core) && React(core, e, input).core.status.Completed?
    ensures e.kind.StatusIdle?
    ensures React(core, e, input).effects == [TaskEvent(TaskCompleted(Summary(core))), SetStatus(Completed, Done)]
  {
  }

  lemma {:induction false} CompletedPass(oracle: Oracle, start: Core, events: seq<Event>)
    requires ManagedSession.Live(start) && start.summary.None? && Unfinished(oracle, start, events)
    requires Straight(oracle, start, events).core.status.Completed?
    ensures events != []
    ensures Straight(oracle, start, events).effects
            == Straight(oracle, start, events[..|events| - 1]).effects + Completion(events)
  {
    if events != [] {
      var n := |events| - 1;
      var before := Straight(oracle, start, events[..n]);
      UnfinishedIsLive(oracle, start, events[..n]);
      CompletingReaction(before.core, events[n], oracle(n));
      forall k | 0 <= k < n ensures !Straight(oracle, start, events[..n][..k]).done {
        assert events[..n][..k] == events[..k];
      }
      PassWritesWhatWasSaid(oracle, start, events[..n]);
      SaidIsNotEmpty(events[..n]);
      assert Said(events) == Said(events[..n]);
    }
  }

  /** A completed run ends with the completion event, carrying the last thing the
      agent said or the default, and then the status. */
  lemma {:induction false} CompletionTellsTheLastMessage(oracle: Oracle, link: Link, deadline: nat, prompt: string, replies: seq<string>)
    ensures var s := Drive(oracle, link, deadline, prompt, Fresh(replies), 0).session;
      s.core.status.Completed? ==>
        var effects := WithoutNotes(s.effects);
        |effects| >= 2 && effects[|effects| - 2..] == Completion(s.handled)
  {
    EveryRunIsStraight(oracle, link, deadline, prompt, replies);
    var o := Drive(oracle, link, deadline, prompt, Fresh(replies), 0);
    var start, handled := Fresh(replies).core, o.session.handled;
    assert handled[..|handled|] == handled;
    if o.session.core.status.Completed? {
      CompletedPass(oracle, start, handled);
    }
  }
}
