/**
 Managed runs against the uninterrupted one. Whatever the environment does, a run is
 one straight pass over the events it handled; over one remote log with covering
 history those are a prefix of the log.
 */
module ManagedRefinement {
  import opened Prelude
  import opened ManagedSession

  /** The uninterrupted run: each event once, no duplicate check, no reconnects. */
  function Straight(oracle: Oracle, core: Core, events: seq<Event>): Reaction {
    if events == [] then Reaction(core, [], false)
    else
      var n := |events| - 1;
      var before := Straight(oracle, core, events[..n]);
      if before.done then before
      else
        var r := React(before.core, events[n], oracle(n));
        Reaction(r.core, before.effects + r.effects, r.done)
  }

  function WithoutNotes(effects: seq<Effect>): seq<Effect> {
    if effects == [] then []
    else
      var before := WithoutNotes(effects[..|effects| - 1]);
      if effects[|effects| - 1].Reconnecting? then before else before + [effects[|effects| - 1]]
  }

  lemma {:induction false} WithoutNotesConcat(a: seq<Effect>, b: seq<Effect>)
    ensures WithoutNotes(a + b) == WithoutNotes(a) + WithoutNotes(b)
    ensures (forall e :: e in b ==> !e.Reconnecting?) ==> WithoutNotes(b) == b
    decreases |b|
  {
    if b == [] {
      assert a + b == a;
    } else {
      assert (a + b)[..|a + b| - 1] == a + b[..|b| - 1];
      WithoutNotesConcat(a, b[..|b| - 1]);
    }
  }

  lemma ReactWritesNoNotes(core: Core, e: Event, input: Input)
    ensures forall x :: x in React(core, e, input).effects ==> !x.Reconnecting?
  {
  }

  lemma {:induction false} StraightSnoc(oracle: Oracle, start: Core, events: seq<Event>, n: nat)
    requires n < |events| && !Straight(oracle, start, events[..n]).done
    ensures var before := Straight(oracle, start, events[..n]);
      var r := React(before.core, events[n], oracle(n));
      Straight(oracle, start, events[..n + 1]) == Reaction(r.core, before.effects + r.effects, r.done)
  {
    assert events[..n + 1][..n] == events[..n];
  }

  /** The effects that end a run the remote did not end. */
  function Tail(exit: Exit): seq<Effect> {
    match exit
    case Finished => []
    case OpenFailed => [SetStatus(Failed, FailedBy(StreamNotOpened)), TaskEvent(TaskFailed(StreamNotOpened))]
    case TimedOut =>
      [Send(UserInterrupt), SetStatus(Failed, FailedBy(RuntimeTimeout)), TaskEvent(TaskFailed(RuntimeTimeout))]
    case StreamLost => [SetStatus(Failed, FailedBy(StreamGone)), TaskEvent(TaskFailed(StreamGone))]
  }

  lemma TailIsNoNote(exit: Exit)
    ensures forall e :: e in Tail(exit) ==> !e.Reconnecting?
  {
  }

  ghost predicate Refines(oracle: Oracle, start: Core, sentFirst: seq<Effect>, remote: seq<Event>, o: Outcome) {
    var s := o.session;
    var m := |s.handled|;
    && m <= |remote| && s.handled == remote[..m]
    && var straight := Straight(oracle, start, remote[..m]);
    && straight.done == o.exit.Finished?
    && s.core == (if o.exit.Finished? then straight.core else straight.core.(status := Failed))
    && WithoutNotes(s.effects) == sentFirst + straight.effects + Tail(o.exit)
  }

  // --------------------------------------------------- any environment

  /** `start` and `sentFirst` as they stood before any event. */
  datatype Origin = Origin(core: Core, sentFirst: seq<Effect>)

  ghost predicate Handled(s: Session) {
    && (forall i :: 0 <= i < |s.handled| && s.handled[i].id != "" ==> s.handled[i].id in s.seen)
    && (forall i, j :: 0 <= i < j < |s.handled| && s.handled[i].id != "" ==> s.handled[i].id != s.handled[j].id)
  }

  ghost predicate Unfinished(oracle: Oracle, start: Core, events: seq<Event>) {
    forall n :: 0 <= n < |events| ==> !Straight(oracle, start, events[..n]).done
  }

  /** The session stands where a straight pass over its handled events stands. */
  ghost predicate Follows(oracle: Oracle, origin: Origin, s: Session, done: bool) {
    var straight := Straight(oracle, origin.core, s.handled);
    && Handled(s)
    && Unfinished(oracle, origin.core, s.handled)
    && s.core == straight.core && straight.done == done
    && WithoutNotes(s.effects) == origin.sentFirst + straight.effects
  }

  lemma HandleFollows(oracle: Oracle, origin: Origin, s: Session, e: Event)
    requires Follows(oracle, origin, s, false)
    ensures var (s', done) := Handle(oracle, s, e); Follows(oracle, origin, s', done)
  {
    if e.id == "" || e.id !in s.seen {
      var n := |s.handled|;
      var r := React(s.core, e, oracle(n));
      var s' := Handle(oracle, s, e).0;
      assert s'.handled == s.handled + [e] && s'.core == r.core && s'.effects == s.effects + r.effects;
      NewlyHandled(oracle, origin.core, s.handled, e);
      StaysHandled(s, s', e);
      ReactWritesNoNotes(s.core, e, oracle(n));
      EffectsFollow(origin.sentFirst, Straight(oracle, origin.core, s.handled).effects, s.effects, r.effects);
    }
  }

  lemma {:induction false} NewlyHandled(oracle: Oracle, start: Core, handled: seq<Event>, e: Event)
    requires Unfinished(oracle, start, handled) && !Straight(oracle, start, handled).done
    ensures Unfinished(oracle, start, handled + [e])
    ensures var before := Straight(oracle, start, handled);
      var r := React(before.core, e, oracle(|handled|));
      Straight(oracle, start, handled + [e]) == Reaction(r.core, before.effects + r.effects, r.done)
  {
    var n, events := |handled|, handled + [e];
    assert events[..n] == handled && events[..n + 1] == events;
    StraightSnoc(oracle, start, events, n);
    forall k | 0 <= k < |events| ensures !Straight(oracle, start, events[..k]).done {
      if k < n {
        assert events[..k] == handled[..k];
      }
    }
  }

  lemma StaysHandled(s: Session, s': Session, e: Event)
    requires Handled(s) && (e.id == "" || e.id !in s.seen)
    requires s'.handled == s.handled + [e] && s'.seen == if e.id != "" then s.seen + {e.id} else s.seen
    ensures Handled(s')
  {
  }

  lemma {:induction false} EffectsFollow(sentFirst: seq<Effect>, passed: seq<Effect>, effects: seq<Effect>, more: seq<Effect>)
    requires WithoutNotes(effects) == sentFirst + passed && forall x :: x in more ==> !x.Reconnecting?
    ensures WithoutNotes(effects + more) == sentFirst + (passed + more)
  {
    WithoutNotesConcat(effects, more);
    assert sentFirst + passed + more == sentFirst + (passed + more);
  }

  lemma {:induction false} HandleAllFollows(oracle: Oracle, origin: Origin, s: Session, events: seq<Event>)
    requires Follows(oracle, origin, s, false)
    ensures var (s', done) := HandleAll(oracle, s, events); Follows(oracle, origin, s', done)
    decreases |events|
  {
    if events != [] {
      HandleFollows(oracle, origin, s, events[0]);
      var (s', done) := Handle(oracle, s, events[0]);
      if !done {
        HandleAllFollows(oracle, origin, s', events[1..]);
      }
    }
  }

  lemma ClockIsIgnored(oracle: Oracle, origin: Origin, s: Session, clock: nat)
    requires Follows(oracle, origin, s, false)
    ensures Follows(oracle, origin, s.(clock := clock), false)
  {
  }

  lemma {:induction false} ReadLoopFollows(oracle: Oracle, origin: Origin, deadline: nat, s: Session, arrivals: seq<Arrival>)
    requires Follows(oracle, origin, s, false)
    ensures var (s', end) := ReadLoop(oracle, deadline, s, arrivals); Follows(oracle, origin, s', end.TaskDone?)
    decreases |arrivals|
  {
    ClockIsIgnored(oracle, origin, s, deadline);
    if s.clock < deadline && arrivals != [] && arrivals[0].wait <= deadline - s.clock {
      var s1 := s.(clock := s.clock + arrivals[0].wait);
      ClockIsIgnored(oracle, origin, s, s1.clock);
      if arrivals[0].item.Incoming? {
        HandleFollows(oracle, origin, s1, arrivals[0].item.event);
        var (s2, done) := Handle(oracle, s1, arrivals[0].item.event);
        ReadLoopStep(oracle, deadline, s, arrivals, s2, done);
        if !done {
          ReadLoopFollows(oracle, origin, deadline, s2, arrivals[1..]);
        }
      }
    }
  }

  ghost predicate Ends(oracle: Oracle, origin: Origin, o: Outcome) {
    Handled(o.session) && Unfinished(oracle, origin.core, o.session.handled)
    && Refines(oracle, origin.core, origin.sentFirst, o.session.handled, o)
  }

  lemma EndedFollows(oracle: Oracle, origin: Origin, s: Session, o: Outcome)
    requires Follows(oracle, origin, s, o.exit.Finished?)
    requires o.session == s.(core := if o.exit.Finished? then s.core else s.core.(status := Failed),
                             effects := s.effects + Tail(o.exit))
    ensures Ends(oracle, origin, o)
  {
    WithoutNotesConcat(s.effects, Tail(o.exit));
    TailIsNoNote(o.exit);
    assert s.handled[..|s.handled|] == s.handled;
  }

  lemma {:induction false} DriveFollows(oracle: Oracle, origin: Origin, link: Link, deadline: nat, prompt: string, s: Session, reconnects: nat)
    requires 1 <= reconnects <= MAX_RECONNECTS && Follows(oracle, origin, s, false)
    ensures Ends(oracle, origin, Drive(oracle, link, deadline, prompt, s, reconnects))
    decreases MAX_RECONNECTS - reconnects, 1
  {
    var c := link(reconnects);
    var o := Drive(oracle, link, deadline, prompt, s, reconnects);
    if !c.opens {
      EndedFollows(oracle, origin, s, o);
    } else {
      HandleAllFollows(oracle, origin, s, History(c));
      var (s1, replayed) := HandleAll(oracle, s, History(c));
      DriveUnfolds(oracle, link, deadline, prompt, s, reconnects, s1, replayed);
      if replayed {
        assert s1.effects + Tail(Finished) == s1.effects;
        EndedFollows(oracle, origin, s1, o);
      } else {
        FollowFollows(oracle, origin, link, deadline, prompt, s1, reconnects);
      }
    }
  }

  lemma {:induction false} FollowFollows(oracle: Oracle, origin: Origin, link: Link, deadline: nat, prompt: string, s: Session, reconnects: nat)
    requires reconnects <= MAX_RECONNECTS && Follows(oracle, origin, s, false)
    ensures Ends(oracle, origin, Follow(oracle, link, deadline, prompt, s, reconnects))
    decreases MAX_RECONNECTS - reconnects, 0
  {
    ReadLoopFollows(oracle, origin, deadline, s, link(reconnects).arrivals);
    var (s2, end) := ReadLoop(oracle, deadline, s, link(reconnects).arrivals);
    if end.Dropped? && reconnects < MAX_RECONNECTS {
      var s3 := Emit(s2, [Reconnecting(reconnects + 1)]);
      FollowUnfolds(oracle, link, deadline, prompt, s, reconnects, s2, end);
      NoteKeepsFollows(oracle, origin, s2, reconnects + 1);
      DriveFollows(oracle, origin, link, deadline, prompt, s3, reconnects + 1);
    } else {
      StopsWithTail(oracle, link, deadline, prompt, s, reconnects);
      EndedFollows(oracle, origin, s2, Follow(oracle, link, deadline, prompt, s, reconnects));
    }
  }

  lemma {:induction false} StopsWithTail(oracle: Oracle, link: Link, deadline: nat, prompt: string, s: Session, reconnects: nat)
    requires reconnects <= MAX_RECONNECTS
    requires !ReadLoop(oracle, deadline, s, link(reconnects).arrivals).1.Dropped? || reconnects == MAX_RECONNECTS
    ensures var (s2, end) := ReadLoop(oracle, deadline, s, link(reconnects).arrivals);
      var o := Follow(oracle, link, deadline, prompt, s, reconnects);
      && (o.exit.Finished? <==> end.TaskDone?)
      && o.session == s2.(core := if o.exit.Finished? then s2.core else s2.core.(status := Failed),
                          effects := s2.effects + Tail(o.exit))
  {
    var (s2, end) := ReadLoop(oracle, deadline, s, link(reconnects).arrivals);
    FollowUnfolds(oracle, link, deadline, prompt, s, reconnects, s2, end);
    var o := Follow(oracle, link, deadline, prompt, s, reconnects);
    assert o.session.effects == s2.effects + Tail(o.exit);
  }

  lemma NoteKeepsFollows(oracle: Oracle, origin: Origin, s: Session, attempt: nat)
    requires Follows(oracle, origin, s, false)
    ensures Follows(oracle, origin, Emit(s, [Reconnecting(attempt)]), false)
  {
    WithoutNotesConcat(s.effects, [Reconnecting(attempt)]);
    assert [Reconnecting(attempt)][..0] == [];
  }

  /** With no assumption on the streams, the history, the decisions or the clock:
      no event is handled twice, and the run is one straight pass over the events
      it handled, but for the reconnect lines and the failure that ended it. */
  lemma {:induction false} EveryRunIsStraight(oracle: Oracle, link: Link, deadline: nat, prompt: string, replies: seq<string>)
    ensures var o := Drive(oracle, link, deadline, prompt, Fresh(replies), 0);
      Ends(oracle, Origin(Fresh(replies).core, if link(0).opens then [Send(UserMessage(prompt))] else []), o)
  {
    var s := Fresh(replies);
    if !link(0).opens {
      EndedFollows(oracle, Origin(s.core, []), s, Drive(oracle, link, deadline, prompt, s, 0));
    } else {
      var sentFirst := [Send(UserMessage(prompt))];
      var s1 := Emit(s, sentFirst);
      WithoutNotesConcat([], sentFirst);
      assert s1.effects == sentFirst == [] + sentFirst;
      DriveUnfolds(oracle, link, deadline, prompt, s, 0, s1, false);
      FollowFollows(oracle, Origin(s.core, sentFirst), link, deadline, prompt, s1, 0);
    }
  }

  // ---------------------------------------------------- one remote log

  /** What a stream delivers before it ends or goes silent. */
  function Delivered(arrivals: seq<Arrival>): seq<Event> {
    if arrivals == [] || !arrivals[0].item.Incoming? then []
    else [arrivals[0].item.event] + Delivered(arrivals[1..])
  }

  ghost predicate DistinctIds(remote: seq<Event>) {
    && (forall i :: 0 <= i < |remote| ==> remote[i].id != "")
    && (forall i, j :: 0 <= i < j < |remote| ==> remote[i].id != remote[j].id)
  }

  /** Streams of one remote log: stream k delivers, in order, part of what comes
      after position opensAt(k), and a history answer is a part from the start. */
  ghost predicate Slices(remote: seq<Event>, link: Link, opensAt: nat -> nat) {
    && DistinctIds(remote)
    && forall k :: 0 <= k <= MAX_RECONNECTS ==>
         && opensAt(k) <= |remote|
         && Delivered(link(k).arrivals) <= remote[opensAt(k)..]
         && History(link(k)) <= remote
  }

  /** How far into the log the streams before stream k and the history answers up to
      it have come. A history call that raises brings nothing. */
  function Covered(link: Link, opensAt: nat -> nat, k: nat): nat {
    if k == 0 then 0
    else
      var delivered := |Delivered(link(k - 1).arrivals)|;
      Max(Max(Covered(link, opensAt, k - 1), if delivered == 0 then 0 else opensAt(k - 1) + delivered),
          |History(link(k))|)
  }

  /** And no stream that delivers anything starts beyond that. */
  ghost predicate Faithful(remote: seq<Event>, link: Link, opensAt: nat -> nat) {
    && Slices(remote, link, opensAt)
    && forall k :: 0 <= k <= MAX_RECONNECTS && Delivered(link(k).arrivals) != [] ==> opensAt(k) <= Covered(link, opensAt, k)
  }

  /** The session has handled exactly the first |handled| events of the log. */
  ghost predicate InStep(remote: seq<Event>, s: Session) {
    var n := |s.handled|;
    && n <= |remote| && s.handled == remote[..n]
    && forall i :: 0 <= i < |remote| ==> (remote[i].id in s.seen <==> i < n)
  }

  lemma HandleInStep(oracle: Oracle, remote: seq<Event>, s: Session, i: nat)
    requires DistinctIds(remote) && InStep(remote, s) && i < |remote| && i <= |s.handled|
    ensures var s' := Handle(oracle, s, remote[i]).0;
      InStep(remote, s') && |s'.handled| == Max(|s.handled|, i + 1)
  {
    var s' := Handle(oracle, s, remote[i]).0;
    if i == |s.handled| {
      assert s'.handled == s.handled + [remote[i]] && s'.seen == s.seen + {remote[i].id};
    } else {
      assert s' == s;
    }
  }

  lemma {:induction false} HandleSliceInStep(oracle: Oracle, remote: seq<Event>, s: Session, a: nat, b: nat)
    requires DistinctIds(remote) && InStep(remote, s) && a <= b <= |remote| && a <= |s.handled|
    ensures var (s', done) := HandleAll(oracle, s, remote[a..b]);
      InStep(remote, s') && (!done ==> |s'.handled| == Max(|s.handled|, b))
    decreases b - a
  {
    if a < b {
      HandleInStep(oracle, remote, s, a);
      var (s', done) := Handle(oracle, s, remote[a]);
      assert remote[a..b][1..] == remote[a + 1..b];
      if !done {
        HandleSliceInStep(oracle, remote, s', a + 1, b);
      }
    }
  }

  lemma {:induction false} ReadLoopInStep(oracle: Oracle, deadline: nat, remote: seq<Event>, s: Session, arrivals: seq<Arrival>, a: nat)
    requires DistinctIds(remote) && InStep(remote, s)
    requires a <= |s.handled| && a <= |remote| && Delivered(arrivals) <= remote[a..]
    ensures var (s', end) := ReadLoop(oracle, deadline, s, arrivals);
      InStep(remote, s') && (end.Dropped? ==> |s'.handled| == Max(|s.handled|, a + |Delivered(arrivals)|))
    decreases |arrivals|
  {
    if s.clock < deadline && arrivals != [] && arrivals[0].wait <= deadline - s.clock && arrivals[0].item.Incoming? {
      var s1 := s.(clock := s.clock + arrivals[0].wait);
      DeliveredStep(arrivals, remote, a);
      HandleInStep(oracle, remote, s1, a);
      var (s2, done) := Handle(oracle, s1, remote[a]);
      ReadLoopStep(oracle, deadline, s, arrivals, s2, done);
      if !done {
        ReadLoopInStep(oracle, deadline, remote, s2, arrivals[1..], a + 1);
      }
    }
  }

  lemma {:induction false} ReadLoopStep(oracle: Oracle, deadline: nat, s: Session, arrivals: seq<Arrival>, s2: Session, done: bool)
    requires s.clock < deadline && arrivals != [] && arrivals[0].wait <= deadline - s.clock && arrivals[0].item.Incoming?
    requires (s2, done) == Handle(oracle, s.(clock := s.clock + arrivals[0].wait), arrivals[0].item.event)
    ensures ReadLoop(oracle, deadline, s, arrivals)
            == if done then (s2, TaskDone) else ReadLoop(oracle, deadline, s2, arrivals[1..])
  {
  }

  lemma {:induction false} DeliveredStep(arrivals: seq<Arrival>, remote: seq<Event>, a: nat)
    requires arrivals != [] && arrivals[0].item.Incoming? && a <= |remote| && Delivered(arrivals) <= remote[a..]
    ensures a < |remote| && arrivals[0].item.event == remote[a]
    ensures Delivered(arrivals[1..]) <= remote[a + 1..] && |Delivered(arrivals)| == |Delivered(arrivals[1..])| + 1
  {
    assert Delivered(arrivals)[0] == remote[a..][0];
    assert Delivered(arrivals)[1..] == Delivered(arrivals[1..]) && remote[a..][1..] == remote[a + 1..];
  }

  // ------------------------------------------- when a run keeps to the log

  /** The session as it is about to read stream k, if the run gets that far. */
  function Stage(oracle: Oracle, link: Link, deadline: nat, prompt: string, replies: seq<string>, k: nat): Option<Session> {
    if k == 0 then
      if link(0).opens then Some(Emit(Fresh(replies), [Send(UserMessage(prompt))])) else None
    else
      match Stage(oracle, link, deadline, prompt, replies, k - 1)
      case None => None
      case Some(s) => NextStage(oracle, link, deadline, s, k)
  }

  /** From the reading of stream k - 1 to that of stream k. */
  function NextStage(oracle: Oracle, link: Link, deadline: nat, s: Session, k: nat): Option<Session>
    requires k > 0
  {
    var (s2, end) := ReadLoop(oracle, deadline, s, link(k - 1).arrivals);
    if !end.Dropped? || !link(k).opens then None
    else
      var (s3, replayed) := HandleAll(oracle, Emit(s2, [Reconnecting(k)]), History(link(k)));
      if replayed then None else Some(s3)
  }

  /** The stream's first item is an event, and it comes before the deadline. */
  predicate Hears(deadline: nat, s: Session, c: Connection) {
    s.clock < deadline && c.arrivals != [] && c.arrivals[0].wait <= deadline - s.clock && c.arrivals[0].item.Incoming?
  }

  /** The run takes an event from stream k. */
  predicate Reads(oracle: Oracle, link: Link, deadline: nat, prompt: string, replies: seq<string>, k: nat) {
    var stage := Stage(oracle, link, deadline, prompt, replies, k);
    stage.Some? && Hears(deadline, stage.value, link(k))
  }

  lemma {:induction false} StageIsReached(oracle: Oracle, link: Link, deadline: nat, prompt: string, replies: seq<string>, k: nat)
    requires k <= MAX_RECONNECTS && Stage(oracle, link, deadline, prompt, replies, k).Some?
    ensures Drive(oracle, link, deadline, prompt, Fresh(replies), 0)
            == Follow(oracle, link, deadline, prompt, Stage(oracle, link, deadline, prompt, replies, k).value, k)
    decreases k
  {
    if k > 0 {
      StageIsReached(oracle, link, deadline, prompt, replies, k - 1);
      var s := Stage(oracle, link, deadline, prompt, replies, k - 1).value;
      FollowGoesOn(oracle, link, deadline, prompt, s, k);
    } else {
      DriveUnfolds(oracle, link, deadline, prompt, Fresh(replies), 0, Stage(oracle, link, deadline, prompt, replies, 0).value, false);
    }
  }

  lemma {:induction false} FollowGoesOn(oracle: Oracle, link: Link, deadline: nat, prompt: string, s: Session, k: nat)
    requires 0 < k <= MAX_RECONNECTS && NextStage(oracle, link, deadline, s, k).Some?
    ensures Follow(oracle, link, deadline, prompt, s, k - 1)
            == Follow(oracle, link, deadline, prompt, NextStage(oracle, link, deadline, s, k).value, k)
  {
    var (s2, end) := ReadLoop(oracle, deadline, s, link(k - 1).arrivals);
    FollowUnfolds(oracle, link, deadline, prompt, s, k - 1, s2, end);
    DriveUnfolds(oracle, link, deadline, prompt, Emit(s2, [Reconnecting(k)]), k, NextStage(oracle, link, deadline, s, k).value, false);
  }

  /** A run that gets no further than stream k ends with what it had handled, or had
      handled after the replay for the next. */
  lemma {:induction false} FollowStops(oracle: Oracle, link: Link, deadline: nat, prompt: string, s: Session, k: nat)
    requires k <= MAX_RECONNECTS
    requires k == MAX_RECONNECTS || NextStage(oracle, link, deadline, s, k + 1).None?
    ensures var (s2, end) := ReadLoop(oracle, deadline, s, link(k).arrivals);
      Follow(oracle, link, deadline, prompt, s, k).session.handled
      == if k < MAX_RECONNECTS && end.Dropped? && link(k + 1).opens
         then HandleAll(oracle, Emit(s2, [Reconnecting(k + 1)]), History(link(k + 1))).0.handled
         else s2.handled
  {
    var (s2, end) := ReadLoop(oracle, deadline, s, link(k).arrivals);
    FollowUnfolds(oracle, link, deadline, prompt, s, k, s2, end);
    if k < MAX_RECONNECTS && end.Dropped? && link(k + 1).opens {
      var (s3, replayed) := HandleAll(oracle, Emit(s2, [Reconnecting(k + 1)]), History(link(k + 1)));
      DriveUnfolds(oracle, link, deadline, prompt, Emit(s2, [Reconnecting(k + 1)]), k + 1, s3, replayed);
    }
  }

  lemma {:induction false} NoLaterStage(oracle: Oracle, link: Link, deadline: nat, prompt: string, replies: seq<string>, k: nat, j: nat)
    requires k <= j && Stage(oracle, link, deadline, prompt, replies, k).None?
    ensures Stage(oracle, link, deadline, prompt, replies, j).None?
    decreases j
  {
    if k < j {
      NoLaterStage(oracle, link, deadline, prompt, replies, k, j - 1);
    }
  }

  ghost predicate KeepsToTheLog(oracle: Oracle, link: Link, deadline: nat, prompt: string, replies: seq<string>, remote: seq<Event>) {
    Drive(oracle, link, deadline, prompt, Fresh(replies), 0).session.handled <= remote
  }

  /** The run gets to stream k with everything covered so far handled, in step. */
  ghost predicate ArrivesInStep(oracle: Oracle, link: Link, opensAt: nat -> nat, deadline: nat, prompt: string, replies: seq<string>, remote: seq<Event>, k: nat) {
    var stage := Stage(oracle, link, deadline, prompt, replies, k);
    stage.Some? && InStep(remote, stage.value) && |stage.value.handled| == Covered(link, opensAt, k)
  }

  /** The first bad stage, or the last that is reached, arriving well from one to
      the next. */
  lemma {:induction false} Decides(arrives: nat -> bool, bad: nat -> bool, reached: nat -> bool, k: nat) returns (last: nat)
    requires k <= MAX_RECONNECTS && arrives(k)
    requires forall j :: 0 <= j < MAX_RECONNECTS && arrives(j) && !bad(j) && reached(j + 1) ==> arrives(j + 1)
    ensures k <= last <= MAX_RECONNECTS && arrives(last)
    ensures forall j :: k <= j < last ==> !bad(j)
    ensures bad(last) || last == MAX_RECONNECTS || !reached(last + 1)
    decreases MAX_RECONNECTS - k
  {
    last := k;
    if !bad(k) && k < MAX_RECONNECTS && reached(k + 1) {
      last := Decides(arrives, bad, reached, k + 1);
    }
  }

  /** The stream that decides: nothing is missing before it, and it either loses
      events or is the last that the run gets to. */
  lemma {:induction false} DecidingStream(oracle: Oracle, link: Link, opensAt: nat -> nat, deadline: nat, prompt: string, replies: seq<string>, remote: seq<Event>)
    returns (last: nat)
    requires Slices(remote, link, opensAt)
    requires ArrivesInStep(oracle, link, opensAt, deadline, prompt, replies, remote, 0)
    ensures last <= MAX_RECONNECTS
    ensures ArrivesInStep(oracle, link, opensAt, deadline, prompt, replies, remote, last)
    ensures forall j :: 0 <= j < last ==> !Loses(oracle, link, opensAt, deadline, prompt, replies, j)
    ensures || Loses(oracle, link, opensAt, deadline, prompt, replies, last)
            || last == MAX_RECONNECTS || Stage(oracle, link, deadline, prompt, replies, last + 1).None?
  {
    forall j | 0 <= j < MAX_RECONNECTS
               && ArrivesInStep(oracle, link, opensAt, deadline, prompt, replies, remote, j)
               && !Loses(oracle, link, opensAt, deadline, prompt, replies, j)
               && Stage(oracle, link, deadline, prompt, replies, j + 1).Some?
      ensures ArrivesInStep(oracle, link, opensAt, deadline, prompt, replies, remote, j + 1)
    {
      ArrivesAgain(oracle, link, opensAt, deadline, prompt, replies, remote, j);
    }
    var arrives: nat -> bool := (j: nat) => ArrivesInStep(oracle, link, opensAt, deadline, prompt, replies, remote, j);
    var bad: nat -> bool := (j: nat) => Loses(oracle, link, opensAt, deadline, prompt, replies, j);
    var reached: nat -> bool := (j: nat) => Stage(oracle, link, deadline, prompt, replies, j).Some?;
    last := Decides(arrives, bad, reached, 0);
    assert reached(last + 1) <==> Stage(oracle, link, deadline, prompt, replies, last + 1).Some?;
    forall j | 0 <= j < last ensures !Loses(oracle, link, opensAt, deadline, prompt, replies, j) {
      assert !bad(j);
    }
  }

  /** The run takes an event from stream k, and the stream starts too late. */
  ghost predicate Loses(oracle: Oracle, link: Link, opensAt: nat -> nat, deadline: nat, prompt: string, replies: seq<string>, k: nat) {
    Reads(oracle, link, deadline, prompt, replies, k) && opensAt(k) > Covered(link, opensAt, k)
  }

  lemma ArrivesAgain(oracle: Oracle, link: Link, opensAt: nat -> nat, deadline: nat, prompt: string, replies: seq<string>, remote: seq<Event>, k: nat)
    requires Slices(remote, link, opensAt) && k < MAX_RECONNECTS
    requires ArrivesInStep(oracle, link, opensAt, deadline, prompt, replies, remote, k)
    requires !Loses(oracle, link, opensAt, deadline, prompt, replies, k)
    requires Stage(oracle, link, deadline, prompt, replies, k + 1).Some?
    ensures ArrivesInStep(oracle, link, opensAt, deadline, prompt, replies, remote, k + 1)
  {
    StreamKeepsStep(oracle, link, opensAt, deadline, remote, Stage(oracle, link, deadline, prompt, replies, k).value, k);
  }

  lemma {:induction false} LosesTheLog(oracle: Oracle, link: Link, opensAt: nat -> nat, deadline: nat, prompt: string, replies: seq<string>, remote: seq<Event>, k: nat)
    requires Slices(remote, link, opensAt) && k <= MAX_RECONNECTS && Reads(oracle, link, deadline, prompt, replies, k)
    requires var s := Stage(oracle, link, deadline, prompt, replies, k).value; InStep(remote, s) && opensAt(k) > |s.handled|
    ensures !KeepsToTheLog(oracle, link, deadline, prompt, replies, remote)
  {
    StageIsReached(oracle, link, deadline, prompt, replies, k);
    LosesAt(oracle, link, deadline, prompt, remote, Stage(oracle, link, deadline, prompt, replies, k).value, k, opensAt(k));
  }

  lemma {:induction false} EndsInStep(oracle: Oracle, link: Link, opensAt: nat -> nat, deadline: nat, prompt: string, replies: seq<string>, remote: seq<Event>, k: nat)
    requires Slices(remote, link, opensAt) && k <= MAX_RECONNECTS
    requires ArrivesInStep(oracle, link, opensAt, deadline, prompt, replies, remote, k)
    requires !Loses(oracle, link, opensAt, deadline, prompt, replies, k)
    requires k == MAX_RECONNECTS || Stage(oracle, link, deadline, prompt, replies, k + 1).None?
    ensures KeepsToTheLog(oracle, link, deadline, prompt, replies, remote)
  {
    var s := Stage(oracle, link, deadline, prompt, replies, k).value;
    StreamKeepsStep(oracle, link, opensAt, deadline, remote, s, k);
    StageIsReached(oracle, link, deadline, prompt, replies, k);
    FollowStops(oracle, link, deadline, prompt, s, k);
  }

  lemma NoneReadAfter(oracle: Oracle, link: Link, deadline: nat, prompt: string, replies: seq<string>, k: nat)
    requires k >= MAX_RECONNECTS || Stage(oracle, link, deadline, prompt, replies, k + 1).None?
    ensures forall j :: k < j <= MAX_RECONNECTS ==> !Reads(oracle, link, deadline, prompt, replies, j)
  {
    forall j | k < j <= MAX_RECONNECTS ensures !Reads(oracle, link, deadline, prompt, replies, j) {
      NoLaterStage(oracle, link, deadline, prompt, replies, k + 1, j);
    }
  }

  /** One stream and the replay after it, when nothing is missing before it. */
  lemma {:induction false} StreamKeepsStep(oracle: Oracle, link: Link, opensAt: nat -> nat, deadline: nat, remote: seq<Event>, s: Session, k: nat)
    requires Slices(remote, link, opensAt) && k <= MAX_RECONNECTS && InStep(remote, s)
    requires |s.handled| == Covered(link, opensAt, k)
    requires Hears(deadline, s, link(k)) ==> opensAt(k) <= |s.handled|
    ensures var (s2, end) := ReadLoop(oracle, deadline, s, link(k).arrivals);
      && InStep(remote, s2)
      && (k < MAX_RECONNECTS && end.Dropped? ==>
            var (s3, replayed) := HandleAll(oracle, Emit(s2, [Reconnecting(k + 1)]), History(link(k + 1)));
            InStep(remote, s3) && (!replayed ==> |s3.handled| == Covered(link, opensAt, k + 1)))
  {
    var (s2, end) := ReadLoop(oracle, deadline, s, link(k).arrivals);
    if Hears(deadline, s, link(k)) {
      ReadLoopInStep(oracle, deadline, remote, s, link(k).arrivals, opensAt(k));
      assert Delivered(link(k).arrivals) != [];
    }
    if k < MAX_RECONNECTS && end.Dropped? {
      var history := History(link(k + 1));
      assert history == remote[0..|history|];
      HandleSliceInStep(oracle, remote, Emit(s2, [Reconnecting(k + 1)]), 0, |history|);
    }
  }

  /** An event taken from beyond what was handled stays where it does not belong. */
  lemma {:induction false} LosesAt(oracle: Oracle, link: Link, deadline: nat, prompt: string, remote: seq<Event>, s: Session, k: nat, r: nat)
    requires DistinctIds(remote) && InStep(remote, s) && k <= MAX_RECONNECTS && |s.handled| < r <= |remote|
    requires Delivered(link(k).arrivals) <= remote[r..] && Hears(deadline, s, link(k))
    ensures !(Follow(oracle, link, deadline, prompt, s, k).session.handled <= remote)
  {
    var arrivals, n := link(k).arrivals, |s.handled|;
    DeliveredStep(arrivals, remote, r);
    var s1 := s.(clock := s.clock + arrivals[0].wait);
    var (s2, done) := Handle(oracle, s1, remote[r]);
    assert s2.handled == s.handled + [remote[r]];
    ReadLoopStep(oracle, deadline, s, arrivals, s2, done);
    ReadLoopGrows(oracle, deadline, s2, arrivals[1..]);
    FollowGrows(oracle, link, deadline, prompt, s, k);
    var handled := Follow(oracle, link, deadline, prompt, s, k).session.handled;
    assert s2.handled <= handled && handled[n] == remote[r] != remote[n];
  }

  lemma {:induction false} ReadLoopGrows(oracle: Oracle, deadline: nat, s: Session, arrivals: seq<Arrival>)
    ensures s.handled <= ReadLoop(oracle, deadline, s, arrivals).0.handled
    decreases |arrivals|
  {
    if s.clock < deadline && arrivals != [] && arrivals[0].wait <= deadline - s.clock && arrivals[0].item.Incoming? {
      var (s2, done) := Handle(oracle, s.(clock := s.clock + arrivals[0].wait), arrivals[0].item.event);
      ReadLoopStep(oracle, deadline, s, arrivals, s2, done);
      if !done {
        ReadLoopGrows(oracle, deadline, s2, arrivals[1..]);
      }
    }
  }

  lemma {:induction false} FollowGrows(oracle: Oracle, link: Link, deadline: nat, prompt: string, s: Session, k: nat)
    requires k <= MAX_RECONNECTS
    ensures ReadLoop(oracle, deadline, s, link(k).arrivals).0.handled
            <= Follow(oracle, link, deadline, prompt, s, k).session.handled
    decreases MAX_RECONNECTS - k
  {
    var (s2, end) := ReadLoop(oracle, deadline, s, link(k).arrivals);
    if k < MAX_RECONNECTS && NextStage(oracle, link, deadline, s, k + 1).Some? {
      var s3 := NextStage(oracle, link, deadline, s, k + 1).value;
      FollowGoesOn(oracle, link, deadline, prompt, s, k + 1);
      HandledGrows(oracle, Emit(s2, [Reconnecting(k + 1)]), History(link(k + 1)));
      ReadLoopGrows(oracle, deadline, s3, link(k + 1).arrivals);
      FollowGrows(oracle, link, deadline, prompt, s3, k + 1);
    } else {
      FollowStops(oracle, link, deadline, prompt, s, k);
      if k < MAX_RECONNECTS && end.Dropped? && link(k + 1).opens {
        HandledGrows(oracle, Emit(s2, [Reconnecting(k + 1)]), History(link(k + 1)));
      }
    }
  }

  /** For any streams and history answers of one remote log, dropped or failing as
      they may: the events a run handles are a prefix of the log, none missing and
      none out of place, if and only if every stream it takes an event from starts
      within what the streams before it and the history answers have covered. */
  lemma {:induction false} KeepsToTheLogExactlyWhen(oracle: Oracle, link: Link, opensAt: nat -> nat, deadline: nat, prompt: string, replies: seq<string>, remote: seq<Event>)
    requires Slices(remote, link, opensAt)
    ensures KeepsToTheLog(oracle, link, deadline, prompt, replies, remote)
            <==> forall k :: 0 <= k <= MAX_RECONNECTS ==> !Loses(oracle, link, opensAt, deadline, prompt, replies, k)
  {
    if link(0).opens {
      var last := DecidingStream(oracle, link, opensAt, deadline, prompt, replies, remote);
      if Loses(oracle, link, opensAt, deadline, prompt, replies, last) {
        LosesTheLog(oracle, link, opensAt, deadline, prompt, replies, remote, last);
      } else {
        EndsInStep(oracle, link, opensAt, deadline, prompt, replies, remote, last);
        NoneReadAfter(oracle, link, deadline, prompt, replies, last);
      }
    } else {
      forall k ensures !Reads(oracle, link, deadline, prompt, replies, k) {
        NoLaterStage(oracle, link, deadline, prompt, replies, 0, k);
      }
    }
  }

  /** A run over any streams of one remote log, dropped anywhere, handles an
      in-order repeat-free prefix of the log, and its state, effects and sends,
      but for the reconnect lines, are those of the uninterrupted run over that
      prefix, plus the failure that ended it if the remote did not. */
  lemma {:induction false} ReconnectingRefinesStraight(oracle: Oracle, link: Link, opensAt: nat -> nat, deadline: nat, prompt: string, replies: seq<string>, remote: seq<Event>)
    requires Faithful(remote, link, opensAt)
    ensures Refines(oracle, Fresh(replies).core, if link(0).opens then [Send(UserMessage(prompt))] else [], remote,
                    Drive(oracle, link, deadline, prompt, Fresh(replies), 0))
  {
    EveryRunIsStraight(oracle, link, deadline, prompt, replies);
    KeepsToTheLogExactlyWhen(oracle, link, opensAt, deadline, prompt, replies, remote);
    forall k | 0 <= k <= MAX_RECONNECTS ensures !Loses(oracle, link, opensAt, deadline, prompt, replies, k) {
      if Reads(oracle, link, deadline, prompt, replies, k) {
        assert Delivered(link(k).arrivals) != [];
      }
    }
    var handled := Drive(oracle, link, deadline, prompt, Fresh(replies), 0).session.handled;
    assert handled[..|handled|] == handled == remote[..|handled|];
  }

  /** How much history a reconnect needs: with n events handled, a replay of the
      first h events and a stream that then delivers events r .. q, the handled
      events are still a prefix of the log exactly when r <= max(n, h). A history
      call that raises is answered with h = 0. */
  lemma {:induction false} ReconnectNeedsHistory(oracle: Oracle, remote: seq<Event>, s: Session, h: nat, r: nat, q: nat)
    requires DistinctIds(remote) && InStep(remote, s)
    requires h <= |remote| && r < q <= |remote|
    requires var (s1, replayed) := HandleAll(oracle, s, remote[..h]);
      !replayed && !HandleAll(oracle, s1, remote[r..q]).1
    ensures var handled := HandleAll(oracle, HandleAll(oracle, s, remote[..h]).0, remote[r..q]).0.handled;
      handled <= remote <==> r <= Max(|s.handled|, h)
  {
    assert remote[..h] == remote[0..h];
    HandleSliceInStep(oracle, remote, s, 0, h);
    var s1 := HandleAll(oracle, s, remote[..h]).0;
    var n := |s1.handled|;
    if r <= n {
      HandleSliceInStep(oracle, remote, s1, r, q);
    } else {
      var (s2, done) := Handle(oracle, s1, remote[r]);
      assert s2.handled == remote[..n] + [remote[r]];
      assert remote[r..q] == [remote[r]] + remote[r..q][1..];
      HandledGrows(oracle, s2, remote[r..q][1..]);
      var handled := HandleAll(oracle, s1, remote[r..q]).0.handled;
      assert handled[n] == remote[r] != remote[n];
    }
  }

  lemma {:induction false} HandledGrows(oracle: Oracle, s: Session, events: seq<Event>)
    ensures s.handled <= HandleAll(oracle, s, events).0.handled
    decreases |events|
  {
    if events != [] {
      var (s', done) := Handle(oracle, s, events[0]);
      if !done {
        HandledGrows(oracle, s', events[1..]);
      }
    }
  }

  /** A first stream that drops after the first of three events, a history call that
      raises, and a second stream that starts at the third. */
  function LossyLink(remote: seq<Event>): Link
    requires |remote| == 3
  {
    (k: nat) =>
      if k == 0 then Connection(true, None, [Arrival(0, Incoming(remote[0])), Arrival(0, StreamClosed)])
      else Connection(true, None, [Arrival(0, Incoming(remote[2]))])
  }

  const IDLE_ORACLE: Oracle := (n: nat) => Input(0, [], NoAnswer)

  /** The run from a fresh session handles the first and the third event and never
      the second. */
  lemma {:induction false} FailedHistoryLosesEvents(prompt: string, a: string, b: string, c: string)
    requires a != "" && b != "" && c != "" && a != b && b != c && a != c
    ensures var remote := [Event(a, OtherKind), Event(b, OtherKind), Event(c, OtherKind)];
      var handled := Drive(IDLE_ORACLE, LossyLink(remote), 1, prompt, Fresh([]), 0).session.handled;
      handled == [remote[0], remote[2]] && !(handled <= remote)
  {
    var remote := [Event(a, OtherKind), Event(b, OtherKind), Event(c, OtherKind)];
    var link := LossyLink(remote);
    var s0 := Emit(Fresh([]), [Send(UserMessage(prompt))]);
    FirstThenClosed(s0, remote[0]);
    var dropped := ReadLoop(IDLE_ORACLE, 1, s0, link(0).arrivals).0;
    var s1 := Emit(dropped, [Reconnecting(1)]);
    assert History(link(1)) == [] && HandleAll(IDLE_ORACLE, s1, []) == (s1, false);
    assert Stage(IDLE_ORACLE, link, 1, prompt, [], 0) == Some(s0);
    assert Stage(IDLE_ORACLE, link, 1, prompt, [], 1) == NextStage(IDLE_ORACLE, link, 1, s0, 1) == Some(s1);
    StageIsReached(IDLE_ORACLE, link, 1, prompt, [], 1);
    FirstThenSilent(s1, remote[2]);
    FollowUnfolds(IDLE_ORACLE, link, 1, prompt, s1, 1, ReadLoop(IDLE_ORACLE, 1, s1, link(1).arrivals).0, Expired);
    var handled := Drive(IDLE_ORACLE, link, 1, prompt, Fresh([]), 0).session.handled;
    assert s1.handled == [] + [remote[0]] == [remote[0]];
    assert handled == [remote[0]] + [remote[2]] == [remote[0], remote[2]];
    assert handled[1] == remote[2] != remote[1];
  }

  lemma {:induction false} FirstThenClosed(s: Session, e: Event)
    requires s.clock == 0 && e.kind.OtherKind? && e.id != "" && e.id !in s.seen
    ensures ReadLoop(IDLE_ORACLE, 1, s, [Arrival(0, Incoming(e)), Arrival(0, StreamClosed)])
            == (s.(seen := s.seen + {e.id}, handled := s.handled + [e],
                   core := s.core.(replies := s.core.replies + []), effects := s.effects + []), Dropped)
  {
    var arrivals := [Arrival(0, Incoming(e)), Arrival(0, StreamClosed)];
    assert arrivals[1..] == [Arrival(0, StreamClosed)];
  }

  lemma {:induction false} FirstThenSilent(s: Session, e: Event)
    requires s.clock == 0 && e.kind.OtherKind? && e.id != "" && e.id !in s.seen
    ensures var (s', end) := ReadLoop(IDLE_ORACLE, 1, s, [Arrival(0, Incoming(e))]);
      s'.handled == s.handled + [e] && end == Expired
  {
    assert [Arrival(0, Incoming(e))][1..] == [];
  }
}
