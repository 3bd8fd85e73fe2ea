/**
 How a managed run spends its attempts: what each stream leads to, how the
 reconnect lines count them, and what a replay brings back.
 */
module ManagedAttempts {
  import opened Prelude
  import opened ManagedSession
  import opened ManagedRefinement

  // ---------------------------------------------------- one stream's reading

  /** Reading stops at the deadline, by the clock or because nothing comes before it;
      an end or an error of the stream, in time, drops it; an event is handled. */
  lemma {:induction false} ReadingByFirstItem(oracle: Oracle, deadline: nat, s: Session, arrivals: seq<Arrival>)
    ensures s.clock >= deadline ==> ReadLoop(oracle, deadline, s, arrivals) == (s, Expired)
    ensures s.clock < deadline && (arrivals == [] || s.clock + arrivals[0].wait > deadline) ==>
      ReadLoop(oracle, deadline, s, arrivals) == (s.(clock := deadline), Expired)
    ensures s.clock < deadline && arrivals != [] && s.clock + arrivals[0].wait <= deadline
            && (arrivals[0].item.StreamClosed? || arrivals[0].item.StreamFailed?) ==>
      ReadLoop(oracle, deadline, s, arrivals) == (s.(clock := s.clock + arrivals[0].wait), Dropped)
    ensures s.clock < deadline && arrivals != [] && s.clock + arrivals[0].wait <= deadline && arrivals[0].item.Incoming? ==>
      var (s2, done) := Handle(oracle, s.(clock := s.clock + arrivals[0].wait), arrivals[0].item.event);
      ReadLoop(oracle, deadline, s, arrivals)
      == if done then (s2, TaskDone) else ReadLoop(oracle, deadline, s2, arrivals[1..])
  {
  }

  /** The run times out only at the deadline, and a stream counts as dropped only
      before it or on it. */
  lemma {:induction false} ReadingKeepsTheDeadline(oracle: Oracle, deadline: nat, s: Session, arrivals: seq<Arrival>)
    ensures var (s', end) := ReadLoop(oracle, deadline, s, arrivals);
      && s.clock <= s'.clock
      && (end.Expired? ==> s'.clock >= deadline)
      && (end.Dropped? ==> s'.clock <= deadline && |Delivered(arrivals)| < |arrivals|)
    decreases |arrivals|
  {
    ReadingByFirstItem(oracle, deadline, s, arrivals);
    if s.clock < deadline && arrivals != [] && s.clock + arrivals[0].wait <= deadline && arrivals[0].item.Incoming? {
      var (s2, done) := Handle(oracle, s.(clock := s.clock + arrivals[0].wait), arrivals[0].item.event);
      if !done {
        ReadingKeepsTheDeadline(oracle, deadline, s2, arrivals[1..]);
      }
    }
  }

  // ------------------------------------------------------- where it leads

  /** Reading stream k decides the run or leads on: at the deadline it times out, at a
      final event it ends, and a dropped stream is followed by another attempt until
      four have been made. */
  lemma {:induction false} WhatAStreamLeadsTo(oracle: Oracle, link: Link, deadline: nat, prompt: string, replies: seq<string>, k: nat)
    requires k <= 3 && Stage(oracle, link, deadline, prompt, replies, k).Some?
    ensures var o := Drive(oracle, link, deadline, prompt, Fresh(replies), 0);
      var end := ReadLoop(oracle, deadline, Stage(oracle, link, deadline, prompt, replies, k).value, link(k).arrivals).1;
      && (end.Expired? ==> o.exit == TimedOut && o.streams == k + 1)
      && (end.TaskDone? ==> o.exit == Finished && o.streams == k + 1)
      && (end.Dropped? && k == 3 ==> o.exit == StreamLost && o.streams == 4)
      && (end.Dropped? && k < 3 && !link(k + 1).opens ==> o.exit == OpenFailed && o.streams == k + 2)
      && (end.Dropped? && k < 3 && link(k + 1).opens && Stage(oracle, link, deadline, prompt, replies, k + 1).None? ==>
            o.exit == Finished && o.streams == k + 2)
      && (end.Dropped? && k < 3 ==> o.streams >= k + 2)
  {
    var s := Stage(oracle, link, deadline, prompt, replies, k).value;
    StageIsReached(oracle, link, deadline, prompt, replies, k);
    FollowLeadsTo(oracle, link, deadline, prompt, s, k);
  }

  lemma {:induction false} FollowLeadsTo(oracle: Oracle, link: Link, deadline: nat, prompt: string, s: Session, k: nat)
    requires k <= 3
    ensures var o := Follow(oracle, link, deadline, prompt, s, k);
      var end := ReadLoop(oracle, deadline, s, link(k).arrivals).1;
      && (end.Expired? ==> o.exit == TimedOut && o.streams == k + 1)
      && (end.TaskDone? ==> o.exit == Finished && o.streams == k + 1)
      && (end.Dropped? && k == 3 ==> o.exit == StreamLost && o.streams == 4)
      && (end.Dropped? && k < 3 && !link(k + 1).opens ==> o.exit == OpenFailed && o.streams == k + 2)
      && (end.Dropped? && k < 3 && link(k + 1).opens && NextStage(oracle, link, deadline, s, k + 1).None? ==>
            o.exit == Finished && o.streams == k + 2)
      && (end.Dropped? && k < 3 ==> o.streams >= k + 2)
  {
    var (s2, end) := ReadLoop(oracle, deadline, s, link(k).arrivals);
    FollowUnfolds(oracle, link, deadline, prompt, s, k, s2, end);
    if end.Dropped? && k < 3 {
      var s3 := Emit(s2, [Reconnecting(k + 1)]);
      NextAttempt(oracle, link, deadline, prompt, s3, k + 1);
    }
  }

  /** An attempt counts, whatever comes of it. */
  lemma {:induction false} NextAttempt(oracle: Oracle, link: Link, deadline: nat, prompt: string, s: Session, k: nat)
    requires 0 < k <= 3
    ensures var o := Drive(oracle, link, deadline, prompt, s, k);
      && o.streams >= k + 1
      && (!link(k).opens ==> o.exit == OpenFailed && o.streams == k + 1)
      && (link(k).opens && HandleAll(oracle, s, History(link(k))).1 ==> o.exit == Finished && o.streams == k + 1)
    decreases 3 - k
  {
    if link(k).opens {
      var (s1, replayed) := HandleAll(oracle, s, History(link(k)));
      DriveUnfolds(oracle, link, deadline, prompt, s, k, s1, replayed);
      if !replayed {
        var (s2, end) := ReadLoop(oracle, deadline, s1, link(k).arrivals);
        FollowUnfolds(oracle, link, deadline, prompt, s1, k, s2, end);
        if end.Dropped? && k < 3 {
          NextAttempt(oracle, link, deadline, prompt, Emit(s2, [Reconnecting(k + 1)]), k + 1);
        }
      }
    }
  }

  /** Losing the stream takes four opened streams, each dropped in time. */
  lemma {:induction false} LostExactlyWhenFourDrop(oracle: Oracle, link: Link, deadline: nat, prompt: string, replies: seq<string>)
    ensures Drive(oracle, link, deadline, prompt, Fresh(replies), 0).exit == StreamLost
            <==> Stage(oracle, link, deadline, prompt, replies, 3).Some?
                 && ReadLoop(oracle, deadline, Stage(oracle, link, deadline, prompt, replies, 3).value, link(3).arrivals).1.Dropped?
  {
    if Stage(oracle, link, deadline, prompt, replies, 0).Some? {
      var k := LastStage(oracle, link, deadline, prompt, replies, 0);
      WhatAStreamLeadsTo(oracle, link, deadline, prompt, replies, k);
      if k < 3 {
        NoLaterStage(oracle, link, deadline, prompt, replies, k + 1, 3);
      }
    } else {
      NoLaterStage(oracle, link, deadline, prompt, replies, 0, 3);
    }
  }

  lemma {:induction false} LastStage(oracle: Oracle, link: Link, deadline: nat, prompt: string, replies: seq<string>, k: nat)
    returns (last: nat)
    requires k <= 3 && Stage(oracle, link, deadline, prompt, replies, k).Some?
    ensures k <= last <= 3 && Stage(oracle, link, deadline, prompt, replies, last).Some?
    ensures last == 3 || Stage(oracle, link, deadline, prompt, replies, last + 1).None?
    decreases 3 - k
  {
    last := k;
    if k < 3 && Stage(oracle, link, deadline, prompt, replies, k + 1).Some? {
      last := LastStage(oracle, link, deadline, prompt, replies, k + 1);
    }
  }

  // ------------------------------------------------------- reconnect lines

  /** The numbers on the reconnect lines, in order. */
  function Attempts(effects: seq<Effect>): seq<nat> {
    if effects == [] then []
    else
      var before := Attempts(effects[..|effects| - 1]);
      var e := effects[|effects| - 1];
      if e.Reconnecting? then before + [e.attempt] else before
  }

  function UpTo(n: nat): seq<nat> {
    if n == 0 then [] else UpTo(n - 1) + [n]
  }

  lemma {:induction false} AttemptsConcat(a: seq<Effect>, b: seq<Effect>)
    ensures Attempts(a + b) == Attempts(a) + Attempts(b)
    ensures (forall e :: e in b ==> !e.Reconnecting?) ==> Attempts(b) == []
    decreases |b|
  {
    if b == [] {
      assert a + b == a;
    } else {
      assert (a + b)[..|a + b| - 1] == a + b[..|b| - 1];
      AttemptsConcat(a, b[..|b| - 1]);
    }
  }

  lemma {:induction false} HandleNumbersNothing(oracle: Oracle, s: Session, e: Event)
    ensures Attempts(Handle(oracle, s, e).0.effects) == Attempts(s.effects)
  {
    var r := React(s.core, e, oracle(|s.handled|));
    ReactWritesNoNotes(s.core, e, oracle(|s.handled|));
    AttemptsConcat(s.effects, r.effects);
  }

  lemma {:induction false} HandleAllNumbersNothing(oracle: Oracle, s: Session, events: seq<Event>)
    ensures Attempts(HandleAll(oracle, s, events).0.effects) == Attempts(s.effects)
    decreases |events|
  {
    if events != [] {
      HandleNumbersNothing(oracle, s, events[0]);
      var (s', done) := Handle(oracle, s, events[0]);
      if !done {
        HandleAllNumbersNothing(oracle, s', events[1..]);
      }
    }
  }

  lemma {:induction false} ReadLoopNumbersNothing(oracle: Oracle, deadline: nat, s: Session, arrivals: seq<Arrival>)
    ensures Attempts(ReadLoop(oracle, deadline, s, arrivals).0.effects) == Attempts(s.effects)
    decreases |arrivals|
  {
    ReadingByFirstItem(oracle, deadline, s, arrivals);
    if s.clock < deadline && arrivals != [] && s.clock + arrivals[0].wait <= deadline && arrivals[0].item.Incoming? {
      var s1 := s.(clock := s.clock + arrivals[0].wait);
      HandleNumbersNothing(oracle, s1, arrivals[0].item.event);
      var (s2, done) := Handle(oracle, s1, arrivals[0].item.event);
      if !done {
        ReadLoopNumbersNothing(oracle, deadline, s2, arrivals[1..]);
      }
    }
  }

  lemma {:induction false} FollowNumbers(oracle: Oracle, link: Link, deadline: nat, prompt: string, s: Session, k: nat)
    requires k <= 3 && Attempts(s.effects) == UpTo(k)
    ensures var o := Follow(oracle, link, deadline, prompt, s, k);
      o.streams > 0 && Attempts(o.session.effects) == UpTo(o.streams - 1)
    decreases 3 - k, 0
  {
    var (s2, end) := ReadLoop(oracle, deadline, s, link(k).arrivals);
    ReadLoopNumbersNothing(oracle, deadline, s, link(k).arrivals);
    FollowUnfolds(oracle, link, deadline, prompt, s, k, s2, end);
    if end.Dropped? && k < 3 {
      AttemptsConcat(s2.effects, [Reconnecting(k + 1)]);
      assert [Reconnecting(k + 1)][..0] == [];
      AttemptNumbers(oracle, link, deadline, prompt, Emit(s2, [Reconnecting(k + 1)]), k + 1);
    } else {
      LastStreamNumbersNothing(oracle, link, deadline, prompt, s, k);
    }
  }

  lemma {:induction false} LastStreamNumbersNothing(oracle: Oracle, link: Link, deadline: nat, prompt: string, s: Session, k: nat)
    requires k <= 3 && (!ReadLoop(oracle, deadline, s, link(k).arrivals).1.Dropped? || k == 3)
    ensures var o := Follow(oracle, link, deadline, prompt, s, k);
      o.streams == k + 1 && Attempts(o.session.effects) == Attempts(s.effects)
  {
    var s2 := ReadLoop(oracle, deadline, s, link(k).arrivals).0;
    ReadLoopNumbersNothing(oracle, deadline, s, link(k).arrivals);
    FollowLeadsTo(oracle, link, deadline, prompt, s, k);
    StopsWithTail(oracle, link, deadline, prompt, s, k);
    TailNumbersNothing(s2.effects, Follow(oracle, link, deadline, prompt, s, k).exit);
  }

  lemma {:induction false} AttemptNumbers(oracle: Oracle, link: Link, deadline: nat, prompt: string, s: Session, k: nat)
    requires 0 < k <= 3 && Attempts(s.effects) == UpTo(k)
    ensures var o := Drive(oracle, link, deadline, prompt, s, k);
      o.streams > 0 && Attempts(o.session.effects) == UpTo(o.streams - 1)
    decreases 3 - k, 1
  {
    if link(k).opens {
      var (s1, replayed) := HandleAll(oracle, s, History(link(k)));
      HandleAllNumbersNothing(oracle, s, History(link(k)));
      DriveUnfolds(oracle, link, deadline, prompt, s, k, s1, replayed);
      if !replayed {
        FollowNumbers(oracle, link, deadline, prompt, s1, k);
      }
    } else {
      TailNumbersNothing(s.effects, OpenFailed);
    }
  }

  lemma {:induction false} TailNumbersNothing(effects: seq<Effect>, exit: Exit)
    ensures Attempts(effects + Tail(exit)) == Attempts(effects)
  {
    TailIsNoNote(exit);
    AttemptsConcat(effects, Tail(exit));
  }

  /** Each stream after the first has its reconnect line, numbered from one. */
  lemma {:induction false} AttemptsAreNumbered(oracle: Oracle, link: Link, deadline: nat, prompt: string, replies: seq<string>)
    ensures var o := Drive(oracle, link, deadline, prompt, Fresh(replies), 0);
      o.streams > 0 && Attempts(o.session.effects) == UpTo(o.streams - 1)
  {
    var s := Fresh(replies);
    if link(0).opens {
      var s1 := Emit(s, [Send(UserMessage(prompt))]);
      AttemptsConcat([], [Send(UserMessage(prompt))]);
      DriveUnfolds(oracle, link, deadline, prompt, s, 0, s1, false);
      FollowNumbers(oracle, link, deadline, prompt, s1, 0);
    } else {
      TailNumbersNothing([], OpenFailed);
      assert Drive(oracle, link, deadline, prompt, s, 0).session.effects == [] + Tail(OpenFailed);
    }
  }

  // ---------------------------------------------------------------- replay

  lemma {:induction false} HandlingSees(oracle: Oracle, s: Session, events: seq<Event>)
    ensures var (s', done) := HandleAll(oracle, s, events);
      && s.seen <= s'.seen
      && (!done ==> forall e :: e in events && e.id != "" ==> e.id in s'.seen)
    decreases |events|
  {
    if events != [] {
      var (s', done) := Handle(oracle, s, events[0]);
      if !done {
        HandlingSees(oracle, s', events[1..]);
        assert forall e :: e in events ==> e == events[0] || e in events[1..];
      }
    }
  }

  /** A reconnect that the history call answers has, by the time it reads its stream,
      taken in every event of the answer. */
  lemma {:induction false} ReplayBringsTheAnswer(oracle: Oracle, link: Link, deadline: nat, prompt: string, replies: seq<string>, k: nat, answer: seq<Event>)
    requires 0 < k <= 3 && link(k).history == Some(answer)
    requires Stage(oracle, link, deadline, prompt, replies, k).Some?
    ensures forall e :: e in answer && e.id != "" ==> e.id in Stage(oracle, link, deadline, prompt, replies, k).value.seen
  {
    var s := Stage(oracle, link, deadline, prompt, replies, k - 1).value;
    var s2 := ReadLoop(oracle, deadline, s, link(k - 1).arrivals).0;
    HandlingSees(oracle, Emit(s2, [Reconnecting(k)]), answer);
  }

  // ------------------------------------------------------------------ time

  /** What handling the events from the n-th to the m-th takes. */
  function Spent(oracle: Oracle, n: nat, m: nat): nat {
    if m <= n then 0 else Spent(oracle, n, m - 1) + oracle(m - 1).cost
  }

  /** How long the first k arrivals were waited for. */
  function Waited(arrivals: seq<Arrival>, k: nat): nat
    requires k <= |arrivals|
  {
    if k == 0 then 0 else Waited(arrivals, k - 1) + arrivals[k - 1].wait
  }

  lemma {:induction false} SpentSplits(oracle: Oracle, n: nat, k: nat, m: nat)
    requires n <= k <= m
    ensures Spent(oracle, n, m) == Spent(oracle, n, k) + Spent(oracle, k, m)
  {
    if k < m {
      SpentSplits(oracle, n, k, m - 1);
    }
  }

  lemma {:induction false} HandlingTakesItsTime(oracle: Oracle, s: Session, events: seq<Event>)
    ensures var s' := HandleAll(oracle, s, events).0;
      |s.handled| <= |s'.handled| && s'.clock == s.clock + Spent(oracle, |s.handled|, |s'.handled|)
    decreases |events|
  {
    if events != [] {
      var (s', done) := Handle(oracle, s, events[0]);
      if !done {
        HandlingTakesItsTime(oracle, s', events[1..]);
        SpentSplits(oracle, |s.handled|, |s'.handled|, |HandleAll(oracle, s', events[1..]).0.handled|);
      }
    }
  }

  /** A stream read until it drops or the run ends has taken what was waited for its
      arrivals and what handling them took, and stayed within the deadline until the
      last of them came; duplicates cost nothing. */
  lemma {:induction false} ReadingTakesItsTime(oracle: Oracle, deadline: nat, s: Session, arrivals: seq<Arrival>)
    returns (k: nat)
    ensures k <= |arrivals|
    ensures var (s', end) := ReadLoop(oracle, deadline, s, arrivals);
      && |s.handled| <= |s'.handled|
      && (!end.Expired? ==> k > 0 && s'.clock == s.clock + Waited(arrivals, k) + Spent(oracle, |s.handled|, |s'.handled|))
      && (end.Dropped? ==> !arrivals[k - 1].item.Incoming?)
    decreases |arrivals|
  {
    k := 0;
    ReadingByFirstItem(oracle, deadline, s, arrivals);
    if s.clock < deadline && arrivals != [] && s.clock + arrivals[0].wait <= deadline {
      k := 1;
      assert Waited(arrivals, 1) == arrivals[0].wait;
      if arrivals[0].item.Incoming? {
        var (s2, done) := Handle(oracle, s.(clock := s.clock + arrivals[0].wait), arrivals[0].item.event);
        if !done {
          var more := ReadingTakesItsTime(oracle, deadline, s2, arrivals[1..]);
          WaitedFirst(arrivals, more);
          SpentSplits(oracle, |s.handled|, |s2.handled|, |ReadLoop(oracle, deadline, s2, arrivals[1..]).0.handled|);
          k := more + 1;
        }
      }
    }
  }

  lemma {:induction false} WaitedFirst(arrivals: seq<Arrival>, k: nat)
    requires k < |arrivals|
    ensures Waited(arrivals, k + 1) == arrivals[0].wait + Waited(arrivals[1..], k)
  {
    if k > 0 {
      WaitedFirst(arrivals, k - 1);
    }
  }
}
