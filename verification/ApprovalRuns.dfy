/**
 What can still happen to a task from a given state of the approval gate: when a
 cancel is final, and runs that show what the gate does not promise.
 */
module ApprovalRuns {
  import opened Prelude
  import opened ApprovalGate

  function Continue(cfg: Config, s: State, acts: seq<Action>): State
    decreases |acts|
  {
    if acts == [] then s else Continue(cfg, Step(cfg, s, acts[0]), acts[1..])
  }

  // ------------------------------------------------------- one step from CANCELLED

  /** The worker's next piece writes the task row. */
  predicate WritesNext(pc: WorkerPc) {
    pc.Booting? || pc.Started? || pc.Named? || pc.TimedOut? || pc.Cleared? || pc.Crashed?
  }

  /** A rejection between its two commits. */
  predicate Unsettled(s: State, id: nat) {
    id in s.calls.requests && s.calls.requests[id].pc.Accepted? && !s.calls.requests[id].approve
  }

  predicate WritesOver(s: State, a: Action) {
    && s.db.lock.None?
    && match a
       case Work => WritesNext(s.worker)
       case End(_) => s.worker.Streaming?
       case Advance(id) => Unsettled(s, id)
       case _ => false
  }

  /** CANCELLED is overwritten in one step exactly by a worker's status write or by
      the second commit of a rejection, and by either only while no request holds
      the row. */
  lemma CancelledIsLostExactly(cfg: Config, s: State, a: Action)
    requires s.db.status == Cancelled
    ensures Step(cfg, s, a).db.status != Cancelled <==> WritesOver(s, a)
  {
    match a {
      case Advance(id) =>
        if id in s.calls.requests {
          RequestOverCancel(cfg, s, id);
        }
      case AdvanceCancel(id) =>
        if id in s.calls.cancels {
          CancelOverCancel(s, id);
        }
      case Ask(_, _, _, _) =>
      case AskCancel(_) =>
      case _ => WorkerOverCancel(cfg, s, a);
    }
  }

  lemma RequestOverCancel(cfg: Config, s: State, id: nat)
    requires s.db.status == Cancelled && id in s.calls.requests
    ensures AdvanceRequest(cfg, s, id).db.status != Cancelled <==> s.db.lock.None? && Unsettled(s, id)
  {
  }

  lemma CancelOverCancel(s: State, id: nat)
    requires s.db.status == Cancelled && id in s.calls.cancels
    ensures AdvanceCancelling(s, id).db.status == Cancelled
  {
  }

  lemma WorkerOverCancel(cfg: Config, s: State, a: Action)
    requires s.db.status == Cancelled && IsWorkerAction(a)
    ensures WorkerStep(cfg, s, a).db.status != Cancelled <==> WritesOver(s, a)
  {
  }

  // --------------------------------------------------------- runs from CANCELLED

  /** Whoever the lock names is between taking and giving up the row locks. */
  predicate HolderInv(requests: map<nat, Request>, lock: Option<nat>) {
    lock.Some? ==> lock.value in requests && (requests[lock.value].pc.Locked? || requests[lock.value].pc.Checked?)
  }

  lemma HolderKept(cfg: Config, s: State, a: Action)
    requires HolderInv(s.calls.requests, s.db.lock) && LockInv(s.calls.requests, s.db.lock, s.db.rows, s.db.status)
    ensures HolderInv(Step(cfg, s, a).calls.requests, Step(cfg, s, a).db.lock)
  {
    match a {
      case Advance(id) =>
        if id in s.calls.requests {
          RequestKeepsHolder(cfg, s, id);
        }
      case AdvanceCancel(id) =>
      case Ask(_, _, _, _) =>
      case AskCancel(_) =>
      case _ => WorkerKeepsHolder(cfg, s, a);
    }
  }

  lemma RequestKeepsHolder(cfg: Config, s: State, id: nat)
    requires HolderInv(s.calls.requests, s.db.lock) && LockInv(s.calls.requests, s.db.lock, s.db.rows, s.db.status) && id in s.calls.requests
    ensures HolderInv(AdvanceRequest(cfg, s, id).calls.requests, AdvanceRequest(cfg, s, id).db.lock)
  {
  }

  lemma WorkerKeepsHolder(cfg: Config, s: State, a: Action)
    requires IsWorkerAction(a)
    ensures WorkerStep(cfg, s, a).calls.requests == s.calls.requests && WorkerStep(cfg, s, a).db.lock == s.db.lock
  {
  }

  lemma {:induction false} HolderAlways(cfg: Config, schedule: seq<Action>)
    ensures HolderInv(Run(cfg, schedule).calls.requests, Run(cfg, schedule).db.lock)
  {
    if schedule != [] {
      var before := schedule[..|schedule| - 1];
      HolderAlways(cfg, before);
      Always(cfg, before);
      HolderKept(cfg, Run(cfg, before), schedule[|schedule| - 1]);
    }
  }

  /** The worker is on its way out and no rejection is between its commits. */
  ghost predicate CancelSettled(s: State) {
    && (s.worker.Closing? || s.worker.Gone?)
    && forall id :: !Unsettled(s, id)
  }

  /** Then nobody can write over the cancel, now or later: a request that has not
      been accepted yet never will be. */
  lemma SettledStays(cfg: Config, s: State, a: Action)
    requires Inv(cfg, s) && s.db.status == Cancelled && CancelSettled(s)
    ensures Step(cfg, s, a).db.status == Cancelled && CancelSettled(Step(cfg, s, a))
  {
    CancelledIsLostExactly(cfg, s, a);
    match a {
      case Advance(id) =>
        if id in s.calls.requests {
          NoneIsAccepted(cfg, s, id);
        }
      case _ => OthersAcceptNone(cfg, s, a);
    }
  }

  lemma NoneIsAccepted(cfg: Config, s: State, id: nat)
    requires LockInv(s.calls.requests, s.db.lock, s.db.rows, s.db.status) && s.db.status == Cancelled && id in s.calls.requests
    requires forall other :: !Unsettled(s, other)
    ensures AdvanceRequest(cfg, s, id).worker == s.worker
    ensures forall other :: !Unsettled(AdvanceRequest(cfg, s, id), other)
  {
    assert !s.calls.requests[id].pc.Checked?;
    var s' := AdvanceRequest(cfg, s, id);
    assert s'.calls.requests == s.calls.requests[id := s'.calls.requests[id]];
    assert !Unsettled(s, id) && !Unsettled(s', id);
    forall other ensures !Unsettled(s', other) {
      assert !Unsettled(s, other);
    }
  }

  lemma OthersAcceptNone(cfg: Config, s: State, a: Action)
    requires CancelSettled(s) && !a.Advance?
    ensures CancelSettled(Step(cfg, s, a))
  {
    var s' := Step(cfg, s, a);
    assert s'.worker.Closing? || s'.worker.Gone?;
    forall id ensures !Unsettled(s', id) {
      assert !Unsettled(s, id);
    }
  }

  lemma {:induction false} SettledForGood(cfg: Config, s: State, acts: seq<Action>)
    requires Inv(cfg, s) && s.db.status == Cancelled && CancelSettled(s)
    ensures Continue(cfg, s, acts).db.status == Cancelled
    decreases |acts|
  {
    if acts != [] {
      SettledStays(cfg, s, acts[0]);
      StepKeepsInv(cfg, s, acts[0]);
      SettledForGood(cfg, Step(cfg, s, acts[0]), acts[1..]);
    }
  }

  /** A holder of the row finds the task cancelled and lets go. */
  lemma LockIsFreed(cfg: Config, s: State) returns (acts: seq<Action>)
    requires HolderInv(s.calls.requests, s.db.lock) && LockInv(s.calls.requests, s.db.lock, s.db.rows, s.db.status) && s.db.status == Cancelled
    ensures var s' := Continue(cfg, s, acts);
      && s'.db.lock.None? && s'.db.status == Cancelled && s'.worker == s.worker
      && forall id :: Unsettled(s, id) ==> Unsettled(s', id)
  {
    if s.db.lock.None? {
      acts := [];
    } else {
      acts := [Advance(s.db.lock.value)];
      HolderLetsGo(cfg, s);
      ContinueOne(cfg, s, acts[0]);
    }
  }

  lemma HolderLetsGo(cfg: Config, s: State)
    requires s.db.lock.Some? && s.db.status == Cancelled
    requires HolderInv(s.calls.requests, s.db.lock) && LockInv(s.calls.requests, s.db.lock, s.db.rows, s.db.status)
    ensures var s' := Step(cfg, s, Advance(s.db.lock.value));
      && s'.db.lock.None? && s'.db.status == Cancelled && s'.worker == s.worker
      && forall id :: Unsettled(s, id) ==> Unsettled(s', id)
  {
    var id := s.db.lock.value;
    assert s.calls.requests[id].pc.Locked?;
    assert Step(cfg, s, Advance(id)) == Moved(s, id, Refused).(db := s.db.(lock := None));
  }

  lemma {:induction false} ContinueOne(cfg: Config, s: State, a: Action)
    ensures Continue(cfg, s, [a]) == Step(cfg, s, a)
  {
    assert [a][1..] == [];
  }

  lemma {:induction false} ContinueSplits(cfg: Config, s: State, first: seq<Action>, rest: seq<Action>)
    ensures Continue(cfg, s, first + rest) == Continue(cfg, Continue(cfg, s, first), rest)
    decreases |first|
  {
    if first == [] {
      assert first + rest == rest;
    } else {
      assert (first + rest)[1..] == first[1..] + rest;
      ContinueSplits(cfg, Step(cfg, s, first[0]), first[1..], rest);
    }
  }

  /** Otherwise some continuation does: the unsettled rejection commits, or the
      worker fails at its next piece and says so in the task row. */
  lemma UnsettledIsLost(cfg: Config, s: State) returns (acts: seq<Action>)
    requires HolderInv(s.calls.requests, s.db.lock) && LockInv(s.calls.requests, s.db.lock, s.db.rows, s.db.status)
    requires s.db.status == Cancelled && !CancelSettled(s)
    ensures Continue(cfg, s, acts).db.status != Cancelled
  {
    var freeing := LockIsFreed(cfg, s);
    var s1 := Continue(cfg, s, freeing);
    if id :| Unsettled(s, id) {
      CancelledIsLostExactly(cfg, s1, Advance(id));
      ContinueOne(cfg, s1, Advance(id));
      ContinueSplits(cfg, s, freeing, [Advance(id)]);
      acts := freeing + [Advance(id)];
    } else if s.worker.Crashed? {
      CancelledIsLostExactly(cfg, s1, Work);
      ContinueOne(cfg, s1, Work);
      ContinueSplits(cfg, s, freeing, [Work]);
      acts := freeing + [Work];
    } else {
      var s2 := Step(cfg, s1, Crash);
      assert s2 == s1.(worker := Crashed);
      CancelledIsLostExactly(cfg, s2, Work);
      ContinueOne(cfg, s1, Crash);
      ContinueOne(cfg, s2, Work);
      ContinueSplits(cfg, s1, [Crash], [Work]);
      ContinueSplits(cfg, s, freeing, [Crash] + [Work]);
      acts := freeing + ([Crash] + [Work]);
    }
  }

  /** In every reachable state: CANCELLED stays on every continuation if and only if
      the worker is past its last status write and no rejection stands between its
      two commits. */
  lemma {:induction false} CancelledStaysExactlyWhen(cfg: Config, s: State)
    requires Reachable(cfg, s) && s.db.status == Cancelled
    ensures (forall acts :: Continue(cfg, s, acts).db.status == Cancelled) <==> CancelSettled(s)
  {
    ReachableInv(cfg, s);
    var schedule :| s == Run(cfg, schedule);
    HolderAlways(cfg, schedule);
    if CancelSettled(s) {
      forall acts ensures Continue(cfg, s, acts).db.status == Cancelled {
        SettledForGood(cfg, s, acts);
      }
    } else {
      var acts := UnsettledIsLost(cfg, s);
      assert Continue(cfg, s, acts).db.status != Cancelled;
    }
  }

  // ------------------------------------------------------ what a cancel may do

  predicate Over(status: TaskStatus) {
    status == Cancelled || status == Completed || status == Failed
  }

  function CancelSteps(id: nat, n: nat): (acts: seq<Action>)
    ensures |acts| == n && forall i :: 0 <= i < n ==> acts[i] == AdvanceCancel(id)
  {
    seq(n, i => AdvanceCancel(id))
  }

  /** The state but for one cancel's progress. */
  function WithCancel(s: State, id: nat, pc: CancelPc): State {
    s.(calls := s.calls.(cancels := s.calls.cancels[id := pc]))
  }

  /** A cancel of a task that is over is refused: rows, task, worker and memory stay,
      however far the call runs. */
  lemma {:induction false} FinishedTaskRefusesCancel(cfg: Config, s: State, id: nat, n: nat)
    requires id !in s.calls.cancels && Over(s.db.status) && n > 0
    ensures Continue(cfg, Step(cfg, s, AskCancel(id)), CancelSteps(id, n)) == WithCancel(s, id, CancelDone)
  {
    var s1 := Step(cfg, s, AskCancel(id));
    assert s1 == WithCancel(s, id, CancelAsked);
    OneCancelStep(cfg, s1, id, n);
    CancelOverwrites(s.calls.cancels, id, CancelAsked, CancelDone);
    assert Step(cfg, s1, AdvanceCancel(id)) == WithCancel(s, id, CancelDone);
    DoneCancelRests(cfg, WithCancel(s, id, CancelDone), id, n - 1);
  }

  lemma {:induction false} DoneCancelRests(cfg: Config, s: State, id: nat, n: nat)
    requires id in s.calls.cancels && s.calls.cancels[id].CancelDone?
    ensures Continue(cfg, s, CancelSteps(id, n)) == s
  {
    if n > 0 {
      OneCancelStep(cfg, s, id, n);
      DoneCancelRests(cfg, s, id, n - 1);
    }
  }

  /** A cancel of a task that is not over, with the row free and nothing in between:
      the task is CANCELLED and the worker on its way out. */
  lemma {:induction false} OpenTaskIsCancelled(cfg: Config, s: State, id: nat, n: nat)
    requires id !in s.calls.cancels && !Over(s.db.status) && s.db.lock.None? && n >= 3
    ensures Continue(cfg, Step(cfg, s, AskCancel(id)), CancelSteps(id, n))
            == WithCancel(s, id, CancelDone).(
                 db := s.db.(status := Cancelled), history := s.history.(cancelled := true),
                 worker := if s.worker.Closing? || s.worker.Gone? then s.worker else Closing)
  {
    var s1 := WithCancel(s, id, CancelAsked);
    var s2 := WithCancel(s, id, CancelChecked);
    var s3 := WithCancel(s, id, CancelWritten).(db := s.db.(status := Cancelled), history := s.history.(cancelled := true));
    var s4 := s3.(calls := WithCancel(s, id, CancelDone).calls,
                  worker := if s.worker.Closing? || s.worker.Gone? then s.worker else Closing);
    assert Step(cfg, s, AskCancel(id)) == s1;
    CancelPieces(cfg, s, id);
    OneCancelStep(cfg, s1, id, n);
    OneCancelStep(cfg, s2, id, n - 1);
    OneCancelStep(cfg, s3, id, n - 2);
    DoneCancelRests(cfg, s4, id, n - 3);
  }

  lemma CancelPieces(cfg: Config, s: State, id: nat)
    requires !Over(s.db.status) && s.db.lock.None?
    ensures var s3 := WithCancel(s, id, CancelWritten).(db := s.db.(status := Cancelled), history := s.history.(cancelled := true));
      && Step(cfg, WithCancel(s, id, CancelAsked), AdvanceCancel(id)) == WithCancel(s, id, CancelChecked)
      && Step(cfg, WithCancel(s, id, CancelChecked), AdvanceCancel(id)) == s3
      && Step(cfg, s3, AdvanceCancel(id))
         == s3.(calls := WithCancel(s, id, CancelDone).calls,
                worker := if s.worker.Closing? || s.worker.Gone? then s.worker else Closing)
  {
    CancelOverwrites(s.calls.cancels, id, CancelAsked, CancelChecked);
    CancelOverwrites(s.calls.cancels, id, CancelChecked, CancelWritten);
    CancelOverwrites(s.calls.cancels, id, CancelWritten, CancelDone);
  }

  lemma CancelOverwrites(cancels: map<nat, CancelPc>, id: nat, pc: CancelPc, pc': CancelPc)
    ensures cancels[id := pc][id := pc'] == cancels[id := pc']
  {
  }

  lemma {:induction false} OneCancelStep(cfg: Config, s: State, id: nat, n: nat)
    requires n > 0
    ensures Continue(cfg, s, CancelSteps(id, n)) == Continue(cfg, Step(cfg, s, AdvanceCancel(id)), CancelSteps(id, n - 1))
  {
    assert CancelSteps(id, n)[1..] == CancelSteps(id, n - 1);
  }

  /** Only a cancel that has passed its check writes CANCELLED. */
  lemma OnlyACancelCancels(cfg: Config, s: State, a: Action)
    requires s.db.status != Cancelled && Step(cfg, s, a).db.status == Cancelled
    ensures a.AdvanceCancel? && a.cancel in s.calls.cancels && s.calls.cancels[a.cancel].CancelChecked?
  {
    if IsWorkerAction(a) {
      WorkerNeverCancels(cfg, s, a);
    } else if a.Advance? && a.request in s.calls.requests {
      RequestNeverCancels(cfg, s, a.request);
    }
  }

  lemma WorkerNeverCancels(cfg: Config, s: State, a: Action)
    requires IsWorkerAction(a)
    ensures WorkerStep(cfg, s, a).db.status == Cancelled ==> s.db.status == Cancelled
  {
  }

  lemma RequestNeverCancels(cfg: Config, s: State, id: nat)
    requires id in s.calls.requests
    ensures AdvanceRequest(cfg, s, id).db.status == Cancelled ==> s.db.status == Cancelled
  {
  }

  /** Action n of the schedule was the check of the cancel, and it saw an open task. */
  ghost predicate CheckedAt(cfg: Config, schedule: seq<Action>, n: nat, id: nat) {
    && n < |schedule| && schedule[n] == AdvanceCancel(id)
    && var s := Run(cfg, schedule[..n]);
    id in s.calls.cancels && s.calls.cancels[id].CancelAsked? && !Over(s.db.status)
  }

  predicate PastCheck(s: State, id: nat) {
    id in s.calls.cancels && (s.calls.cancels[id].CancelChecked? || s.calls.cancels[id].CancelWritten?)
  }

  lemma PassesByItsCheck(cfg: Config, s: State, a: Action, id: nat)
    requires !PastCheck(s, id) && PastCheck(Step(cfg, s, a), id)
    ensures a == AdvanceCancel(id) && id in s.calls.cancels && s.calls.cancels[id].CancelAsked? && !Over(s.db.status)
  {
    if a.Advance? && a.request in s.calls.requests {
      RequestKeepsCancels(cfg, s, a.request);
    } else if IsWorkerAction(a) {
      WorkerKeepsCancels(cfg, s, a);
    }
  }

  lemma RequestKeepsCancels(cfg: Config, s: State, id: nat)
    requires id in s.calls.requests
    ensures AdvanceRequest(cfg, s, id).calls.cancels == s.calls.cancels
  {
  }

  lemma WorkerKeepsCancels(cfg: Config, s: State, a: Action)
    requires IsWorkerAction(a)
    ensures WorkerStep(cfg, s, a).calls == s.calls
  {
  }

  lemma {:induction false} PastCheckWasChecked(cfg: Config, schedule: seq<Action>, id: nat)
    requires PastCheck(Run(cfg, schedule), id)
    ensures exists n: nat :: CheckedAt(cfg, schedule, n, id)
  {
    if schedule != [] {
      var last := |schedule| - 1;
      var before := schedule[..last];
      if PastCheck(Run(cfg, before), id) {
        PastCheckWasChecked(cfg, before, id);
        var n: nat :| CheckedAt(cfg, before, n, id);
        assert before[..n] == schedule[..n];
        assert CheckedAt(cfg, schedule, n, id);
      } else {
        PassesByItsCheck(cfg, Run(cfg, before), schedule[last], id);
        assert CheckedAt(cfg, schedule, last, id);
      }
    }
  }

  /** In every run, a task becomes CANCELLED only by a cancel whose own check, earlier
      in the run, saw a task that was not over. */
  lemma {:induction false} CancelledComesFromItsCheck(cfg: Config, schedule: seq<Action>, a: Action)
    requires Run(cfg, schedule).db.status != Cancelled && Step(cfg, Run(cfg, schedule), a).db.status == Cancelled
    ensures a.AdvanceCancel? && exists n: nat :: CheckedAt(cfg, schedule, n, a.cancel)
  {
    OnlyACancelCancels(cfg, Run(cfg, schedule), a);
    PastCheckWasChecked(cfg, schedule, a.cancel);
  }

  /** While a request holds the row, nobody's status write lands. */
  lemma LockedRowKeepsItsStatus(cfg: Config, s: State, a: Action)
    requires s.db.lock.Some?
    ensures Step(cfg, s, a).db.status == s.db.status
  {
    if a.Advance? && a.request in s.calls.requests {
      LockedFromRequests(cfg, s, a.request);
    } else if IsWorkerAction(a) {
      LockedFromWorker(cfg, s, a);
    }
  }

  lemma LockedFromRequests(cfg: Config, s: State, id: nat)
    requires s.db.lock.Some? && id in s.calls.requests
    ensures AdvanceRequest(cfg, s, id).db.status == s.db.status
  {
  }

  lemma LockedFromWorker(cfg: Config, s: State, a: Action)
    requires s.db.lock.Some? && IsWorkerAction(a)
    ensures WorkerStep(cfg, s, a).db.status == s.db.status
  {
  }

  // ------------------------------------------------- what the worker goes on to do

  /** The start-up, piece by piece, with the row free throughout. */
  lemma {:induction false} StartsUp(cfg: Config)
    ensures var s1 := Step(cfg, INITIAL, Work); var s2 := Step(cfg, s1, Work); var s3 := Step(cfg, s2, Work);
      && s1.db.status == Starting && s2.db.status == Running && s2.db.rows == []
      && (!cfg.requireApproval ==> s3.worker.Streaming? && s3.history.entered && s3.db.rows == [])
      && (cfg.requireApproval ==> s3.db.rows == [Row(Launch, Pending)] && !s3.history.entered)
  {
  }

  /** A woken worker does what the decision says: a granted launch enters `run` unless
      the task was cancelled; a granted call is allowed and the session goes on; a
      refusal denies the call, if there is one, and ends the worker. */
  lemma {:induction false} WokenWorkerActsOnTheDecision(cfg: Config, s: State)
    requires Reachable(cfg, s) && s.worker.Woken? && s.db.lock.None?
    ensures s.worker.row < |s.db.rows|
    ensures var purpose := s.db.rows[s.worker.row].purpose;
      var s1 := Step(cfg, s, Work); var s2 := Step(cfg, s1, Work);
      var goesOn := s.worker.granted && (purpose.Tool? || s.db.status != Cancelled);
      && (goesOn ==> s2.worker.Streaming? && s2.db.status == Running && s2.history.entered)
      && (!goesOn ==> s1.worker.Closing? && s1.db == s.db && s1.history == s.history)
      && (purpose.Tool? ==> s1.tools.pendingTool.None?)
      && (purpose.Tool? ==> s1.tools.confirmations == s.tools.confirmations
                                                      + [Confirmation(purpose.id, s.worker.granted, s.worker.row)])
      && (purpose.Launch? ==> s1.tools == s.tools)
  {
    ReachableInv(cfg, s);
  }

  /** An unanswered wait fails the task and ends the worker. */
  lemma {:induction false} TimeoutFailsTheTask(cfg: Config, s: State)
    requires s.worker.Waiting? && s.db.lock.None?
    ensures var s2 := Step(cfg, Step(cfg, s, Expire), Work);
      s2.db == s.db.(status := Failed) && s2.worker.Closing? && s2.memory == s.memory
  {
  }

  /** A piece that raises fails the task at the next one, wherever it was. */
  lemma CrashFailsTheTask(cfg: Config, s: State)
    requires !Ending(s.worker) && s.db.lock.None?
    ensures var s2 := Step(cfg, Step(cfg, s, Crash), Work);
      s2.db == s.db.(status := Failed) && s2.worker.Closing? && s2.memory == s.memory && s2.history == s.history
  {
  }

  /** The end of `run` is the task's. */
  lemma EndOfRunIsWritten(cfg: Config, s: State, completed: bool)
    requires s.worker.Streaming? && s.db.lock.None?
    ensures var s' := Step(cfg, s, End(completed));
      s'.db == s.db.(status := if completed then Completed else Failed) && s'.worker.Closing? && s'.tools == s.tools
  {
  }

  /** The pending tool call of a streaming managed worker is the last one seen for the
      first time, until a result comes. */
  lemma {:induction false} ToolEventsMoveThePendingCall(cfg: Config, s: State, id: string)
    requires s.worker.Streaming? && cfg.managed
    ensures id == "" || id !in s.tools.seen ==> Step(cfg, s, SeeToolUse(id)).tools.pendingTool == Some(id)
    ensures id != "" && id in s.tools.seen ==> Step(cfg, s, SeeToolUse(id)) == s
    ensures Step(cfg, s, SeeToolResult).tools.pendingTool.None?
  {
  }

  predicate Ended(s: State) {
    s.worker.Closing? || s.worker.Gone?
  }

  lemma EndedStays(cfg: Config, s: State, a: Action)
    requires Ended(s)
    ensures Ended(Step(cfg, s, a)) && Step(cfg, s, a).history.entered == s.history.entered
    ensures Step(cfg, s, a).tools == s.tools
  {
    if a.Advance? && a.request in s.calls.requests {
      RequestLeavesTheWorker(cfg, s, a.request);
    } else if IsWorkerAction(a) {
      EndedWorkerRests(cfg, s, a);
    }
  }

  lemma RequestLeavesTheWorker(cfg: Config, s: State, id: nat)
    requires id in s.calls.requests
    ensures var s' := AdvanceRequest(cfg, s, id);
      s'.worker == s.worker && s'.tools == s.tools && s'.history.entered == s.history.entered
  {
  }

  lemma EndedWorkerRests(cfg: Config, s: State, a: Action)
    requires Ended(s) && IsWorkerAction(a)
    ensures var s' := WorkerStep(cfg, s, a);
      Ended(s') && s'.tools == s.tools && s'.history == s.history
  {
  }

  /** A worker that has ended never launches and never answers again. */
  lemma {:induction false} EndedForGood(cfg: Config, s: State, acts: seq<Action>)
    requires Ended(s)
    ensures var s' := Continue(cfg, s, acts);
      Ended(s') && s'.history.entered == s.history.entered && s'.tools == s.tools
    decreases |acts|
  {
    if acts != [] {
      EndedStays(cfg, s, acts[0]);
      EndedForGood(cfg, Step(cfg, s, acts[0]), acts[1..]);
    }
  }

  /** The state table holds the worker exactly until it is gone; a callback after that
      changes nothing. */
  lemma {:induction false} GoneIsForgotten(cfg: Config, schedule: seq<Action>, row: nat, approved: bool)
    ensures var s := Run(cfg, schedule);
      (s.memory.registered <==> !s.worker.Gone?) && (s.worker.Gone? ==> Callback(s, row, approved) == s)
  {
    if schedule != [] {
      var before := schedule[..|schedule| - 1];
      GoneIsForgotten(cfg, before, row, approved);
      TableKept(cfg, Run(cfg, before), schedule[|schedule| - 1]);
    }
  }

  lemma TableKept(cfg: Config, s: State, a: Action)
    requires s.memory.registered <==> !s.worker.Gone?
    ensures var s' := Step(cfg, s, a); s'.memory.registered <==> !s'.worker.Gone?
  {
    if a.Advance? && a.request in s.calls.requests {
      RequestLeavesTheTable(cfg, s, a.request);
    } else if IsWorkerAction(a) {
      WorkerKeepsTheTable(cfg, s, a);
    }
  }

  lemma RequestLeavesTheTable(cfg: Config, s: State, id: nat)
    requires id in s.calls.requests
    ensures var s' := AdvanceRequest(cfg, s, id);
      s'.memory.registered == s.memory.registered && s'.worker == s.worker
  {
  }

  lemma WorkerKeepsTheTable(cfg: Config, s: State, a: Action)
    requires IsWorkerAction(a) && (s.memory.registered <==> !s.worker.Gone?)
    ensures var s' := WorkerStep(cfg, s, a); s'.memory.registered <==> !s'.worker.Gone?
  {
  }

  // ------------------------------------------------------------- witnesses

  /** The worker waits for the launch approval. */
  const WAITING := State(Db([Row(Launch, Pending)], WaitingApproval, None), Waiting(0),
                         Memory(Some(0), None, false, true), Tools({}, None, []), Calls(map[], map[]),
                         History([], false, false))

  /** A rejection of it, after its first commit. */
  const REJECTING := WAITING.(db := Db([Row(Launch, ApprovalGate.Rejected)], WaitingApproval, None),
                              calls := Calls(map[0 := Request(0, false, true, Accepted)], map[]))

  lemma {:induction false} WaitingIsReachable(cfg: Config)
    requires cfg.requireApproval
    ensures Reachable(cfg, WAITING)
  {
    var s1 := Step(cfg, INITIAL, Work);
    var s2 := Step(cfg, s1, Work);
    var s3 := Step(cfg, s2, Work);
    var s4 := Step(cfg, s3, Work);
    StartIsReachable(cfg);
    StepIsReachable(cfg, INITIAL, Work);
    StepIsReachable(cfg, s1, Work);
    StepIsReachable(cfg, s2, Work);
    StepIsReachable(cfg, s3, Work);
    StepIsReachable(cfg, s4, Work);
    assert s3.db.rows == [Row(Launch, Pending)] && s3.worker == RowCreated(0);
    assert Step(cfg, s4, Work) == WAITING;
  }

  lemma {:induction false} RejectingIsReachable(cfg: Config)
    requires cfg.requireApproval
    ensures Reachable(cfg, REJECTING)
  {
    var s1 := Step(cfg, WAITING, Ask(0, 0, false, true));
    var s2 := Step(cfg, s1, Advance(0));
    var s3 := Step(cfg, s2, Advance(0));
    WaitingIsReachable(cfg);
    StepIsReachable(cfg, WAITING, Ask(0, 0, false, true));
    StepIsReachable(cfg, s1, Advance(0));
    StepIsReachable(cfg, s2, Advance(0));
    StepIsReachable(cfg, s3, Advance(0));
    assert s3.calls.requests == map[0 := Request(0, false, true, Checked)];
    assert Step(cfg, s3, Advance(0)) == REJECTING;
  }

  /** A cancel that landed between the two commits, with the worker on its way out. */
  const OVERTAKEN := REJECTING.(worker := Closing,
                                db := Db([Row(Launch, ApprovalGate.Rejected)], Cancelled, None),
                                calls := Calls(map[0 := Request(0, false, true, Accepted)], map[0 := CancelDone]),
                                history := History([], false, true))

  lemma {:induction false} OvertakenIsReachable(cfg: Config)
    requires cfg.requireApproval
    ensures Reachable(cfg, OVERTAKEN)
  {
    var s1 := Step(cfg, REJECTING, AskCancel(0));
    var s2 := Step(cfg, s1, AdvanceCancel(0));
    var s3 := Step(cfg, s2, AdvanceCancel(0));
    RejectingIsReachable(cfg);
    StepIsReachable(cfg, REJECTING, AskCancel(0));
    StepIsReachable(cfg, s1, AdvanceCancel(0));
    StepIsReachable(cfg, s2, AdvanceCancel(0));
    StepIsReachable(cfg, s3, AdvanceCancel(0));
    assert s2.calls.cancels == map[0 := CancelChecked] && s3.calls.cancels == map[0 := CancelWritten];
    assert Step(cfg, s3, AdvanceCancel(0)) == OVERTAKEN;
  }

  /** Such a cancel is overwritten although the worker no longer writes. */
  lemma {:induction false} RejectionCommitsOverCancel(cfg: Config)
    requires cfg.requireApproval
    ensures exists s, id :: Reachable(cfg, s) && s.db.status == Cancelled && s.worker.Closing? && Unsettled(s, id)
                            && Step(cfg, s, Advance(id)).db.status == Failed
  {
    OvertakenIsReachable(cfg);
    assert Unsettled(OVERTAKEN, 0) && Step(cfg, OVERTAKEN, Advance(0)).db.status == Failed;
  }

  /** A subprocess worker that never hears of its rejection: the request is over,
      the event was not set, and the worker still waits. */
  lemma {:induction false} RejectionGoesUnheard(cfg: Config)
    requires cfg.requireApproval && !cfg.managed
    ensures exists s, id :: Reachable(cfg, s) && id in s.calls.requests && !s.calls.requests[id].approve
                            && s.calls.requests[id].pc.Finished? && s.worker == Waiting(s.calls.requests[id].row)
                            && !s.memory.event
  {
    var s1 := Step(cfg, REJECTING, Advance(0));
    var s2 := Step(cfg, s1, Advance(0));
    var s3 := Step(cfg, s2, Advance(0));
    RejectingIsReachable(cfg);
    StepIsReachable(cfg, REJECTING, Advance(0));
    StepIsReachable(cfg, s1, Advance(0));
    StepIsReachable(cfg, s2, Advance(0));
    assert s1.calls.requests[0].pc == TaskFailed && s2.calls.requests[0].pc == Recorded;
    assert s3.calls.requests[0] == Request(0, false, true, Finished) && s3.worker == Waiting(0) && !s3.memory.event;
  }
}
