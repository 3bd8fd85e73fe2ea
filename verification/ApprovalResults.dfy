/**
 What the approval gate guarantees in every run.
 */
module ApprovalResults {
  import opened Prelude
  import opened ApprovalGate

  /** Any number of concurrent approve and reject calls: at most one is accepted
      per approval and its decision is the row's; a resolved row never changes
      again; the log has at most one resolution per approval, the right one; and
      two rows are never open together. */
  lemma ResolvedAtMostOnce(cfg: Config, s: State, a: Action)
    requires Reachable(cfg, s)
    ensures var s' := Step(cfg, s, a);
      && (forall i, j :: i in s.calls.requests && j in s.calls.requests && i != j && AcceptedPc(s.calls.requests[i].pc) && AcceptedPc(s.calls.requests[j].pc)
            ==> s.calls.requests[i].row != s.calls.requests[j].row)
      && (forall id :: id in s.calls.requests && AcceptedPc(s.calls.requests[id].pc) ==>
            s.calls.requests[id].row < |s.db.rows| && s.db.rows[s.calls.requests[id].row].status == Resolution(s.calls.requests[id].approve))
      && |s.db.rows| <= |s'.db.rows|
      && (forall i :: 0 <= i < |s.db.rows| ==>
            && s'.db.rows[i].purpose == s.db.rows[i].purpose
            && (s.db.rows[i].status != Pending ==> s'.db.rows[i] == s.db.rows[i])
            && (s'.db.rows[i] != s.db.rows[i] ==> a.Advance? && a.request in s.calls.requests && s.calls.requests[a.request].pc.Checked?))
      && (forall j, k :: 0 <= j < k < |s.history.log| ==> s.history.log[j].row != s.history.log[k].row)
      && (forall k :: 0 <= k < |s.history.log| ==>
            s.history.log[k].row < |s.db.rows| && s.db.rows[s.history.log[k].row].status == Resolution(s.history.log[k].approved))
      && (forall i, j :: 0 <= i < |s.db.rows| && 0 <= j < |s.db.rows| && i != j ==>
            s.db.rows[i].status != Pending || s.db.rows[j].status != Pending)
  {
    ReachableInv(cfg, s);
    RowsMove(cfg, s, a);
  }

  lemma RowsMove(cfg: Config, s: State, a: Action)
    requires Inv(cfg, s)
    ensures var s' := Step(cfg, s, a);
      && |s.db.rows| <= |s'.db.rows|
      && (forall i :: 0 <= i < |s.db.rows| ==>
            && s'.db.rows[i].purpose == s.db.rows[i].purpose
            && (s.db.rows[i].status != Pending ==> s'.db.rows[i] == s.db.rows[i])
            && (s'.db.rows[i] != s.db.rows[i] ==> a.Advance? && a.request in s.calls.requests && s.calls.requests[a.request].pc.Checked?))
  {
    if a.Advance? && a.request in s.calls.requests {
      RequestMovesRows(cfg, s, a.request);
    } else if IsWorkerAction(a) {
      WorkerMovesRows(cfg, s, a);
    }
  }

  lemma RequestMovesRows(cfg: Config, s: State, id: nat)
    requires id in s.calls.requests && LockInv(s.calls.requests, s.db.lock, s.db.rows, s.db.status)
    ensures var s' := AdvanceRequest(cfg, s, id);
      && |s.db.rows| == |s'.db.rows|
      && (forall i :: 0 <= i < |s.db.rows| ==>
            && s'.db.rows[i].purpose == s.db.rows[i].purpose
            && (s.db.rows[i].status != Pending ==> s'.db.rows[i] == s.db.rows[i])
            && (s'.db.rows[i] != s.db.rows[i] ==> s.calls.requests[id].pc.Checked?))
  {
    if !s.calls.requests[id].pc.Checked? {
      OnlyCommitWritesRows(cfg, s, id);
    }
  }

  lemma OnlyCommitWritesRows(cfg: Config, s: State, id: nat)
    requires id in s.calls.requests && !s.calls.requests[id].pc.Checked?
    ensures AdvanceRequest(cfg, s, id).db.rows == s.db.rows
  {
  }

  lemma WorkerMovesRows(cfg: Config, s: State, a: Action)
    requires IsWorkerAction(a)
    ensures s.db.rows <= WorkerStep(cfg, s, a).db.rows
    ensures !s.history.entered && WorkerStep(cfg, s, a).history.entered ==>
      a.Work? && (s.worker.Cleared? || (s.worker.Preparing? && !cfg.requireApproval))
  {
    if a.Work? {
      WorkMovesRows(cfg, s);
    }
  }

  lemma WorkMovesRows(cfg: Config, s: State)
    ensures s.db.rows <= WorkPiece(cfg, s).db.rows
    ensures !s.history.entered && WorkPiece(cfg, s).history.entered ==>
      s.worker.Cleared? || (s.worker.Preparing? && !cfg.requireApproval)
  {
    if !s.worker.Preparing? && !s.worker.Cleared? {
      assert WorkPiece(cfg, s).db.rows == s.db.rows && WorkPiece(cfg, s).history.entered == s.history.entered;
    }
  }

  /** With the initial approval required, `run` has been entered only if the launch
      row is APPROVED. */
  lemma LaunchGate(cfg: Config, s: State)
    requires Reachable(cfg, s) && cfg.requireApproval && s.history.entered
    ensures s.db.rows != [] && s.db.rows[0] == Row(Launch, Approved)
  {
    ReachableInv(cfg, s);
  }

  /** And at the moment of entry it is the row the worker's state names. */
  lemma EntryIsApproved(cfg: Config, s: State, a: Action)
    requires Reachable(cfg, s) && cfg.requireApproval
    ensures !s.history.entered && Step(cfg, s, a).history.entered ==>
      s.memory.approvalId == Some(0) && s.db.rows == [Row(Launch, Approved)] && Step(cfg, s, a).db.rows == s.db.rows
  {
    ReachableInv(cfg, s);
    if !s.history.entered && Step(cfg, s, a).history.entered {
      OthersNeverEnter(cfg, s, a);
      WorkerMovesRows(cfg, s, a);
      EntryIsCleared(cfg, s);
    }
  }

  lemma OthersNeverEnter(cfg: Config, s: State, a: Action)
    ensures IsWorkerAction(a) || Step(cfg, s, a).history.entered == s.history.entered
  {
  }

  /** Entering for the first time: the launch row is the only one. */
  lemma EntryIsCleared(cfg: Config, s: State)
    requires Inv(cfg, s) && cfg.requireApproval && !s.history.entered && s.worker.Cleared?
    ensures s.memory.approvalId == Some(0) && s.db.rows == [Row(Launch, Approved)] && WorkPiece(cfg, s).db.rows == s.db.rows
  {
    assert s.db.rows == [s.db.rows[0]];
  }

  /** Every confirmation answers the tool call its own approval row was made for,
      with that row's decision, and no tool-use id is answered twice. */
  lemma EveryAnswerHasItsApproval(cfg: Config, s: State)
    requires Reachable(cfg, s)
    ensures
      && (forall k :: 0 <= k < |s.tools.confirmations| ==>
            var c := s.tools.confirmations[k];
            c.row < |s.db.rows| && s.db.rows[c.row] == Row(Tool(c.tool), if c.allow then Approved else Rejected))
      && (forall j, k :: 0 <= j < k < |s.tools.confirmations| && s.tools.confirmations[j].tool != "" ==>
            s.tools.confirmations[j].tool != s.tools.confirmations[k].tool)
  {
    ReachableInv(cfg, s);
    forall k | 0 <= k < |s.tools.confirmations|
      ensures var c := s.tools.confirmations[k];
        c.row < |s.db.rows| && s.db.rows[c.row] == Row(Tool(c.tool), if c.allow then Approved else Rejected)
    {
      assert ConfirmationInv(s.db.rows, s.tools.seen, s.tools.confirmations[k]);
    }
  }

  /** Whenever an approve is accepted the worker's memory already names its row.
      Once its callback is over, in a run no cancel has touched, the worker is
      awake or has its wake-up pending, has moved on, or the task is failed or
      about to be: never left waiting. */
  lemma AcceptedApprovalIsNotLost(cfg: Config, s: State, id: nat)
    requires Reachable(cfg, s) && id in s.calls.requests && s.calls.requests[id].approve
    ensures var r := s.calls.requests[id];
      && (r.pc.Checked? ==> s.memory.approvalId == Some(r.row))
      && (r.pc.Finished? && !s.history.cancelled ==> NotLeftWaiting(cfg, s, r.row))
  {
    ReachableInv(cfg, s);
    NamedWhenChecked(cfg, s, id);
    NeverLeftWaiting(cfg, s, id);
  }

  predicate NotLeftWaiting(cfg: Config, s: State, row: nat) {
    || (s.worker == Waiting(row) && s.memory.event && WorkPiece(cfg, s).worker == Woken(row, true))
    || s.worker == Woken(row, true) || s.worker == Cleared(row)
    || s.worker.Streaming? || (OnRow(s.worker) && s.worker.row > row)
    || s.worker == TimedOut(row) || s.worker.Crashed?
    || s.db.status == Completed || s.db.status == Failed
  }

  lemma NamedWhenChecked(cfg: Config, s: State, id: nat)
    requires Inv(cfg, s) && id in s.calls.requests
    ensures s.calls.requests[id].pc.Checked? ==> s.memory.approvalId == Some(s.calls.requests[id].row)
  {
  }

  lemma NeverLeftWaiting(cfg: Config, s: State, id: nat)
    requires RowsInv(s.db.rows, s.worker) && RequestsInv(s.calls.requests, s.db.rows)
    requires MemoryInv(s.db.rows, s.worker, s.memory.approvalId, s.memory.granted, s.memory.event)
    requires !s.history.cancelled ==> NoCancelInv(s.db.status, s.db.rows, s.worker, s.calls.requests, s.memory.granted, s.memory.event)
    requires id in s.calls.requests && s.calls.requests[id].approve
    ensures s.calls.requests[id].pc.Finished? && !s.history.cancelled ==> NotLeftWaiting(cfg, s, s.calls.requests[id].row)
  {
    var r := s.calls.requests[id];
    if r.pc.Finished? && !s.history.cancelled {
      assert r.row < |s.db.rows| && s.db.rows[r.row].status == Approved;
      if s.worker == Waiting(r.row) {
        assert s.memory.event && s.memory.granted == Some(true);
      }
    }
  }

  /** And it gets there: whatever else has happened, from acceptance the request's
      remaining pieces wake a worker that still waits on the row. */
  lemma AcceptedApprovalReleases(cfg: Config, s: State, id: nat)
    requires Reachable(cfg, s) && !s.history.cancelled && id in s.calls.requests
    requires s.calls.requests[id].approve && s.calls.requests[id].pc.Accepted? && s.worker == Waiting(s.calls.requests[id].row)
    ensures var finished := Step(cfg, Step(cfg, Step(cfg, s, Advance(id)), Advance(id)), Advance(id));
      Step(cfg, finished, Work).worker == Woken(s.calls.requests[id].row, true)
  {
    ReachableInv(cfg, s);
    var row := s.calls.requests[id].row;
    assert s.db.rows[row].status == Approved && s.db.status == WaitingApproval && s.memory.approvalId == Some(row);
    RemainingPieces(cfg, s, id);
  }

  lemma RemainingPieces(cfg: Config, s: State, id: nat)
    requires id in s.calls.requests && s.calls.requests[id].approve && s.calls.requests[id].pc.Accepted?
    requires s.worker == Waiting(s.calls.requests[id].row) && s.db.status == WaitingApproval
    requires s.memory.registered && s.memory.approvalId == Some(s.calls.requests[id].row)
    ensures Step(cfg, Step(cfg, Step(cfg, Step(cfg, s, Advance(id)), Advance(id)), Advance(id)), Work).worker
            == Woken(s.calls.requests[id].row, true)
  {
    var s1 := AdvanceRequest(cfg, s, id);
    var s2 := AdvanceRequest(cfg, s1, id);
    var s3 := AdvanceRequest(cfg, s2, id);
    assert s1.calls.requests[id] == s.calls.requests[id].(pc := Recorded);
    assert s2.calls.requests[id] == s.calls.requests[id].(pc := StatusSeen);
    assert s3.memory.event && s3.memory.granted == Some(true) && s3.worker == s.worker;
  }

  /** A rejection reaches a managed worker and never a subprocess worker: once its
      callback is over, a worker still waiting on the rejected row has been woken
      with the refusal if the engine is managed; otherwise its next piece does
      nothing, so only the timeout, a crash or a cancel ends its wait. */
  lemma RejectionHeardOnlyByManaged(cfg: Config, s: State, id: nat)
    requires Reachable(cfg, s) && id in s.calls.requests
    requires var r := s.calls.requests[id]; !r.approve && r.pc.Finished? && s.worker == Waiting(r.row)
    ensures s.memory.event == cfg.managed
    ensures WorkPiece(cfg, s) == if cfg.managed then s.(worker := Woken(s.calls.requests[id].row, false)) else s
  {
    ReachableInv(cfg, s);
    var r := s.calls.requests[id];
    assert AcceptedPc(r.pc) && s.db.rows[r.row].status == Rejected;
  }

  /** With no cancel, a worker that has ended leaves the task COMPLETED or FAILED. */
  lemma EndedWorkerLeavesFinishedTask(cfg: Config, s: State)
    requires Reachable(cfg, s) && !s.history.cancelled && (s.worker.Closing? || s.worker.Gone?)
    ensures s.db.status == Completed || s.db.status == Failed
  {
    ReachableInv(cfg, s);
  }

  /** Cancelled is not final: the worker's next status write lands over it. */
  lemma CancelledIsNotFinal(cfg: Config)
    ensures exists s :: Reachable(cfg, s) && s.db.status == Cancelled && Step(cfg, s, Work).db.status == Starting
  {
    var s1 := Step(cfg, INITIAL, AskCancel(0));
    var s2 := Step(cfg, s1, AdvanceCancel(0));
    var s3 := Step(cfg, s2, AdvanceCancel(0));
    StartIsReachable(cfg);
    StepIsReachable(cfg, INITIAL, AskCancel(0));
    StepIsReachable(cfg, s1, AdvanceCancel(0));
    StepIsReachable(cfg, s2, AdvanceCancel(0));
    assert s3.db.status == Cancelled && Step(cfg, s3, Work).db.status == Starting;
  }
}
