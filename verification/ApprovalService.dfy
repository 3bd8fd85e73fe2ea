/**
 The approve and reject calls in their own imperative form: `_resolve`, the event
 log and the `handle_approval` callback, over mutable rows and worker memory. A
 call that nothing interleaves with is proved to be its actions in the gate's
 state machine, run one after the other.
 */
module ApprovalService {
  import opened Prelude
  import opened ApprovalGate

  /** Asking and then every piece of the request in turn; a request is over after
      six pieces at most, and a finished one takes no more steps. */
  function WholeCall(cfg: Config, s: State, id: nat, row: nat, approve: bool, owner: bool): State {
    Pieces(cfg, Step(cfg, s, Ask(id, row, approve, owner)), id, 7)
  }

  function Pieces(cfg: Config, s: State, id: nat, n: nat): State
    decreases n
  {
    if n == 0 then s else Pieces(cfg, Step(cfg, s, Advance(id)), id, n - 1)
  }

  /** The state with the request at a given place. */
  function At(s: State, id: nat, r: Request): (s': State)
    ensures id in s'.calls.requests && s'.calls.requests[id] == r
  {
    s.(calls := s.calls.(requests := s.calls.requests[id := r]))
  }

  /** An accepted call's effect on everything but the worker's memory. */
  function Logged(s: State, id: nat, row: nat, approve: bool): State
    requires row < |s.db.rows|
  {
    At(s, id, Request(row, approve, true, Finished)).(
      db := s.db.(rows := s.db.rows[row := s.db.rows[row].(status := Resolution(approve))],
                  status := if approve then s.db.status else Failed),
      history := s.history.(log := s.history.log + [Entry(row, approve, id)]))
  }

  /** The base engine's worker is told of an approval only. */
  function AfterCall(cfg: Config, s: State, id: nat, row: nat, approve: bool): State
    requires row < |s.db.rows|
  {
    if approve || cfg.managed then Callback(Logged(s, id, row, approve), row, approve)
    else Logged(s, id, row, approve)
  }

  predicate Accepts(s: State, row: nat, owner: bool) {
    owner && row < |s.db.rows| && s.db.rows[row].status.Pending? && s.db.status == WaitingApproval
  }

  /** What a whole call comes to: refused without a trace, or accepted, logged and
      passed on to the worker. */
  function Outcome(cfg: Config, s: State, id: nat, row: nat, approve: bool, owner: bool): State {
    if Accepts(s, row, owner) then AfterCall(cfg, s, id, row, approve)
    else At(s, id, Request(row, approve, owner, Refused))
  }

  /** A call that nothing interleaves with is its actions run in a row. */
  lemma {:induction false} UninterruptedCall(cfg: Config, s: State, id: nat, row: nat, approve: bool, owner: bool)
    requires id !in s.calls.requests && s.db.lock.None?
    ensures WholeCall(cfg, s, id, row, approve, owner) == Outcome(cfg, s, id, row, approve, owner)
  {
    if !Accepts(s, row, owner) {
      RefusedCall(cfg, s, id, row, approve, owner);
    } else if approve {
      ApprovedCall(cfg, s, id, row);
    } else {
      RejectedCall(cfg, s, id, row);
    }
  }

  /** `env` is what these calls leave alone, and the requests made so far. */
  class Backend {
    const cfg: Config
    var rows: seq<Row>
    var status: TaskStatus
    var log: seq<Entry>
    var approvalId: Option<nat>
    var granted: Option<bool>
    var event: bool
    var registered: bool
    ghost var env: State

    constructor (cfg: Config)
      ensures this.cfg == cfg && View() == INITIAL
    {
      this.cfg := cfg;
      rows, status, log := [], Queued, [];
      approvalId, granted, event, registered := None, None, false, true;
      env := INITIAL;
    }

    ghost function View(): State
      reads this
    {
      env.(db := env.db.(rows := rows, status := status), history := env.history.(log := log), memory := env.memory.(approvalId := approvalId, granted := granted, event := event, registered := registered))
    }

    method Resolve(row: nat, approve: bool, owner: bool) returns (ok: bool)
      modifies this`rows, this`status
      ensures ok <==> owner && row < |old(rows)| && old(rows)[row].status.Pending? && old(status) == WaitingApproval
      ensures rows == if ok then old(rows)[row := old(rows)[row].(status := Resolution(approve))] else old(rows)
      ensures status == if ok && !approve then Failed else old(status)
    {
      if !owner || row >= |rows| {
        return false;
      }
      if rows[row].status != Pending {
        return false;
      }
      if status != WaitingApproval {
        return false;
      }
      rows := rows[row := rows[row].(status := Resolution(approve))];
      if !approve {
        status := Failed;
      }
      return true;
    }

    method HandleApproval(row: nat, approved: bool)
      modifies this`granted, this`event
      ensures var heard := (old(status) == WaitingApproval || (cfg.managed && !approved))
                           && registered && approvalId == Some(row);
        && granted == (if heard then Some(approved) else old(granted))
        && event == (heard || old(event))
    {
      if !cfg.managed || approved {
        if status != WaitingApproval {
          return;
        }
      }
      if !registered {
        return;
      }
      if approvalId != Some(row) {
        return;
      }
      granted := Some(approved);
      event := true;
    }

    /** From the request to the callback. */
    method Approve(id: nat, row: nat, owner: bool) returns (ok: bool)
      requires id !in env.calls.requests && env.db.lock.None?
      modifies this
      ensures View() == Outcome(cfg, old(View()), id, row, true, owner)
      ensures ok <==> id in View().calls.requests && View().calls.requests[id].pc.Finished?
    {
      ghost var s := View();
      ok := Resolve(row, true, owner);
      if !ok {
        env := Outcome(cfg, s, id, row, true, owner);
        return;
      }
      log := log + [Entry(row, true, id)];
      HandleApproval(row, true);
      env := Outcome(cfg, s, id, row, true, owner);
      AfterCallFields(cfg, s, id, row, true);
    }

    method Reject(id: nat, row: nat, owner: bool) returns (ok: bool)
      requires id !in env.calls.requests && env.db.lock.None?
      modifies this
      ensures View() == Outcome(cfg, old(View()), id, row, false, owner)
      ensures ok <==> id in View().calls.requests && View().calls.requests[id].pc.Finished?
    {
      ghost var s := View();
      ok := Resolve(row, false, owner);
      if !ok {
        env := Outcome(cfg, s, id, row, false, owner);
        return;
      }
      log := log + [Entry(row, false, id)];
      HandleApproval(row, false);
      env := Outcome(cfg, s, id, row, false, owner);
      AfterCallFields(cfg, s, id, row, false);
    }
  }

  lemma NextPiece(cfg: Config, s: State, id: nat, n: nat)
    requires id in s.calls.requests && n > 0
    ensures Pieces(cfg, s, id, n) == Pieces(cfg, AdvanceRequest(cfg, s, id), id, n - 1)
  {
  }

  lemma {:induction false} NoMorePieces(cfg: Config, s: State, id: nat, n: nat)
    requires id in s.calls.requests && (s.calls.requests[id].pc.Refused? || s.calls.requests[id].pc.Finished?)
    ensures Pieces(cfg, s, id, n) == s
    decreases n
  {
    if n > 0 {
      NoMorePieces(cfg, s, id, n - 1);
    }
  }

  lemma AtAt(s: State, id: nat, r: Request, r': Request)
    ensures At(At(s, id, r), id, r') == At(s, id, r')
  {
    assert s.calls.requests[id := r][id := r'] == s.calls.requests[id := r'];
  }

  lemma {:induction false} RefusedCall(cfg: Config, s: State, id: nat, row: nat, approve: bool, owner: bool)
    requires id !in s.calls.requests && s.db.lock.None?
    requires !Accepts(s, row, owner)
    ensures WholeCall(cfg, s, id, row, approve, owner) == At(s, id, Request(row, approve, owner, Refused))
  {
    var r := Request(row, approve, owner, Asked);
    NextPiece(cfg, At(s, id, r), id, 7);
    AtAt(s, id, r, r.(pc := Refused));
    if row >= |s.db.rows| || !owner {
      NoMorePieces(cfg, At(s, id, r.(pc := Refused)), id, 6);
    } else {
      AtAt(s, id, r, r.(pc := Locked));
      RefusedUnderLock(cfg, s, id, row, approve);
    }
  }

  lemma {:induction false} RefusedUnderLock(cfg: Config, s: State, id: nat, row: nat, approve: bool)
    requires row < |s.db.rows| && !(s.db.rows[row].status.Pending? && s.db.status == WaitingApproval) && s.db.lock.None?
    ensures Pieces(cfg, At(s, id, Request(row, approve, true, Locked)).(db := s.db.(lock := Some(id))), id, 6)
            == At(s, id, Request(row, approve, true, Refused))
  {
    var r := Request(row, approve, true, Locked);
    NextPiece(cfg, At(s, id, r).(db := s.db.(lock := Some(id))), id, 6);
    AtAt(s, id, r, r.(pc := Refused));
    NoMorePieces(cfg, At(s, id, r.(pc := Refused)), id, 5);
  }

  lemma {:induction false} AcceptedCall(cfg: Config, s: State, id: nat, row: nat, approve: bool)
    requires id !in s.calls.requests && s.db.lock.None?
    requires row < |s.db.rows| && s.db.rows[row].status.Pending? && s.db.status == WaitingApproval
    ensures WholeCall(cfg, s, id, row, approve, true)
            == Pieces(cfg, At(s, id, Request(row, approve, true, Accepted)).(
                 db := s.db.(rows := s.db.rows[row := s.db.rows[row].(status := Resolution(approve))])), id, 4)
  {
    var r := Request(row, approve, true, Asked);
    NextPiece(cfg, At(s, id, r), id, 7);
    AtAt(s, id, r, r.(pc := Locked));
    LockedCall(cfg, s, id, row, approve);
  }

  lemma {:induction false} LockedCall(cfg: Config, s: State, id: nat, row: nat, approve: bool)
    requires row < |s.db.rows| && s.db.rows[row].status.Pending? && s.db.status == WaitingApproval && s.db.lock.None?
    ensures Pieces(cfg, At(s, id, Request(row, approve, true, Locked)).(db := s.db.(lock := Some(id))), id, 6)
            == Pieces(cfg, At(s, id, Request(row, approve, true, Accepted)).(
                 db := s.db.(rows := s.db.rows[row := s.db.rows[row].(status := Resolution(approve))])), id, 4)
  {
    var r := Request(row, approve, true, Locked);
    var s1 := At(s, id, r).(db := s.db.(lock := Some(id)));
    NextPiece(cfg, s1, id, 6);
    AtAt(s, id, r, r.(pc := Checked));
    var s2 := At(s, id, r.(pc := Checked)).(db := s.db.(lock := Some(id)));
    NextPiece(cfg, s2, id, 5);
    AtAt(s, id, r.(pc := Checked), r.(pc := Accepted));
  }

  lemma AfterCallFields(cfg: Config, s: State, id: nat, row: nat, approve: bool)
    requires row < |s.db.rows|
    ensures var heard := (approve || cfg.managed) && s.memory.registered && s.memory.approvalId == Some(row);
      var o := AfterCall(cfg, s, id, row, approve);
      && o.db.rows == s.db.rows[row := s.db.rows[row].(status := Resolution(approve))]
      && o.db.status == (if approve then s.db.status else Failed)
      && o.history.log == s.history.log + [Entry(row, approve, id)]
      && o.memory.approvalId == s.memory.approvalId && o.memory.registered == s.memory.registered
      && o.memory.granted == (if heard then Some(approve) else s.memory.granted)
      && o.memory.event == (heard || s.memory.event)
      && id in o.calls.requests && o.calls.requests[id].pc.Finished?
  {
  }

  lemma {:induction false} ApprovedCall(cfg: Config, s: State, id: nat, row: nat)
    requires id !in s.calls.requests && s.db.lock.None?
    requires row < |s.db.rows| && s.db.rows[row].status.Pending? && s.db.status == WaitingApproval
    ensures WholeCall(cfg, s, id, row, true, true) == AfterCall(cfg, s, id, row, true)
  {
    AcceptedCall(cfg, s, id, row, true);
    var base := s.(db := s.db.(rows := s.db.rows[row := s.db.rows[row].(status := Approved)]));
    LogsTheApproval(cfg, base, id, row);
    var logged := base.(history := base.history.(log := s.history.log + [Entry(row, true, id)]));
    AfterLogging(cfg, logged, id, row);
    assert At(logged, id, Request(row, true, true, Finished)) == Logged(s, id, row, true);
  }

  lemma {:induction false} LogsTheApproval(cfg: Config, s: State, id: nat, row: nat)
    ensures Pieces(cfg, At(s, id, Request(row, true, true, Accepted)), id, 4)
            == Pieces(cfg, At(s.(history := s.history.(log := s.history.log + [Entry(row, true, id)])), id, Request(row, true, true, Recorded)), id, 3)
  {
    var r := Request(row, true, true, Accepted);
    NextPiece(cfg, At(s, id, r), id, 4);
    AtAt(s, id, r, r.(pc := Recorded));
  }

  lemma {:induction false} AfterLogging(cfg: Config, s: State, id: nat, row: nat)
    requires s.db.status == WaitingApproval
    ensures Pieces(cfg, At(s, id, Request(row, true, true, Recorded)), id, 3)
            == Callback(At(s, id, Request(row, true, true, Finished)), row, true)
  {
    var r := Request(row, true, true, Recorded);
    NextPiece(cfg, At(s, id, r), id, 3);
    AtAt(s, id, r, r.(pc := StatusSeen));
    NextPiece(cfg, At(s, id, r.(pc := StatusSeen)), id, 2);
    AtAt(s, id, r.(pc := StatusSeen), r.(pc := Finished));
    NoMorePieces(cfg, Callback(At(s, id, r.(pc := Finished)), row, true), id, 1);
  }

  lemma {:induction false} RejectedCall(cfg: Config, s: State, id: nat, row: nat)
    requires id !in s.calls.requests && s.db.lock.None?
    requires row < |s.db.rows| && s.db.rows[row].status.Pending? && s.db.status == WaitingApproval
    ensures WholeCall(cfg, s, id, row, false, true) == AfterCall(cfg, s, id, row, false)
  {
    AcceptedCall(cfg, s, id, row, false);
    var base := s.(db := s.db.(rows := s.db.rows[row := s.db.rows[row].(status := Rejected)]));
    FailsTheTask(cfg, base, id, row);
    var failed := base.(db := base.db.(status := Failed));
    AfterFailing(cfg, failed, id, row);
    assert At(failed, id, Request(row, false, true, Finished)).(history := s.history.(log := s.history.log + [Entry(row, false, id)]))
        == Logged(s, id, row, false);
  }

  lemma {:induction false} FailsTheTask(cfg: Config, s: State, id: nat, row: nat)
    requires s.db.lock.None?
    ensures Pieces(cfg, At(s, id, Request(row, false, true, Accepted)), id, 4)
            == Pieces(cfg, At(s.(db := s.db.(status := Failed)), id, Request(row, false, true, TaskFailed)), id, 3)
  {
    var r := Request(row, false, true, Accepted);
    NextPiece(cfg, At(s, id, r), id, 4);
    AtAt(s, id, r, r.(pc := TaskFailed));
  }

  lemma {:induction false} AfterFailing(cfg: Config, s: State, id: nat, row: nat)
    requires s.db.status == Failed
    ensures var after := At(s, id, Request(row, false, true, Finished)).(history := s.history.(log := s.history.log + [Entry(row, false, id)]));
      Pieces(cfg, At(s, id, Request(row, false, true, TaskFailed)), id, 3)
      == if cfg.managed then Callback(after, row, false) else after
  {
    var r := Request(row, false, true, TaskFailed);
    NextPiece(cfg, At(s, id, r), id, 3);
    AtAt(s, id, r, r.(pc := Recorded));
    AfterRejectionLogged(cfg, s.(history := s.history.(log := s.history.log + [Entry(row, false, id)])), id, row);
  }

  lemma {:induction false} AfterRejectionLogged(cfg: Config, s: State, id: nat, row: nat)
    requires s.db.status == Failed
    ensures var after := At(s, id, Request(row, false, true, Finished));
      Pieces(cfg, At(s, id, Request(row, false, true, Recorded)), id, 2)
      == if cfg.managed then Callback(after, row, false) else after
  {
    var r := Request(row, false, true, Recorded);
    NextPiece(cfg, At(s, id, r), id, 2);
    AtAt(s, id, r, r.(pc := Finished));
    var last := At(s, id, r.(pc := Finished));
    NoMorePieces(cfg, if cfg.managed then Callback(last, row, false) else last, id, 1);
  }
}
