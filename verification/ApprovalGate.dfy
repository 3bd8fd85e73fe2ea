/**
 The approval gate of one task: the worker, any number of approve and reject
 requests and any number of cancels, over the approval rows, the task row and the
 worker's in-memory state.

 Every coroutine is cut at its suspension points; one action runs one piece. An
 action that is not enabled leaves the state as it is, so a schedule is any
 sequence of actions and a statement about all schedules covers every
 interleaving.
 */
module ApprovalGate {
  import opened Prelude

  datatype ApprovalStatus = Pending | Approved | Rejected
  datatype Purpose = Launch | Tool(id: string)
  datatype Row = Row(purpose: Purpose, status: ApprovalStatus)

  datatype Config = Config(managed: bool, requireApproval: bool)

  datatype WorkerPc =
    | Booting
    | Started
    | Preparing
    | RowCreated(row: nat)            // create_approval_request returned
    | Named(row: nat)                 // state.approval_id names the row
    | Waiting(row: nat)               // WAITING_APPROVAL written, event awaited
    | TimedOut(row: nat)
    | Woken(row: nat, granted: bool)  // the event was set; approval_granted read
    | Cleared(row: nat)               // RUNNING is written next
    | Streaming                       // inside process_runner.run
    | Crashed                         // FAILED is written next
    | Closing
    | Gone                            // no longer in the state table

  datatype RequestPc =
    | Asked
    | Locked      // holds the approval row and the task row
    | Checked     // PENDING and WAITING_APPROVAL seen, locks still held
    | Accepted    // first commit done, locks released
    | TaskFailed  // rejection only: second commit done
    | Recorded    // approved/rejected event appended
    | StatusSeen  // callback read WAITING_APPROVAL
    | Finished
    | Refused     // not found, already resolved, or not waiting

  datatype Request = Request(row: nat, approve: bool, owner: bool, pc: RequestPc)
  datatype CancelPc = CancelAsked | CancelChecked | CancelWritten | CancelDone
  datatype Entry = Entry(row: nat, approved: bool, request: nat)
  datatype Confirmation = Confirmation(tool: string, allow: bool, row: nat)

  /** The approval rows, the task row and who holds their locks. */
  datatype Db = Db(rows: seq<Row>, status: TaskStatus, lock: Option<nat>)

  /** The worker's `RuntimeState`, and whether the state table still has it. */
  datatype Memory = Memory(approvalId: Option<nat>, granted: Option<bool>, event: bool, registered: bool)

  /** What the managed session has seen, asked about and answered. */
  datatype Tools = Tools(seen: set<string>, pendingTool: Option<string>, confirmations: seq<Confirmation>)

  datatype Calls = Calls(requests: map<nat, Request>, cancels: map<nat, CancelPc>)

  /** The resolution events, whether `run` was entered, and whether a cancel has
      written the task row. */
  datatype History = History(log: seq<Entry>, entered: bool, cancelled: bool)

  datatype State = State(db: Db, worker: WorkerPc, memory: Memory, tools: Tools, calls: Calls, history: History)

  const INITIAL := State(Db([], Queued, None), Booting, Memory(None, None, false, true), Tools({}, None, []),
                         Calls(map[], map[]), History([], false, false))

  datatype Action =
    | Work                 // the worker's next piece
    | Expire               // the approval wait times out
    | Crash                // the worker's next piece raises
    | SeeToolUse(id: string)
    | SeeToolResult
    | AskForTool           // idle with a pending tool call
    | End(completed: bool)
    | Ask(request: nat, row: nat, approve: bool, owner: bool)
    | Advance(request: nat)
    | AskCancel(cancel: nat)
    | AdvanceCancel(cancel: nat)

  // --------------------------------------------------------------- worker

  /** A status write of the worker: a transaction of its own on the task row. */
  function Write(s: State, status: TaskStatus, next: WorkerPc): (s': State)
    ensures s'.db.rows == s.db.rows && s'.history.entered == s.history.entered
  {
    if s.db.lock.None? then s.(worker := next, db := s.db.(status := status)) else s
  }

  function OpenRow(s: State, purpose: Purpose): (s': State)
    ensures s.db.rows <= s'.db.rows && s'.history.entered == s.history.entered
  {
    s.(db := s.db.(rows := s.db.rows + [Row(purpose, Pending)]), worker := RowCreated(|s.db.rows|))
  }

  /** The launch names its row in a fresh state; a tool call renews the event too,
      in one locked section. */
  function NameRow(s: State, row: nat): (s': State)
    ensures s'.db.rows == s.db.rows && s'.history.entered == s.history.entered
  {
    if row < |s.db.rows| && s.db.rows[row].purpose.Tool?
    then s.(worker := Named(row), memory := s.memory.(approvalId := Some(row), granted := None, event := false))
    else s.(worker := Named(row), memory := s.memory.(approvalId := Some(row)))
  }

  /** After the wait: a tool call is answered, a launch checks for a cancel. */
  function Answer(s: State, row: nat, granted: bool): (s': State)
    ensures s'.db.rows == s.db.rows && s'.history.entered == s.history.entered
  {
    if row < |s.db.rows| && s.db.rows[row].purpose.Tool?
    then s.(worker := if granted then Cleared(row) else Closing,
            tools := s.tools.(pendingTool := None,
              confirmations := s.tools.confirmations + [Confirmation(s.db.rows[row].purpose.id, granted, row)]))
    else s.(worker := if granted && s.db.status != Cancelled then Cleared(row) else Closing)
  }

  function WorkPiece(cfg: Config, s: State): State {
    match s.worker
    case Booting => Write(s, Starting, Started)
    case Started => Write(s, Running, Preparing)
    case Preparing =>
      if cfg.requireApproval then OpenRow(s, Launch) else s.(worker := Streaming, history := s.history.(entered := true))
    case RowCreated(row) => NameRow(s, row)
    case Named(row) => Write(s, WaitingApproval, Waiting(row))
    case Waiting(row) => if s.memory.event then s.(worker := Woken(row, s.memory.granted == Some(true))) else s
    case TimedOut(row) => Write(s, Failed, Closing)
    case Woken(row, granted) => Answer(s, row, granted)
    case Cleared(row) =>
      if s.db.lock.None?
      then s.(worker := Streaming, db := s.db.(status := Running), history := s.history.(entered := true)) else s
    case Crashed => Write(s, Failed, Closing)
    case Closing => s.(worker := Gone, memory := s.memory.(registered := false))
    case Streaming => s
    case Gone => s
  }

  predicate Ending(pc: WorkerPc) {
    pc.Crashed? || pc.Closing? || pc.Gone?
  }

  function WorkerStep(cfg: Config, s: State, a: Action): State {
    match a
    case Work => WorkPiece(cfg, s)
    case Expire => if s.worker.Waiting? then s.(worker := TimedOut(s.worker.row)) else s
    case Crash => if Ending(s.worker) then s else s.(worker := Crashed)
    case SeeToolUse(id) =>
      if s.worker.Streaming? && cfg.managed && (id == "" || id !in s.tools.seen)
      then s.(tools := s.tools.(seen := if id == "" then s.tools.seen else s.tools.seen + {id}, pendingTool := Some(id)))
      else s
    case SeeToolResult => if s.worker.Streaming? && cfg.managed then s.(tools := s.tools.(pendingTool := None)) else s
    case AskForTool =>
      if s.worker.Streaming? && s.tools.pendingTool.Some? then OpenRow(s, Tool(s.tools.pendingTool.value)) else s
    case End(completed) =>
      if s.worker.Streaming? then Write(s, if completed then Completed else Failed, Closing) else s
    case _ => s
  }

  // ------------------------------------------------------------- requests

  function Resolution(approve: bool): ApprovalStatus {
    if approve then Approved else Rejected
  }

  function Moved(s: State, id: nat, pc: RequestPc): State
    requires id in s.calls.requests
  {
    s.(calls := s.calls.(requests := s.calls.requests[id := s.calls.requests[id].(pc := pc)]))
  }

  /** The callback's locked section: release the worker if it still waits for this
      approval. */
  function Callback(s: State, row: nat, approved: bool): State {
    if s.memory.registered && s.memory.approvalId == Some(row)
    then s.(memory := s.memory.(granted := Some(approved), event := true)) else s
  }

  /** `get_with_task`: one statement locks the approval row and the task row. */
  function TakeLocks(s: State, id: nat): (s': State)
    requires id in s.calls.requests
    ensures s'.db.rows == s.db.rows && s'.history.entered == s.history.entered
  {
    var r := s.calls.requests[id];
    if r.row >= |s.db.rows| || !r.owner then Moved(s, id, Refused)
    else if s.db.lock.None? then Moved(s, id, Locked).(db := s.db.(lock := Some(id))) else s
  }

  function Check(s: State, id: nat): (s': State)
    requires id in s.calls.requests
    ensures s'.db.rows == s.db.rows && s'.history.entered == s.history.entered
  {
    var r := s.calls.requests[id];
    if r.row < |s.db.rows| && s.db.rows[r.row].status.Pending? && s.db.status == WaitingApproval
    then Moved(s, id, Checked)
    else Moved(s, id, Refused).(db := s.db.(lock := None))
  }

  /** The first commit of `_resolve`. */
  function CommitResolution(s: State, id: nat): (s': State)
    requires id in s.calls.requests
    ensures s'.history.entered == s.history.entered
  {
    var r := s.calls.requests[id];
    if r.row < |s.db.rows|
    then Moved(s, id, Accepted).(db := s.db.(lock := None,
           rows := s.db.rows[r.row := s.db.rows[r.row].(status := Resolution(r.approve))]))
    else s
  }

  /** What follows acceptance: a rejection's second commit, the log entry. */
  function Settle(s: State, id: nat): (s': State)
    requires id in s.calls.requests
    ensures s'.db.rows == s.db.rows && s'.history.entered == s.history.entered
  {
    var r := s.calls.requests[id];
    if r.pc.Accepted? && !r.approve then
      if s.db.lock.None? then Moved(s, id, TaskFailed).(db := s.db.(status := Failed)) else s
    else Moved(s, id, Recorded).(history := s.history.(log := s.history.log + [Entry(r.row, r.approve, id)]))
  }

  /** `handle_approval`: the managed override delivers a rejection at once, the
      base version first reads the task status. */
  function Notify(cfg: Config, s: State, id: nat): (s': State)
    requires id in s.calls.requests
    ensures s'.db.rows == s.db.rows && s'.history.entered == s.history.entered
  {
    var r := s.calls.requests[id];
    if r.pc.StatusSeen? then Callback(Moved(s, id, Finished), r.row, r.approve)
    else if cfg.managed && !r.approve then Callback(Moved(s, id, Finished), r.row, false)
    else if s.db.status == WaitingApproval then Moved(s, id, StatusSeen)
    else Moved(s, id, Finished)
  }

  function AdvanceRequest(cfg: Config, s: State, id: nat): State
    requires id in s.calls.requests
  {
    match s.calls.requests[id].pc
    case Asked => TakeLocks(s, id)
    case Locked => Check(s, id)
    case Checked => CommitResolution(s, id)
    case Accepted => Settle(s, id)
    case TaskFailed => Settle(s, id)
    case Recorded => Notify(cfg, s, id)
    case StatusSeen => Notify(cfg, s, id)
    case Finished => s
    case Refused => s
  }

  function AdvanceCancelling(s: State, id: nat): (s': State)
    requires id in s.calls.cancels
    ensures s'.history.entered == s.history.entered && s'.db.rows == s.db.rows
  {
    match s.calls.cancels[id]
    case CancelAsked =>
      if s.db.status == Cancelled || s.db.status == Completed || s.db.status == Failed
      then s.(calls := s.calls.(cancels := s.calls.cancels[id := CancelDone]))
      else s.(calls := s.calls.(cancels := s.calls.cancels[id := CancelChecked]))
    case CancelChecked =>
      if s.db.lock.None?
      then s.(calls := s.calls.(cancels := s.calls.cancels[id := CancelWritten]), db := s.db.(status := Cancelled),
              history := s.history.(cancelled := true))
      else s
    case CancelWritten =>
      s.(calls := s.calls.(cancels := s.calls.cancels[id := CancelDone]),
         worker := if s.worker.Closing? || s.worker.Gone? then s.worker else Closing)
    case CancelDone => s
  }

  function Step(cfg: Config, s: State, a: Action): State {
    match a
    case Ask(id, row, approve, owner) =>
      if id in s.calls.requests then s
      else s.(calls := s.calls.(requests := s.calls.requests[id := Request(row, approve, owner, Asked)]))
    case Advance(id) => if id in s.calls.requests then AdvanceRequest(cfg, s, id) else s
    case AskCancel(id) =>
      if id in s.calls.cancels then s else s.(calls := s.calls.(cancels := s.calls.cancels[id := CancelAsked]))
    case AdvanceCancel(id) => if id in s.calls.cancels then AdvanceCancelling(s, id) else s
    case _ => WorkerStep(cfg, s, a)
  }

  function Run(cfg: Config, schedule: seq<Action>): State {
    if schedule == [] then INITIAL
    else Step(cfg, Run(cfg, schedule[..|schedule| - 1]), schedule[|schedule| - 1])
  }

  // ------------------------------------------------------------ invariants

  predicate OnRow(pc: WorkerPc) {
    pc.RowCreated? || pc.Named? || pc.Waiting? || pc.TimedOut? || pc.Woken? || pc.Cleared?
  }

  predicate AcceptedPc(pc: RequestPc) {
    pc.Accepted? || pc.TaskFailed? || pc.Recorded? || pc.StatusSeen? || pc.Finished?
  }

  predicate RecordedPc(pc: RequestPc) {
    pc.Recorded? || pc.StatusSeen? || pc.Finished?
  }

  // Each invariant takes the fields it speaks about, so a step that leaves them
  // alone keeps it without further reasoning.

  /** Where the worker stands against the rows: only the newest row can be open,
      the ones before it were all approved. */
  ghost predicate RowsInv(rows: seq<Row>, worker: WorkerPc) {
    && (forall i :: 0 <= i < |rows| - 1 ==> rows[i].status == Approved)
    && (OnRow(worker) ==> worker.row == |rows| - 1)
    && (worker.Booting? || worker.Started? || worker.Preparing? ==> rows == [])
    && (worker.Streaming? && rows != [] ==> rows[|rows| - 1].status == Approved)
    && (worker.RowCreated? || worker.Named? ==> rows[|rows| - 1].status == Pending)
    && ((worker.Woken? && worker.granted) || worker.Cleared? ==> rows[|rows| - 1].status == Approved)
    && (worker.Woken? && !worker.granted ==> rows[|rows| - 1].status == Rejected)
    && (forall i :: 0 <= i < |rows| && rows[i].purpose.Launch? ==> i == 0)
  }

  /** What the worker's memory says is true of the rows. */
  ghost predicate MemoryInv(rows: seq<Row>, worker: WorkerPc, approvalId: Option<nat>, granted: Option<bool>, event: bool) {
    && (worker.Booting? || worker.Started? || worker.Preparing? ==> approvalId.None?)
    && (approvalId.Some? ==> approvalId.value < |rows|)
    && (worker.RowCreated? && approvalId.Some? ==> approvalId.value < worker.row)
    && (OnRow(worker) && !worker.RowCreated? ==> approvalId == Some(worker.row))
    && (event <==> granted.Some?)
    && (granted.Some? ==> approvalId.Some? && rows[approvalId.value].status == Resolution(granted.value))
  }

  /** The task row says WAITING_APPROVAL only while the worker's memory names the
      newest row. */
  ghost predicate StatusInv(status: TaskStatus, rows: seq<Row>, worker: WorkerPc, approvalId: Option<nat>) {
    status == WaitingApproval ==>
      && (worker.Waiting? || worker.TimedOut? || worker.Woken? || worker.Cleared? || Ending(worker))
      && rows != [] && approvalId == Some(|rows| - 1)
  }

  /** The row locks: whoever has checked still sees what it checked. */
  ghost predicate LockInv(requests: map<nat, Request>, lock: Option<nat>, rows: seq<Row>, status: TaskStatus) {
    forall id :: id in requests && (requests[id].pc.Locked? || requests[id].pc.Checked?) ==>
      && lock == Some(id)
      && (requests[id].pc.Checked? ==>
            requests[id].row < |rows| && rows[requests[id].row].status.Pending? && status == WaitingApproval)
  }

  /** An accepted request fixed its row, and no two were accepted on one row. */
  ghost predicate RequestsInv(requests: map<nat, Request>, rows: seq<Row>) {
    && (forall id :: id in requests && AcceptedPc(requests[id].pc) ==>
          requests[id].row < |rows| && rows[requests[id].row].status == Resolution(requests[id].approve))
    && (forall i, j :: i in requests && j in requests && i != j && AcceptedPc(requests[i].pc) && AcceptedPc(requests[j].pc)
          ==> requests[i].row != requests[j].row)
    && (forall id :: id in requests && requests[id].approve ==> !requests[id].pc.TaskFailed?)
    && (forall id :: id in requests && !requests[id].approve ==> !requests[id].pc.StatusSeen?)
  }

  ghost predicate RejectedInv(requests: map<nat, Request>, status: TaskStatus) {
    forall id :: id in requests && !requests[id].approve && (requests[id].pc.TaskFailed? || requests[id].pc.Recorded?)
      ==> status != WaitingApproval
  }

  ghost predicate LogInv(log: seq<Entry>, requests: map<nat, Request>) {
    && (forall k :: 0 <= k < |log| ==>
          && log[k].request in requests && RecordedPc(requests[log[k].request].pc)
          && requests[log[k].request].row == log[k].row
          && requests[log[k].request].approve == log[k].approved)
    && (forall j, k :: 0 <= j < k < |log| ==> log[j].request != log[k].request)
  }

  /** Tool calls: the one asked about is the pending one, and an id that was seen
      cannot become pending again, so none is confirmed twice. */
  ghost predicate ToolsInv(rows: seq<Row>, worker: WorkerPc, pendingTool: Option<string>, seen: set<string>, confirmations: seq<Confirmation>) {
    && (OnRow(worker) && !worker.Cleared? && worker.row < |rows| && rows[worker.row].purpose.Tool? ==>
          pendingTool == Some(rows[worker.row].purpose.id))
    && (pendingTool.Some? && pendingTool.value != "" ==>
          pendingTool.value in seen && forall k :: 0 <= k < |confirmations| ==> confirmations[k].tool != pendingTool.value)
    && (forall k :: 0 <= k < |confirmations| ==> ConfirmationInv(rows, seen, confirmations[k]))
    && (forall j, k :: 0 <= j < k < |confirmations| && confirmations[j].tool != "" ==>
          confirmations[j].tool != confirmations[k].tool)
  }

  ghost predicate ConfirmationInv(rows: seq<Row>, seen: set<string>, c: Confirmation) {
    && c.row < |rows| && rows[c.row] == Row(Tool(c.tool), Resolution(c.allow))
    && (c.tool != "" ==> c.tool in seen)
  }

  ghost predicate EntryInv(cfg: Config, rows: seq<Row>, worker: WorkerPc, entered: bool) {
    && (cfg.requireApproval && rows != [] ==> rows[0].purpose == Launch)
    && (worker.Streaming? ==> entered)
    && (cfg.requireApproval && entered ==> rows != [] && rows[0].status == Approved)
    && (worker.Preparing? || worker.Booting? || worker.Started? ==> !entered)
    && (!entered ==> |rows| <= 1)
  }

  /** What holds as long as no cancel has written the task row. */
  ghost predicate NoCancelInv(status: TaskStatus, rows: seq<Row>, worker: WorkerPc, requests: map<nat, Request>, granted: Option<bool>, event: bool) {
    && status != Cancelled
    && (worker.Waiting? && worker.row < |rows| && rows[worker.row].status != Rejected ==> status == WaitingApproval)
    && (forall id :: id in requests && !requests[id].approve && (requests[id].pc.TaskFailed? || RecordedPc(requests[id].pc))
          ==> status == Failed)
    && (granted == Some(false) || (worker.Woken? && !worker.granted) ==> status == Failed)
    && (worker.Closing? || worker.Gone? ==> status == Completed || status == Failed)
    && (forall id :: id in requests && requests[id].approve && requests[id].pc.Finished? && worker == Waiting(requests[id].row)
          ==> event)
  }

  /** The managed engine's override delivers every rejection. */
  ghost predicate HeardInv(managed: bool, requests: map<nat, Request>, worker: WorkerPc, event: bool) {
    managed ==>
      forall id :: id in requests && !requests[id].approve && requests[id].pc.Finished? && worker == Waiting(requests[id].row)
        ==> event
  }

  ghost predicate CancelsInv(cancels: map<nat, CancelPc>, cancelled: bool) {
    forall id :: id in cancels && cancels[id] == CancelWritten ==> cancelled
  }

  ghost predicate Inv(cfg: Config, s: State) {
    && RowsInv(s.db.rows, s.worker)
    && MemoryInv(s.db.rows, s.worker, s.memory.approvalId, s.memory.granted, s.memory.event)
    && StatusInv(s.db.status, s.db.rows, s.worker, s.memory.approvalId)
    && LockInv(s.calls.requests, s.db.lock, s.db.rows, s.db.status)
    && RequestsInv(s.calls.requests, s.db.rows)
    && RejectedInv(s.calls.requests, s.db.status)
    && LogInv(s.history.log, s.calls.requests)
    && ToolsInv(s.db.rows, s.worker, s.tools.pendingTool, s.tools.seen, s.tools.confirmations)
    && EntryInv(cfg, s.db.rows, s.worker, s.history.entered)
    && (!s.history.cancelled ==> NoCancelInv(s.db.status, s.db.rows, s.worker, s.calls.requests, s.memory.granted, s.memory.event))
    && HeardInv(cfg.managed, s.calls.requests, s.worker, s.memory.event)
    && CancelsInv(s.calls.cancels, s.history.cancelled)
    && (!s.worker.Gone? ==> s.memory.registered)
    && (!cfg.managed ==> s.memory.granted != Some(false))
  }

  lemma WorkBooting(cfg: Config, s: State)
    requires Inv(cfg, s) && s.worker.Booting?
    ensures Inv(cfg, WorkPiece(cfg, s))
  {
  }

  lemma WorkStarted(cfg: Config, s: State)
    requires Inv(cfg, s) && s.worker.Started?
    ensures Inv(cfg, WorkPiece(cfg, s))
  {
  }

  lemma WorkPreparing(cfg: Config, s: State)
    requires Inv(cfg, s) && s.worker.Preparing?
    ensures Inv(cfg, WorkPiece(cfg, s))
  {
  }

  lemma WorkRowCreated(cfg: Config, s: State)
    requires Inv(cfg, s) && s.worker.RowCreated?
    ensures Inv(cfg, WorkPiece(cfg, s))
  {
  }

  lemma WorkNamed(cfg: Config, s: State)
    requires Inv(cfg, s) && s.worker.Named?
    ensures Inv(cfg, WorkPiece(cfg, s))
  {
    if s.db.lock.None? {
      WaitingKeepsRows(s);
      if !s.history.cancelled {
        WaitingKeepsNoCancel(s);
      }
    }
  }

  lemma WaitingKeepsRows(s: State)
    requires s.worker.Named? && RowsInv(s.db.rows, s.worker) && s.db.lock.None?
    requires MemoryInv(s.db.rows, s.worker, s.memory.approvalId, s.memory.granted, s.memory.event)
    requires LockInv(s.calls.requests, s.db.lock, s.db.rows, s.db.status)
    requires RequestsInv(s.calls.requests, s.db.rows)
    ensures var worker := Waiting(s.worker.row);
      && RowsInv(s.db.rows, worker)
      && MemoryInv(s.db.rows, worker, s.memory.approvalId, s.memory.granted, s.memory.event)
      && StatusInv(WaitingApproval, s.db.rows, worker, s.memory.approvalId)
      && LockInv(s.calls.requests, s.db.lock, s.db.rows, WaitingApproval)
    ensures forall id :: id in s.calls.requests && AcceptedPc(s.calls.requests[id].pc) ==>
      s.calls.requests[id].approve && s.calls.requests[id].row != s.worker.row
  {
  }

  lemma WaitingKeepsNoCancel(s: State)
    requires s.worker.Named? && NoCancelInv(s.db.status, s.db.rows, s.worker, s.calls.requests, s.memory.granted, s.memory.event)
    requires MemoryInv(s.db.rows, s.worker, s.memory.approvalId, s.memory.granted, s.memory.event) && RowsInv(s.db.rows, s.worker)
    requires forall id :: id in s.calls.requests && AcceptedPc(s.calls.requests[id].pc) ==>
      s.calls.requests[id].approve && s.calls.requests[id].row != s.worker.row
    ensures NoCancelInv(WaitingApproval, s.db.rows, Waiting(s.worker.row), s.calls.requests, s.memory.granted, s.memory.event)
  {
  }

  lemma WorkWaiting(cfg: Config, s: State)
    requires Inv(cfg, s) && s.worker.Waiting?
    ensures Inv(cfg, WorkPiece(cfg, s))
  {
  }

  lemma WorkTimedOut(cfg: Config, s: State)
    requires Inv(cfg, s) && s.worker.TimedOut?
    ensures Inv(cfg, WorkPiece(cfg, s))
  {
  }

  lemma WorkWoken(cfg: Config, s: State)
    requires Inv(cfg, s) && s.worker.Woken?
    ensures Inv(cfg, WorkPiece(cfg, s))
  {
    if s.db.rows[s.worker.row].purpose.Tool? {
      WorkAnswersTool(cfg, s);
    }
  }

  lemma WorkAnswersTool(cfg: Config, s: State)
    requires Inv(cfg, s) && s.worker.Woken? && s.db.rows[s.worker.row].purpose.Tool?
    ensures Inv(cfg, WorkPiece(cfg, s))
  {
    var s' := WorkPiece(cfg, s);
    var c := Confirmation(s.db.rows[s.worker.row].purpose.id, s.worker.granted, s.worker.row);
    assert ConfirmationInv(s.db.rows, s.tools.seen, c);
    assert ToolsInv(s'.db.rows, s'.worker, s'.tools.pendingTool, s'.tools.seen, s'.tools.confirmations);
  }

  lemma WorkCleared(cfg: Config, s: State)
    requires Inv(cfg, s) && s.worker.Cleared?
    ensures Inv(cfg, WorkPiece(cfg, s))
  {
  }

  lemma WorkCrashed(cfg: Config, s: State)
    requires Inv(cfg, s) && s.worker.Crashed?
    ensures Inv(cfg, WorkPiece(cfg, s))
  {
  }

  lemma WorkClosing(cfg: Config, s: State)
    requires Inv(cfg, s) && s.worker.Closing?
    ensures Inv(cfg, WorkPiece(cfg, s))
  {
  }

  lemma WorkerExpire(cfg: Config, s: State, a: Action)
    requires Inv(cfg, s) && a.Expire?
    ensures Inv(cfg, WorkerStep(cfg, s, a))
  {
  }

  lemma WorkerCrash(cfg: Config, s: State, a: Action)
    requires Inv(cfg, s) && a.Crash?
    ensures Inv(cfg, WorkerStep(cfg, s, a))
  {
  }

  lemma WorkerSeeToolUse(cfg: Config, s: State, a: Action)
    requires Inv(cfg, s) && a.SeeToolUse?
    ensures Inv(cfg, WorkerStep(cfg, s, a))
  {
  }

  lemma WorkerSeeToolResult(cfg: Config, s: State, a: Action)
    requires Inv(cfg, s) && a.SeeToolResult?
    ensures Inv(cfg, WorkerStep(cfg, s, a))
  {
  }

  lemma WorkerAskForTool(cfg: Config, s: State, a: Action)
    requires Inv(cfg, s) && a.AskForTool?
    ensures Inv(cfg, WorkerStep(cfg, s, a))
  {
  }

  lemma WorkerEnd(cfg: Config, s: State, a: Action)
    requires Inv(cfg, s) && a.End?
    ensures Inv(cfg, WorkerStep(cfg, s, a))
  {
    if s.worker.Streaming? && s.db.lock.None? {
      EndKeepsRows(s);
      if !s.history.cancelled {
        EndKeepsNoCancel(s, if a.completed then Completed else Failed);
      }
    }
  }

  lemma EndKeepsRows(s: State)
    requires s.worker.Streaming? && RowsInv(s.db.rows, s.worker) && s.db.lock.None?
    requires MemoryInv(s.db.rows, s.worker, s.memory.approvalId, s.memory.granted, s.memory.event)
    requires LockInv(s.calls.requests, s.db.lock, s.db.rows, s.db.status) && RequestsInv(s.calls.requests, s.db.rows)
    ensures RowsInv(s.db.rows, Closing) && MemoryInv(s.db.rows, Closing, s.memory.approvalId, s.memory.granted, s.memory.event)
    ensures forall status :: LockInv(s.calls.requests, s.db.lock, s.db.rows, status)
  {
  }

  /** While the worker streams every row is approved, so no rejection is under way
      and none was heard. */
  lemma EndKeepsNoCancel(s: State, status: TaskStatus)
    requires s.worker.Streaming? && RowsInv(s.db.rows, s.worker) && RequestsInv(s.calls.requests, s.db.rows)
    requires MemoryInv(s.db.rows, s.worker, s.memory.approvalId, s.memory.granted, s.memory.event)
    requires NoCancelInv(s.db.status, s.db.rows, s.worker, s.calls.requests, s.memory.granted, s.memory.event)
    requires status == Completed || status == Failed
    ensures NoCancelInv(status, s.db.rows, Closing, s.calls.requests, s.memory.granted, s.memory.event)
  {
    assert forall i :: 0 <= i < |s.db.rows| ==> s.db.rows[i].status == Approved;
  }

  // Moving one request: what each invariant needs of the new place.

  function MovedIn(requests: map<nat, Request>, id: nat, pc: RequestPc): map<nat, Request>
    requires id in requests
  {
    requests[id := requests[id].(pc := pc)]
  }

  lemma LockMoved(requests: map<nat, Request>, id: nat, pc: RequestPc, lock: Option<nat>, lock': Option<nat>,
                  rows: seq<Row>, rows': seq<Row>, status: TaskStatus, status': TaskStatus)
    requires id in requests && LockInv(requests, lock, rows, status)
    requires || (lock == lock' && rows == rows' && status == status' && !pc.Locked? && !pc.Checked?)
             || ((lock.None? || lock == Some(id))
                 && LockInv(map[id := requests[id].(pc := pc)], lock', rows', status'))
    ensures LockInv(MovedIn(requests, id, pc), lock', rows', status')
  {
    var alone := map[id := requests[id].(pc := pc)];
    assert id in alone && alone[id] == MovedIn(requests, id, pc)[id];
  }

  lemma RequestsMoved(requests: map<nat, Request>, id: nat, pc: RequestPc, rows: seq<Row>)
    requires id in requests && RequestsInv(requests, rows)
    requires AcceptedPc(pc) ==> AcceptedPc(requests[id].pc)
    requires pc.TaskFailed? ==> !requests[id].approve
    requires pc.StatusSeen? ==> requests[id].approve
    ensures RequestsInv(MovedIn(requests, id, pc), rows)
  {
  }

  lemma RejectedMoved(requests: map<nat, Request>, id: nat, pc: RequestPc, status: TaskStatus)
    requires id in requests && RejectedInv(requests, status)
    requires pc.TaskFailed? || pc.Recorded? ==> requests[id].approve || requests[id].pc.TaskFailed? || status != WaitingApproval
    ensures RejectedInv(MovedIn(requests, id, pc), status)
  {
  }

  lemma LogMoved(log: seq<Entry>, requests: map<nat, Request>, id: nat, pc: RequestPc)
    requires id in requests && LogInv(log, requests)
    requires RecordedPc(requests[id].pc) ==> RecordedPc(pc)
    ensures LogInv(log, MovedIn(requests, id, pc))
  {
  }

  lemma NoCancelMoved(s: State, id: nat, pc: RequestPc, granted: Option<bool>, event: bool)
    requires id in s.calls.requests && NoCancelInv(s.db.status, s.db.rows, s.worker, s.calls.requests, s.memory.granted, s.memory.event)
    requires !s.calls.requests[id].approve && (pc.TaskFailed? || RecordedPc(pc)) ==> s.db.status == Failed
    requires granted == s.memory.granted || granted == Some(true) || s.db.status == Failed
    requires s.memory.event ==> event
    requires s.calls.requests[id].approve && pc.Finished? && s.worker == Waiting(s.calls.requests[id].row) ==> event
    ensures NoCancelInv(s.db.status, s.db.rows, s.worker, MovedIn(s.calls.requests, id, pc), granted, event)
  {
  }

  lemma RequestAsked(cfg: Config, s: State, id: nat)
    requires Inv(cfg, s) && id in s.calls.requests && s.calls.requests[id].pc.Asked?
    ensures Inv(cfg, AdvanceRequest(cfg, s, id))
  {
    var r := s.calls.requests[id];
    if r.row >= |s.db.rows| || !r.owner {
      BeforeAcceptance(cfg, s, id, Refused, s.db.lock);
    } else if s.db.lock.None? {
      BeforeAcceptance(cfg, s, id, Locked, Some(id));
    }
  }

  lemma BeforeAcceptance(cfg: Config, s: State, id: nat, pc: RequestPc, lock: Option<nat>)
    requires Inv(cfg, s) && id in s.calls.requests && !AcceptedPc(s.calls.requests[id].pc) && !AcceptedPc(pc)
    requires || (lock == s.db.lock && !pc.Locked? && !pc.Checked?)
             || ((s.db.lock.None? || s.db.lock == Some(id))
                 && LockInv(map[id := s.calls.requests[id].(pc := pc)], lock, s.db.rows, s.db.status))
    ensures Inv(cfg, Moved(s, id, pc).(db := s.db.(lock := lock)))
  {
    LockMoved(s.calls.requests, id, pc, s.db.lock, lock, s.db.rows, s.db.rows, s.db.status, s.db.status);
    QuietMove(cfg, s, id, pc);
  }

  lemma RequestLocked(cfg: Config, s: State, id: nat)
    requires Inv(cfg, s) && id in s.calls.requests && s.calls.requests[id].pc.Locked?
    ensures Inv(cfg, AdvanceRequest(cfg, s, id))
  {
    var r := s.calls.requests[id];
    if r.row < |s.db.rows| && s.db.rows[r.row].status.Pending? && s.db.status == WaitingApproval {
      LockedPasses(cfg, s, id);
    } else {
      BeforeAcceptance(cfg, s, id, Refused, None);
    }
  }

  lemma LockedPasses(cfg: Config, s: State, id: nat)
    requires Inv(cfg, s) && id in s.calls.requests && s.calls.requests[id].pc.Locked?
    requires var r := s.calls.requests[id]; r.row < |s.db.rows| && s.db.rows[r.row].status.Pending? && s.db.status == WaitingApproval
    ensures Inv(cfg, Moved(s, id, Checked))
  {
    BeforeAcceptance(cfg, s, id, Checked, s.db.lock);
    assert Moved(s, id, Checked).(db := s.db.(lock := s.db.lock)) == Moved(s, id, Checked);
  }

  /** A move before acceptance concerns the locks only. */
  lemma QuietMove(cfg: Config, s: State, id: nat, pc: RequestPc)
    requires Inv(cfg, s) && id in s.calls.requests && !AcceptedPc(s.calls.requests[id].pc) && !AcceptedPc(pc)
    ensures RequestsInv(MovedIn(s.calls.requests, id, pc), s.db.rows)
    ensures RejectedInv(MovedIn(s.calls.requests, id, pc), s.db.status)
    ensures LogInv(s.history.log, MovedIn(s.calls.requests, id, pc))
    ensures !s.history.cancelled ==> NoCancelInv(s.db.status, s.db.rows, s.worker, MovedIn(s.calls.requests, id, pc), s.memory.granted, s.memory.event)
  {
    RequestsMoved(s.calls.requests, id, pc, s.db.rows);
    RejectedMoved(s.calls.requests, id, pc, s.db.status);
    LogMoved(s.history.log, s.calls.requests, id, pc);
    if !s.history.cancelled {
      NoCancelMoved(s, id, pc, s.memory.granted, s.memory.event);
    }
  }

  /** The first commit: the row was open, so it is the newest, the worker waits on
      it and its memory names it; nobody else was accepted on it. */
  lemma RequestChecked(cfg: Config, s: State, id: nat)
    requires Inv(cfg, s) && id in s.calls.requests && s.calls.requests[id].pc.Checked?
    ensures Inv(cfg, AdvanceRequest(cfg, s, id))
  {
    var s' := AdvanceRequest(cfg, s, id);
    var r := s.calls.requests[id];
    assert r.row == |s.db.rows| - 1 && s.memory.approvalId == Some(r.row);
    LockMoved(s.calls.requests, id, Accepted, s.db.lock, None, s.db.rows, s'.db.rows, s.db.status, s.db.status);
    CommitKeepsRows(s, r, s'.db.rows);
    CommitKeepsRequests(s.calls.requests, id, s.db.rows, s'.db.rows);
    RejectedMoved(s.calls.requests, id, Accepted, s.db.status);
    LogMoved(s.history.log, s.calls.requests, id, Accepted);
    if !s.history.cancelled {
      CommitKeepsNoCancel(s, id, s'.db.rows);
    }
    CommitKeepsTools(s, r, s'.db.rows);
    assert s.db.rows != [] && s'.db.rows[0].purpose == s.db.rows[0].purpose;
    assert cfg.requireApproval && s.history.entered ==> |s.db.rows| > 1;
  }

  lemma CommitKeepsRows(s: State, r: Request, rows': seq<Row>)
    requires RowsInv(s.db.rows, s.worker) && MemoryInv(s.db.rows, s.worker, s.memory.approvalId, s.memory.granted, s.memory.event)
    requires StatusInv(s.db.status, s.db.rows, s.worker, s.memory.approvalId) && s.db.status == WaitingApproval
    requires r.row < |s.db.rows| && s.db.rows[r.row].status.Pending?
    requires rows' == s.db.rows[r.row := s.db.rows[r.row].(status := Resolution(r.approve))]
    ensures RowsInv(rows', s.worker) && MemoryInv(rows', s.worker, s.memory.approvalId, s.memory.granted, s.memory.event)
    ensures StatusInv(s.db.status, rows', s.worker, s.memory.approvalId)
    ensures r.row == |s.db.rows| - 1 && s.memory.approvalId == Some(r.row)
  {
  }

  lemma CommitKeepsTools(s: State, r: Request, rows': seq<Row>)
    requires ToolsInv(s.db.rows, s.worker, s.tools.pendingTool, s.tools.seen, s.tools.confirmations)
    requires r.row < |s.db.rows| && s.db.rows[r.row].status.Pending?
    requires rows' == s.db.rows[r.row := s.db.rows[r.row].(status := Resolution(r.approve))]
    ensures ToolsInv(rows', s.worker, s.tools.pendingTool, s.tools.seen, s.tools.confirmations)
  {
    assert forall k :: 0 <= k < |s.tools.confirmations| ==> ConfirmationInv(s.db.rows, s.tools.seen, s.tools.confirmations[k]);
  }

  lemma CommitKeepsRequests(requests: map<nat, Request>, id: nat, rows: seq<Row>, rows': seq<Row>)
    requires id in requests && RequestsInv(requests, rows)
    requires requests[id].row < |rows| && rows[requests[id].row].status.Pending?
    requires rows' == rows[requests[id].row := rows[requests[id].row].(status := Resolution(requests[id].approve))]
    ensures RequestsInv(MovedIn(requests, id, Accepted), rows')
  {
    var row := requests[id].row;
    assert forall other :: other in requests && AcceptedPc(requests[other].pc) ==> requests[other].row != row;
  }

  lemma CommitKeepsNoCancel(s: State, id: nat, rows': seq<Row>)
    requires id in s.calls.requests && NoCancelInv(s.db.status, s.db.rows, s.worker, s.calls.requests, s.memory.granted, s.memory.event)
    requires RowsInv(s.db.rows, s.worker) && s.db.status == WaitingApproval && |rows'| == |s.db.rows|
    requires MemoryInv(s.db.rows, s.worker, s.memory.approvalId, s.memory.granted, s.memory.event)
    ensures NoCancelInv(s.db.status, rows', s.worker, MovedIn(s.calls.requests, id, Accepted), s.memory.granted, s.memory.event)
  {
  }

  lemma RequestAccepted(cfg: Config, s: State, id: nat)
    requires Inv(cfg, s) && id in s.calls.requests && s.calls.requests[id].pc.Accepted?
    ensures Inv(cfg, AdvanceRequest(cfg, s, id))
  {
    if s.calls.requests[id].approve {
      RecordEntry(cfg, s, id);
    } else if s.db.lock.None? {
      FailTask(cfg, s, id);
    }
  }

  /** The second commit of a rejection: the rejected row is the newest, so the
      worker is not past its wait and the task stays failed. */
  lemma FailTask(cfg: Config, s: State, id: nat)
    requires Inv(cfg, s) && id in s.calls.requests && s.calls.requests[id].pc.Accepted? && !s.calls.requests[id].approve && s.db.lock.None?
    ensures Inv(cfg, AdvanceRequest(cfg, s, id))
  {
    FailedMove(s, id);
    assert s.calls.requests[id].row == |s.db.rows| - 1;
    if !s.history.cancelled {
      FailKeepsNoCancel(s, id);
    }
    var requests' := MovedIn(s.calls.requests, id, TaskFailed);
    assert AdvanceRequest(cfg, s, id)
        == s.(calls := s.calls.(requests := requests'), db := s.db.(status := Failed));
  }

  lemma FailedMove(s: State, id: nat)
    requires id in s.calls.requests && s.calls.requests[id].pc.Accepted? && !s.calls.requests[id].approve && s.db.lock.None?
    requires LockInv(s.calls.requests, s.db.lock, s.db.rows, s.db.status) && RequestsInv(s.calls.requests, s.db.rows)
    requires RejectedInv(s.calls.requests, s.db.status) && LogInv(s.history.log, s.calls.requests)
    ensures var requests' := MovedIn(s.calls.requests, id, TaskFailed);
      && LockInv(requests', s.db.lock, s.db.rows, Failed) && RequestsInv(requests', s.db.rows)
      && RejectedInv(requests', Failed) && LogInv(s.history.log, requests')
  {
    LockMoved(s.calls.requests, id, TaskFailed, s.db.lock, s.db.lock, s.db.rows, s.db.rows, s.db.status, Failed);
    RequestsMoved(s.calls.requests, id, TaskFailed, s.db.rows);
    LogMoved(s.history.log, s.calls.requests, id, TaskFailed);
  }

  lemma FailKeepsNoCancel(s: State, id: nat)
    requires id in s.calls.requests && s.calls.requests[id].pc.Accepted? && RowsInv(s.db.rows, s.worker)
    requires s.calls.requests[id].row == |s.db.rows| - 1 && s.db.rows[s.calls.requests[id].row].status == Rejected
    requires NoCancelInv(s.db.status, s.db.rows, s.worker, s.calls.requests, s.memory.granted, s.memory.event)
    ensures NoCancelInv(Failed, s.db.rows, s.worker, MovedIn(s.calls.requests, id, TaskFailed), s.memory.granted, s.memory.event)
  {
  }

  lemma RecordEntry(cfg: Config, s: State, id: nat)
    requires Inv(cfg, s) && id in s.calls.requests
    requires if s.calls.requests[id].approve then s.calls.requests[id].pc.Accepted? else s.calls.requests[id].pc.TaskFailed?
    ensures Inv(cfg, AdvanceRequest(cfg, s, id))
  {
    LockMoved(s.calls.requests, id, Recorded, s.db.lock, s.db.lock, s.db.rows, s.db.rows, s.db.status, s.db.status);
    RequestsMoved(s.calls.requests, id, Recorded, s.db.rows);
    RejectedMoved(s.calls.requests, id, Recorded, s.db.status);
    EntryAppended(s.history.log, s.calls.requests, id);
    if !s.history.cancelled {
      NoCancelMoved(s, id, Recorded, s.memory.granted, s.memory.event);
    }
  }

  lemma EntryAppended(log: seq<Entry>, requests: map<nat, Request>, id: nat)
    requires id in requests && LogInv(log, requests) && !RecordedPc(requests[id].pc)
    ensures LogInv(log + [Entry(requests[id].row, requests[id].approve, id)], MovedIn(requests, id, Recorded))
  {
    LogMoved(log, requests, id, Recorded);
  }

  /** A base-engine rejection finds the task FAILED and is dropped here. */
  lemma RequestRecorded(cfg: Config, s: State, id: nat)
    requires Inv(cfg, s) && id in s.calls.requests && s.calls.requests[id].pc.Recorded?
    ensures Inv(cfg, AdvanceRequest(cfg, s, id))
  {
    var r := s.calls.requests[id];
    if cfg.managed && !r.approve {
      RunCallback(cfg, s, id);
    } else {
      ReadStatus(cfg, s, id, if s.db.status == WaitingApproval then StatusSeen else Finished);
    }
  }

  lemma ReadStatus(cfg: Config, s: State, id: nat, pc: RequestPc)
    requires Inv(cfg, s) && id in s.calls.requests && s.calls.requests[id].pc.Recorded? && !(cfg.managed && !s.calls.requests[id].approve)
    requires pc == if s.db.status == WaitingApproval then StatusSeen else Finished
    ensures Inv(cfg, Moved(s, id, pc))
  {
    var r := s.calls.requests[id];
    LockMoved(s.calls.requests, id, pc, s.db.lock, s.db.lock, s.db.rows, s.db.rows, s.db.status, s.db.status);
    assert s.db.status == WaitingApproval ==> r.approve;
    RequestsMoved(s.calls.requests, id, pc, s.db.rows);
    RejectedMoved(s.calls.requests, id, pc, s.db.status);
    LogMoved(s.history.log, s.calls.requests, id, pc);
    if !s.history.cancelled {
      NoCancelMoved(s, id, pc, s.memory.granted, s.memory.event);
    }
  }

  lemma RequestStatusSeen(cfg: Config, s: State, id: nat)
    requires Inv(cfg, s) && id in s.calls.requests && s.calls.requests[id].pc.StatusSeen?
    ensures Inv(cfg, AdvanceRequest(cfg, s, id))
  {
    RunCallback(cfg, s, id);
  }

  lemma RunCallback(cfg: Config, s: State, id: nat)
    requires Inv(cfg, s) && id in s.calls.requests
    requires var r := s.calls.requests[id]; if r.approve then r.pc.StatusSeen? else r.pc.Recorded? && cfg.managed
    ensures Inv(cfg, Callback(Moved(s, id, Finished), s.calls.requests[id].row, s.calls.requests[id].approve))
  {
    var requests' := MovedIn(s.calls.requests, id, Finished);
    var s' := Callback(Moved(s, id, Finished), s.calls.requests[id].row, s.calls.requests[id].approve);
    if s.memory.registered && s.memory.approvalId == Some(s.calls.requests[id].row) {
      HeardCallback(cfg, s, id);
      assert s' == s.(calls := s.calls.(requests := requests'), memory := s.memory.(granted := Some(s.calls.requests[id].approve), event := true));
    } else {
      UnheardCallback(cfg, s, id);
      assert s' == s.(calls := s.calls.(requests := requests'));
    }
  }

  lemma FinishedMove(s: State, id: nat)
    requires id in s.calls.requests && RecordedPc(s.calls.requests[id].pc)
    requires LockInv(s.calls.requests, s.db.lock, s.db.rows, s.db.status) && RequestsInv(s.calls.requests, s.db.rows)
    requires RejectedInv(s.calls.requests, s.db.status) && LogInv(s.history.log, s.calls.requests)
    ensures var requests' := MovedIn(s.calls.requests, id, Finished);
      && LockInv(requests', s.db.lock, s.db.rows, s.db.status) && RequestsInv(requests', s.db.rows)
      && RejectedInv(requests', s.db.status) && LogInv(s.history.log, requests')
  {
    LockMoved(s.calls.requests, id, Finished, s.db.lock, s.db.lock, s.db.rows, s.db.rows, s.db.status, s.db.status);
    RequestsMoved(s.calls.requests, id, Finished, s.db.rows);
    RejectedMoved(s.calls.requests, id, Finished, s.db.status);
    LogMoved(s.history.log, s.calls.requests, id, Finished);
  }

  lemma HeardCallback(cfg: Config, s: State, id: nat)
    requires Inv(cfg, s) && id in s.calls.requests && s.memory.approvalId == Some(s.calls.requests[id].row)
    requires var r := s.calls.requests[id]; if r.approve then r.pc.StatusSeen? else r.pc.Recorded? && cfg.managed
    ensures Inv(cfg, s.(calls := s.calls.(requests := MovedIn(s.calls.requests, id, Finished)), memory := s.memory.(granted := Some(s.calls.requests[id].approve), event := true)))
  {
    FinishedMove(s, id);
    if !s.history.cancelled {
      NoCancelMoved(s, id, Finished, Some(s.calls.requests[id].approve), true);
    }
  }

  lemma UnheardCallback(cfg: Config, s: State, id: nat)
    requires Inv(cfg, s) && id in s.calls.requests && !(s.memory.registered && s.memory.approvalId == Some(s.calls.requests[id].row))
    requires var r := s.calls.requests[id]; if r.approve then r.pc.StatusSeen? else r.pc.Recorded? && cfg.managed
    ensures Inv(cfg, s.(calls := s.calls.(requests := MovedIn(s.calls.requests, id, Finished))))
  {
    FinishedMove(s, id);
    assert s.worker != Waiting(s.calls.requests[id].row);
    if !s.history.cancelled {
      NoCancelMoved(s, id, Finished, s.memory.granted, s.memory.event);
    }
  }

  lemma CancelStep(cfg: Config, s: State, id: nat)
    requires Inv(cfg, s) && id in s.calls.cancels
    ensures Inv(cfg, AdvanceCancelling(s, id))
  {
    match s.calls.cancels[id] {
      case CancelAsked => CancelChecks(cfg, s, id);
      case CancelChecked => CancelWrites(cfg, s, id);
      case CancelWritten => CancelKillsWorker(cfg, s, id);
      case CancelDone =>
    }
  }

  lemma CancelChecks(cfg: Config, s: State, id: nat)
    requires Inv(cfg, s) && id in s.calls.cancels && s.calls.cancels[id].CancelAsked?
    ensures Inv(cfg, AdvanceCancelling(s, id))
  {
    var cancels' := AdvanceCancelling(s, id).calls.cancels;
    OnlyCancelsMove(cfg, s, cancels');
    assert AdvanceCancelling(s, id) == s.(calls := s.calls.(cancels := cancels'));
  }

  lemma OnlyCancelsMove(cfg: Config, s: State, cancels': map<nat, CancelPc>)
    requires Inv(cfg, s) && CancelsInv(cancels', s.history.cancelled)
    ensures Inv(cfg, s.(calls := s.calls.(cancels := cancels')))
  {
  }

  lemma CancelWrites(cfg: Config, s: State, id: nat)
    requires Inv(cfg, s) && id in s.calls.cancels && s.calls.cancels[id].CancelChecked?
    ensures Inv(cfg, AdvanceCancelling(s, id))
  {
  }

  lemma CancelKillsWorker(cfg: Config, s: State, id: nat)
    requires Inv(cfg, s) && id in s.calls.cancels && s.calls.cancels[id].CancelWritten?
    ensures Inv(cfg, AdvanceCancelling(s, id))
  {
  }

  lemma NewRequest(cfg: Config, s: State, id: nat, row: nat, approve: bool, owner: bool)
    requires Inv(cfg, s) && id !in s.calls.requests
    ensures Inv(cfg, s.(calls := s.calls.(requests := s.calls.requests[id := Request(row, approve, owner, Asked)])))
  {
    var r := Request(row, approve, owner, Asked);
    NewcomerIsHarmless(s.calls.requests, id, r, s.history.log, s.db);
    if !s.history.cancelled {
      NewcomerKeepsNoCancel(s, id, r);
    }
  }

  lemma NewcomerIsHarmless(requests: map<nat, Request>, id: nat, r: Request, log: seq<Entry>, db: Db)
    requires id !in requests && r.pc.Asked?
    requires LockInv(requests, db.lock, db.rows, db.status) && RequestsInv(requests, db.rows)
    requires RejectedInv(requests, db.status) && LogInv(log, requests)
    ensures var requests' := requests[id := r];
      && LockInv(requests', db.lock, db.rows, db.status) && RequestsInv(requests', db.rows)
      && RejectedInv(requests', db.status) && LogInv(log, requests')
  {
  }

  lemma NewcomerKeepsNoCancel(s: State, id: nat, r: Request)
    requires id !in s.calls.requests && r.pc.Asked?
    requires NoCancelInv(s.db.status, s.db.rows, s.worker, s.calls.requests, s.memory.granted, s.memory.event)
    ensures NoCancelInv(s.db.status, s.db.rows, s.worker, s.calls.requests[id := r], s.memory.granted, s.memory.event)
  {
  }

  lemma StepKeepsInv(cfg: Config, s: State, a: Action)
    requires Inv(cfg, s)
    ensures Inv(cfg, Step(cfg, s, a))
  {
    if a.Ask? {
      AskKeepsInv(cfg, s, a);
    } else if a.Advance? {
      AdvanceKeepsInv(cfg, s, a);
    } else if a.AskCancel? || a.AdvanceCancel? {
      CancelKeepsInv(cfg, s, a);
    } else {
      WorkerStepKeepsInv(cfg, s, a);
    }
  }

  lemma AskKeepsInv(cfg: Config, s: State, a: Action)
    requires Inv(cfg, s) && a.Ask?
    ensures Inv(cfg, Step(cfg, s, a))
  {
    if a.request !in s.calls.requests {
      NewRequest(cfg, s, a.request, a.row, a.approve, a.owner);
    }
  }

  lemma AdvanceKeepsInv(cfg: Config, s: State, a: Action)
    requires Inv(cfg, s) && a.Advance?
    ensures Inv(cfg, Step(cfg, s, a))
  {
    if a.request in s.calls.requests {
      RequestStep(cfg, s, a.request);
    }
  }

  lemma CancelKeepsInv(cfg: Config, s: State, a: Action)
    requires Inv(cfg, s) && (a.AskCancel? || a.AdvanceCancel?)
    ensures Inv(cfg, Step(cfg, s, a))
  {
    if a.AskCancel? && a.cancel !in s.calls.cancels {
      OnlyCancelsMove(cfg, s, s.calls.cancels[a.cancel := CancelAsked]);
    } else if a.AdvanceCancel? && a.cancel in s.calls.cancels {
      CancelStep(cfg, s, a.cancel);
    }
  }

  lemma WorkerStepKeepsInv(cfg: Config, s: State, a: Action)
    requires Inv(cfg, s) && IsWorkerAction(a)
    ensures Inv(cfg, WorkerStep(cfg, s, a))
  {
    match a {
      case Work => WorkStep(cfg, s);
      case Expire => WorkerExpire(cfg, s, a);
      case Crash => WorkerCrash(cfg, s, a);
      case SeeToolUse(_) => WorkerSeeToolUse(cfg, s, a);
      case SeeToolResult => WorkerSeeToolResult(cfg, s, a);
      case AskForTool => WorkerAskForTool(cfg, s, a);
      case End(_) => WorkerEnd(cfg, s, a);
    }
  }

  lemma WorkStep(cfg: Config, s: State)
    requires Inv(cfg, s)
    ensures Inv(cfg, WorkPiece(cfg, s))
  {
    match s.worker {
      case Booting => WorkBooting(cfg, s);
      case Started => WorkStarted(cfg, s);
      case Preparing => WorkPreparing(cfg, s);
      case RowCreated(_) => WorkRowCreated(cfg, s);
      case Named(_) => WorkNamed(cfg, s);
      case Waiting(_) => WorkWaiting(cfg, s);
      case TimedOut(_) => WorkTimedOut(cfg, s);
      case Woken(_, _) => WorkWoken(cfg, s);
      case Cleared(_) => WorkCleared(cfg, s);
      case Crashed => WorkCrashed(cfg, s);
      case Closing => WorkClosing(cfg, s);
      case _ =>
    }
  }

  lemma RequestStep(cfg: Config, s: State, id: nat)
    requires Inv(cfg, s) && id in s.calls.requests
    ensures Inv(cfg, AdvanceRequest(cfg, s, id))
  {
    match s.calls.requests[id].pc {
      case Asked => RequestAsked(cfg, s, id);
      case Locked => RequestLocked(cfg, s, id);
      case Checked => RequestChecked(cfg, s, id);
      case Accepted => RequestAccepted(cfg, s, id);
      case TaskFailed => RecordEntry(cfg, s, id);
      case Recorded => RequestRecorded(cfg, s, id);
      case StatusSeen => RequestStatusSeen(cfg, s, id);
      case _ =>
    }
  }

  lemma {:induction false} Always(cfg: Config, schedule: seq<Action>)
    ensures Inv(cfg, Run(cfg, schedule))
  {
    if schedule != [] {
      var before := schedule[..|schedule| - 1];
      Always(cfg, before);
      StepKeepsInv(cfg, Run(cfg, before), schedule[|schedule| - 1]);
    }
  }

  predicate IsWorkerAction(a: Action) {
    !a.Ask? && !a.Advance? && !a.AskCancel? && !a.AdvanceCancel?
  }

  /** The states of all runs. */
  ghost predicate Reachable(cfg: Config, s: State) {
    exists schedule :: s == Run(cfg, schedule)
  }

  lemma ReachableInv(cfg: Config, s: State)
    requires Reachable(cfg, s)
    ensures Inv(cfg, s)
  {
    var schedule :| s == Run(cfg, schedule);
    Always(cfg, schedule);
  }

  lemma {:induction false} StartIsReachable(cfg: Config)
    ensures Reachable(cfg, INITIAL)
  {
    assert Run(cfg, []) == INITIAL;
  }

  lemma {:induction false} StepIsReachable(cfg: Config, s: State, a: Action)
    requires Reachable(cfg, s)
    ensures Reachable(cfg, Step(cfg, s, a))
  {
    var schedule :| s == Run(cfg, schedule);
    assert (schedule + [a])[..|schedule|] == schedule;
    assert Run(cfg, schedule + [a]) == Step(cfg, s, a);
  }
}
