/**
 The event log of one task and the clients that tail it.

 `append_event` is cut at its suspension points, and so is the stream generator;
 every piece between two suspensions is one action. A schedule is any sequence
 of actions by any number of appenders and readers; an action that is not
 enabled leaves the state as it is, so statements about all schedules are
 statements about all interleavings.
 */
module EventPipeline {
  import opened Prelude

  datatype Event = Event(sequence: nat, body: string)

  /** Without Redis there is one process and delivery is a local put; with Redis
      there are any number of processes and deliveries come back through it. */
  datatype Mode = InMemory | Redis

  datatype AppendPc =
    | Calling
    | HoldsAppendLock
    | HoldsRowLock
    | HasMax(max: nat)
    | Committed(event: Event)   // row lock gone, append lock still held
    | Publishing(event: Event)  // Redis only: both locks gone
    | Returned(event: Event)
    | Interrupted               // cancelled or raised

  datatype Appender = Appender(instance: nat, body: string, pc: AppendPc)

  datatype ReaderPc = Opened | Subscribed | Streaming | Closed

  /** The last three fields are history: the log length settled when the reader
      subscribed, the log length its backlog query saw, and everything ever put
      in its queue. */
  datatype Reader = Reader(
    instance: nat, after: nat, pc: ReaderPc,
    queue: seq<Event>, backlog: seq<Event>, lastSequence: nat, yielded: seq<Event>,
    subscribedAt: nat, snapshot: nat, arrived: seq<Event>)

  /** The appenders and what they share. `log` lists the committed rows in commit
      order. */
  datatype Writers = Writers(
    log: seq<Event>,
    rowLock: Option<nat>,
    appendLocks: map<nat, nat>,   // process to the appender holding its lock
    appenders: map<nat, Appender>)

  /** `lost` is history: the numbers of events whose append was interrupted after
      its commit and before its delivery. */
  datatype State = State(w: Writers, readers: map<nat, Reader>, lost: set<nat>)

  const EMPTY := State(Writers([], None, map[], map[]), map[], {})

  datatype Action =
    | Call(id: nat, instance: nat, body: string)
    | Append(id: nat)       // the next piece of append_event
    | Interrupt(id: nat)
    | RedisDeliver(index: nat, instance: nat)
    | Open(id: nat, instance: nat, after: nat)
    | Read(id: nat)         // the next piece of the stream generator
    | Disconnect(id: nat)

  // ------------------------------------------------------------ queries

  /** `max(seq_no)`, zero for an empty log. */
  function MaxSeq(log: seq<Event>): nat {
    if log == [] then 0 else Max(MaxSeq(log[..|log| - 1]), log[|log| - 1].sequence)
  }

  /** Rows numbered above `after`. */
  function ListAfter(log: seq<Event>, after: nat): seq<Event> {
    if log == [] then []
    else
      var rest := ListAfter(log[..|log| - 1], after);
      if log[|log| - 1].sequence > after then rest + [log[|log| - 1]] else rest
  }

  // ---------------------------------------------------------- append_event

  function WithPc(w: Writers, id: nat, pc: AppendPc): Writers
    requires id in w.appenders
  {
    w.(appenders := w.appenders[id := w.appenders[id].(pc := pc)])
  }

  function Unlocked(w: Writers, id: nat): map<nat, nat>
    requires id in w.appenders
  {
    w.appendLocks - {w.appenders[id].instance}
  }

  function Commit(w: Writers, id: nat): Writers
    requires id in w.appenders && w.appenders[id].pc.HasMax?
  {
    var e := Event(w.appenders[id].pc.max + 1, w.appenders[id].body);
    WithPc(w, id, Committed(e)).(log := w.log + [e], rowLock := None)
  }

  function Advance(mode: Mode, w: Writers, id: nat): Writers
    requires id in w.appenders
  {
    var p := w.appenders[id];
    match p.pc
    case Calling =>
      if p.instance in w.appendLocks then w
      else WithPc(w, id, HoldsAppendLock).(appendLocks := w.appendLocks[p.instance := id])
    case HoldsAppendLock => if w.rowLock.Some? then w else WithPc(w, id, HoldsRowLock).(rowLock := Some(id))
    case HoldsRowLock => WithPc(w, id, HasMax(MaxSeq(w.log)))
    case HasMax(_) => Commit(w, id)
    case Committed(e) =>
      WithPc(w, id, if mode.Redis? then Publishing(e) else Returned(e)).(appendLocks := Unlocked(w, id))
    case Publishing(e) => WithPc(w, id, Returned(e))
    case Returned(_) => w
    case Interrupted => w
  }

  /** A cancellation or an exception: the open transaction and the locks go. */
  function Stop(w: Writers, id: nat): Writers
    requires id in w.appenders
  {
    var pc := w.appenders[id].pc;
    if pc.Returned? || pc.Interrupted? then w
    else
      WithPc(w, id, Interrupted).(
        appendLocks := if HasAppendLock(pc) then Unlocked(w, id) else w.appendLocks,
        rowLock := if pc.HoldsRowLock? || pc.HasMax? then None else w.rowLock)
  }

  predicate HasAppendLock(pc: AppendPc) {
    pc.HoldsAppendLock? || pc.HoldsRowLock? || pc.HasMax? || pc.Committed?
  }

  // --------------------------------------------------------------- readers

  function Receive(r: Reader, instance: nat, e: Event): Reader {
    if r.instance == instance && (r.pc.Subscribed? || r.pc.Streaming?)
    then r.(queue := r.queue + [e], arrived := r.arrived + [e])
    else r
  }

  function Deliver(readers: map<nat, Reader>, instance: nat, e: Event): map<nat, Reader> {
    map r | r in readers :: Receive(readers[r], instance, e)
  }

  function YieldBacklog(r: Reader): Reader
    requires r.backlog != []
  {
    r.(yielded := r.yielded + [r.backlog[0]], lastSequence := r.backlog[0].sequence, backlog := r.backlog[1..])
  }

  function PollQueue(r: Reader): Reader
    requires r.queue != []
  {
    var e := r.queue[0];
    if e.sequence > r.lastSequence
    then r.(queue := r.queue[1..], yielded := r.yielded + [e], lastSequence := e.sequence)
    else r.(queue := r.queue[1..])
  }

  function ReadOn(w: Writers, r: Reader): Reader {
    match r.pc
    case Opened => r.(pc := Subscribed, subscribedAt := Settled(w))
    case Subscribed =>
      r.(pc := Streaming, backlog := ListAfter(w.log, r.after), lastSequence := r.after, snapshot := |w.log|)
    case Streaming =>
      if r.backlog != [] then YieldBacklog(r) else if r.queue != [] then PollQueue(r) else r
    case Closed => r
  }

  function Step(mode: Mode, s: State, a: Action): State {
    match a
    case Call(id, instance, body) =>
      if id !in s.w.appenders && (mode.Redis? || instance == 0)
      then s.(w := s.w.(appenders := s.w.appenders[id := Appender(instance, body, Calling)])) else s
    case Append(id) =>
      if id !in s.w.appenders then s
      else
        var p := s.w.appenders[id];
        // No suspension between releasing the append lock and the local puts.
        s.(w := Advance(mode, s.w, id),
           readers := if mode.InMemory? && p.pc.Committed? then Deliver(s.readers, p.instance, p.pc.event) else s.readers)
    case Interrupt(id) =>
      if id !in s.w.appenders then s
      else
        var p := s.w.appenders[id];
        s.(w := Stop(s.w, id), lost := if p.pc.Committed? then s.lost + {p.pc.event.sequence} else s.lost)
    case RedisDeliver(index, instance) =>
      if mode.Redis? && index < |s.w.log|
      then s.(readers := Deliver(s.readers, instance, s.w.log[index])) else s
    case Open(id, instance, after) =>
      if id !in s.readers && (mode.Redis? || instance == 0)
      then s.(readers := s.readers[id := Reader(instance, after, Opened, [], [], after, [], 0, 0, [])]) else s
    case Read(id) =>
      if id in s.readers then s.(readers := s.readers[id := ReadOn(s.w, s.readers[id])]) else s
    case Disconnect(id) =>
      if id in s.readers && s.readers[id].pc.Streaming?
      then s.(readers := s.readers[id := s.readers[id].(pc := Closed)]) else s
  }

  function Run(mode: Mode, schedule: seq<Action>): State {
    if schedule == [] then EMPTY
    else Step(mode, Run(mode, schedule[..|schedule| - 1]), schedule[|schedule| - 1])
  }

  // ------------------------------------------------------- log numbering

  ghost predicate Numbered(log: seq<Event>) {
    forall i :: 0 <= i < |log| ==> log[i].sequence == i + 1
  }

  ghost predicate IsRow(log: seq<Event>, e: Event) {
    1 <= e.sequence <= |log| && log[e.sequence - 1] == e
  }

  predicate HasEvent(pc: AppendPc) {
    pc.Committed? || pc.Publishing? || pc.Returned?
  }

  /** Whoever has read the maximum still holds the row lock, and the maximum is
      still the length of the log. */
  ghost predicate AppenderInv(w: Writers, id: nat)
    requires id in w.appenders
  {
    var p := w.appenders[id];
    && (p.pc.HoldsRowLock? || p.pc.HasMax? ==> w.rowLock == Some(id))
    && (p.pc.HasMax? ==> p.pc.max == |w.log|)
    && (HasAppendLock(p.pc) ==> p.instance in w.appendLocks && w.appendLocks[p.instance] == id)
    && (HasEvent(p.pc) ==> IsRow(w.log, p.pc.event))
  }

  ghost predicate LogInv(w: Writers) {
    && Numbered(w.log)
    && (forall id :: id in w.appenders ==> AppenderInv(w, id))
    && NumbersDiffer(w.appenders)
  }

  ghost predicate NumbersDiffer(appenders: map<nat, Appender>) {
    forall i, j :: i in appenders && j in appenders && i != j && HasEvent(appenders[i].pc) && HasEvent(appenders[j].pc)
      ==> appenders[i].pc.event.sequence != appenders[j].pc.event.sequence
  }

  lemma {:induction false} MaxSeqIsLength(log: seq<Event>)
    requires Numbered(log)
    ensures MaxSeq(log) == |log|
  {
    if log != [] {
      MaxSeqIsLength(log[..|log| - 1]);
    }
  }

  /** One piece of one append: the others, who hold other locks, are untouched. */
  lemma AdvanceKeepsLogInv(mode: Mode, w: Writers, id: nat)
    requires LogInv(w) && id in w.appenders
    ensures LogInv(Advance(mode, w, id)) && w.log <= Advance(mode, w, id).log
  {
    if w.appenders[id].pc.HasMax? {
      CommitKeepsLogInv(w, id);
    } else {
      LocksKeepLogInv(mode, w, id);
    }
  }

  lemma LocksKeepLogInv(mode: Mode, w: Writers, id: nat)
    requires LogInv(w) && id in w.appenders && !w.appenders[id].pc.HasMax?
    ensures LogInv(Advance(mode, w, id)) && Advance(mode, w, id).log == w.log
  {
    MaxSeqIsLength(w.log);
    assert AppenderInv(w, id);
    var p := w.appenders[id];
    match p.pc {
      case Calling =>
        if p.instance !in w.appendLocks {
          MoveKeepsLogInv(w, id, HoldsAppendLock, w.rowLock, w.appendLocks[p.instance := id]);
        }
      case HoldsAppendLock =>
        if w.rowLock.None? {
          MoveKeepsLogInv(w, id, HoldsRowLock, Some(id), w.appendLocks);
        }
      case HoldsRowLock => MoveKeepsLogInv(w, id, HasMax(MaxSeq(w.log)), w.rowLock, w.appendLocks);
      case Committed(e) =>
        MoveKeepsLogInv(w, id, if mode.Redis? then Publishing(e) else Returned(e), w.rowLock, Unlocked(w, id));
      case Publishing(e) => MoveKeepsLogInv(w, id, Returned(e), w.rowLock, w.appendLocks);
      case _ =>
    }
  }

  /** A move of one appender that takes or gives up its own locks only. */
  lemma MoveKeepsLogInv(w: Writers, id: nat, pc: AppendPc, rowLock: Option<nat>, appendLocks: map<nat, nat>)
    requires LogInv(w) && id in w.appenders
    requires AppenderInv(Writers(w.log, rowLock, appendLocks, w.appenders[id := w.appenders[id].(pc := pc)]), id)
    requires HasEvent(pc) ==> HasEvent(w.appenders[id].pc) && pc.event == w.appenders[id].pc.event
    requires rowLock == w.rowLock || w.rowLock.None? || w.rowLock == Some(id)
    requires forall k :: k in w.appendLocks && w.appendLocks[k] != id ==> k in appendLocks && appendLocks[k] == w.appendLocks[k]
    ensures LogInv(Writers(w.log, rowLock, appendLocks, w.appenders[id := w.appenders[id].(pc := pc)]))
  {
    var w' := Writers(w.log, rowLock, appendLocks, w.appenders[id := w.appenders[id].(pc := pc)]);
    forall other | other in w'.appenders ensures AppenderInv(w', other) {
      if other != id {
        assert AppenderInv(w, other) && w'.appenders[other] == w.appenders[other];
      }
    }
  }

  lemma CommitKeepsLogInv(w: Writers, id: nat)
    requires LogInv(w) && id in w.appenders && w.appenders[id].pc.HasMax?
    ensures LogInv(Commit(w, id)) && w.log <= Commit(w, id).log
  {
    var w' := Commit(w, id);
    assert AppenderInv(w, id);
    forall other | other in w'.appenders ensures AppenderInv(w', other) {
      assert AppenderInv(w, other);
    }
  }

  lemma StopKeepsLogInv(w: Writers, id: nat)
    requires LogInv(w) && id in w.appenders
    ensures LogInv(Stop(w, id)) && Stop(w, id).log == w.log
  {
    assert AppenderInv(w, id);
    var pc := w.appenders[id].pc;
    if !pc.Returned? && !pc.Interrupted? {
      MoveKeepsLogInv(w, id, Interrupted, if pc.HoldsRowLock? || pc.HasMax? then None else w.rowLock,
                      if HasAppendLock(pc) then Unlocked(w, id) else w.appendLocks);
    }
  }

  lemma LogInvKept(mode: Mode, s: State, a: Action)
    requires LogInv(s.w)
    ensures LogInv(Step(mode, s, a).w)
    ensures s.w.log <= Step(mode, s, a).w.log
  {
    match a {
      case Append(id) =>
        if id in s.w.appenders {
          AdvanceKeepsLogInv(mode, s.w, id);
        }
      case Interrupt(id) =>
        if id in s.w.appenders {
          StopKeepsLogInv(s.w, id);
        }
      case Call(id, instance, body) =>
        if id !in s.w.appenders {
          CallKeepsLogInv(s.w, id, Appender(instance, body, Calling));
        }
      case _ =>
    }
  }

  lemma CallKeepsLogInv(w: Writers, id: nat, p: Appender)
    requires LogInv(w) && id !in w.appenders && p.pc.Calling?
    ensures LogInv(w.(appenders := w.appenders[id := p]))
  {
    var w' := w.(appenders := w.appenders[id := p]);
    forall other | other in w'.appenders ensures AppenderInv(w', other) {
      if other != id {
        assert AppenderInv(w, other);
      }
    }
  }

  lemma {:induction false} LogInvAlways(mode: Mode, schedule: seq<Action>)
    ensures LogInv(Run(mode, schedule).w)
  {
    if schedule != [] {
      LogInvAlways(mode, schedule[..|schedule| - 1]);
      LogInvKept(mode, Run(mode, schedule[..|schedule| - 1]), schedule[|schedule| - 1]);
    }
  }

  // ------------------------------------------------------------ lock holders

  /** Whoever a lock names is in the middle of its append: it has not returned and has
      not been interrupted. */
  ghost predicate HoldersInv(w: Writers) {
    && (w.rowLock.Some? ==> HoldsRow(w, w.rowLock.value))
    && (forall k :: k in w.appendLocks ==> HoldsAppend(w, k, w.appendLocks[k]))
  }

  predicate HoldsRow(w: Writers, id: nat) {
    id in w.appenders && (w.appenders[id].pc.HoldsRowLock? || w.appenders[id].pc.HasMax?)
  }

  predicate HoldsAppend(w: Writers, k: nat, id: nat) {
    id in w.appenders && w.appenders[id].instance == k && HasAppendLock(w.appenders[id].pc)
  }

  lemma AdvanceKeepsHolders(mode: Mode, w: Writers, id: nat)
    requires LogInv(w) && HoldersInv(w) && id in w.appenders
    ensures HoldersInv(Advance(mode, w, id))
  {
    var w' := Advance(mode, w, id);
    assert AppenderInv(w, id);
    forall k | k in w'.appendLocks ensures HoldsAppend(w', k, w'.appendLocks[k]) {
      if k in w.appendLocks {
        assert HoldsAppend(w, k, w.appendLocks[k]);
      }
    }
  }

  lemma StopKeepsHolders(w: Writers, id: nat)
    requires LogInv(w) && HoldersInv(w) && id in w.appenders
    ensures HoldersInv(Stop(w, id))
  {
    var w' := Stop(w, id);
    assert AppenderInv(w, id);
    forall k | k in w'.appendLocks ensures HoldsAppend(w', k, w'.appendLocks[k]) {
      assert HoldsAppend(w, k, w.appendLocks[k]);
    }
  }

  lemma HoldersKept(mode: Mode, s: State, a: Action)
    requires LogInv(s.w) && HoldersInv(s.w)
    ensures HoldersInv(Step(mode, s, a).w)
  {
    if a.Append? && a.id in s.w.appenders {
      AdvanceKeepsHolders(mode, s.w, a.id);
    } else if a.Interrupt? && a.id in s.w.appenders {
      StopKeepsHolders(s.w, a.id);
    } else if a.Call? {
      forall k | k in s.w.appendLocks ensures HoldsAppend(Step(mode, s, a).w, k, s.w.appendLocks[k]) {
        assert HoldsAppend(s.w, k, s.w.appendLocks[k]);
      }
    }
  }

  /** In every run, no append that has returned or was interrupted holds a lock, so
      whoever waits for one waits for an append still under way. */
  lemma {:induction false} LocksAreHeldByRunningAppends(mode: Mode, schedule: seq<Action>)
    ensures HoldersInv(Run(mode, schedule).w)
  {
    if schedule != [] {
      var before := schedule[..|schedule| - 1];
      LocksAreHeldByRunningAppends(mode, before);
      LogInvAlways(mode, before);
      HoldersKept(mode, Run(mode, before), schedule[|schedule| - 1]);
    }
  }

  /** And that append can always go on: its next piece is not blocked, and its commit
      gives up the row. */
  lemma {:induction false} RowHolderGoesOn(mode: Mode, schedule: seq<Action>)
    requires Run(mode, schedule).w.rowLock.Some?
    ensures var w := Run(mode, schedule).w; var id := w.rowLock.value;
      && HoldsRow(w, id) && Advance(mode, w, id) != w
      && (w.appenders[id].pc.HasMax? ==> Advance(mode, w, id).rowLock.None?)
      && Stop(w, id).rowLock.None?
  {
    LocksAreHeldByRunningAppends(mode, schedule);
    var w := Run(mode, schedule).w;
    var id := w.rowLock.value;
    assert Advance(mode, w, id).appenders[id].pc != w.appenders[id].pc;
  }

  // ------------------------------------------------------- what a reader yields

  /** The highest number seen, starting from `last`. */
  function LastSeq(last: nat, arrivals: seq<Event>): nat {
    if arrivals == [] then last
    else Max(LastSeq(last, arrivals[..|arrivals| - 1]), arrivals[|arrivals| - 1].sequence)
  }

  /** What the live loop passes on: the arrivals above everything before them. */
  function Live(last: nat, arrivals: seq<Event>): seq<Event> {
    if arrivals == [] then []
    else
      var before := arrivals[..|arrivals| - 1];
      var e := arrivals[|arrivals| - 1];
      if e.sequence > LastSeq(last, before) then Live(last, before) + [e] else Live(last, before)
  }

  /** The part of the log from position `from` on. */
  function Suffix(log: seq<Event>, from: nat): seq<Event> {
    if from <= |log| then log[from..] else []
  }

  function Base(log: seq<Event>, r: Reader): seq<Event>
    requires r.snapshot <= |log|
  {
    Suffix(log[..r.snapshot], r.after)
  }

  function Consumed(r: Reader): seq<Event>
    requires |r.queue| <= |r.arrived|
  {
    r.arrived[..|r.arrived| - |r.queue|]
  }

  function BaseLast(r: Reader): nat {
    Max(r.after, r.snapshot)
  }

  /** Mode-independent: the queue is the unconsumed rest of the arrivals, and what
      was yielded is a function of the backlog query and the consumed arrivals. */
  ghost predicate ReaderInv(log: seq<Event>, r: Reader) {
    && (forall e :: e in r.arrived ==> IsRow(log, e))
    && r.subscribedAt <= |log|
    && (r.pc.Opened? ==> r.arrived == [])
    && (r.pc.Opened? || r.pc.Subscribed? ==> r.queue == r.arrived && r.yielded == [] && r.backlog == [])
    && (r.pc.Streaming? || r.pc.Closed? ==> StreamInv(log, r))
  }

  ghost predicate StreamInv(log: seq<Event>, r: Reader) {
    && r.subscribedAt <= r.snapshot <= |log|
    && |r.queue| <= |r.arrived|
    && r.queue == r.arrived[|r.arrived| - |r.queue|..]
    && (r.backlog != [] ==> Consumed(r) == [])
    && r.yielded + r.backlog == Base(log, r) + Live(BaseLast(r), Consumed(r))
    && (r.backlog == [] ==> r.lastSequence == LastSeq(BaseLast(r), Consumed(r)))
  }

  ghost predicate ReadersInv(s: State) {
    forall r :: r in s.readers ==> ReaderInv(s.w.log, s.readers[r])
  }

  lemma {:induction false} ListAfterIsSuffix(log: seq<Event>, after: nat)
    requires Numbered(log)
    ensures ListAfter(log, after) == Suffix(log, after)
  {
    if log != [] {
      ListAfterIsSuffix(log[..|log| - 1], after);
      SuffixNext(log, after);
    }
  }

  lemma SuffixNext(log: seq<Event>, after: nat)
    requires log != []
    ensures Suffix(log, after)
            == if after < |log| then Suffix(log[..|log| - 1], after) + [log[|log| - 1]] else Suffix(log[..|log| - 1], after)
  {
  }

  lemma ReaderInvLogGrows(log: seq<Event>, log': seq<Event>, r: Reader)
    requires ReaderInv(log, r) && log <= log'
    ensures ReaderInv(log', r)
  {
    if r.pc.Streaming? || r.pc.Closed? {
      assert log[..r.snapshot] == log'[..r.snapshot];
    }
  }

  lemma ReaderInvReceive(log: seq<Event>, r: Reader, instance: nat, e: Event)
    requires ReaderInv(log, r) && IsRow(log, e)
    ensures ReaderInv(log, Receive(r, instance, e))
  {
    var r' := Receive(r, instance, e);
    if r' != r && r.pc.Streaming? {
      assert Consumed(r') == Consumed(r);
    }
  }

  lemma YieldKeepsStreamInv(log: seq<Event>, r: Reader)
    requires Numbered(log) && StreamInv(log, r) && r.backlog != []
    ensures StreamInv(log, YieldBacklog(r))
  {
    assert Live(BaseLast(r), Consumed(r)) == [];
    var base, r' := Base(log, r), YieldBacklog(r);
    assert r.yielded + r.backlog == base;
    assert r'.yielded + r'.backlog == base;
    if r'.backlog == [] {
      assert r.backlog[0] == base[|base| - 1];
    }
  }

  lemma PollKeepsStreamInv(log: seq<Event>, r: Reader)
    requires StreamInv(log, r) && r.backlog == [] && r.queue != []
    ensures StreamInv(log, PollQueue(r))
  {
    var r' := PollQueue(r);
    PollConsumes(r);
    LiveSnoc(BaseLast(r), Consumed(r), r.queue[0]);
    assert r.yielded == Base(log, r) + Live(BaseLast(r), Consumed(r));
    assert Base(log, r') == Base(log, r) && BaseLast(r') == BaseLast(r);
  }

  lemma PollConsumes(r: Reader)
    requires r.backlog == [] && r.queue != [] && |r.queue| <= |r.arrived|
    requires r.queue == r.arrived[|r.arrived| - |r.queue|..]
    ensures var r' := PollQueue(r);
      && r'.arrived == r.arrived && r'.queue == r.arrived[|r.arrived| - |r'.queue|..]
      && Consumed(r') == Consumed(r) + [r.queue[0]]
  {
  }

  lemma SnapshotKeepsReaderInv(w: Writers, r: Reader)
    requires Numbered(w.log) && ReaderInv(w.log, r) && r.pc.Subscribed?
    ensures ReaderInv(w.log, ReadOn(w, r))
  {
    var r' := ReadOn(w, r);
    ListAfterIsSuffix(w.log, r.after);
    assert w.log[..|w.log|] == w.log;
    assert Consumed(r') == [] && Live(BaseLast(r'), []) == [];
    assert r'.backlog == Base(w.log, r');
  }

  lemma StreamKeepsReaderInv(w: Writers, r: Reader)
    requires Numbered(w.log) && ReaderInv(w.log, r) && r.pc.Streaming?
    ensures ReaderInv(w.log, ReadOn(w, r))
  {
    if r.backlog != [] {
      YieldKeepsStreamInv(w.log, r);
    } else if r.queue != [] {
      PollKeepsStreamInv(w.log, r);
    }
  }

  lemma ReadKeepsReaderInv(w: Writers, r: Reader)
    requires Numbered(w.log) && ReaderInv(w.log, r)
    ensures ReaderInv(w.log, ReadOn(w, r))
  {
    match r.pc {
      case Subscribed => SnapshotKeepsReaderInv(w, r);
      case Streaming => StreamKeepsReaderInv(w, r);
      case _ =>
    }
  }

  lemma ReadersInvKept(mode: Mode, s: State, a: Action)
    requires LogInv(s.w) && ReadersInv(s)
    ensures ReadersInv(Step(mode, s, a))
  {
    LogInvKept(mode, s, a);
    forall r | r in Step(mode, s, a).readers ensures ReaderInv(Step(mode, s, a).w.log, Step(mode, s, a).readers[r]) {
      if r in s.readers {
        ReaderInvKept(mode, s, a, r);
      }
    }
  }

  lemma ReaderInvKept(mode: Mode, s: State, a: Action, r: nat)
    requires LogInv(s.w) && r in s.readers && ReaderInv(s.w.log, s.readers[r]) && s.w.log <= Step(mode, s, a).w.log
    ensures r in Step(mode, s, a).readers && ReaderInv(Step(mode, s, a).w.log, Step(mode, s, a).readers[r])
  {
    match a {
      case Append(id) => AppendKeepsReaderInv(mode, s, id, r);
      case RedisDeliver(index, instance) => DeliverKeepsReaderInv(mode, s, index, instance, r);
      case Read(_) => ReadKeepsReaderInv(s.w, s.readers[r]);
      case _ => OthersKeepReaderInv(mode, s, a, r);
    }
  }

  /** Calls, interruptions, openings and disconnects touch no other reader and no
      reader's stream. */
  lemma OthersKeepReaderInv(mode: Mode, s: State, a: Action, r: nat)
    requires r in s.readers && ReaderInv(s.w.log, s.readers[r])
    requires a.Call? || a.Interrupt? || a.Open? || a.Disconnect?
    ensures r in Step(mode, s, a).readers && ReaderInv(Step(mode, s, a).w.log, Step(mode, s, a).readers[r])
  {
    assert Step(mode, s, a).w.log == s.w.log;
    var r' := Step(mode, s, a).readers[r];
    assert r' == s.readers[r] || (s.readers[r].pc.Streaming? && r' == s.readers[r].(pc := Closed));
  }

  lemma AppendKeepsReaderInv(mode: Mode, s: State, id: nat, r: nat)
    requires LogInv(s.w) && r in s.readers && ReaderInv(s.w.log, s.readers[r])
    requires s.w.log <= Step(mode, s, Append(id)).w.log
    ensures var s' := Step(mode, s, Append(id)); r in s'.readers && ReaderInv(s'.w.log, s'.readers[r])
  {
    ReaderInvLogGrows(s.w.log, Step(mode, s, Append(id)).w.log, s.readers[r]);
    if id in s.w.appenders && s.w.appenders[id].pc.Committed? {
      var p := s.w.appenders[id];
      assert AppenderInv(s.w, id);
      assert Step(mode, s, Append(id)).w.log == s.w.log;
      ReaderInvReceive(s.w.log, s.readers[r], p.instance, p.pc.event);
    }
  }

  lemma DeliverKeepsReaderInv(mode: Mode, s: State, index: nat, instance: nat, r: nat)
    requires LogInv(s.w) && r in s.readers && ReaderInv(s.w.log, s.readers[r])
    ensures var s' := Step(mode, s, RedisDeliver(index, instance)); r in s'.readers && ReaderInv(s'.w.log, s'.readers[r])
  {
    if index < |s.w.log| {
      ReaderInvReceive(s.w.log, s.readers[r], instance, s.w.log[index]);
    }
  }

  lemma {:induction false} ReadersInvAlways(mode: Mode, schedule: seq<Action>)
    ensures ReadersInv(Run(mode, schedule))
  {
    if schedule != [] {
      var before := schedule[..|schedule| - 1];
      ReadersInvAlways(mode, before);
      LogInvAlways(mode, before);
      ReadersInvKept(mode, Run(mode, before), schedule[|schedule| - 1]);
    }
  }

  // ------------------------------------------------ one process, no Redis

  /** How much of the log has been delivered or lost: all of it, unless an append
      stands between its commit and its delivery. */
  function Settled(w: Writers): nat {
    if 0 in w.appendLocks && w.appendLocks[0] in w.appenders
       && w.appenders[w.appendLocks[0]].pc.Committed? && |w.log| > 0
    then |w.log| - 1
    else |w.log|
  }

  /** Events lo+1 .. hi of the log, without the lost ones. */
  function Kept(log: seq<Event>, lo: nat, hi: nat, lost: set<nat>): seq<Event>
    requires hi <= |log|
  {
    if hi <= lo then []
    else if hi in lost then Kept(log, lo, hi - 1, lost)
    else Kept(log, lo, hi - 1, lost) + [log[hi - 1]]
  }

  lemma KeptNext(log: seq<Event>, lo: nat, hi: nat, lost: set<nat>)
    requires lo < hi <= |log|
    ensures Kept(log, lo, hi, lost)
            == if hi in lost then Kept(log, lo, hi - 1, lost) else Kept(log, lo, hi - 1, lost) + [log[hi - 1]]
  {
  }

  ghost predicate LocalReaderInv(log: seq<Event>, settled: nat, lost: set<nat>, r: Reader)
    requires settled <= |log|
  {
    && (r.pc.Subscribed? || r.pc.Streaming? ==>
          r.subscribedAt <= settled && r.arrived == Kept(log, r.subscribedAt, settled, lost))
    && (r.pc.Closed? ==> r.arrived <= Kept(log, r.subscribedAt, settled, lost))
    && r.instance == 0
  }

  ghost predicate OneProcess(w: Writers) {
    && (forall id :: id in w.appenders ==> w.appenders[id].instance == 0)
    && (forall id :: id in w.appenders && w.appenders[id].pc.Committed? ==> w.appenders[id].pc.event.sequence == |w.log|)
    && (forall i :: i in w.appendLocks ==>
          i == 0 && w.appendLocks[i] in w.appenders && HasAppendLock(w.appenders[w.appendLocks[i]].pc))
  }

  ghost predicate LocalInv(s: State) {
    && OneProcess(s.w)
    && (forall n :: n in s.lost ==> 1 <= n <= Settled(s.w))
    && (forall r :: r in s.readers ==> LocalReaderInv(s.w.log, Settled(s.w), s.lost, s.readers[r]))
  }

  lemma {:induction false} KeptFrame(log: seq<Event>, log': seq<Event>, lo: nat, hi: nat, lost: set<nat>, n: nat)
    requires hi <= |log| && log <= log' && hi < n
    ensures Kept(log, lo, hi, lost) == Kept(log', lo, hi, lost) == Kept(log', lo, hi, lost + {n})
  {
    if lo < hi {
      KeptFrame(log, log', lo, hi - 1, lost, n);
    }
  }

  /** Per reader: the three ways the log, the settled mark or the lost set move. */
  lemma LocalReaderMoves(log: seq<Event>, log': seq<Event>, settled: nat, settled': nat,
                         lost: set<nat>, lost': set<nat>, r: Reader, r': Reader)
    requires settled <= |log| <= |log'| && log <= log' && settled <= settled' <= settled + 1 && settled' <= |log'|
    requires LocalReaderInv(log, settled, lost, r)
    requires settled' == settled ==> lost' == lost && r' == r
    requires settled' > settled ==>
               || (lost' == lost && settled' !in lost && r' == Receive(r, 0, log'[settled]))
               || (lost' == lost + {settled'} && r' == r)
    ensures LocalReaderInv(log', settled', lost', r')
  {
    if !r.pc.Opened? {
      KeptFrame(log, log', r.subscribedAt, settled, lost, settled + 1);
      assert lost + {settled'} == lost' || lost == lost';
    }
  }

  /** Holding the append lock to the delivery leaves one undelivered row at most,
      the last. */
  lemma CommittedIsLast(w: Writers, id: nat)
    requires LogInv(w) && OneProcess(w) && id in w.appenders && w.appenders[id].pc.Committed?
    ensures 0 in w.appendLocks && w.appendLocks[0] == id
    ensures |w.log| > 0 && Settled(w) == |w.log| - 1 && w.appenders[id].pc.event == w.log[|w.log| - 1]
  {
    assert AppenderInv(w, id);
  }

  lemma AdvanceMoves(w: Writers, id: nat)
    requires LogInv(w) && OneProcess(w) && id in w.appenders
    ensures var w' := Advance(InMemory, w, id);
      && OneProcess(w')
      && Settled(w') == Settled(w) + (if w.appenders[id].pc.Committed? then 1 else 0)
      && (w.appenders[id].pc.Committed? ==> w'.log == w.log)
  {
    MaxSeqIsLength(w.log);
    assert AppenderInv(w, id);
    if w.appenders[id].pc.Committed? {
      CommittedIsLast(w, id);
    } else if w.appenders[id].pc.HasMax? {
      CommitMoves(w, id);
    }
  }

  lemma CommitMoves(w: Writers, id: nat)
    requires LogInv(w) && OneProcess(w) && id in w.appenders && w.appenders[id].pc.HasMax?
    ensures OneProcess(Commit(w, id)) && Settled(Commit(w, id)) == Settled(w) == |w.log|
  {
    assert AppenderInv(w, id);
    forall other | other in w.appenders && other != id ensures !w.appenders[other].pc.Committed? {
      assert AppenderInv(w, other);
    }
  }

  lemma StopMoves(w: Writers, id: nat)
    requires LogInv(w) && OneProcess(w) && id in w.appenders
    ensures OneProcess(Stop(w, id)) && Stop(w, id).log == w.log
    ensures Settled(Stop(w, id)) == Settled(w) + (if w.appenders[id].pc.Committed? then 1 else 0)
  {
    assert AppenderInv(w, id);
    if w.appenders[id].pc.Committed? {
      CommittedIsLast(w, id);
    }
  }

  lemma LocalInvKept(s: State, a: Action)
    requires LogInv(s.w) && ReadersInv(s) && LocalInv(s)
    ensures LocalInv(Step(InMemory, s, a))
  {
    match a {
      case Call(id, instance, body) =>
        if id !in s.w.appenders && instance == 0 {
          var w' := s.w.(appenders := s.w.appenders[id := Appender(instance, body, Calling)]);
          assert OneProcess(w') && Settled(w') == Settled(s.w);
        }
      case Append(id) =>
        if id in s.w.appenders {
          AppendKeepsLocalInv(s, id);
        }
      case Interrupt(id) =>
        if id in s.w.appenders {
          InterruptKeepsLocalInv(s, id);
        }
      case Read(id) =>
        if id in s.readers {
          ReadKeepsLocalReaderInv(s.w, s.lost, s.readers[id]);
        }
      case _ =>
    }
  }

  lemma ReadKeepsLocalReaderInv(w: Writers, lost: set<nat>, r: Reader)
    requires LocalReaderInv(w.log, Settled(w), lost, r) && ReaderInv(w.log, r)
    ensures LocalReaderInv(w.log, Settled(w), lost, ReadOn(w, r))
  {
  }

  lemma AppendKeepsLocalInv(s: State, id: nat)
    requires LogInv(s.w) && LocalInv(s) && id in s.w.appenders
    ensures LocalInv(Step(InMemory, s, Append(id)))
  {
    var s' := Step(InMemory, s, Append(id));
    AdvanceMoves(s.w, id);
    AdvanceKeepsLogInv(InMemory, s.w, id);
    if s.w.appenders[id].pc.Committed? {
      CommittedIsLast(s.w, id);
    }
    forall r | r in s'.readers ensures LocalReaderInv(s'.w.log, Settled(s'.w), s'.lost, s'.readers[r]) {
      LocalReaderMoves(s.w.log, s'.w.log, Settled(s.w), Settled(s'.w), s.lost, s.lost, s.readers[r], s'.readers[r]);
    }
  }

  lemma InterruptKeepsLocalInv(s: State, id: nat)
    requires LogInv(s.w) && LocalInv(s) && id in s.w.appenders
    ensures LocalInv(Step(InMemory, s, Interrupt(id)))
  {
    var s' := Step(InMemory, s, Interrupt(id));
    StopMoves(s.w, id);
    if s.w.appenders[id].pc.Committed? {
      CommittedIsLast(s.w, id);
      assert s'.lost == s.lost + {Settled(s'.w)};
    }
    forall r | r in s'.readers ensures LocalReaderInv(s'.w.log, Settled(s'.w), s'.lost, s'.readers[r]) {
      LocalReaderMoves(s.w.log, s'.w.log, Settled(s.w), Settled(s'.w), s.lost, s'.lost, s.readers[r], s'.readers[r]);
    }
  }

  lemma {:induction false} LocalInvAlways(schedule: seq<Action>)
    ensures LocalInv(Run(InMemory, schedule))
  {
    if schedule != [] {
      var before := schedule[..|schedule| - 1];
      LocalInvAlways(before);
      LogInvAlways(InMemory, before);
      ReadersInvAlways(InMemory, before);
      LocalInvKept(Run(InMemory, before), schedule[|schedule| - 1]);
    }
  }

  // -------------------------------------------------- facts about Live and Kept

  lemma {:induction false} LastSeqBounds(last: nat, arrivals: seq<Event>)
    ensures LastSeq(last, arrivals) >= last
    ensures forall e :: e in arrivals ==> e.sequence <= LastSeq(last, arrivals)
    ensures LastSeq(last, arrivals) == last || exists e :: e in arrivals && e.sequence == LastSeq(last, arrivals)
  {
    if arrivals != [] {
      var before, e := arrivals[..|arrivals| - 1], arrivals[|arrivals| - 1];
      LastSeqBounds(last, before);
      assert arrivals == before + [e];
      assert e in arrivals;
    }
  }

  ghost predicate Increasing(events: seq<Event>) {
    forall i, j :: 0 <= i < j < |events| ==> events[i].sequence < events[j].sequence
  }

  lemma {:induction false} LiveIsIncreasing(last: nat, arrivals: seq<Event>)
    ensures Increasing(Live(last, arrivals))
    ensures forall e :: e in Live(last, arrivals) ==> e in arrivals && last < e.sequence <= LastSeq(last, arrivals)
  {
    if arrivals != [] {
      var before, e := arrivals[..|arrivals| - 1], arrivals[|arrivals| - 1];
      LiveIsIncreasing(last, before);
      LastSeqBounds(last, before);
      assert arrivals == before + [e];
      LiveSnoc(last, before, e);
      assert Live(last, arrivals) == Live(last, before)
          || (Live(last, arrivals) == Live(last, before) + [e] && e.sequence > LastSeq(last, before));
    }
  }

  lemma {:induction false} LiveIsMonotone(last: nat, arrivals: seq<Event>, n: nat)
    requires n <= |arrivals|
    ensures Live(last, arrivals[..n]) <= Live(last, arrivals)
  {
    if n < |arrivals| {
      LiveIsMonotone(last, arrivals[..|arrivals| - 1], n);
      assert arrivals[..|arrivals| - 1][..n] == arrivals[..n];
    } else {
      assert arrivals[..n] == arrivals;
    }
  }

  /** Fed the delivered part of the log in order, the live loop drops exactly what
      the backlog already covered. */
  lemma {:induction false} LiveOfKept(log: seq<Event>, last: nat, lo: nat, hi: nat, lost: set<nat>)
    requires Numbered(log) && lo <= last && hi <= |log|
    ensures Live(last, Kept(log, lo, hi, lost)) == Kept(log, last, hi, lost)
    ensures last <= LastSeq(last, Kept(log, lo, hi, lost)) <= Max(last, hi)
  {
    if lo < hi {
      LiveOfKept(log, last, lo, hi - 1, lost);
      KeptNext(log, lo, hi, lost);
      if hi !in lost {
        OneMoreLive(last, Kept(log, lo, hi - 1, lost), log[hi - 1]);
      }
      if last < hi {
        KeptNext(log, last, hi, lost);
      }
    }
  }

  lemma {:induction false} OneMoreLive(last: nat, before: seq<Event>, e: Event)
    requires e.sequence > 0 && last <= LastSeq(last, before) <= Max(last, e.sequence - 1)
    ensures Live(last, before + [e]) == if last < e.sequence then Live(last, before) + [e] else Live(last, before)
    ensures last <= LastSeq(last, before + [e]) <= Max(last, e.sequence)
  {
    LiveSnoc(last, before, e);
  }

  lemma {:induction false} LiveSnoc(last: nat, before: seq<Event>, e: Event)
    ensures LastSeq(last, before + [e]) == Max(LastSeq(last, before), e.sequence)
    ensures Live(last, before + [e])
            == if e.sequence > LastSeq(last, before) then Live(last, before) + [e] else Live(last, before)
  {
    assert (before + [e])[..|before|] == before;
  }

  lemma {:induction false} KeptGaps(log: seq<Event>, lo: nat, hi: nat, lost: set<nat>)
    requires lo <= hi <= |log|
    ensures |Kept(log, lo, hi, lost)| <= hi - lo
    ensures (forall n :: n in lost ==> !(lo < n <= hi)) ==> Kept(log, lo, hi, lost) == log[lo..hi]
    ensures |Kept(log, lo, hi, lost)| == hi - lo ==> forall n :: n in lost ==> !(lo < n <= hi)
  {
    if lo < hi {
      KeptGaps(log, lo, hi - 1, lost);
      KeptNext(log, lo, hi, lost);
      assert log[lo..hi] == log[lo..hi - 1] + [log[hi - 1]];
      if |Kept(log, lo, hi, lost)| == hi - lo {
        assert hi !in lost && |Kept(log, lo, hi - 1, lost)| == hi - 1 - lo;
      }
    }
  }

  // ---------------------------------------------------------------- main results

  /** Any number of concurrent appends in any number of processes, interrupted
      anywhere: the committed numbers are exactly 1..n in commit order, rows are
      only ever added at the end, every call that got its event has its own row. */
  lemma {:induction false} CommittedNumbersAreGapless(mode: Mode, schedule: seq<Action>, a: Action)
    ensures var s := Run(mode, schedule);
      && (forall i :: 0 <= i < |s.w.log| ==> s.w.log[i].sequence == i + 1)
      && s.w.log <= Step(mode, s, a).w.log
      && (forall i :: i in s.w.appenders && HasEvent(s.w.appenders[i].pc) ==> IsRow(s.w.log, s.w.appenders[i].pc.event))
      && (forall i, j :: i in s.w.appenders && j in s.w.appenders && i != j
            && HasEvent(s.w.appenders[i].pc) && HasEvent(s.w.appenders[j].pc)
            ==> s.w.appenders[i].pc.event != s.w.appenders[j].pc.event)
  {
    LogInvAlways(mode, schedule);
    LogInvKept(mode, Run(mode, schedule), a);
  }

  /** What an in-memory stream has yielded once it is drained. */
  function Expected(s: State, r: Reader): seq<Event>
    requires r.snapshot <= |s.w.log|
  {
    Base(s.w.log, r) + Kept(s.w.log, BaseLast(r), Settled(s.w), s.lost)
  }

  lemma {:induction false} LocalYield(log: seq<Event>, settled: nat, lost: set<nat>, r: Reader)
    requires Numbered(log) && settled <= |log| && (r.pc.Streaming? || r.pc.Closed?)
    requires StreamInv(log, r) && LocalReaderInv(log, settled, lost, r)
    ensures var expected := Base(log, r) + Kept(log, BaseLast(r), settled, lost);
      && r.yielded <= expected
      && (r.pc.Streaming? && r.backlog == [] && r.queue == [] ==> r.yielded == expected)
  {
    var kept := Kept(log, r.subscribedAt, settled, lost);
    LiveOfKept(log, BaseLast(r), r.subscribedAt, settled, lost);
    assert Consumed(r) == kept[..|Consumed(r)|];
    LiveIsMonotone(BaseLast(r), kept, |Consumed(r)|);
    assert r.yielded <= Base(log, r) + Live(BaseLast(r), Consumed(r));
    if r.backlog == [] && r.queue == [] && r.pc.Streaming? {
      assert Consumed(r) == kept;
    }
  }

  /** The live tail without Redis. What a stream has yielded is always a prefix of
      `Expected`; drained, it is all of it; and `Expected` is the contiguous log
      after `after` if and only if no append was interrupted between its commit and
      its delivery beyond what the stream's backlog covered. */
  lemma {:induction false} LiveTailIsContiguous(schedule: seq<Action>, id: nat)
    requires id in Run(InMemory, schedule).readers
    requires var r := Run(InMemory, schedule).readers[id]; r.pc.Streaming? || r.pc.Closed?
    ensures var s := Run(InMemory, schedule); var r := s.readers[id];
      var upTo := Max(Settled(s.w), r.snapshot);
      && upTo <= |s.w.log|
      && r.yielded <= Expected(s, r)
      && (r.pc.Streaming? && r.backlog == [] && r.queue == [] ==> r.yielded == Expected(s, r))
      && (Expected(s, r) == Suffix(s.w.log[..upTo], r.after)
          <==> forall n :: n in s.lost ==> n <= Max(r.after, r.snapshot))
      && ((forall i :: i in s.w.appenders ==> !s.w.appenders[i].pc.Committed?) ==> upTo == |s.w.log|)
  {
    LogInvAlways(InMemory, schedule);
    ReadersInvAlways(InMemory, schedule);
    LocalInvAlways(schedule);
    var s := Run(InMemory, schedule);
    var r := s.readers[id];
    assert ReaderInv(s.w.log, r) && LocalReaderInv(s.w.log, Settled(s.w), s.lost, r);
    LocalYield(s.w.log, Settled(s.w), s.lost, r);
    ExpectedGaps(s, r);
    if forall i :: i in s.w.appenders ==> !s.w.appenders[i].pc.Committed? {
      assert Settled(s.w) == |s.w.log|;
    }
  }

  lemma ExpectedGaps(s: State, r: Reader)
    requires r.snapshot <= |s.w.log| && forall n :: n in s.lost ==> n <= Settled(s.w)
    ensures Expected(s, r) == Suffix(s.w.log[..Max(Settled(s.w), r.snapshot)], r.after)
            <==> forall n :: n in s.lost ==> n <= Max(r.after, r.snapshot)
  {
    var last, settled := BaseLast(r), Settled(s.w);
    if last <= settled {
      KeptGaps(s.w.log, last, settled, s.lost);
      if r.snapshot <= r.after {
        assert Base(s.w.log, r) == [];
        assert Suffix(s.w.log[..settled], r.after) == s.w.log[last..settled];
      } else {
        assert Suffix(s.w.log[..settled], r.after) == Base(s.w.log, r) + s.w.log[last..settled];
      }
    } else {
      assert Kept(s.w.log, last, settled, s.lost) == [];
      assert Suffix(s.w.log[..Max(settled, r.snapshot)], r.after) == Base(s.w.log, r);
    }
  }

  /** A higher-numbered event reached the queue before `e` first did. */
  ghost predicate Overtaken(arrivals: seq<Event>, e: Event) {
    exists j :: 0 <= j < |arrivals| && arrivals[j].sequence > e.sequence && e !in arrivals[..j]
  }

  lemma OvertakenSnoc(before: seq<Event>, x: Event, e: Event)
    ensures Overtaken(before + [x], e) <==> Overtaken(before, e) || (x.sequence > e.sequence && e !in before)
  {
    var all := before + [x];
    assert forall j :: 0 <= j <= |before| ==> all[..j] == before[..j];
    if Overtaken(before, e) {
      var j :| 0 <= j < |before| && before[j].sequence > e.sequence && e !in before[..j];
      assert all[j].sequence > e.sequence && e !in all[..j];
    }
    if x.sequence > e.sequence && e !in before {
      assert all[|before|].sequence > e.sequence && e !in all[..|before|];
    }
  }

  lemma {:induction false} NotSeenAndLower(log: seq<Event>, last: nat, before: seq<Event>, e: Event)
    requires IsRow(log, e) && forall x :: x in before ==> IsRow(log, x)
    requires e !in before && e.sequence > last
    ensures Overtaken(before, e) <==> e.sequence <= LastSeq(last, before)
  {
    LastSeqBounds(last, before);
    if e.sequence <= LastSeq(last, before) {
      var y :| y in before && y.sequence == LastSeq(last, before);
      var j :| 0 <= j < |before| && before[j] == y;
      assert before[j].sequence > e.sequence && e !in before[..j];
    }
  }

  lemma {:induction false} LiveUnlessOvertaken(log: seq<Event>, last: nat, arrivals: seq<Event>, e: Event)
    requires forall x :: x in arrivals ==> IsRow(log, x)
    requires e in arrivals && e.sequence > last
    ensures e in Live(last, arrivals) <==> !Overtaken(arrivals, e)
  {
    var before, x := arrivals[..|arrivals| - 1], arrivals[|arrivals| - 1];
    assert arrivals == before + [x];
    OvertakenSnoc(before, x, e);
    if e in before {
      LiveUnlessOvertaken(log, last, before, e);
      LastSeqBounds(last, before);
    } else {
      NotSeenAndLower(log, last, before, e);
      LiveIsIncreasing(last, before);
    }
  }

  /** In every mode, under any delivery order and any duplication: the yielded
      numbers strictly increase, every yielded event is a committed row above
      `after`, and once drained a committed event is missing exactly when neither
      the backlog query nor any delivery brought it, or a higher-numbered event
      was delivered first. */
  lemma {:induction false} YieldsAreIncreasingRows(mode: Mode, schedule: seq<Action>, id: nat)
    requires id in Run(mode, schedule).readers
    requires var r := Run(mode, schedule).readers[id]; r.pc.Streaming? || r.pc.Closed?
    ensures var s := Run(mode, schedule); var r := s.readers[id];
      && Increasing(r.yielded)
      && (forall e :: e in r.yielded ==> IsRow(s.w.log, e) && e.sequence > r.after)
      && (r.backlog == [] && r.queue == [] ==>
            forall k :: r.after <= k < |s.w.log| ==>
              (s.w.log[k] in r.yielded
               <==> k < r.snapshot || (s.w.log[k] in r.arrived && !Overtaken(r.arrived, s.w.log[k]))))
  {
    LogInvAlways(mode, schedule);
    ReadersInvAlways(mode, schedule);
    var s := Run(mode, schedule);
    var r := s.readers[id];
    assert ReaderInv(s.w.log, r);
    YieldedRows(s.w.log, r);
    if r.backlog == [] && r.queue == [] {
      forall k | r.after <= k < |s.w.log|
        ensures s.w.log[k] in r.yielded
                <==> k < r.snapshot || (s.w.log[k] in r.arrived && !Overtaken(r.arrived, s.w.log[k]))
      {
        YieldedExactly(s.w.log, r, k);
      }
    }
  }

  lemma YieldedRows(log: seq<Event>, r: Reader)
    requires Numbered(log) && StreamInv(log, r) && forall e :: e in r.arrived ==> IsRow(log, e)
    ensures Increasing(r.yielded)
    ensures forall e :: e in r.yielded ==> IsRow(log, e) && e.sequence > r.after
  {
    var base, live := Base(log, r), Live(BaseLast(r), Consumed(r));
    LiveIsIncreasing(BaseLast(r), Consumed(r));
    assert forall i :: 0 <= i < |base| ==> base[i] == log[r.after + i];
    forall e | e in live ensures IsRow(log, e) {
      assert e in Consumed(r) && e in r.arrived;
    }
    BaseThenLive(log, base, live, r.after, BaseLast(r));
    assert r.yielded <= base + live;
    forall e | e in r.yielded ensures IsRow(log, e) && e.sequence > r.after {
      assert e in base + live;
    }
  }

  /** Rows from `after` on up to `last`, then increasing ones above `last`. */
  lemma BaseThenLive(log: seq<Event>, base: seq<Event>, live: seq<Event>, after: nat, last: nat)
    requires Numbered(log) && (base != [] ==> after + |base| <= |log| && after + |base| <= last)
    requires forall i :: 0 <= i < |base| ==> base[i] == log[after + i]
    requires Increasing(live) && forall e :: e in live ==> IsRow(log, e) && e.sequence > last
    requires after <= last
    ensures Increasing(base + live)
    ensures forall e :: e in base + live ==> IsRow(log, e) && e.sequence > after
  {
    var all := base + live;
    assert forall i :: 0 <= i < |base| ==> all[i].sequence == after + i + 1 && IsRow(log, all[i]);
    assert forall i :: |base| <= i < |all| ==> all[i] in live;
  }

  lemma YieldedExactly(log: seq<Event>, r: Reader, k: nat)
    requires Numbered(log) && StreamInv(log, r) && forall e :: e in r.arrived ==> IsRow(log, e)
    requires r.backlog == [] && r.queue == [] && r.after <= k < |log|
    ensures log[k] in r.yielded
            <==> k < r.snapshot || (log[k] in r.arrived && !Overtaken(r.arrived, log[k]))
  {
    var base, live := Base(log, r), Live(BaseLast(r), Consumed(r));
    assert Consumed(r) == r.arrived;
    assert r.yielded == base + live;
    assert forall i :: 0 <= i < |base| ==> base[i] == log[r.after + i];
    if k < r.snapshot {
      assert base[k - r.after] == log[k];
    } else if log[k] in r.arrived {
      LiveUnlessOvertaken(log, BaseLast(r), r.arrived, log[k]);
    } else {
      LiveIsIncreasing(BaseLast(r), Consumed(r));
    }
  }

  // ------------------------------------------------------------- solo append, gap

  function Resume(mode: Mode, s: State, schedule: seq<Action>): State
    decreases |schedule|
  {
    if schedule == [] then s else Resume(mode, Step(mode, s, schedule[0]), schedule[1..])
  }

  // ------------------------------------------------- who receives, and how long

  predicate Listens(r: Reader, instance: nat) {
    r.instance == instance && (r.pc.Subscribed? || r.pc.Streaming?)
  }

  /** A delivery, through Redis or local, goes to the back of the queue of every
      reader then subscribed in its process, and touches no other. */
  lemma DeliveryReachesTheSubscribed(mode: Mode, s: State, a: Action, id: nat)
    requires id in s.readers && (a.RedisDeliver? || (a.Append? && LogInv(s.w)))
    ensures id in Step(mode, s, a).readers
    ensures a.RedisDeliver? && mode.Redis? && a.index < |s.w.log| ==>
      GetsExactly(s.readers[id], Step(mode, s, a).readers[id], a.instance, s.w.log[a.index])
    ensures a.Append? && mode.InMemory? && a.id in s.w.appenders && s.w.appenders[a.id].pc.Committed? ==>
      GetsExactly(s.readers[id], Step(mode, s, a).readers[id], s.w.appenders[a.id].instance, s.w.appenders[a.id].pc.event)
    ensures mode.InMemory? && a.RedisDeliver? ==> Step(mode, s, a) == s
    ensures a.Append? && (mode.Redis? || a.id !in s.w.appenders || !s.w.appenders[a.id].pc.Committed?) ==>
      Step(mode, s, a).readers == s.readers
  {
  }

  predicate GetsExactly(r: Reader, r': Reader, instance: nat, e: Event) {
    if Listens(r, instance) then r' == r.(queue := r.queue + [e], arrived := r.arrived + [e]) else r' == r
  }

  /** A reader subscribes before it queries its backlog, asks for what lies above
      `after`, and streams from then on. */
  lemma {:induction false} ReadersSubscribeFirst(mode: Mode, s: State, id: nat, instance: nat, after: nat)
    requires id !in s.readers && (mode.Redis? || instance == 0)
    ensures var s1 := Step(mode, s, Open(id, instance, after));
      var s2 := Step(mode, s1, Read(id)); var s3 := Step(mode, s2, Read(id));
      && id in s3.readers && s3.w == s.w
      && s1.readers[id].pc.Opened? && !Listens(s1.readers[id], instance) && s1.readers[id].after == after
      && Listens(s2.readers[id], instance) && s2.readers[id].backlog == []
      && s3.readers[id].pc.Streaming? && s3.readers[id].backlog == ListAfter(s.w.log, after)
      && s3.readers[id].queue == [] && s3.readers[id].yielded == []
  {
  }

  /** A client that disconnects ends its stream for good: whatever follows, it yields
      and receives nothing more. */
  lemma {:induction false} DisconnectIsFinal(mode: Mode, s: State, id: nat, acts: seq<Action>)
    requires id in s.readers && s.readers[id].pc.Streaming?
    ensures var s' := Resume(mode, Step(mode, s, Disconnect(id)), acts);
      id in s'.readers && s'.readers[id] == s.readers[id].(pc := Closed)
  {
    ClosedStays(mode, Step(mode, s, Disconnect(id)), id, acts);
  }

  lemma {:induction false} ClosedStays(mode: Mode, s: State, id: nat, acts: seq<Action>)
    requires id in s.readers && s.readers[id].pc.Closed?
    ensures var s' := Resume(mode, s, acts); id in s'.readers && s'.readers[id] == s.readers[id]
    decreases |acts|
  {
    if acts != [] {
      ClosedStep(mode, s, id, acts[0]);
      ClosedStays(mode, Step(mode, s, acts[0]), id, acts[1..]);
    }
  }

  lemma ClosedStep(mode: Mode, s: State, id: nat, a: Action)
    requires id in s.readers && s.readers[id].pc.Closed?
    ensures var s' := Step(mode, s, a); id in s'.readers && s'.readers[id] == s.readers[id]
  {
  }

  lemma {:induction false} RunResumes(mode: Mode, first: seq<Action>, rest: seq<Action>)
    ensures Run(mode, first + rest) == Resume(mode, Run(mode, first), rest)
    decreases |rest|
  {
    if rest == [] {
      assert first + rest == first;
    } else {
      var longer := first + [rest[0]];
      assert longer[..|longer| - 1] == first;
      assert longer + rest[1..] == first + rest;
      RunResumes(mode, longer, rest[1..]);
    }
  }

  lemma {:induction false} ResumeSplits(mode: Mode, s: State, first: seq<Action>, rest: seq<Action>)
    ensures Resume(mode, s, first + rest) == Resume(mode, Resume(mode, s, first), rest)
    decreases |first|
  {
    if first == [] {
      assert first + rest == rest;
    } else {
      assert (first + rest)[1..] == first[1..] + rest;
      ResumeSplits(mode, Step(mode, s, first[0]), first[1..], rest);
    }
  }

  lemma {:induction false} ResumeOne(mode: Mode, s: State, a: Action)
    ensures Resume(mode, s, [a]) == Step(mode, s, a)
  {
    assert [a][1..] == [];
  }

  function UpToCommit(id: nat, body: string): seq<Action> {
    [Call(id, 0, body)] + ([Append(id)] + ([Append(id)] + ([Append(id)] + [Append(id)])))
  }

  ghost predicate Quiet(s: State, id: nat) {
    LogInv(s.w) && id !in s.w.appenders && s.w.rowLock.None? && 0 !in s.w.appendLocks
  }

  function AfterCommit(s: State, id: nat, body: string): State {
    var e := Event(|s.w.log| + 1, body);
    s.(w := Writers(s.w.log + [e], None, s.w.appendLocks[0 := id],
                    s.w.appenders[id := Appender(0, body, Committed(e))]))
  }

  /** With the locks free, one append runs through: the row after the last. */
  lemma {:induction false} SoloCommit(mode: Mode, s: State, id: nat, body: string)
    requires Quiet(s, id)
    ensures Resume(mode, s, UpToCommit(id, body)) == AfterCommit(s, id, body)
  {
    MaxSeqIsLength(s.w.log);
    var a: seq<Action> := [Append(id)];
    var s1 := Step(mode, s, Call(id, 0, body));
    var s2 := Step(mode, s1, Append(id));
    var s3 := Step(mode, s2, Append(id));
    var s4 := Step(mode, s3, Append(id));
    ResumeSplits(mode, s, [Call(id, 0, body)], a + (a + (a + a)));
    ResumeOne(mode, s, Call(id, 0, body));
    ResumeSplits(mode, s1, a, a + (a + a));
    ResumeOne(mode, s1, Append(id));
    ResumeSplits(mode, s2, a, a + a);
    ResumeOne(mode, s2, Append(id));
    ResumeSplits(mode, s3, a, a);
    ResumeOne(mode, s3, Append(id));
    ResumeOne(mode, s4, Append(id));
    SoloPieces(mode, s, id, body);
  }

  function Holding(s: State, id: nat, body: string, row: Option<nat>, pc: AppendPc): State {
    s.(w := Writers(s.w.log, row, s.w.appendLocks[0 := id], s.w.appenders[id := Appender(0, body, pc)]))
  }

  lemma {:induction false} SoloPieces(mode: Mode, s: State, id: nat, body: string)
    requires Quiet(s, id) && MaxSeq(s.w.log) == |s.w.log|
    ensures var s1 := Step(mode, s, Call(id, 0, body));
      var s4 := Step(mode, Step(mode, Step(mode, s1, Append(id)), Append(id)), Append(id));
      Step(mode, s4, Append(id)) == AfterCommit(s, id, body)
  {
    var s1 := Step(mode, s, Call(id, 0, body));
    var s2 := Step(mode, s1, Append(id));
    assert s2 == Holding(s, id, body, None, HoldsAppendLock);
    TakesRowLock(mode, s, id, body);
    var s3 := Step(mode, s2, Append(id));
    assert s3 == Holding(s, id, body, Some(id), HoldsRowLock);
    ReadsMax(mode, s, id, body);
    CommitsRow(mode, s, id, body);
  }

  lemma TakesRowLock(mode: Mode, s: State, id: nat, body: string)
    requires Quiet(s, id)
    ensures Step(mode, Holding(s, id, body, None, HoldsAppendLock), Append(id)) == Holding(s, id, body, Some(id), HoldsRowLock)
  {
  }

  lemma ReadsMax(mode: Mode, s: State, id: nat, body: string)
    requires Quiet(s, id) && MaxSeq(s.w.log) == |s.w.log|
    ensures Step(mode, Holding(s, id, body, Some(id), HoldsRowLock), Append(id))
            == Holding(s, id, body, Some(id), HasMax(|s.w.log|))
  {
  }

  lemma CommitsRow(mode: Mode, s: State, id: nat, body: string)
    requires Quiet(s, id)
    ensures Step(mode, Holding(s, id, body, Some(id), HasMax(|s.w.log|)), Append(id)) == AfterCommit(s, id, body)
  {
  }

  lemma CommittedDelivers(s: State, id: nat, body: string)
    requires Quiet(s, id)
    ensures var e := Event(|s.w.log| + 1, body);
      Step(InMemory, AfterCommit(s, id, body), Append(id))
      == State(s.w.(log := s.w.log + [e], appenders := s.w.appenders[id := Appender(0, body, Returned(e))]),
               Deliver(s.readers, 0, e), s.lost)
  {
    assert s.w.appendLocks[0 := id] - {0} == s.w.appendLocks;
  }

  lemma CommittedLost(s: State, id: nat, body: string)
    requires Quiet(s, id)
    ensures var e := Event(|s.w.log| + 1, body);
      Step(InMemory, AfterCommit(s, id, body), Interrupt(id))
      == State(s.w.(log := s.w.log + [e], appenders := s.w.appenders[id := Appender(0, body, Interrupted)]),
               s.readers, s.lost + {|s.w.log| + 1})
  {
    assert s.w.appendLocks[0 := id] - {0} == s.w.appendLocks;
  }

  /** An uncontended append in memory: its row follows the last one and every
      subscribed queue has it when the call returns. */
  lemma {:induction false} SoloAppend(s: State, id: nat, body: string)
    requires Quiet(s, id)
    ensures var e := Event(|s.w.log| + 1, body);
      Resume(InMemory, s, UpToCommit(id, body) + [Append(id)])
      == State(s.w.(log := s.w.log + [e], appenders := s.w.appenders[id := Appender(0, body, Returned(e))]),
               Deliver(s.readers, 0, e), s.lost)
  {
    SoloCommit(InMemory, s, id, body);
    ResumeSplits(InMemory, s, UpToCommit(id, body), [Append(id)]);
    ResumeOne(InMemory, Resume(InMemory, s, UpToCommit(id, body)), Append(id));
    CommittedDelivers(s, id, body);
  }

  lemma {:induction false} SoloInterrupted(s: State, id: nat, body: string)
    requires Quiet(s, id)
    ensures var e := Event(|s.w.log| + 1, body);
      Resume(InMemory, s, UpToCommit(id, body) + [Interrupt(id)])
      == State(s.w.(log := s.w.log + [e], appenders := s.w.appenders[id := Appender(0, body, Interrupted)]),
               s.readers, s.lost + {|s.w.log| + 1})
  {
    SoloCommit(InMemory, s, id, body);
    ResumeSplits(InMemory, s, UpToCommit(id, body), [Interrupt(id)]);
    ResumeOne(InMemory, Resume(InMemory, s, UpToCommit(id, body)), Interrupt(id));
    CommittedLost(s, id, body);
  }

  const STREAMING := Reader(0, 0, Streaming, [], [], 0, [], 0, 0, [])

  /** The gap is real. With a stream open from the start, the first append is
      cancelled after its commit and the second completes: the drained stream has
      event 2 and never event 1. */
  lemma {:induction false} InterruptedAppendLeavesGap(first: string, second: string)
    ensures var opening: seq<Action> := [Open(0, 0, 0)] + ([Read(0)] + [Read(0)]);
      var lose := UpToCommit(1, first) + [Interrupt(1)];
      var keep := UpToCommit(2, second) + [Append(2)];
      var s := Run(InMemory, opening + (lose + (keep + [Read(0)])));
      && s.w.log == [Event(1, first), Event(2, second)]
      && 0 in s.readers && s.readers[0].pc.Streaming? && s.readers[0].after == 0
      && s.readers[0].backlog == [] && s.readers[0].queue == []
      && s.readers[0].yielded == [Event(2, second)]
  {
    var opening: seq<Action> := [Open(0, 0, 0)] + ([Read(0)] + [Read(0)]);
    var lose := UpToCommit(1, first) + [Interrupt(1)];
    var keep := UpToCommit(2, second) + [Append(2)];
    OpeningRuns();
    var s1 := State(EMPTY.w, map[0 := STREAMING], {});
    assert [] + (opening + (lose + (keep + [Read(0)]))) == opening + (lose + (keep + [Read(0)]));
    RunResumes(InMemory, [], opening + (lose + (keep + [Read(0)])));
    ResumeSplits(InMemory, EMPTY, opening, lose + (keep + [Read(0)]));
    ResumeSplits(InMemory, s1, lose, keep + [Read(0)]);
    LoseThenDeliver(s1, first, second);
    var s2 := Resume(InMemory, s1, lose);
    ResumeSplits(InMemory, s2, keep, [Read(0)]);
    var s3 := Resume(InMemory, s2, keep);
    DeliveredThenRead(s1.readers, s3, Event(2, second));
  }

  lemma {:induction false} OpeningRuns()
    ensures Resume(InMemory, EMPTY, [Open(0, 0, 0)] + ([Read(0)] + [Read(0)]))
            == State(EMPTY.w, map[0 := STREAMING], {})
  {
    var s1 := Step(InMemory, EMPTY, Open(0, 0, 0));
    var s2 := Step(InMemory, s1, Read(0));
    ResumeSplits(InMemory, EMPTY, [Open(0, 0, 0)], [Read(0)] + [Read(0)]);
    ResumeOne(InMemory, EMPTY, Open(0, 0, 0));
    ResumeSplits(InMemory, s1, [Read(0)], [Read(0)]);
    ResumeOne(InMemory, s1, Read(0));
    ResumeOne(InMemory, s2, Read(0));
    assert s2 == State(EMPTY.w, map[0 := STREAMING.(pc := Subscribed)], {});
  }

  lemma {:induction false} DeliveredThenRead(readers: map<nat, Reader>, s: State, e: Event)
    requires readers == map[0 := STREAMING] && s.readers == Deliver(readers, 0, e) && e.sequence > 0
    ensures var s' := Resume(InMemory, s, [Read(0)]);
      && s'.w == s.w && 0 in s'.readers
      && s'.readers[0] == STREAMING.(arrived := [e], yielded := [e], lastSequence := e.sequence)
  {
    ResumeOne(InMemory, s, Read(0));
    assert [] + [e] == [e] && [e][1..] == [];
    assert s.readers[0] == STREAMING.(queue := [e], arrived := [e]);
  }

  lemma {:induction false} LoseThenDeliver(s: State, first: string, second: string)
    requires s.w == EMPTY.w
    ensures var s' := Resume(InMemory, Resume(InMemory, s, UpToCommit(1, first) + [Interrupt(1)]),
                             UpToCommit(2, second) + [Append(2)]);
      s'.w.log == [Event(1, first), Event(2, second)] && s'.readers == Deliver(s.readers, 0, Event(2, second))
  {
    SoloInterrupted(s, 1, first);
    var s2 := Resume(InMemory, s, UpToCommit(1, first) + [Interrupt(1)]);
    assert s2.w.log == [Event(1, first)] && s2.w.appenders == map[1 := Appender(0, first, Interrupted)];
    assert Quiet(s2, 2);
    SoloAppend(s2, 2, second);
  }
}
