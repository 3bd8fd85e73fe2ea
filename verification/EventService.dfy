/**
 The objects behind the pipeline, in their own imperative form: subscriber
 queues, the event bus, the append path and the stream generator.
 */
module EventService {
  import opened Prelude
  import P = EventPipeline

  type TaskId = string

  /** An asyncio queue: unbounded, filled without waiting. */
  class Queue {
    var items: seq<P.Event>

    constructor ()
      ensures items == []
    {
      items := [];
    }

    method PutNowait(e: P.Event)
      modifies this
      ensures items == old(items) + [e]
    {
      items := items + [e];
    }
  }

  class EventBus {
    var subscribers: map<TaskId, set<Queue>>

    constructor ()
      ensures subscribers == map[]
    {
      subscribers := map[];
    }

    function Of(task: TaskId): set<Queue>
      reads this
    {
      if task in subscribers then subscribers[task] else {}
    }

    method Subscribe(task: TaskId) returns (queue: Queue)
      modifies this
      ensures fresh(queue) && queue.items == []
      ensures subscribers == old(subscribers)[task := old(Of(task)) + {queue}]
    {
      queue := new Queue();
      subscribers := subscribers[task := Of(task) + {queue}];
    }

    method Unsubscribe(task: TaskId, queue: Queue)
      modifies this
      ensures Of(task) == old(Of(task)) - {queue}
      ensures forall t :: t != task ==> Of(t) == old(Of(t))
      ensures task in subscribers && old(task in subscribers) ==> subscribers[task] != {}
    {
      if task in subscribers {
        subscribers := subscribers[task := subscribers[task] - {queue}];
        if subscribers[task] == {} {
          subscribers := subscribers - {task};
        }
      }
    }

    /** One put per subscribed queue, whatever the order of the set. */
    method Deliver(task: TaskId, e: P.Event)
      modifies Of(task)
      ensures forall q :: q in Of(task) ==> q.items == old(q.items) + [e]
    {
      var left := Of(task);
      while left != {}
        invariant left <= Of(task)
        invariant forall q :: q in left ==> q.items == old(q.items)
        invariant forall q :: q in Of(task) - left ==> q.items == old(q.items) + [e]
        decreases left
      {
        var queue :| queue in left;
        queue.PutNowait(e);
        left := left - {queue};
      }
    }
  }

  class EventService {
    const bus: EventBus
    var rows: map<TaskId, seq<P.Event>>

    constructor (bus: EventBus)
      ensures this.bus == bus && rows == map[]
    {
      this.bus := bus;
      rows := map[];
    }

    function Rows(task: TaskId): seq<P.Event>
      reads this
    {
      if task in rows then rows[task] else []
    }

    /** `select coalesce(max(seq_no), 0)` */
    method GetMaxSeq(task: TaskId) returns (max: nat)
      ensures max == P.MaxSeq(Rows(task))
    {
      max := 0;
      for i := 0 to |Rows(task)|
        invariant max == P.MaxSeq(Rows(task)[..i])
      {
        assert Rows(task)[..i + 1][..i] == Rows(task)[..i];
        max := Max(max, Rows(task)[i].sequence);
      }
      assert Rows(task)[..|Rows(task)|] == Rows(task);
    }

    /** An append no other append of the task interleaves with: on a numbered log
        it adds the next number, keeps the log numbered, touches no other task,
        and every queue subscribed to the task has the event when it returns. */
    method AppendEvent(task: TaskId, body: string) returns (e: P.Event)
      requires P.Numbered(Rows(task))
      modifies this, bus.Of(task)
      ensures e == P.Event(|old(Rows(task))| + 1, body)
      ensures rows == old(rows)[task := old(Rows(task)) + [e]] && P.Numbered(Rows(task))
      ensures forall q :: q in bus.Of(task) ==> q.items == old(q.items) + [e]
    {
      P.MaxSeqIsLength(Rows(task));
      var maxSeq := GetMaxSeq(task);
      e := P.Event(maxSeq + 1, body);
      rows := rows[task := Rows(task) + [e]];
      bus.Deliver(task, e);
    }
  }

  // ------------------------------------------------------------ stream generator

  /** What one turn of the live loop meets: an event from the queue, or fifteen
      seconds of silence. The list ends where the client disconnects. */
  datatype Poll = Received(event: P.Event) | Quiet
  datatype Chunk = Frame(event: P.Event) | KeepAlive

  function Arrivals(polls: seq<Poll>): seq<P.Event> {
    if polls == [] then []
    else
      var before := Arrivals(polls[..|polls| - 1]);
      if polls[|polls| - 1].Received? then before + [polls[|polls| - 1].event] else before
  }

  function Frames(chunks: seq<Chunk>): seq<P.Event> {
    if chunks == [] then []
    else
      var before := Frames(chunks[..|chunks| - 1]);
      if chunks[|chunks| - 1].Frame? then before + [chunks[|chunks| - 1].event] else before
  }

  function LastOf(after: nat, backlog: seq<P.Event>): nat {
    if backlog == [] then after else backlog[|backlog| - 1].sequence
  }

  /** The stream itself: the backlog's frames, then turn by turn a frame for each event
      above the last number and a keep-alive for each quiet turn. */
  function BacklogChunks(backlog: seq<P.Event>): seq<Chunk> {
    if backlog == [] then [] else BacklogChunks(backlog[..|backlog| - 1]) + [Frame(backlog[|backlog| - 1])]
  }

  function TurnChunks(base: nat, before: seq<Poll>, poll: Poll): seq<Chunk> {
    match poll
    case Quiet => [KeepAlive]
    case Received(event) => if event.sequence > P.LastSeq(base, Arrivals(before)) then [Frame(event)] else []
  }

  function LiveChunks(base: nat, polls: seq<Poll>): seq<Chunk> {
    if polls == [] then []
    else
      var before := polls[..|polls| - 1];
      LiveChunks(base, before) + TurnChunks(base, before, polls[|polls| - 1])
  }

  /** Each quiet turn yields one keep-alive, and nothing else does. */
  function QuietTurns(polls: seq<Poll>): nat {
    if polls == [] then 0 else QuietTurns(polls[..|polls| - 1]) + (if polls[|polls| - 1].Quiet? then 1 else 0)
  }

  function KeepAlives(chunks: seq<Chunk>): nat {
    if chunks == [] then 0 else KeepAlives(chunks[..|chunks| - 1]) + (if chunks[|chunks| - 1].KeepAlive? then 1 else 0)
  }

  lemma {:induction false} KeepAlivesConcat(a: seq<Chunk>, b: seq<Chunk>)
    ensures KeepAlives(a + b) == KeepAlives(a) + KeepAlives(b)
    decreases |b|
  {
    if b == [] {
      assert a + b == a;
    } else {
      assert (a + b)[..|a + b| - 1] == a + b[..|b| - 1];
      KeepAlivesConcat(a, b[..|b| - 1]);
    }
  }

  lemma {:induction false} OneKeepAlivePerQuietTurn(base: nat, polls: seq<Poll>)
    ensures KeepAlives(LiveChunks(base, polls)) == QuietTurns(polls)
  {
    if polls != [] {
      var before, poll := polls[..|polls| - 1], polls[|polls| - 1];
      OneKeepAlivePerQuietTurn(base, before);
      KeepAlivesConcat(LiveChunks(base, before), TurnChunks(base, before, poll));
      assert TurnChunks(base, before, poll) != [] ==> TurnChunks(base, before, poll)[..0] == [];
    }
  }

  lemma {:induction false} FramesSnoc(chunks: seq<Chunk>, c: Chunk)
    ensures Frames(chunks + [c]) == if c.Frame? then Frames(chunks) + [c.event] else Frames(chunks)
  {
    assert (chunks + [c])[..|chunks|] == chunks;
  }

  /** One more poll: an event is let through if its number is above the last. */
  lemma {:induction false} LiveNext(base: nat, polls: seq<Poll>, i: nat)
    requires i < |polls|
    ensures var before, after := Arrivals(polls[..i]), Arrivals(polls[..i + 1]);
      if polls[i].Received? && polls[i].event.sequence > P.LastSeq(base, before) then
        P.Live(base, after) == P.Live(base, before) + [polls[i].event]
        && P.LastSeq(base, after) == polls[i].event.sequence
      else
        P.Live(base, after) == P.Live(base, before) && P.LastSeq(base, after) == P.LastSeq(base, before)
  {
    assert polls[..i + 1][..i] == polls[..i];
    if polls[i].Received? {
      P.LiveSnoc(base, Arrivals(polls[..i]), polls[i].event);
    }
  }

  lemma {:induction false} FramesConcat(a: seq<Chunk>, b: seq<Chunk>)
    ensures Frames(a + b) == Frames(a) + Frames(b)
    decreases |b|
  {
    if b == [] {
      assert a + b == a;
    } else {
      assert (a + b)[..|a + b| - 1] == a + b[..|b| - 1];
      FramesConcat(a, b[..|b| - 1]);
    }
  }

  lemma {:induction false} BacklogFrames(backlog: seq<P.Event>)
    ensures Frames(BacklogChunks(backlog)) == backlog
  {
    if backlog != [] {
      var n := |backlog| - 1;
      BacklogFrames(backlog[..n]);
      FramesSnoc(BacklogChunks(backlog[..n]), Frame(backlog[n]));
      assert backlog[..n] + [backlog[n]] == backlog;
    }
  }

  /** The frames of the live part are the arrivals above everything before them. */
  lemma {:induction false} LiveFrames(base: nat, polls: seq<Poll>)
    ensures Frames(LiveChunks(base, polls)) == P.Live(base, Arrivals(polls))
  {
    if polls != [] {
      var n := |polls| - 1;
      var before, turn := LiveChunks(base, polls[..n]), TurnChunks(base, polls[..n], polls[n]);
      LiveFrames(base, polls[..n]);
      LiveNext(base, polls, n);
      assert polls[..n + 1] == polls;
      FramesConcat(before, turn);
      FramesOfTurn(base, polls[..n], polls[n]);
    }
  }

  lemma {:induction false} FramesOfTurn(base: nat, before: seq<Poll>, poll: Poll)
    ensures Frames(TurnChunks(base, before, poll))
            == if poll.Received? && poll.event.sequence > P.LastSeq(base, Arrivals(before)) then [poll.event] else []
  {
    var turn := TurnChunks(base, before, poll);
    if turn != [] {
      assert turn[..0] == [];
    }
  }

  lemma {:induction false} LiveChunksNext(base: nat, polls: seq<Poll>, i: nat)
    requires i < |polls|
    ensures LiveChunks(base, polls[..i + 1]) == LiveChunks(base, polls[..i]) + TurnChunks(base, polls[..i], polls[i])
  {
    assert polls[..i + 1][..i] == polls[..i];
  }

  method YieldBacklog(after: nat, backlog: seq<P.Event>) returns (out: seq<Chunk>, lastSequence: nat)
    ensures out == BacklogChunks(backlog) && lastSequence == LastOf(after, backlog)
  {
    out, lastSequence := [], after;
    for i := 0 to |backlog|
      invariant out == BacklogChunks(backlog[..i])
      invariant lastSequence == LastOf(after, backlog[..i])
    {
      out := out + [Frame(backlog[i])];
      lastSequence := backlog[i].sequence;
      assert backlog[..i + 1][..i] == backlog[..i];
    }
    assert backlog[..|backlog|] == backlog;
  }

  /** One turn of the live loop. */
  method TakeTurn(poll: Poll, lastSequence: nat) returns (out: seq<Chunk>, last: nat)
    ensures poll.Quiet? ==> out == [KeepAlive] && last == lastSequence
    ensures poll.Received? && poll.event.sequence > lastSequence ==> out == [Frame(poll.event)] && last == poll.event.sequence
    ensures poll.Received? && poll.event.sequence <= lastSequence ==> out == [] && last == lastSequence
  {
    out, last := [], lastSequence;
    match poll {
      case Received(event) =>
        if event.sequence > lastSequence {
          out := [Frame(event)];
          last := event.sequence;
        }
      case Quiet =>
        out := [KeepAlive];
    }
  }

  method FollowQueue(base: nat, polls: seq<Poll>) returns (out: seq<Chunk>)
    ensures out == LiveChunks(base, polls)
  {
    out := [];
    var lastSequence := base;
    for i := 0 to |polls|
      invariant out == LiveChunks(base, polls[..i])
      invariant lastSequence == P.LastSeq(base, Arrivals(polls[..i]))
    {
      LiveNext(base, polls, i);
      LiveChunksNext(base, polls, i);
      var yielded;
      yielded, lastSequence := TakeTurn(polls[i], lastSequence);
      assert yielded == TurnChunks(base, polls[..i], polls[i]);
      out := out + yielded;
    }
    assert polls[..|polls|] == polls;
  }

  /** The generator yields the backlog and then, if live, turn by turn, the arrivals
      that are above everything before them and a keep-alive for each quiet turn. */
  method StreamTaskEvents(after: nat, backlog: seq<P.Event>, live: bool, polls: seq<Poll>)
    returns (out: seq<Chunk>)
    ensures out == BacklogChunks(backlog) + (if live then LiveChunks(LastOf(after, backlog), polls) else [])
    ensures Frames(out) == backlog + (if live then P.Live(LastOf(after, backlog), Arrivals(polls)) else [])
  {
    var lastSequence;
    out, lastSequence := YieldBacklog(after, backlog);
    BacklogFrames(backlog);
    if live {
      var more := FollowQueue(lastSequence, polls);
      FramesConcat(out, more);
      LiveFrames(lastSequence, polls);
      out := out + more;
    }
  }

  /** A pipeline reader has yielded what the generator yields for its backlog query
      and the arrivals it has consumed. */
  lemma {:induction false} ReaderRunsTheGenerator(mode: P.Mode, schedule: seq<P.Action>, id: nat)
    requires id in P.Run(mode, schedule).readers
    requires var r := P.Run(mode, schedule).readers[id]; r.pc.Streaming? || r.pc.Closed?
    ensures var s := P.Run(mode, schedule); var r := s.readers[id];
      && r.snapshot <= |s.w.log| && |r.queue| <= |r.arrived|
      && var backlog := P.ListAfter(s.w.log[..r.snapshot], r.after);
      r.yielded + r.backlog == backlog + P.Live(LastOf(r.after, backlog), P.Consumed(r))
  {
    P.LogInvAlways(mode, schedule);
    P.ReadersInvAlways(mode, schedule);
    var s := P.Run(mode, schedule);
    var r := s.readers[id];
    assert P.ReaderInv(s.w.log, r);
    P.ListAfterIsSuffix(s.w.log[..r.snapshot], r.after);
    var backlog := P.Base(s.w.log, r);
    assert LastOf(r.after, backlog) == P.BaseLast(r);
  }
}
