/** How a cancelled session ends: what draining its channel shows, two sessions whose cancel leaves no
    trace in the log, and one that shows a request it does not forward. */
module GrpcDraining {
  import opened Options
  import opened GrpcTask
  import opened GrpcTaskProofs
  import opened GrpcSessions
  import opened GrpcRuns

  // ---------------------------------------------------------------------- draining the channel

  /** The events of commands that are applied. */
  function CommandEvents(cs: seq<Command>): seq<Event> {
    if cs == [] then []
    else
      (match cs[0]
       case Send(m) => [Outgoing(m.text)]
       case Commit => [Committed]
       case Cancel => [])
      + CommandEvents(cs[1..])
  }

  /** Receiving until the task returns. alive(k) says whether the RPC still holds the request stream at
      receive number k. */
  function Drain(t: Task, alive: nat -> bool, k: nat): Task
    requires Listening(t) && t.sender == Dropped
    decreases |t.queue|
  {
    var u := ReceiveCommand(t, alive(k));
    if t.queue == [] || !Listening(u) then u else Drain(u, alive, k + 1)
  }

  /** Position of the first message that meets a dead request stream, or the number of commands. */
  function FirstLost(cs: seq<Command>, alive: nat -> bool, k: nat): (n: nat)
    ensures n <= |cs| && (n < |cs| ==> cs[n].Send? && !alive(k + n))
    ensures forall j :: 0 <= j < n && cs[j].Send? ==> alive(k + j)
  {
    if cs == [] || (cs[0].Send? && !alive(k)) then 0 else 1 + FirstLost(cs[1..], alive, k + 1)
  }

  /** What a drained task has added when the first n of the queued commands cs were applied. */
  ghost predicate DrainedTo(t: Task, cs: seq<Command>, n: nat, d: Task)
    requires n <= |cs|
  {
    && d.forwarded == t.forwarded + Sends(cs[..n])
    && if n == |cs|
       then d.phase == Returned(None) && d.log == t.log + CommandEvents(cs[..n]) + [Cancelled, Status(CANCELLED_CODE)]
       else d.phase == Returned(Some(STREAM_ENDED)) && d.log == t.log + CommandEvents(cs[..n])
  }

  lemma DrainStep(t: Task, streamAlive: bool)
    requires HeadApplicable(t) && Listening(t) && t.queue != [] && !t.queue[0].Cancel?
    requires t.queue[0].Send? ==> streamAlive
    ensures var u := ReceiveCommand(t, streamAlive);
      && Listening(u) && u.sender == t.sender && u.queue == t.queue[1..]
      && u.log == t.log + CommandEvents([t.queue[0]])
      && u.forwarded == t.forwarded + Sends([t.queue[0]])
  {
    assert [t.queue[0]][..0] == [] && [t.queue[0]][1..] == [];
  }

  lemma LostStep(t: Task)
    requires HeadApplicable(t) && Listening(t) && t.queue != [] && t.queue[0].Send?
    ensures DrainedTo(t, t.queue, 0, ReceiveCommand(t, false)) && !Listening(ReceiveCommand(t, false))
  {
  }

  lemma CancelStep(t: Task, streamAlive: bool)
    requires QueueInv(t) && CanReceive(t)
    requires t.queue == [] || t.queue[0].Cancel?
    ensures DrainedTo(t, t.queue, |t.queue|, ReceiveCommand(t, streamAlive))
      && !Listening(ReceiveCommand(t, streamAlive))
  {
    if t.queue != [] { LastIsAlone(t); }
    assert t.queue[..|t.queue|] == t.queue;
    assert CommandEvents(t.queue) == [] && Sends(t.queue) == [];
  }

  lemma DrainedFromNext(t: Task, u: Task, c: Command, rest: seq<Command>, n: nat, d: Task)
    requires u.log == t.log + CommandEvents([c]) && u.forwarded == t.forwarded + Sends([c])
    requires n <= |rest| && DrainedTo(u, rest, n, d)
    ensures DrainedTo(t, [c] + rest, n + 1, d)
  {
    var cs := ([c] + rest)[..n + 1];
    assert cs == [c] + rest[..n] && cs[1..] == rest[..n];
    EventsOfCons(cs);
    SendsOfConcat([c], rest[..n]);
    hide CommandEvents, Sends;
    assert t.forwarded + Sends([c]) + Sends(rest[..n]) == t.forwarded + (Sends([c]) + Sends(rest[..n]));
    assert t.log + CommandEvents([c]) + CommandEvents(rest[..n]) == t.log + CommandEvents(cs);
  }

  lemma EventsOfCons(cs: seq<Command>)
    requires cs != []
    ensures CommandEvents(cs) == CommandEvents([cs[0]]) + CommandEvents(cs[1..])
  {
    assert [cs[0]][1..] == [];
  }

  lemma SessionAfterReceive(t: Task, streamAlive: bool)
    requires QueueInv(t) && StreamInv(t) && CanReceive(t)
    ensures QueueInv(ReceiveCommand(t, streamAlive)) && StreamInv(ReceiveCommand(t, streamAlive))
  {
    HeadIsApplicable(t);
    ArmKeepsQueue(t, Receive(streamAlive));
    ArmKeepsStream(t, Receive(streamAlive));
  }

  lemma LastIsAlone(t: Task)
    requires QueueInv(t) && t.queue != [] && t.queue[0].Cancel?
    ensures t.queue == [Cancel]
  {
    var cs := Accepted(t);
    assert cs[|t.taken|].Cancel?;
    var last := cs[|cs| - 1];
    assert |t.queue| == 1;
  }

  lemma {:induction false} DrainTask(t: Task, alive: nat -> bool, k: nat)
    requires QueueInv(t) && StreamInv(t) && Listening(t) && t.sender == Dropped
    ensures DrainedTo(t, t.queue, FirstLost(t.queue, alive, k), Drain(t, alive, k))
    decreases |t.queue|
  {
    hide QueueInv, StreamInv, DrainedTo, ReceiveCommand, HeadApplicable, CommandEvents, Sends;
    var u := ReceiveCommand(t, alive(k));
    HeadIsApplicable(t);
    if t.queue == [] || t.queue[0].Cancel? {
      CancelStep(t, alive(k));
      if t.queue != [] { LastIsAlone(t); }
    } else if t.queue[0].Send? && !alive(k) {
      LostStep(t);
    } else {
      DrainStep(t, alive(k));
      SessionAfterReceive(t, alive(k));
      DrainTask(u, alive, k + 1);
      DrainedFromNext(t, u, t.queue[0], u.queue, FirstLost(u.queue, alive, k + 1), Drain(u, alive, k + 1));
      assert t.queue == [t.queue[0]] + u.queue;
    }
  }

  /** Draining the channel of a cancelled call applies the queued commands in order up to the first
      message that meets a dead request stream. It ends in CANCELLED, by the queued cancel or by the
      closed channel, if and only if there is no such message; otherwise in the stream's error. */
  lemma DrainingEndsCancelledUnlessAMessageIsLost(s: State, token: Token, alive: nat -> bool)
    requires Reachable(s) && token in s.tasks && Listening(s.tasks[token]) && s.tasks[token].sender == Dropped
    ensures var t := s.tasks[token]; var d := Drain(t, alive, 0); var n := FirstLost(t.queue, alive, 0);
      && DrainedTo(t, t.queue, n, d)
      && (d.phase == Returned(None) <==> forall j :: 0 <= j < |t.queue| && t.queue[j].Send? ==> alive(j))
      && (d.phase == Returned(Some(STREAM_ENDED)) <==> n < |t.queue|)
  {
    ReachableInv(s);
    DrainTask(s.tasks[token], alive, 0);
  }

  // ---------------------------------------------------------------------- cancels that leave no trace

  /** A session alone in the registry, and after its handle was taken and dropped. */
  function Alone(h: Handle, t: Task): State { State(map["s" := h], map[0 := t], multiset{}) }

  function TakenAlone(t: Task): State { State(map[], map[0 := t], multiset{}) }

  lemma StartAlone(shape: Shape, initial: Message)
    ensures Reachable(Alone(Handle(0, shape.clientStreaming, false), NewTask("s", shape, initial)))
  {
    var r := StartRequest("s", shape, initial);
    assert ValidRun(INITIAL, []) && Run(INITIAL, []) == INITIAL;
    ReachableStep(INITIAL, BeginStart(r));
    var s := Apply(INITIAL, BeginStart(r));
    ReachableStep(s, InsertStart(r, 0));
    assert Apply(s, InsertStart(r, 0)) == Alone(Handle(0, shape.clientStreaming, false), NewTask("s", shape, initial));
  }

  lemma SpawnAlone(h: Handle, t: Task)
    requires Reachable(Alone(h, t)) && t.phase == Created
    ensures Reachable(Alone(h, Emit(t, Started).(phase := Ready)))
  {
    ReachableStep(Alone(h, t), Spawn(0));
    assert Apply(Alone(h, t), Spawn(0)) == Alone(h, Emit(t, Started).(phase := Ready));
  }

  lemma RunAlone(h: Handle, t: Task, arm: Arm)
    requires Reachable(Alone(h, t)) && ArmEnabled(t, arm)
    ensures Reachable(Alone(h, RunArm(t, arm)))
  {
    hide Reachable, RunArm, ArmEnabled;
    ReachableStep(Alone(h, t), RunTask(0, arm));
    assert Apply(Alone(h, t), RunTask(0, arm)) == Alone(h, RunArm(t, arm));
  }

  lemma SendAlone(h: Handle, t: Task, m: Message)
    requires Reachable(Alone(h, t)) && h.token == 0 && h.clientStreaming && !h.committed && CanSend(t)
    ensures Reachable(Alone(h, t.(queue := t.queue + [Send(m)])))
  {
    hide Reachable, CanSend;
    ReachableStep(Alone(h, t), SendMessage("s", Some(m)));
    assert SendError(Alone(h, t), "s", Some(m)).None?;
    assert Apply(Alone(h, t), SendMessage("s", Some(m))) == Alone(h, t.(queue := t.queue + [Send(m)]));
  }

  lemma CancelAlone(h: Handle, t: Task)
    requires Reachable(Alone(h, t)) && h.token == 0 && t.sender == Registered && CanSend(t)
    ensures Reachable(TakenAlone(t.(queue := t.queue + [Cancel], sender := Dropped)))
  {
    hide Reachable;
    ReachableStep(Alone(h, t), TakeHandle("s"));
    var s := TakenAlone(t.(sender := Detached));
    assert Apply(Alone(h, t), TakeHandle("s")) == s;
    ReachableStep(s, NotifyTask(0));
    assert Apply(s, NotifyTask(0)) == TakenAlone(t.(queue := t.queue + [Cancel], sender := Dropped));
  }

  /** The task of a session whose call has just begun. */
  function BegunTask(shape: Shape, initial: Message): Task {
    BeginCall(Emit(NewTask("s", shape, initial), Started).(phase := Ready), None)
  }

  lemma BegunIsReachable(shape: Shape, initial: Message)
    ensures Reachable(Alone(Handle(0, shape.clientStreaming, false), BegunTask(shape, initial)))
  {
    var h, t := Handle(0, shape.clientStreaming, false), NewTask("s", shape, initial);
    hide Reachable, Alone;
    StartAlone(shape, initial);
    SpawnAlone(h, t);
    RunAlone(h, Emit(t, Started).(phase := Ready), Begin(None));
  }

  /** A session with a message and the cancel in its channel: the request stream ends before the message
      is taken, so the session ends in that error, without cancel and without CANCELLED. */
  function LostMessageTask(initial: Message, m: Message): Task {
    BegunTask(Shape(true, true), initial).(queue := [Send(m), Cancel], sender := Dropped)
  }

  lemma LostMessageHidesCancel(initial: Message, m: Message)
    ensures Reachable(TakenAlone(LostMessageTask(initial, m)))
    ensures var t := LostMessageTask(initial, m);
      && Listening(t) && t.sender == Dropped
      && var d := Drain(t, (k: nat) => false, 0);
         d.phase == Returned(Some(STREAM_ENDED)) && d.log == [Started]
             && FinishTask(d).log == [Started, Failed(STREAM_ENDED), Ended]
  {
    var h, t := Handle(0, true, false), BegunTask(Shape(true, true), initial);
    BegunIsReachable(Shape(true, true), initial);
    hide Reachable, Alone, TakenAlone;
    SendAlone(h, t, m);
    CancelAlone(h, t.(queue := t.queue + [Send(m)]));
    assert [] + [Send(m)] + [Cancel] == [Send(m), Cancel];
    LostMessageEnds(initial, m);
    hide Drain, FinishTask;
  }

  lemma LostMessageEnds(initial: Message, m: Message)
    ensures var t := LostMessageTask(initial, m);
      && Listening(t) && t.sender == Dropped
      && var d := Drain(t, (k: nat) => false, 0);
         d.phase == Returned(Some(STREAM_ENDED)) && d.log == [Started]
             && FinishTask(d).log == [Started, Failed(STREAM_ENDED), Ended]
  {
  }

  /** While trailers are awaited only the trailers make the task move, and what it shows and how it ends
      do not depend on the channel. */
  lemma TrailersIgnoreTheChannel(t: Task, arm: Arm, queue: seq<Command>, sender: Sender)
    requires t.phase == Trailing && ArmEnabled(t, arm)
    ensures arm.Trailers?
    ensures var u := RunArm(t, arm); var v := RunArm(t.(queue := queue, sender := sender), arm);
      && u.phase == v.phase && u.log == v.log && u.phase.Returned?
      && |u.log| == |t.log| + 1 && u.log[..|t.log|] == t.log && u.log[|t.log|].Status?
  {
  }

  /** A session that accepts a cancel while it awaits trailers, and then ends in OK. */
  function TrailingTask(initial: Message): Task {
    BegunTask(Shape(false, true), initial).(phase := Trailing, queue := [Cancel], sender := Dropped)
  }

  lemma CancelWhileTrailing(initial: Message)
    ensures Reachable(TakenAlone(TrailingTask(initial))) && TrailingTask(initial).phase == Trailing
    ensures var u := RunArm(TrailingTask(initial), Trailers(None));
      u.phase == Returned(None) && u.log == [Started, Outgoing(initial.text), Status(OK_CODE)]
  {
    TrailingIsReachable(initial);
    hide Reachable, TakenAlone;
  }

  lemma TrailAlone(h: Handle, t: Task)
    requires Reachable(Alone(h, t)) && h.token == 0 && t.sender == Registered && t.queue == []
    requires t.phase == Calling && t.shape == Shape(false, true)
    ensures Reachable(TakenAlone(t.(phase := Trailing, queue := [Cancel], sender := Dropped)))
  {
    hide Reachable, Alone, TakenAlone;
    RunAlone(h, t, Answer(Good("")));
    var streaming := t.(phase := Streaming);
    assert RunArm(t, Answer(Good(""))) == streaming;
    RunAlone(h, streaming, StreamEnd);
    var trailing := t.(phase := Trailing);
    assert RunArm(streaming, StreamEnd) == trailing;
    CancelAlone(h, trailing);
    assert trailing.(queue := trailing.queue + [Cancel], sender := Dropped)
      == t.(phase := Trailing, queue := [Cancel], sender := Dropped);
  }

  lemma TrailingIsReachable(initial: Message)
    ensures Reachable(TakenAlone(TrailingTask(initial)))
  {
    BegunIsReachable(Shape(false, true), initial);
    hide Reachable, Alone, TakenAlone;
    TrailAlone(Handle(0, false, false), BegunTask(Shape(false, true), initial));
  }

  // ---------------------------------------------------------------------- a request shown and not forwarded

  /** The task of a session without client streaming whose metadata is rejected. */
  function RejectedTask(serverStreaming: bool, initial: Message, error: string): Task {
    BeginCall(Emit(NewTask("s", Shape(false, serverStreaming), initial), Started).(phase := Ready), Some(error))
  }

  /** A reachable session that has shown its request, has forwarded nothing and ends in the metadata error. */
  lemma RejectedRequestIsShown(serverStreaming: bool, initial: Message, error: string)
    ensures Reachable(Alone(Handle(0, false, false), RejectedTask(serverStreaming, initial, error)))
    ensures var t := RejectedTask(serverStreaming, initial, error);
      && t.forwarded == [] && t.phase == Returned(Some(error)) && t.log == [Started, Outgoing(initial.text)]
      && FinishTask(t).log == [Started, Outgoing(initial.text), Failed(error), Ended]
  {
    var h, t := Handle(0, false, false), NewTask("s", Shape(false, serverStreaming), initial);
    hide Reachable, Alone;
    StartAlone(Shape(false, serverStreaming), initial);
    SpawnAlone(h, t);
    RunAlone(h, Emit(t, Started).(phase := Ready), Begin(Some(error)));
    RejectedRequestEnds(serverStreaming, initial, error);
    hide RejectedTask, FinishTask;
  }

  lemma RejectedRequestEnds(serverStreaming: bool, initial: Message, error: string)
    ensures var t := RejectedTask(serverStreaming, initial, error);
      && t.forwarded == [] && t.phase == Returned(Some(error)) && t.log == [Started, Outgoing(initial.text)]
      && FinishTask(t).log == [Started, Outgoing(initial.text), Failed(error), Ended]
  {
  }
}
