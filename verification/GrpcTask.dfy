/** One gRPC session: its bounded command channel, its request stream, its event log and the
    background task that races the call against the channel. */
module GrpcTask {
  import opened Options

  const GRPC_SESSION_COMMAND_CAPACITY := 256
  const OK_CODE := 0
  const CANCELLED_CODE := 1

  /** A dynamic message together with the JSON text shown in the event log. */
  datatype Message = Message(bytes: seq<nat>, text: string)

  datatype Command = Send(message: Message) | Commit | Cancel

  datatype Event =
    | Started
    | Outgoing(text: string)
    | Incoming(text: string)
    | Committed
    | Cancelled
    | Status(code: nat)
    | Failed(error: string)
    | Ended

  datatype Shape = Shape(clientStreaming: bool, serverStreaming: bool)

  /** Where the only sender of the channel lives: in the registry, in the hands of a cancel or
      close-all call that has taken it out of the registry, or nowhere. */
  datatype Sender = Registered | Detached | Dropped

  datatype Phase =
    | Created                          // registered; the start event is not sent yet
    | Ready                            // spawned; the request is not built yet
    | Calling                          // racing the call against the channel
    | Streaming                        // racing response messages against the channel
    | Trailing                         // awaiting trailers; the channel is not read
    | Returned(error: Option<string>)  // run_session is over and the receiver is dropped
    | Cleaning                         // the end event is sent; the registry is not cleaned yet
    | Gone

  datatype Task = Task(
    id: string,
    shape: Shape,
    initial: Message,           // used only without client streaming
    sender: Sender,
    queue: seq<Command>,        // accepted by the channel and not yet received
    taken: seq<Command>,        // received by the task
    requestOpen: bool,          // the request sender is still held
    forwarded: seq<Message>,    // handed to the RPC
    phase: Phase,
    log: seq<Event>)

  /** What the remote side does with a call, a response message or the trailers. */
  datatype Reply = Good(text: string) | Undecodable(error: string) | Rejected(code: nat, error: string)

  /** The outcome of one step of the background task; the oracle's choices are its arguments. */
  datatype Arm =
    | Begin(metadataError: Option<string>)
    | Answer(reply: Reply)
    | Item(reply: Reply)
    | StreamEnd
    | Trailers(rejection: Option<(nat, string)>)
    | Receive(streamAlive: bool)   // does the RPC still hold the receiving end of the request stream
    | Finish

  function NewTask(id: string, shape: Shape, initial: Message): Task {
    Task(id, shape, initial, Registered, [], [], false, [], Created, [])
  }

  // ---------------------------------------------------------------------- the command channel

  function Accepted(t: Task): seq<Command> { t.taken + t.queue }

  predicate ReceiverAlive(t: Task) {
    !t.phase.Returned? && t.phase != Cleaning && t.phase != Gone
  }

  /** try_send succeeds exactly when the receiver is alive and a slot is free. */
  predicate CanSend(t: Task) {
    ReceiverAlive(t) && |t.queue| < GRPC_SESSION_COMMAND_CAPACITY
  }

  function TrySend(t: Task, c: Command): Task {
    if CanSend(t) then t.(queue := t.queue + [c]) else t
  }

  /** A cancel or close-all call notifies the task, and then its handle goes out of scope. */
  function Notify(t: Task): Task { TrySend(t, Cancel).(sender := Dropped) }

  // ---------------------------------------------------------------------- the background task

  predicate Listening(t: Task) { t.phase == Calling || t.phase == Streaming }

  /** recv() is ready: there is a command, or no sender is left. */
  predicate CanReceive(t: Task) { Listening(t) && (t.queue != [] || t.sender == Dropped) }

  predicate ArmEnabled(t: Task, arm: Arm) {
    match arm
    case Begin(_) => t.phase == Ready
    case Answer(reply) => t.phase == Calling && (t.shape.serverStreaming ==> !reply.Undecodable?)
    case Item(_) => t.phase == Streaming
    case StreamEnd => t.phase == Streaming
    case Trailers(_) => t.phase == Trailing
    case Receive(_) => CanReceive(t)
    case Finish => t.phase.Returned?
  }

  function Emit(t: Task, e: Event): Task { t.(log := t.log + [e]) }

  function Return(t: Task, error: Option<string>): Task { t.(phase := Returned(error)) }

  function Reject(t: Task, code: nat, error: string): Task {
    Return(Emit(t, Status(code)), Some(error))
  }

  function CancelCall(t: Task): Task {
    Return(Emit(Emit(t, Cancelled), Status(CANCELLED_CODE)), None)
  }

  function Succeed(t: Task): Task { Return(Emit(t, Status(OK_CODE)), None) }

  function BeginCall(t: Task, metadataError: Option<string>): Task {
    var t1 := if t.shape.clientStreaming then t.(requestOpen := true) else Emit(t, Outgoing(t.initial.text));
    match metadataError
    case Some(e) => Return(t1, Some(e))
    case None =>
      t1.(phase := Calling, forwarded := if t.shape.clientStreaming then [] else [t.initial])
  }

  function AnswerCall(t: Task, reply: Reply): Task {
    match reply
    case Rejected(code, e) => Reject(t, code, e)
    case Undecodable(e) => Return(t, Some(e))
    case Good(text) =>
      if t.shape.serverStreaming then t.(phase := Streaming) else Succeed(Emit(t, Incoming(text)))
  }

  function NextItem(t: Task, reply: Reply): Task {
    match reply
    case Rejected(code, e) => Reject(t, code, e)
    case Undecodable(e) => Return(t, Some(e))
    case Good(text) => Emit(t, Incoming(text))
  }

  const ALREADY_COMMITTED := "The gRPC request stream is already committed."
  const STREAM_ENDED := "The gRPC request stream has ended."
  const NO_STREAM_COMMANDS := "Calls without a request stream do not accept stream commands."

  function ApplyStreamCommand(t: Task, c: Command, streamAlive: bool): Task {
    match c
    case Send(m) =>
      if !t.requestOpen then Return(t, Some(ALREADY_COMMITTED))
      else if !streamAlive then Return(t, Some(STREAM_ENDED))
      else Emit(t.(forwarded := t.forwarded + [m]), Outgoing(m.text))
    case Commit => Emit(t.(requestOpen := false), Committed)
    case Cancel => CancelCall(t)
  }

  function ReceiveCommand(t: Task, streamAlive: bool): Task
    requires CanReceive(t)
  {
    if t.queue == [] then CancelCall(t)
    else
      var c := t.queue[0];
      var t1 := t.(queue := t.queue[1..], taken := t.taken + [c]);
      if t.shape.clientStreaming then ApplyStreamCommand(t1, c, streamAlive)
      else if c.Cancel? then CancelCall(t1)
      else Return(t1, Some(NO_STREAM_COMMANDS))
  }

  /** The spawned closure after run_session: the error, if any, and the end event. */
  function FinishTask(t: Task): Task
    requires t.phase.Returned?
  {
    var t1 := if t.phase.error.Some? then Emit(t, Failed(t.phase.error.value)) else t;
    Emit(t1, Ended).(phase := Cleaning)
  }

  function RunArm(t: Task, arm: Arm): Task
    requires ArmEnabled(t, arm)
  {
    match arm
    case Begin(e) => BeginCall(t, e)
    case Answer(reply) => AnswerCall(t, reply)
    case Item(reply) => NextItem(t, reply)
    case StreamEnd => t.(phase := Trailing)
    case Trailers(None) => Succeed(t)
    case Trailers(Some(rejection)) => Reject(t, rejection.0, rejection.1)
    case Receive(streamAlive) => ReceiveCommand(t, streamAlive)
    case Finish => FinishTask(t)
  }

  // ---------------------------------------------------------------------- what a session promises

  /** Send* Commit? Cancel? : nothing follows a cancel and only a cancel follows a commit. */
  ghost predicate CommandOrder(cs: seq<Command>) {
    forall i, j :: 0 <= i < j < |cs| ==> !cs[i].Cancel? && (cs[i].Commit? ==> cs[j].Cancel?)
  }

  function Sends(cs: seq<Command>): seq<Message> {
    if cs == [] then []
    else Sends(cs[..|cs| - 1]) + (if cs[|cs| - 1].Send? then [cs[|cs| - 1].message] else [])
  }

  function Texts(ms: seq<Message>): seq<string> { seq(|ms|, i requires 0 <= i < |ms| => ms[i].text) }

  function OutgoingTexts(log: seq<Event>): seq<string> {
    if log == [] then []
    else OutgoingTexts(log[..|log| - 1]) + (if log[|log| - 1].Outgoing? then [log[|log| - 1].text] else [])
  }

  predicate InBody(e: Event) { e.Outgoing? || e.Incoming? || e.Committed? }

  /** Between the start event and the outcome: messages and at most one commit, with no outgoing
      message after it; without client streaming just the request and then responses; without
      server streaming at most one response, and that one last. */
  ghost predicate Body(shape: Shape, initial: Message, body: seq<Event>) {
    && (forall i :: 0 <= i < |body| ==> InBody(body[i]))
    && (forall i, j :: 0 <= i < j < |body| && body[i].Committed? ==> body[j].Incoming?)
    && (!shape.clientStreaming ==>
          && 0 < |body| && body[0] == Outgoing(initial.text)
          && forall i :: 1 <= i < |body| ==> body[i].Incoming?)
    && (!shape.serverStreaming ==> forall i :: 0 <= i < |body| - 1 ==> !body[i].Incoming?)
  }

  /** The events of an outcome before the error text, and whether an error text follows. */
  predicate OutcomeEvents(events: seq<Event>, error: Option<string>) {
    if error.Some? then events == [] || (|events| == 1 && events[0].Status?)
    else events == [Status(OK_CODE)] || events == [Cancelled, Status(CANCELLED_CODE)]
  }

  /** The grammar of a finished session's log: OK; cancel then CANCELLED; a failing status then the
      error; or a bare error; and then the end. */
  predicate Outcome(events: seq<Event>) {
    || events == [Status(OK_CODE), Ended]
    || events == [Cancelled, Status(CANCELLED_CODE), Ended]
    || (|events| == 3 && events[0].Status? && events[1].Failed? && events[2] == Ended)
    || (|events| == 2 && events[0].Failed? && events[1] == Ended)
  }

  ghost predicate LogSplit(t: Task, n: nat, tail: seq<Event>) {
    && 1 <= n && |t.log| == n + |tail| && t.log[n..] == tail
    && t.log[0] == Started
    && Body(t.shape, t.initial, t.log[1..n])
  }

  ghost predicate CompleteLog(t: Task) {
    exists n: nat, tail: seq<Event> :: LogSplit(t, n, tail) && Outcome(tail)
  }

  // ---------------------------------------------------------------------- the invariant of one session

  ghost predicate QueueInv(t: Task) {
    && |t.queue| <= GRPC_SESSION_COMMAND_CAPACITY
    && CommandOrder(Accepted(t))
    && (Cancel in Accepted(t) ==> t.sender == Dropped)
    && (!t.shape.clientStreaming ==> forall c :: c in Accepted(t) ==> c.Cancel?)
  }

  predicate Begun(t: Task) { t.phase != Created && t.phase != Ready }

  predicate InCall(t: Task) { Listening(t) || t.phase == Trailing }

  ghost predicate StreamInv(t: Task) {
    && (!Begun(t) ==> t.taken == [] && t.forwarded == [] && OutgoingTexts(t.log) == [])
    && (t.shape.clientStreaming ==>
          && t.forwarded <= Sends(t.taken)
          && OutgoingTexts(t.log) == Texts(t.forwarded)
          && (InCall(t) ==> t.forwarded == Sends(t.taken) && (t.requestOpen <==> Commit !in t.taken)))
    && (!t.shape.clientStreaming && Begun(t) ==>
          && OutgoingTexts(t.log) == [t.initial.text]
          && (t.forwarded == [] || t.forwarded == [t.initial])
          && (InCall(t) ==> t.forwarded == [t.initial]))
  }

  /** How far the log has come in each phase. While the call runs, the request sender is held
      exactly as long as the log shows no commit. */
  ghost predicate LogInv(t: Task) {
    match t.phase
    case Created => t.log == []
    case Ready => t.log == [Started]
    case Calling => InBodyOf(t) && forall i :: 0 <= i < |t.log| ==> !t.log[i].Incoming?
    case Streaming => InBodyOf(t) && t.shape.serverStreaming
    case Trailing => InBodyOf(t) && t.shape.serverStreaming
    case Returned(error) => exists n: nat, tail: seq<Event> :: LogSplit(t, n, tail) && OutcomeEvents(tail, error)
    case Cleaning => CompleteLog(t)
    case Gone => CompleteLog(t)
  }

  ghost predicate InBodyOf(t: Task) {
    && LogSplit(t, |t.log|, [])
    && (t.shape.clientStreaming ==> (t.requestOpen <==> Committed !in t.log))
  }

  /** A stream command at the head of the queue finds an open request stream. */
  predicate HeadApplicable(t: Task) {
    t.queue != [] && !t.queue[0].Cancel? ==> t.shape.clientStreaming && t.requestOpen
  }

  ghost predicate TaskInv(t: Task) {
    QueueInv(t) && StreamInv(t) && LogInv(t)
  }
}
