/** The registry of gRPC sessions and every atomic step that touches it: user commands, the two
    halves of a start, the two halves of a cancel, and the background tasks. */
module GrpcSessions {
  import opened Options
  import opened GrpcTask

  const MAX_GRPC_SESSIONS := 100

  /** Tokens are random UUIDs in the program; here, numbers no earlier session has used. */
  type Token = nat

  datatype Handle = Handle(token: Token, clientStreaming: bool, committed: bool)

  datatype StartRequest = StartRequest(id: string, shape: Shape, initial: Message)

  /** tasks keeps every session ever inserted; waiting holds starts between check and recheck. */
  datatype State = State(sessions: map<string, Handle>, tasks: map<Token, Task>, waiting: multiset<StartRequest>)

  const INITIAL := State(map[], map[], multiset{})

  datatype Step =
    | BeginStart(request: StartRequest)
    | AbandonStart(request: StartRequest)
    | InsertStart(request: StartRequest, token: Token)
    | Spawn(token: Token)
    | SendMessage(id: string, parsed: Option<Message>)
    | CommitStream(id: string)
    | TakeHandle(id: string)
    | TakeAllHandles
    | NotifyTask(token: Token)
    | RunTask(token: Token, arm: Arm)
    | CleanUp(token: Token)

  // ---------------------------------------------------------------------- error branches, in order

  /** Why a command is refused, with the program's words. */
  datatype Refusal =
    | BadId            // gRPC session IDs must contain 1 to 256 characters.
    | AlreadyActive    // This gRPC session is already active.
    | TooManySessions  // No more than 100 gRPC sessions can be active.
    | NotStarted       // Start the gRPC call before sending a message.
    | NoRequestStream  // This gRPC method does not accept a request stream.
    | AlreadyCommitted // The gRPC request stream is already committed.
    | BadMessage       // the error of the message parser
    | NotQueued        // Unable to queue the gRPC message.
    | NotActive        // The gRPC call is not active.
    | NothingToCommit  // This gRPC method does not have a request stream to commit.
    | NotCommitted     // Unable to commit the gRPC request stream.
    | NotCancelled     // Unable to cancel the gRPC call.

  function StartError(s: State, id: string): Option<Refusal> {
    if id in s.sessions then Some(AlreadyActive)
    else if |s.sessions| >= MAX_GRPC_SESSIONS then Some(TooManySessions)
    else None
  }

  function SendError(s: State, id: string, parsed: Option<Message>): Option<Refusal> {
    if id !in s.sessions then Some(NotStarted)
    else if !s.sessions[id].clientStreaming then Some(NoRequestStream)
    else if s.sessions[id].committed then Some(AlreadyCommitted)
    else if parsed.None? then Some(BadMessage)
    else if !ChannelOpen(s, s.sessions[id].token) then Some(NotQueued)
    else None
  }

  function CommitError(s: State, id: string): Option<Refusal> {
    if id !in s.sessions then Some(NotActive)
    else if !s.sessions[id].clientStreaming then Some(NothingToCommit)
    else if s.sessions[id].committed then Some(AlreadyCommitted)
    else if !ChannelOpen(s, s.sessions[id].token) then Some(NotCommitted)
    else None
  }

  predicate ChannelOpen(s: State, token: Token) { token in s.tasks && CanSend(s.tasks[token]) }

  // ---------------------------------------------------------------------- the transition system

  predicate Enabled(s: State, step: Step) {
    match step
    case BeginStart(r) => 1 <= |r.id| <= 256 && StartError(s, r.id).None?
    case AbandonStart(r) => r in s.waiting
    case InsertStart(r, token) => r in s.waiting && token !in s.tasks
    case Spawn(token) => token in s.tasks && s.tasks[token].phase == Created
    case SendMessage(_, _) => true
    case CommitStream(_) => true
    case TakeHandle(_) => true
    case TakeAllHandles => true
    case NotifyTask(token) => token in s.tasks && s.tasks[token].sender == Detached
    case RunTask(token, arm) => token in s.tasks && ArmEnabled(s.tasks[token], arm)
    case CleanUp(token) => token in s.tasks && s.tasks[token].phase == Cleaning
  }

  function WithTask(s: State, token: Token, t: Task): State { s.(tasks := s.tasks[token := t]) }

  function Insert(s: State, r: StartRequest, token: Token): State {
    if StartError(s, r.id).Some? then s
    else
      s.(sessions := s.sessions[r.id := Handle(token, r.shape.clientStreaming, false)],
         tasks := s.tasks[token := NewTask(r.id, r.shape, r.initial)])
  }

  function Detach(t: Task): Task { if t.sender == Registered then t.(sender := Detached) else t }

  function DetachAll(tasks: map<Token, Task>): map<Token, Task> {
    map token | token in tasks :: Detach(tasks[token])
  }

  function Apply(s: State, step: Step): State
    requires Enabled(s, step)
  {
    match step
    case BeginStart(r) => s.(waiting := s.waiting + multiset{r})
    case AbandonStart(r) => s.(waiting := s.waiting - multiset{r})
    case InsertStart(r, token) => Insert(s, r, token).(waiting := s.waiting - multiset{r})
    case Spawn(token) => WithTask(s, token, Emit(s.tasks[token], Started).(phase := Ready))
    case SendMessage(id, parsed) =>
      if SendError(s, id, parsed).Some? then s
      else
        var token := s.sessions[id].token;
        WithTask(s, token, TrySend(s.tasks[token], Send(parsed.value)))
    case CommitStream(id) =>
      if CommitError(s, id).Some? then s
      else
        var token := s.sessions[id].token;
        WithTask(s, token, TrySend(s.tasks[token], Commit))
        .(sessions := s.sessions[id := s.sessions[id].(committed := true)])
    case TakeHandle(id) =>
      if id !in s.sessions || s.sessions[id].token !in s.tasks then s.(sessions := s.sessions - {id})
      else
        var token := s.sessions[id].token;
        WithTask(s, token, Detach(s.tasks[token])).(sessions := s.sessions - {id})
    case TakeAllHandles =>
      s.(sessions := map[], tasks := DetachAll(s.tasks))
    case NotifyTask(token) => WithTask(s, token, Notify(s.tasks[token]))
    case RunTask(token, arm) => WithTask(s, token, RunArm(s.tasks[token], arm))
    case CleanUp(token) => Clean(s, token)
  }

  predicate OwnsEntry(s: State, token: Token)
    requires token in s.tasks
  {
    s.tasks[token].id in s.sessions && s.sessions[s.tasks[token].id].token == token
  }

  /** The end of a task: its registry entry is removed only if it still carries the task's token. */
  function Clean(s: State, token: Token): State
    requires token in s.tasks
  {
    var t := s.tasks[token];
    if OwnsEntry(s, token) then
      WithTask(s, token, t.(phase := Gone, sender := Dropped)).(sessions := s.sessions - {t.id})
    else WithTask(s, token, t.(phase := Gone))
  }

  // ---------------------------------------------------------------------- the invariant

  ghost predicate Entry(t: Task, id: string, h: Handle) {
    && t.id == id && t.sender == Registered && t.phase != Gone
    && t.shape.clientStreaming == h.clientStreaming
    && (h.committed <==> Commit in Accepted(t))
  }

  ghost predicate EntriesSound(s: State) {
    forall id :: id in s.sessions ==>
      s.sessions[id].token in s.tasks && Entry(s.tasks[s.sessions[id].token], id, s.sessions[id])
  }

  ghost predicate OwnersRegistered(s: State) {
    forall token :: token in s.tasks && s.tasks[token].sender == Registered ==> OwnsEntry(s, token)
  }

  /** Registry entries and the tasks that still have a registered sender are in one-to-one
      correspondence, so tokens are distinct and belong to tasks that have not cleaned up. */
  ghost predicate RegistryInv(s: State) {
    |s.sessions| <= MAX_GRPC_SESSIONS && EntriesSound(s) && OwnersRegistered(s)
  }

  ghost predicate TasksInv(s: State) { forall token :: token in s.tasks ==> TaskInv(s.tasks[token]) }

  ghost predicate Inv(s: State) { RegistryInv(s) && TasksInv(s) }
}
