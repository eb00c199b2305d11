/** Every interleaved step keeps the invariant of the session registry. */
module GrpcSessionProofs {
  import opened Options
  import opened GrpcTask
  import opened GrpcTaskProofs
  import opened GrpcSessions

  lemma EntryHolds(s: State, id: string)
    requires EntriesSound(s) && id in s.sessions
    ensures s.sessions[id].token in s.tasks && Entry(s.tasks[s.sessions[id].token], id, s.sessions[id])
  {
  }

  /** Two entries have different tokens: a task knows its id. */
  lemma TokensDiffer(s: State, id: string, other: string)
    requires EntriesSound(s) && id in s.sessions && other in s.sessions && id != other
    ensures s.sessions[id].token != s.sessions[other].token
  {
    EntryHolds(s, id);
    EntryHolds(s, other);
  }

  lemma EntriesAfterUpdate(s: State, s': State, id: string, u: Task, h: Handle)
    requires EntriesSound(s) && id in s.sessions && h.token == s.sessions[id].token && Entry(u, id, h)
    requires s'.sessions == s.sessions[id := h] && s'.tasks == s.tasks[h.token := u]
    ensures EntriesSound(s')
  {
    hide Entry;
    forall other | other in s'.sessions
      ensures s'.sessions[other].token in s'.tasks
        && Entry(s'.tasks[s'.sessions[other].token], other, s'.sessions[other])
    {
      EntryHolds(s, other);
      if other != id { TokensDiffer(s, id, other); }
    }
  }

  /** An entry and its task change together. */
  lemma UpdatedEntry(s: State, s': State, id: string, u: Task, h: Handle)
    requires RegistryInv(s) && id in s.sessions && h.token == s.sessions[id].token && Entry(u, id, h)
    requires s'.sessions == s.sessions[id := h] && s'.tasks == s.tasks[h.token := u]
    ensures RegistryInv(s')
  {
    EntriesAfterUpdate(s, s', id, u, h);
    OwnersAfterUpdate(s, s', id, u, h);
    hide Entry, EntriesSound, OwnersRegistered;
    assert s'.sessions.Keys == s.sessions.Keys && |s'.sessions.Keys| == |s.sessions.Keys|;
  }

  lemma OwnersAfterUpdate(s: State, s': State, id: string, u: Task, h: Handle)
    requires OwnersRegistered(s) && id in s.sessions && h.token == s.sessions[id].token && u.id == id
    requires s'.sessions == s.sessions[id := h] && s'.tasks == s.tasks[h.token := u]
    ensures OwnersRegistered(s')
  {
  }

  lemma FewerEntries(m: map<string, Handle>, id: string)
    ensures |m - {id}| <= |m|
  {
    assert (m - {id}).Keys == m.Keys - {id};
    if id in m { assert m.Keys == (m.Keys - {id}) + {id}; } else { assert m.Keys - {id} == m.Keys; }
  }

  /** An entry leaves the registry and its task loses its registered sender. */
  lemma RemovedEntry(s: State, s': State, id: string, u: Task)
    requires RegistryInv(s) && id in s.sessions && u.sender != Registered
    requires s'.sessions == s.sessions - {id} && s'.tasks == s.tasks[s.sessions[id].token := u]
    ensures RegistryInv(s')
  {
    hide Entry;
    FewerEntries(s.sessions, id);
    forall other | other in s'.sessions
      ensures s'.sessions[other].token in s'.tasks
        && Entry(s'.tasks[s'.sessions[other].token], other, s'.sessions[other])
    {
      EntryHolds(s, other);
      TokensDiffer(s, id, other);
    }
  }

  /** Replacing one task by another with the same registry-visible face keeps the registry sound. */
  lemma SameFace(s: State, token: Token, u: Task)
    requires RegistryInv(s) && token in s.tasks
    requires var t := s.tasks[token];
      u.id == t.id && u.sender == t.sender && u.shape == t.shape && Accepted(u) == Accepted(t)
          && (u.phase == Gone ==> t.phase == Gone)
    ensures RegistryInv(WithTask(s, token, u))
  {
    var s' := WithTask(s, token, u);
    forall id | id in s'.sessions
      ensures s'.sessions[id].token in s'.tasks && Entry(s'.tasks[s'.sessions[id].token], id, s'.sessions[id])
    {
      EntryHolds(s, id);
    }
  }

  /** A task without registered sender is invisible to the registry. */
  lemma Unseen(s: State, token: Token, u: Task)
    requires RegistryInv(s) && token in s.tasks
    requires s.tasks[token].sender != Registered && u.sender != Registered
    ensures RegistryInv(WithTask(s, token, u))
  {
  }

  lemma OtherWaiting(s: State, s': State)
    requires RegistryInv(s) && s'.sessions == s.sessions && s'.tasks == s.tasks
    ensures RegistryInv(s')
  {
  }

  lemma InsertedEntries(s: State, r: StartRequest, token: Token)
    requires EntriesSound(s) && token !in s.tasks && StartError(s, r.id).None?
    ensures EntriesSound(Insert(s, r, token))
  {
    var s' := Insert(s, r, token);
    forall id | id in s'.sessions
      ensures s'.sessions[id].token in s'.tasks && Entry(s'.tasks[s'.sessions[id].token], id, s'.sessions[id])
    {
      if id != r.id { EntryHolds(s, id); }
    }
  }

  lemma InsertedOwners(s: State, r: StartRequest, token: Token)
    requires OwnersRegistered(s) && token !in s.tasks && StartError(s, r.id).None?
    ensures OwnersRegistered(Insert(s, r, token))
  {
    StartAllowed(s, r.id);
    hide StartError;
  }

  lemma InsertKeepsRegistry(s: State, r: StartRequest, token: Token)
    requires RegistryInv(s) && token !in s.tasks
    ensures RegistryInv(Insert(s, r, token))
  {
    hide StartError;
    if StartError(s, r.id).None? {
      StartAllowed(s, r.id);
      InsertedEntries(s, r, token);
      InsertedOwners(s, r, token);
      hide EntriesSound, OwnersRegistered;
      assert |Insert(s, r, token).sessions| == |s.sessions| + 1;
    }
  }

  lemma SendAllowed(s: State, id: string, parsed: Option<Message>)
    requires SendError(s, id, parsed).None?
    ensures id in s.sessions && parsed.Some? && s.sessions[id].clientStreaming && !s.sessions[id].committed
    ensures ChannelOpen(s, s.sessions[id].token)
  {
  }

  lemma CommitAllowed(s: State, id: string)
    requires CommitError(s, id).None?
    ensures id in s.sessions && s.sessions[id].clientStreaming && !s.sessions[id].committed
    ensures ChannelOpen(s, s.sessions[id].token)
  {
  }

  lemma StartAllowed(s: State, id: string)
    requires StartError(s, id).None?
    ensures id !in s.sessions && |s.sessions| < MAX_GRPC_SESSIONS
  {
  }

  lemma AcceptedEntry(t: Task, id: string, h: Handle, c: Command)
    requires Entry(t, id, h) && CanSend(t)
    ensures Entry(TrySend(t, c), id, if c.Commit? then h.(committed := true) else h)
  {
    assert Accepted(TrySend(t, c)) == Accepted(t) + [c];
  }

  lemma SendKeepsRegistry(s: State, id: string, parsed: Option<Message>)
    requires RegistryInv(s)
    ensures RegistryInv(Apply(s, SendMessage(id, parsed)))
  {
    hide SendError, CommitError, StartError;
    if SendError(s, id, parsed).None? {
      SendAllowed(s, id, parsed);
      var h := s.sessions[id];
      EntryHolds(s, id);
      AcceptedEntry(s.tasks[h.token], id, h, Send(parsed.value));
      hide RegistryInv, Entry, TrySend;
      UpdatedEntry(s, Apply(s, SendMessage(id, parsed)), id, TrySend(s.tasks[h.token], Send(parsed.value)), h);
    }
  }

  lemma CommitKeepsRegistry(s: State, id: string)
    requires RegistryInv(s)
    ensures RegistryInv(Apply(s, CommitStream(id)))
  {
    hide SendError, CommitError, StartError;
    if CommitError(s, id).None? {
      CommitAllowed(s, id);
      var h := s.sessions[id];
      EntryHolds(s, id);
      AcceptedEntry(s.tasks[h.token], id, h, Commit);
      hide RegistryInv, Entry, TrySend;
      UpdatedEntry(s, Apply(s, CommitStream(id)), id, TrySend(s.tasks[h.token], Commit), h.(committed := true));
    }
  }

  lemma TakeKeepsRegistry(s: State, id: string)
    requires RegistryInv(s)
    ensures RegistryInv(Apply(s, TakeHandle(id)))
  {
    hide SendError, CommitError, StartError, Entry, OwnersRegistered;
    var s' := Apply(s, TakeHandle(id));
    if id in s.sessions {
      EntryHolds(s, id);
      hide RegistryInv, EntriesSound;
      RemovedEntry(s, s', id, Detach(s.tasks[s.sessions[id].token]));
    } else {
      assert s.sessions - {id} == s.sessions;
      hide RegistryInv, EntriesSound;
      OtherWaiting(s, s');
    }
  }

  lemma CleanKeepsRegistry(s: State, token: Token)
    requires RegistryInv(s) && token in s.tasks
    ensures RegistryInv(Clean(s, token))
  {
    var t := s.tasks[token];
    if OwnsEntry(s, token) {
      hide RegistryInv;
      RemovedEntry(s, Clean(s, token), t.id, t.(phase := Gone, sender := Dropped));
    } else {
      Unseen(s, token, t.(phase := Gone));
    }
  }

  lemma TakeAllKeepsRegistry(s: State)
    requires RegistryInv(s)
    ensures RegistryInv(Apply(s, TakeAllHandles))
  {
  }

  lemma CommandKeepsRegistry(s: State, step: Step)
    requires RegistryInv(s) && Enabled(s, step)
    requires step.SendMessage? || step.CommitStream? || step.TakeHandle? || step.TakeAllHandles?
    ensures RegistryInv(Apply(s, step))
  {
    match step
    case SendMessage(id, parsed) => SendKeepsRegistry(s, id, parsed);
    case CommitStream(id) => CommitKeepsRegistry(s, id);
    case TakeHandle(id) => TakeKeepsRegistry(s, id);
    case TakeAllHandles => TakeAllKeepsRegistry(s);
  }

  lemma RunKeepsRegistry(s: State, token: Token, arm: Arm)
    requires RegistryInv(s) && TasksInv(s) && Enabled(s, RunTask(token, arm))
    ensures RegistryInv(Apply(s, RunTask(token, arm)))
  {
    var t := s.tasks[token];
    var u := RunArm(t, arm);
    ArmKeepsQueue(t, arm);
    ArmKeepsFace(t, arm);
    SameFace(s, token, u);
  }

  lemma ArmKeepsFace(t: Task, arm: Arm)
    requires ArmEnabled(t, arm)
    ensures var u := RunArm(t, arm);
      u.id == t.id && u.sender == t.sender && u.shape == t.shape && u.phase != Gone
  {
  }

  lemma StepKeepsRegistry(s: State, step: Step)
    requires RegistryInv(s) && TasksInv(s) && Enabled(s, step)
    ensures RegistryInv(Apply(s, step))
  {
    hide RegistryInv, TasksInv, StartError, Clean;
    match step
    case BeginStart(_) => OtherWaiting(s, Apply(s, step));
    case AbandonStart(_) => OtherWaiting(s, Apply(s, step));
    case InsertStart(r, token) => InsertKeepsRegistry(s, r, token); OtherWaiting(Insert(s, r, token), Apply(s, step));
    case Spawn(token) => SameFace(s, token, Emit(s.tasks[token], Started).(phase := Ready));
    case NotifyTask(token) => Unseen(s, token, Notify(s.tasks[token]));
    case RunTask(token, arm) => RunKeepsRegistry(s, token, arm);
    case CleanUp(token) => CleanKeepsRegistry(s, token);
    case _ => CommandKeepsRegistry(s, step);
  }

  // ---------------------------------------------------------------------- the tasks

  lemma NewTaskInv(r: StartRequest)
    ensures TaskInv(NewTask(r.id, r.shape, r.initial))
  {
  }

  lemma SpawnKeepsInv(t: Task)
    requires TaskInv(t) && t.phase == Created
    ensures TaskInv(Emit(t, Started).(phase := Ready))
  {
    var u := Emit(t, Started).(phase := Ready);
    SameQueue(t, u);
    AppendOutgoing(t.log, Started);
    hide QueueInv;
  }

  lemma SameQueue(t: Task, u: Task)
    requires QueueInv(t) && u.taken == t.taken && u.queue == t.queue && u.shape == t.shape
    requires u.sender == t.sender || Cancel !in Accepted(t) || u.sender == Dropped
    ensures QueueInv(u)
  {
  }

  lemma DetachKeepsInv(t: Task)
    requires TaskInv(t)
    ensures TaskInv(Detach(t))
  {
    SameQueue(t, Detach(t));
    hide QueueInv, StreamInv, LogInv;
    SameStream(t, Detach(t));
    SameLog(t, Detach(t));
  }

  lemma GoneKeepsInv(t: Task, sender: Sender)
    requires TaskInv(t) && t.phase == Cleaning && (sender == Dropped || sender == t.sender)
    ensures TaskInv(t.(phase := Gone, sender := sender))
  {
    var u := t.(phase := Gone, sender := sender);
    SameQueue(t, u);
    GoneKeepsLog(t, sender);
    hide QueueInv, LogInv;
  }

  lemma GoneKeepsLog(t: Task, sender: Sender)
    requires LogInv(t) && t.phase == Cleaning
    ensures LogInv(t.(phase := Gone, sender := sender))
  {
    hide LogSplit, Outcome, InBodyOf;
    var n: nat, tail: seq<Event> :| LogSplit(t, n, tail) && Outcome(tail);
    SameSplit(t, t.(phase := Gone, sender := sender), n, tail);
  }

  lemma SameSplit(t: Task, u: Task, n: nat, tail: seq<Event>)
    requires LogSplit(t, n, tail) && u.log == t.log && u.shape == t.shape && u.initial == t.initial
    ensures LogSplit(u, n, tail)
  {
  }

  /** The command handlers only accept what the order of commands allows. */
  lemma HandlersRespectOrder(s: State, id: string, c: Command)
    requires Inv(s) && id in s.sessions && !c.Cancel?
    requires s.sessions[id].clientStreaming && !s.sessions[id].committed
    requires ChannelOpen(s, s.sessions[id].token)
    ensures TaskInv(TrySend(s.tasks[s.sessions[id].token], c))
  {
    var t := s.tasks[s.sessions[id].token];
    assert Entry(t, id, s.sessions[id]);
    AcceptKeepsInv(t, c);
  }

  lemma TaskHolds(s: State, token: Token)
    requires TasksInv(s) && token in s.tasks
    ensures TaskInv(s.tasks[token])
  {
  }

  lemma OneTask(s: State, s': State, token: Token, u: Task)
    requires TasksInv(s) && s'.tasks == s.tasks[token := u] && TaskInv(u)
    ensures TasksInv(s')
  {
  }

  lemma SendKeepsTasks(s: State, id: string, parsed: Option<Message>)
    requires Enabled(s, SendMessage(id, parsed)) && Inv(s)
    ensures TasksInv(Apply(s, SendMessage(id, parsed)))
  {
    hide RegistryInv, TasksInv, TaskInv, TrySend, SendError, CommitError, StartError;
    if SendError(s, id, parsed).None? {
      SendAllowed(s, id, parsed);
      HandlersRespectOrder(s, id, Send(parsed.value));
      var token := s.sessions[id].token;
      OneTask(s, Apply(s, SendMessage(id, parsed)), token, TrySend(s.tasks[token], Send(parsed.value)));
    }
  }

  lemma CommitKeepsTasks(s: State, id: string)
    requires Enabled(s, CommitStream(id)) && Inv(s)
    ensures TasksInv(Apply(s, CommitStream(id)))
  {
    hide RegistryInv, TasksInv, TaskInv, TrySend, SendError, CommitError, StartError;
    if CommitError(s, id).None? {
      CommitAllowed(s, id);
      HandlersRespectOrder(s, id, Commit);
      var token := s.sessions[id].token;
      OneTask(s, Apply(s, CommitStream(id)), token, TrySend(s.tasks[token], Commit));
    }
  }

  lemma TakeKeepsTasks(s: State, id: string)
    requires Enabled(s, TakeHandle(id)) && Inv(s)
    ensures TasksInv(Apply(s, TakeHandle(id)))
  {
    hide TaskInv, Detach, SendError, CommitError, StartError;
    if id in s.sessions {
      EntryHolds(s, id);
      var token := s.sessions[id].token;
      TaskHolds(s, token);
      DetachKeepsInv(s.tasks[token]);
      hide TasksInv, RegistryInv;
      OneTask(s, Apply(s, TakeHandle(id)), token, Detach(s.tasks[token]));
    }
  }

  lemma TakeAllKeepsTasks(s: State)
    requires TasksInv(s)
    ensures TasksInv(Apply(s, TakeAllHandles))
  {
    hide TaskInv, Detach;
    forall token | token in s.tasks ensures TaskInv(Detach(s.tasks[token])) {
      DetachKeepsInv(s.tasks[token]);
    }
  }

  lemma TaskStepKeepsTasks(s: State, step: Step)
    requires Inv(s) && Enabled(s, step)
    requires step.Spawn? || step.NotifyTask? || step.RunTask? || step.CleanUp?
    ensures TasksInv(Apply(s, step))
  {
    hide TaskInv, TasksInv, RegistryInv, Notify, RunArm, Emit;
    var t := s.tasks[step.token];
    var u := Apply(s, step).tasks[step.token];
    TaskHolds(s, step.token);
    match step {
      case Spawn(token) => SpawnKeepsInv(t);
      case NotifyTask(token) => NotifyKeepsInv(t);
      case RunTask(token, arm) => ArmKeepsInv(t, arm);
      case CleanUp(token) => GoneKeepsInv(t, u.sender);
    }
    OneTask(s, Apply(s, step), step.token, u);
  }

  lemma StepKeepsTasks(s: State, step: Step)
    requires Inv(s) && Enabled(s, step)
    ensures TasksInv(Apply(s, step))
  {
    match step
    case BeginStart(_) =>
    case AbandonStart(_) =>
    case InsertStart(r, token) =>
      NewTaskInv(r);
      if StartError(s, r.id).None? {
        OneTask(s, Apply(s, step), token, NewTask(r.id, r.shape, r.initial));
      }
    case SendMessage(id, parsed) => SendKeepsTasks(s, id, parsed);
    case CommitStream(id) => CommitKeepsTasks(s, id);
    case TakeHandle(id) => TakeKeepsTasks(s, id);
    case TakeAllHandles => TakeAllKeepsTasks(s);
    case _ => TaskStepKeepsTasks(s, step);
  }

  lemma StepKeepsInv(s: State, step: Step)
    requires Inv(s) && Enabled(s, step)
    ensures Inv(Apply(s, step))
  {
    StepKeepsRegistry(s, step);
    StepKeepsTasks(s, step);
  }
}
