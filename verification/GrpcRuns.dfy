/** What holds in every reachable state of the session registry, and over whole runs. */
module GrpcRuns {
  import opened Options
  import opened GrpcTask
  import opened GrpcTaskProofs
  import opened GrpcSessions
  import opened GrpcSessionProofs

  ghost predicate ValidRun(s: State, steps: seq<Step>)
    decreases |steps|
  {
    steps == [] || (Enabled(s, steps[0]) && ValidRun(Apply(s, steps[0]), steps[1..]))
  }

  ghost function Run(s: State, steps: seq<Step>): State
    requires ValidRun(s, steps)
    decreases |steps|
  {
    if steps == [] then s else Run(Apply(s, steps[0]), steps[1..])
  }

  ghost predicate Reachable(s: State) {
    exists steps: seq<Step> :: ValidRun(INITIAL, steps) && Run(INITIAL, steps) == s
  }

  lemma {:induction false} RunKeepsInv(s: State, steps: seq<Step>)
    requires Inv(s) && ValidRun(s, steps)
    ensures Inv(Run(s, steps))
    decreases |steps|
  {
    if steps != [] {
      StepKeepsInv(s, steps[0]);
      RunKeepsInv(Apply(s, steps[0]), steps[1..]);
    }
  }

  lemma {:induction false} RunOneMore(s: State, steps: seq<Step>, step: Step)
    requires ValidRun(s, steps) && Enabled(Run(s, steps), step)
    ensures ValidRun(s, steps + [step]) && Run(s, steps + [step]) == Apply(Run(s, steps), step)
    decreases |steps|
  {
    var more := steps + [step];
    if steps == [] {
      assert more[0] == step && more[1..] == [];
      assert ValidRun(Apply(s, step), []);
    } else {
      assert more[0] == steps[0] && more[1..] == steps[1..] + [step];
      RunOneMore(Apply(s, steps[0]), steps[1..], step);
    }
  }

  lemma ReachableStep(s: State, step: Step)
    requires Reachable(s) && Enabled(s, step)
    ensures Reachable(Apply(s, step))
  {
    var steps: seq<Step> :| ValidRun(INITIAL, steps) && Run(INITIAL, steps) == s;
    RunOneMore(INITIAL, steps, step);
  }

  lemma ReachableInv(s: State)
    requires Reachable(s)
    ensures Inv(s)
  {
    var steps: seq<Step> :| ValidRun(INITIAL, steps) && Run(INITIAL, steps) == s;
    RunKeepsInv(INITIAL, steps);
  }

  lemma ReachableTask(s: State, token: Token)
    requires Reachable(s) && token in s.tasks
    ensures QueueInv(s.tasks[token]) && StreamInv(s.tasks[token]) && LogInv(s.tasks[token])
  {
    ReachableInv(s);
    hide Reachable, QueueInv, StreamInv, LogInv;
    TaskHolds(s, token);
  }

  // ---------------------------------------------------------------------- the order of commands

  /** The commands accepted for one token form Send* Commit? Cancel?, and only Cancel? for a method
      without client streaming; the messages forwarded to the RPC are a prefix of those accepted. */
  lemma CommandsAreOrdered(s: State, token: Token)
    requires Reachable(s) && token in s.tasks
    ensures var t := s.tasks[token];
      && |t.queue| <= GRPC_SESSION_COMMAND_CAPACITY
      && (exists n: nat :: RegularFrom(Accepted(t), n))
      && (!t.shape.clientStreaming ==> Accepted(t) in {[], [Cancel]})
      && (t.shape.clientStreaming ==> t.forwarded <= Sends(Accepted(t)))
  {
    ReachableInv(s);
    var t := s.tasks[token];
    CommandOrderIsRegular(Accepted(t));
    SendsOfConcat(t.taken, t.queue);
    if !t.shape.clientStreaming { OnlyCancel(Accepted(t)); }
  }

  lemma OnlyCancel(cs: seq<Command>)
    requires CommandOrder(cs) && forall c :: c in cs ==> c.Cancel?
    ensures cs in {[], [Cancel]}
  {
    if |cs| >= 1 {
      assert cs[0] in cs;
      var last := cs[|cs| - 1];
      assert |cs| == 1;
      assert cs == [cs[0]];
    }
  }

  /** A session takes a message while it is registered, has a request stream with no commit accepted on it,
      runs, and has fewer than 256 commands waiting; a commit likewise; nothing else keeps either out. */
  lemma CommandsAreAcceptedWhileOpen(s: State, id: string, m: Message)
    requires Reachable(s)
    ensures SendError(s, id, Some(m)) == None <==> IsOpen(s, id)
    ensures CommitError(s, id) == None <==> IsOpen(s, id)
    ensures IsOpen(s, id) ==>
      var token := s.sessions[id].token; var t := s.tasks[token];
      && Apply(s, SendMessage(id, Some(m))).tasks == s.tasks[token := t.(queue := t.queue + [Send(m)])]
      && Apply(s, CommitStream(id)).tasks == s.tasks[token := t.(queue := t.queue + [Commit])]
  {
    ReachableInv(s);
    hide Reachable, Inv, RegistryInv, Entry, IsOpen, SendError, CommitError, Apply;
    EntriesHold(s, id);
    ErrorsWhenClosed(s, id, m);
    if IsOpen(s, id) { CommandsApplied(s, id, m); }
  }

  lemma EntriesHold(s: State, id: string)
    requires Inv(s)
    ensures id in s.sessions ==>
      s.sessions[id].token in s.tasks && Entry(s.tasks[s.sessions[id].token], id, s.sessions[id])
  {
  }

  lemma ErrorsWhenClosed(s: State, id: string, m: Message)
    requires id in s.sessions ==>
      s.sessions[id].token in s.tasks && Entry(s.tasks[s.sessions[id].token], id, s.sessions[id])
    ensures SendError(s, id, Some(m)) == None <==> IsOpen(s, id)
    ensures CommitError(s, id) == None <==> IsOpen(s, id)
  {
  }

  lemma CommandsApplied(s: State, id: string, m: Message)
    requires SendError(s, id, Some(m)) == None && CommitError(s, id) == None && IsOpen(s, id)
    ensures var token := s.sessions[id].token; var t := s.tasks[token];
      && Apply(s, SendMessage(id, Some(m))).tasks == s.tasks[token := t.(queue := t.queue + [Send(m)])]
      && Apply(s, CommitStream(id)).tasks == s.tasks[token := t.(queue := t.queue + [Commit])]
  {
    hide SendError, CommitError;
  }

  ghost predicate IsOpen(s: State, id: string) {
    && id in s.sessions && s.sessions[id].token in s.tasks
    && var t := s.tasks[s.sessions[id].token];
       && t.shape.clientStreaming && Commit !in t.taken && Commit !in t.queue
       && (t.phase == Created || t.phase == Ready || t.phase == Calling || t.phase == Streaming || t.phase == Trailing)
       && |t.queue| < 256
  }

  /** A cancel reaches a running session unless 256 commands are waiting. */
  lemma CancelIsQueuedUnlessFull(t: Task)
    requires t.phase == Created || t.phase == Ready || t.phase == Calling || t.phase == Streaming || t.phase == Trailing
    ensures Notify(t) == t.(sender := Dropped, queue := if |t.queue| < 256 then t.queue + [Cancel] else t.queue)
  {
  }

  /** The branches for a committed stream and for a method without request stream never run. */
  lemma DefensiveBranchesAreDead(s: State, token: Token, streamAlive: bool)
    requires Reachable(s) && Enabled(s, RunTask(token, Receive(streamAlive)))
    ensures var u := ReceiveCommand(s.tasks[token], streamAlive);
      u.phase != Returned(Some(ALREADY_COMMITTED)) && u.phase != Returned(Some(NO_STREAM_COMMANDS))
  {
    ReachableTask(s, token);
    HeadIsApplicable(s.tasks[token]);
    hide QueueInv, StreamInv, HeadApplicable, ReceiveCommand, Reachable;
    ApplicableHeadIsApplied(s.tasks[token], streamAlive);
  }

  lemma ApplicableHeadIsApplied(t: Task, streamAlive: bool)
    requires CanReceive(t) && HeadApplicable(t)
    ensures var u := ReceiveCommand(t, streamAlive);
      u.phase != Returned(Some(ALREADY_COMMITTED)) && u.phase != Returned(Some(NO_STREAM_COMMANDS))
  {
    assert |ALREADY_COMMITTED| != |STREAM_ENDED| && |NO_STREAM_COMMANDS| != |STREAM_ENDED|;
  }

  // ---------------------------------------------------------------------- the event log

  /** A session that has ended has a log of the documented grammar. */
  lemma FinishedLogsAreComplete(s: State, token: Token)
    requires Reachable(s) && token in s.tasks
    requires s.tasks[token].phase == Cleaning || s.tasks[token].phase == Gone
    ensures CompleteLog(s.tasks[token])
  {
    ReachableTask(s, token);
    hide Reachable, CompleteLog, QueueInv, StreamInv;
  }

  lemma LogParts(t: Task) returns (n: nat, tail: seq<Event>)
    requires CompleteLog(t)
    ensures 1 <= n && |t.log| == n + |tail| && Outcome(tail) && t.log[0] == Started
    ensures forall i :: 1 <= i < n ==> InBody(t.log[i])
    ensures forall i :: n <= i < |t.log| ==> t.log[i] == tail[i - n]
    ensures forall i, j :: 1 <= i < j < n && t.log[i].Committed? ==> t.log[j].Incoming?
  {
    hide LogSplit, Outcome;
    n, tail :| LogSplit(t, n, tail) && Outcome(tail);
    SplitParts(t, n, tail);
  }

  lemma SplitParts(t: Task, n: nat, tail: seq<Event>)
    requires LogSplit(t, n, tail)
    ensures 1 <= n && |t.log| == n + |tail| && t.log[0] == Started
    ensures forall i :: 1 <= i < n ==> InBody(t.log[i])
    ensures forall i :: n <= i < |t.log| ==> t.log[i] == tail[i - n]
    ensures forall i, j :: 1 <= i < j < n && t.log[i].Committed? ==> t.log[j].Incoming?
  {
    var body := t.log[1..n];
    assert forall i :: 1 <= i < n ==> t.log[i] == body[i - 1];
    assert forall i :: n <= i < |t.log| ==> t.log[i] == t.log[n..][i - n];
  }

  /** An outcome holds neither start nor messages nor commits, its end is its last event, and at most one
      of its events is a status. */
  lemma OutcomeAt(tail: seq<Event>, k: nat)
    requires Outcome(tail) && k < |tail|
    ensures tail[k] != Started && !InBody(tail[k]) && (tail[k] == Ended <==> k == |tail| - 1)
    ensures forall l :: k < l < |tail| && tail[k].Status? ==> !tail[l].Status?
  {
  }

  /** Reading the grammar event by event: start only first, and end only last. */
  lemma StartFirstEndLast(t: Task, i: nat)
    requires CompleteLog(t) && i < |t.log|
    ensures t.log[i] == Started <==> i == 0
    ensures t.log[i] == Ended <==> i == |t.log| - 1
  {
    var n, tail := LogParts(t);
    assert tail != [];
    hide CompleteLog, Outcome;
    if n <= i {
      OutcomeAt(tail, i - n);
    }
  }

  /** At most one status, and only after every message and commit. */
  lemma OneStatus(t: Task, i: nat, j: nat)
    requires CompleteLog(t) && i < j < |t.log|
    ensures t.log[i].Status? ==> !t.log[j].Status? && !InBody(t.log[j])
  {
    var n, tail := LogParts(t);
    hide CompleteLog, Outcome;
    if n <= i {
      OutcomeAt(tail, i - n);
      OutcomeAt(tail, j - n);
      assert t.log[i] == tail[i - n] && t.log[j] == tail[j - n];
    } else {
      assert i == 0 || InBody(t.log[i]);
    }
  }

  /** No outgoing message after the commit, which happens at most once. */
  lemma NothingOutgoingAfterCommit(t: Task, i: nat, j: nat)
    requires CompleteLog(t) && i < j < |t.log|
    ensures t.log[i].Committed? ==> !t.log[j].Outgoing? && !t.log[j].Committed?
  {
    var n, tail := LogParts(t);
    hide CompleteLog, Outcome;
    if n <= j {
      OutcomeAt(tail, j - n);
    }
  }

  /** Outgoing events show exactly the forwarded messages, except in the one case where a method
      without client streaming shows its request and then fails to build it (invalid metadata). */
  lemma OutgoingIsForwarded(s: State, token: Token)
    requires Reachable(s) && token in s.tasks
    ensures var t := s.tasks[token];
      OutgoingTexts(t.log) == Texts(t.forwarded) <==>
      (t.shape.clientStreaming || !Begun(t) || t.forwarded != [])
  {
    ReachableInv(s);
    var t := s.tasks[token];
    if !t.shape.clientStreaming && Begun(t) && t.forwarded == [t.initial] {
      assert Texts(t.forwarded) == [t.initial.text];
    }
  }

  /** The exceptional case is exactly a rejected request of a method without client streaming. */
  lemma RequestIsForwardedUnlessRejected(s: State, token: Token, metadataError: Option<string>)
    requires Reachable(s) && Enabled(s, RunTask(token, Begin(metadataError)))
    ensures var u := BeginCall(s.tasks[token], metadataError);
      OutgoingTexts(u.log) == Texts(u.forwarded) <==> (u.shape.clientStreaming || metadataError.None?)
  {
    ReachableInv(s);
    var t := s.tasks[token];
    AppendOutgoing(t.log, Outgoing(t.initial.text));
    assert Texts([t.initial]) == [t.initial.text];
  }

  // ---------------------------------------------------------------------- the registry

  /** At most 100 sessions; tokens are distinct; each entry's task has not cleaned up. */
  lemma RegistryIsSound(s: State)
    requires Reachable(s)
    ensures |s.sessions| <= MAX_GRPC_SESSIONS
    ensures forall id :: id in s.sessions ==>
      s.sessions[id].token in s.tasks && s.tasks[s.sessions[id].token].phase != Gone
    ensures forall a, b :: a in s.sessions && b in s.sessions && a != b ==> s.sessions[a].token != s.sessions[b].token
  {
    ReachableInv(s);
    forall id | id in s.sessions ensures Entry(s.tasks[s.sessions[id].token], id, s.sessions[id]) { }
  }

  /** Once every task has ended, nothing is left in the registry. */
  lemma RegistryEmptiesOut(s: State)
    requires Reachable(s)
    ensures (forall token :: token in s.tasks ==> s.tasks[token].phase == Gone) ==> s.sessions == map[]
  {
    ReachableInv(s);
    if s.sessions != map[] {
      var id :| id in s.sessions;
      assert Entry(s.tasks[s.sessions[id].token], id, s.sessions[id]);
    }
  }

  /** An entry leaves the registry only by a cancel of its id, by close-all, or at the end of its
      own task: the late end of an older session with the same id never removes it. */
  lemma OnlyItsOwnEndRemovesAnEntry(s: State, step: Step, id: string)
    requires Reachable(s) && Enabled(s, step) && id in s.sessions
    ensures var s' := Apply(s, step);
      || (id in s'.sessions && s'.sessions[id].token == s.sessions[id].token)
      || step == TakeHandle(id) || step == TakeAllHandles || step == CleanUp(s.sessions[id].token)
  {
    ReachableInv(s);
    if step != TakeHandle(id) && step != TakeAllHandles && step != CleanUp(s.sessions[id].token) {
      EntrySurvives(s, step, id);
    }
  }

  lemma SendKeepsEntry(s: State, sent: string, parsed: Option<Message>, id: string)
    requires id in s.sessions
    ensures var s' := Apply(s, SendMessage(sent, parsed));
      id in s'.sessions && s'.sessions[id].token == s.sessions[id].token
  {
    if SendError(s, sent, parsed).None? { SendAllowed(s, sent, parsed); }
    hide SendError, TrySend;
  }

  lemma CommitKeepsEntry(s: State, committed: string, id: string)
    requires id in s.sessions
    ensures var s' := Apply(s, CommitStream(committed));
      id in s'.sessions && s'.sessions[id].token == s.sessions[id].token
  {
    if CommitError(s, committed).None? { CommitAllowed(s, committed); }
    hide CommitError, TrySend;
  }

  lemma InsertKeepsEntry(s: State, r: StartRequest, token: Token, id: string)
    requires id in s.sessions
    ensures var s' := Insert(s, r, token); id in s'.sessions && s'.sessions[id].token == s.sessions[id].token
  {
    if StartError(s, r.id).None? { StartAllowed(s, r.id); }
    hide StartError;
  }

  lemma EntrySurvives(s: State, step: Step, id: string)
    requires RegistryInv(s) && Enabled(s, step) && id in s.sessions
    requires step != TakeHandle(id) && step != TakeAllHandles && step != CleanUp(s.sessions[id].token)
    ensures var s' := Apply(s, step); id in s'.sessions && s'.sessions[id].token == s.sessions[id].token
  {
    EntryHolds(s, id);
    match step
    case SendMessage(sent, parsed) => SendKeepsEntry(s, sent, parsed, id);
    case CommitStream(committed) => CommitKeepsEntry(s, committed, id);
    case InsertStart(r, token) => InsertKeepsEntry(s, r, token, id);
    case _ => hide RegistryInv, Entry, SendError, CommitError, StartError, Insert, RunArm, Notify, Emit, TrySend;
  }

  // ---------------------------------------------------------------------- cancel is never lost

  function Receives(steps: seq<Step>, token: Token): nat {
    if steps == [] then 0
    else
      (if steps[0].RunTask? && steps[0].token == token && steps[0].arm.Receive? then 1 else 0)
      + Receives(steps[1..], token)
  }

  /** An upper bound on the command receives a task can still make once its handle is taken. */
  function ReceivesLeft(t: Task): nat {
    if !ReceiverAlive(t) then 0 else if Cancel in t.queue then |t.queue| else |t.queue| + 1
  }

  lemma ReceiveUsesOne(t: Task, streamAlive: bool)
    requires QueueInv(t) && CanReceive(t)
    ensures ReceivesLeft(ReceiveCommand(t, streamAlive)) < ReceivesLeft(t)
  {
    if t.queue != [] {
      assert t.queue == [t.queue[0]] + t.queue[1..];
      assert !t.queue[0].Cancel? && Cancel in t.queue ==> Cancel in t.queue[1..];
    }
  }

  lemma ArmUsesNone(t: Task, arm: Arm)
    requires ArmEnabled(t, arm) && !arm.Receive?
    ensures ReceivesLeft(RunArm(t, arm)) <= ReceivesLeft(t)
  {
  }

  lemma NotifyUsesNone(t: Task)
    requires QueueInv(t) && t.sender == Detached
    ensures ReceivesLeft(Notify(t)) <= ReceivesLeft(t)
  {
    assert Cancel !in Accepted(t);
    assert Cancel in t.queue ==> Cancel in Accepted(t);
    assert Cancel in t.queue + [Cancel];
  }

  lemma EndUsesNone(t: Task, u: Task)
    requires u == t.(phase := Gone) || u == t.(phase := Gone, sender := Dropped)
      || u == Emit(t, Started).(phase := Ready)
    requires u.phase == Ready ==> t.phase == Created
    ensures ReceivesLeft(u) <= ReceivesLeft(t)
  {
  }

  predicate IsCommand(step: Step) {
    step.SendMessage? || step.CommitStream? || step.TakeHandle? || step.TakeAllHandles?
  }

  /** A command changes no task but that of its entry. */
  lemma SendTouchesItsEntry(s: State, id: string, parsed: Option<Message>, token: Token)
    requires token in s.tasks && (id in s.sessions ==> s.sessions[id].token != token)
    ensures var s' := Apply(s, SendMessage(id, parsed)); token in s'.tasks && s'.tasks[token] == s.tasks[token]
    ensures Apply(s, SendMessage(id, parsed)).sessions == s.sessions
  {
    if SendError(s, id, parsed).None? { SendAllowed(s, id, parsed); }
    hide SendError, TrySend;
  }

  lemma CommitTouchesItsEntry(s: State, id: string, token: Token)
    requires token in s.tasks && (id in s.sessions ==> s.sessions[id].token != token)
    ensures var s' := Apply(s, CommitStream(id)); token in s'.tasks && s'.tasks[token] == s.tasks[token]
  {
    if CommitError(s, id).None? { CommitAllowed(s, id); }
    hide CommitError, TrySend;
  }

  lemma TakeTouchesItsEntry(s: State, id: string, token: Token)
    requires token in s.tasks && (id in s.sessions ==> s.sessions[id].token != token)
    ensures var s' := Apply(s, TakeHandle(id)); token in s'.tasks && s'.tasks[token] == s.tasks[token]
  {
  }

  lemma TakeAllLeavesTaken(s: State, token: Token)
    requires token in s.tasks && s.tasks[token].sender != Registered
    ensures var s' := Apply(s, TakeAllHandles); token in s'.tasks && s'.tasks[token] == s.tasks[token]
  {
  }

  lemma TakenHasNoEntry(s: State, id: string, token: Token)
    requires RegistryInv(s) && token in s.tasks && s.tasks[token].sender != Registered && id in s.sessions
    ensures s.sessions[id].token != token
  {
    EntryHolds(s, id);
  }

  /** Commands do not touch a task whose handle was taken. */
  lemma CommandsLeaveTaken(s: State, step: Step, token: Token)
    requires RegistryInv(s) && IsCommand(step) && Enabled(s, step) && token in s.tasks
      && s.tasks[token].sender != Registered
    ensures token in Apply(s, step).tasks && Apply(s, step).tasks[token] == s.tasks[token]
  {
    hide RegistryInv, Apply, Enabled;
    if !step.TakeAllHandles? && step.id in s.sessions { TakenHasNoEntry(s, step.id, token); }
    match step
    case SendMessage(id, parsed) => SendTouchesItsEntry(s, id, parsed, token);
    case CommitStream(id) => CommitTouchesItsEntry(s, id, token);
    case TakeHandle(id) => TakeTouchesItsEntry(s, id, token);
    case TakeAllHandles => TakeAllLeavesTaken(s, token);
  }

  lemma CleanLeavesTaken(s: State, token: Token, other: Token)
    requires RegistryInv(s) && token in s.tasks && s.tasks[token].sender != Registered && other in s.tasks
    ensures token in Clean(s, other).tasks
    ensures Clean(s, other).tasks[token] == if other == token then s.tasks[token].(phase := Gone) else s.tasks[token]
  {
    if OwnsEntry(s, token) { EntryHolds(s, s.tasks[token].id); }
    hide RegistryInv;
  }

  /** Which steps touch a task whose handle was taken. */
  lemma OnlyItsOwnSteps(s: State, step: Step, token: Token)
    requires RegistryInv(s) && Enabled(s, step) && token in s.tasks && s.tasks[token].sender != Registered
    ensures var t := s.tasks[token]; var s' := Apply(s, step);
      && token in s'.tasks
      && s'.tasks[token] ==
         if step == Spawn(token) then Emit(t, Started).(phase := Ready)
         else if step == NotifyTask(token) then Notify(t)
         else if step.RunTask? && step.token == token then RunArm(t, step.arm)
         else if step == CleanUp(token) then t.(phase := Gone)
         else t
  {
    hide RegistryInv, StartError, SendError, CommitError, Clean, RunArm, Notify, Emit, NewTask, TrySend, Detach,
      DetachAll;
    if IsCommand(step) {
      CommandsLeaveTaken(s, step, token);
    } else if step.CleanUp? {
      CleanLeavesTaken(s, token, step.token);
    }
  }

  lemma OtherStepsUseNone(s: State, step: Step, token: Token)
    requires RegistryInv(s) && Enabled(s, step) && token in s.tasks && s.tasks[token].sender != Registered
    requires QueueInv(s.tasks[token])
    requires !(step.RunTask? && step.token == token && step.arm.Receive?)
    ensures token in Apply(s, step).tasks && Apply(s, step).tasks[token].sender != Registered
    ensures ReceivesLeft(Apply(s, step).tasks[token]) <= ReceivesLeft(s.tasks[token])
  {
    var t := s.tasks[token];
    OnlyItsOwnSteps(s, step, token);
    hide Apply, RegistryInv, QueueInv, ReceivesLeft, RunArm;
    if step == NotifyTask(token) {
      NotifyUsesNone(t);
    } else if step.RunTask? && step.token == token {
      ArmKeepsFace(t, step.arm);
      ArmUsesNone(t, step.arm);
    } else if step == CleanUp(token) || step == Spawn(token) {
      EndUsesNone(t, Apply(s, step).tasks[token]);
    }
  }

  lemma ReceiveStepUsesOne(s: State, step: Step, token: Token)
    requires RegistryInv(s) && Enabled(s, step) && token in s.tasks && s.tasks[token].sender != Registered
    requires QueueInv(s.tasks[token]) && step.RunTask? && step.token == token && step.arm.Receive?
    ensures token in Apply(s, step).tasks && Apply(s, step).tasks[token].sender != Registered
    ensures ReceivesLeft(Apply(s, step).tasks[token]) < ReceivesLeft(s.tasks[token])
  {
    var t := s.tasks[token];
    hide RegistryInv, QueueInv, ReceivesLeft, ReceiveCommand;
    ReceiveUsesOne(t, step.arm.streamAlive);
    ArmKeepsFace(t, step.arm);
  }

  lemma {:induction false} ReceivesAreBounded(s: State, token: Token, steps: seq<Step>)
    requires Inv(s) && token in s.tasks && s.tasks[token].sender != Registered && ValidRun(s, steps)
    ensures token in Run(s, steps).tasks && Run(s, steps).tasks[token].sender != Registered
    ensures Receives(steps, token) + ReceivesLeft(Run(s, steps).tasks[token]) <= ReceivesLeft(s.tasks[token])
    decreases |steps|
  {
    if steps != [] {
      var step := steps[0];
      StepKeepsInv(s, step);
      QueueHolds(s, token);
      hide Apply, Enabled, Inv, RegistryInv, TasksInv, QueueInv, ReceivesLeft;
      if step.RunTask? && step.token == token && step.arm.Receive? {
        ReceiveStepUsesOne(s, step, token);
      } else {
        OtherStepsUseNone(s, step, token);
      }
      ReceivesAreBounded(Apply(s, step), token, steps[1..]);
    }
  }

  lemma QueueHolds(s: State, token: Token)
    requires Inv(s) && token in s.tasks
    ensures RegistryInv(s) && QueueInv(s.tasks[token])
  {
    hide RegistryInv, QueueInv;
    TaskHolds(s, token);
  }

  /** Once cancel or close-all has taken the handle, whether or not its notification fits in the
      channel, the task makes at most one more command receive than there are queued commands;
      making that many ends it. While it listens, a receive or the notification stays possible. */
  lemma CancelIsNeverLost(s: State, token: Token, steps: seq<Step>, streamAlive: bool)
    requires Inv(s) && token in s.tasks && s.tasks[token].sender != Registered && ValidRun(s, steps)
    ensures token in Run(s, steps).tasks
    ensures Receives(steps, token) + ReceivesLeft(Run(s, steps).tasks[token]) <= ReceivesLeft(s.tasks[token])
    ensures Receives(steps, token) <= |s.tasks[token].queue| + 1
    ensures Receives(steps, token) == |s.tasks[token].queue| + 1 ==> !ReceiverAlive(Run(s, steps).tasks[token])
    ensures Listening(Run(s, steps).tasks[token]) ==>
      Enabled(Run(s, steps), RunTask(token, Receive(streamAlive))) || Enabled(Run(s, steps), NotifyTask(token))
  {
    hide Inv, Run, ValidRun, Receives, ReceivesLeft, Listening, Enabled, ReceiverAlive;
    ReceivesAreBounded(s, token, steps);
    LeftAtMost(s.tasks[token]);
    LeftAtMost(Run(s, steps).tasks[token]);
    TakenTaskIsServed(Run(s, steps), token, streamAlive);
  }

  lemma LeftAtMost(t: Task)
    ensures ReceivesLeft(t) <= |t.queue| + 1 && (ReceivesLeft(t) == 0 ==> !ReceiverAlive(t))
  {
    assert Cancel in t.queue ==> |t.queue| > 0;
  }

  lemma TakenTaskIsServed(s: State, token: Token, streamAlive: bool)
    requires token in s.tasks && s.tasks[token].sender != Registered
    ensures Listening(s.tasks[token]) ==>
      Enabled(s, RunTask(token, Receive(streamAlive))) || Enabled(s, NotifyTask(token))
  {
  }

  lemma ReceiveKeepsListeningOrEnds(t: Task, streamAlive: bool)
    requires CanReceive(t)
    ensures var u := ReceiveCommand(t, streamAlive); Listening(u) || u.phase.Returned?
  {
  }

  lemma NotifyKeepsListening(t: Task)
    requires Listening(t)
    ensures Listening(Notify(t)) && Notify(t).sender == Dropped
  {
  }

  /** So the notification and receives alone, whatever becomes of the request stream, end the task. */
  lemma {:induction false} CancelCanFinish(s: State, token: Token, alive: nat -> bool, k: nat)
      returns (steps: seq<Step>)
    requires Inv(s) && token in s.tasks && s.tasks[token].sender != Registered && Listening(s.tasks[token])
    ensures EndingSteps(steps, token, alive, k)
    ensures ValidRun(s, steps) && token in Run(s, steps).tasks && Run(s, steps).tasks[token].phase.Returned?
    decreases ReceivesLeft(s.tasks[token]), if s.tasks[token].sender == Detached then 1 else 0
  {
    var t := s.tasks[token];
    var step := if CanReceive(t) then RunTask(token, Receive(alive(k))) else NotifyTask(token);
    EndingStep(s, step, token);
    var s' := Apply(s, step);
    assert EndingSteps([], token, alive, k + 1);
    hide Inv, Apply, Enabled, ReceivesLeft, CanReceive, EndingSteps, Listening;
    var rest: seq<Step> := [];
    if Listening(s'.tasks[token]) {
      rest := CancelCanFinish(s', token, alive, k + 1);
    }
    steps := [step] + rest;
    RunCons(s, step, rest);
    EndingCons(step, rest, token, alive, k);
  }

  /** Each step is the notification or the receive whose place says what becomes of the request stream. */
  ghost predicate EndingSteps(steps: seq<Step>, token: Token, alive: nat -> bool, k: nat) {
    forall i :: 0 <= i < |steps| ==> steps[i] == NotifyTask(token) || steps[i] == RunTask(token, Receive(alive(k + i)))
  }

  lemma EndingCons(step: Step, rest: seq<Step>, token: Token, alive: nat -> bool, k: nat)
    requires EndingSteps(rest, token, alive, k + 1)
    requires step == NotifyTask(token) || step == RunTask(token, Receive(alive(k)))
    ensures EndingSteps([step] + rest, token, alive, k)
  {
  }

  lemma RunCons(s: State, step: Step, rest: seq<Step>)
    requires Enabled(s, step) && ValidRun(Apply(s, step), rest)
    ensures ValidRun(s, [step] + rest) && Run(s, [step] + rest) == Run(Apply(s, step), rest)
  {
    assert ([step] + rest)[1..] == rest;
  }

  lemma EndingStep(s: State, step: Step, token: Token)
    requires Inv(s) && token in s.tasks && s.tasks[token].sender != Registered && Listening(s.tasks[token])
    requires if CanReceive(s.tasks[token]) then step.RunTask? && step.token == token && step.arm.Receive?
             else step == NotifyTask(token)
    ensures Enabled(s, step) && Inv(Apply(s, step))
    ensures var t := s.tasks[token]; var s' := Apply(s, step);
      && token in s'.tasks && s'.tasks[token].sender != Registered
      && (Listening(s'.tasks[token]) || s'.tasks[token].phase.Returned?)
      && ReceivesLeft(s'.tasks[token]) <= ReceivesLeft(t)
      && (ReceivesLeft(s'.tasks[token]) < ReceivesLeft(t)
           || (t.sender == Detached && s'.tasks[token].sender == Dropped))
  {
    var t := s.tasks[token];
    hide Inv, RegistryInv, TasksInv, QueueInv, ReceivesLeft, Apply, Enabled, Listening, CanReceive;
    EndingIsEnabled(s, step, token);
    StepKeepsInv(s, step);
    QueueHolds(s, token);
    if CanReceive(t) {
      EndingReceive(s, token, step.arm.streamAlive);
    } else {
      EndingNotify(s, token);
    }
  }

  lemma EndingIsEnabled(s: State, step: Step, token: Token)
    requires token in s.tasks && s.tasks[token].sender != Registered && Listening(s.tasks[token])
    requires if CanReceive(s.tasks[token]) then step.RunTask? && step.token == token && step.arm.Receive?
             else step == NotifyTask(token)
    ensures Enabled(s, step) && (!CanReceive(s.tasks[token]) ==> s.tasks[token].sender == Detached)
  {
  }

  lemma EndingReceive(s: State, token: Token, streamAlive: bool)
    requires RegistryInv(s) && token in s.tasks && s.tasks[token].sender != Registered
    requires QueueInv(s.tasks[token]) && CanReceive(s.tasks[token])
    ensures var t := s.tasks[token]; var s' := Apply(s, RunTask(token, Receive(streamAlive)));
      && token in s'.tasks && s'.tasks[token].sender != Registered
      && (Listening(s'.tasks[token]) || s'.tasks[token].phase.Returned?)
      && ReceivesLeft(s'.tasks[token]) < ReceivesLeft(t)
  {
    ReceiveStepUsesOne(s, RunTask(token, Receive(streamAlive)), token);
    ReceiveKeepsListeningOrEnds(s.tasks[token], streamAlive);
    hide RegistryInv, QueueInv, ReceivesLeft, ReceiveCommand, CanReceive;
  }

  lemma EndingNotify(s: State, token: Token)
    requires RegistryInv(s) && token in s.tasks && s.tasks[token].sender == Detached
    requires QueueInv(s.tasks[token]) && Listening(s.tasks[token])
    ensures var t := s.tasks[token]; var s' := Apply(s, NotifyTask(token));
      && token in s'.tasks && s'.tasks[token].sender == Dropped
      && Listening(s'.tasks[token]) && ReceivesLeft(s'.tasks[token]) <= ReceivesLeft(t)
  {
    hide RegistryInv, QueueInv, ReceivesLeft, Notify;
    NotifyUsesNone(s.tasks[token]);
    NotifyKeepsListening(s.tasks[token]);
  }

  // ---------------------------------------------------------------------- no session gets stuck

  ghost predicate IsOwnStep(step: Step, token: Token) {
    step == Spawn(token) || step == CleanUp(token) || (step.RunTask? && step.token == token && !step.arm.Receive?)
  }

  function StepsLeft(t: Task): nat {
    match t.phase
    case Created => 5
    case Ready => 4
    case Calling => 3
    case Streaming => 3
    case Trailing => 3
    case Returned(_) => 2
    case Cleaning => 1
    case Gone => 0
  }

  /** A next step towards the end, which needs no command. */
  function NextStep(t: Task, token: Token): Step {
    match t.phase
    case Created => Spawn(token)
    case Ready => RunTask(token, Begin(None))
    case Calling => RunTask(token, Answer(Rejected(CANCELLED_CODE, "")))
    case Streaming => RunTask(token, Item(Rejected(CANCELLED_CODE, "")))
    case Trailing => RunTask(token, Trailers(None))
    case Returned(_) => RunTask(token, Finish)
    case _ => CleanUp(token)
  }

  lemma NextStepIsEnabled(s: State, token: Token)
    requires token in s.tasks && s.tasks[token].phase != Gone
    ensures var step := NextStep(s.tasks[token], token); var s' := Apply(s, step);
      && IsOwnStep(step, token) && Enabled(s, step)
      && token in s'.tasks && StepsLeft(s'.tasks[token]) < StepsLeft(s.tasks[token])
  {
  }

  /** Whatever the registry does and whatever is queued, the server can always bring a session to its end. */
  lemma {:induction false} SessionsCanEnd(s: State, token: Token) returns (steps: seq<Step>)
    requires token in s.tasks
    ensures forall step :: step in steps ==> IsOwnStep(step, token)
    ensures ValidRun(s, steps) && token in Run(s, steps).tasks && Run(s, steps).tasks[token].phase == Gone
    decreases StepsLeft(s.tasks[token])
  {
    steps := [];
    if s.tasks[token].phase != Gone {
      NextStepIsEnabled(s, token);
      hide Apply, Enabled, NextStep, StepsLeft, IsOwnStep;
      var step := NextStep(s.tasks[token], token);
      var rest := SessionsCanEnd(Apply(s, step), token);
      RunCons(s, step, rest);
      steps := [step] + rest;
    }
  }
}
