/** The session registry as the program holds it: state behind a lock, updated in place by the
    command handlers and by the background tasks. Each method is one atomic step, or, where the
    program keeps going without releasing anything, a run of steps. */
module GrpcHost {
  import opened Options
  import Text
  import opened GrpcTask
  import opened GrpcSessions
  import opened GrpcSessionProofs
  import opened GrpcReplies

  /** Of the tasks whose handle was registered, all but the pending ones have been notified and lost
      their handle; the other tasks are untouched. */
  ghost predicate Notified(before: map<Token, Task>, after: map<Token, Task>, pending: set<Token>) {
    && after.Keys == before.Keys
    && (forall token :: token in pending ==> token in before && before[token].sender == Registered)
    && forall token :: token in before ==>
         after[token] == if before[token].sender != Registered then before[token]
                         else if token in pending then before[token].(sender := Detached)
                         else Notify(before[token])
  }

  /** The task after a list of select outcomes, each applied only where it is enabled. */
  function RunArms(t: Task, arms: seq<Arm>): Task {
    if arms == [] then t
    else
      var u := RunArms(t, arms[..|arms| - 1]);
      var arm := arms[|arms| - 1];
      if ArmEnabled(u, arm) then RunArm(u, arm) else u
  }

  /** Between these two tasks the log has grown by the messages of the good replies, in order. */
  ghost predicate ShowsReplies(t: Task, arms: seq<Arm>, u: Task) {
    u.shape == t.shape && IncomingTexts(u.log) == IncomingTexts(t.log) + GoodTexts(t.shape, arms)
  }

  lemma NothingShown(t: Task)
    ensures ShowsReplies(t, [], t)
  {
  }

  lemma RepliesGrow(t: Task, arms: seq<Arm>, u: Task, arm: Arm)
    requires ShowsReplies(t, arms, u) && ArmEnabled(u, arm)
    ensures ShowsReplies(t, arms + [arm], RunArm(u, arm))
  {
    hide RunArm, ArmEnabled, IncomingTexts, Carried;
    ArmShows(u, arm);
    OneMoreArm(t.shape, arms, arm);
  }

  lemma SameReplies(t: Task, arms: seq<Arm>, u: Task)
    requires ShowsReplies(t, arms, u)
    ensures forall sender :: ShowsReplies(t, arms, u.(phase := Gone, sender := sender))
    ensures ShowsReplies(t, arms, u.(phase := Gone))
  {
  }

  function HandleTokens(sessions: map<string, Handle>): set<Token> {
    set id | id in sessions :: sessions[id].token
  }

  lemma DrainedHandles(s: State)
    requires Inv(s)
    ensures Notified(s.tasks, DetachAll(s.tasks), HandleTokens(s.sessions))
    ensures HandleTokens(s.sessions) <= s.tasks.Keys
  {
    forall id | id in s.sessions ensures Entry(s.tasks[s.sessions[id].token], id, s.sessions[id]) { }
    forall token | token in s.tasks && s.tasks[token].sender == Registered
      ensures token in HandleTokens(s.sessions)
    {
      assert s.sessions[s.tasks[token].id].token == token;
    }
  }

  lemma NotifyIgnoresSender(t: Task)
    ensures Notify(t.(sender := Detached)) == Notify(t)
  {
  }

  lemma SenderIgnored(t: Task)
    ensures CanSend(t.(sender := Detached)) == CanSend(t)
  {
  }

  lemma ArmFromBegun(t: Task, arm: Arm)
    requires ArmEnabled(t, arm)
    ensures RunArm(t, arm).phase != Created && RunArm(t, arm).phase != Gone
  {
  }

  lemma EntryOf(s: State, id: string)
    requires Inv(s) && id in s.sessions
    ensures s.sessions[id].token in s.tasks && s.tasks[s.sessions[id].token].sender == Registered
  {
    assert Entry(s.tasks[s.sessions[id].token], id, s.sessions[id]);
  }

  lemma ClosedLog(s: State, token: Token)
    requires Inv(s) && token in s.tasks && s.tasks[token].phase == Cleaning
    ensures forall sender :: CompleteLog(s.tasks[token].(phase := Gone, sender := sender))
    ensures CompleteLog(s.tasks[token].(phase := Gone))
  {
    var t := s.tasks[token];
    TaskHolds(s, token);
    hide Inv, QueueInv, StreamInv, LogSplit, Outcome, InBodyOf;
    var n: nat, tail: seq<Event> :| LogSplit(t, n, tail) && Outcome(tail);
    forall sender ensures CompleteLog(t.(phase := Gone, sender := sender)) {
      SameSplit(t, t.(phase := Gone, sender := sender), n, tail);
    }
    assert t.(phase := Gone) == t.(phase := Gone, sender := t.sender);
  }

  lemma NotifiedIsDetached(before: map<Token, Task>, middle: map<Token, Task>, pending: set<Token>, token: Token)
    requires Notified(before, middle, pending) && token in pending
    ensures token in middle && middle[token].sender == Detached
  {
  }

  /** One more of the drained handles is notified. */
  lemma NotifiedMore(before: map<Token, Task>, middle: map<Token, Task>, pending: set<Token>, token: Token)
    requires Notified(before, middle, pending) && token in pending
    ensures token in before && token in middle
      && Notified(before, middle[token := Notify(middle[token])], pending - {token})
  {
    hide Notify;
    NotifyIgnoresSender(before[token]);
  }

  // ---------------------------------------------------------------------- the steps, written out

  lemma SendApplied(s: State, id: string, parsed: Option<Message>)
    ensures Apply(s, Step.SendMessage(id, parsed)) ==
      if SendError(s, id, parsed).Some? then s
      else
        var token := s.sessions[id].token; var t := s.tasks[token];
        State(s.sessions, s.tasks[token := t.(queue := t.queue + [Send(parsed.value)])], s.waiting)
  {
    if SendError(s, id, parsed).None? { SendAllowed(s, id, parsed); }
    hide SendError;
  }

  lemma CommitApplied(s: State, id: string)
    ensures Apply(s, CommitStream(id)) ==
      if CommitError(s, id).Some? then s
      else
        var h := s.sessions[id]; var t := s.tasks[h.token];
        State(s.sessions[id := h.(committed := true)], s.tasks[h.token := t.(queue := t.queue + [Commit])], s.waiting)
  {
    if CommitError(s, id).None? { CommitAllowed(s, id); }
    hide CommitError;
  }

  lemma InsertApplied(s: State, r: StartRequest, token: Token)
    requires r in s.waiting && token !in s.tasks
    ensures Enabled(s, InsertStart(r, token))
    ensures Apply(s, InsertStart(r, token)) ==
      var waiting := s.waiting - multiset{r};
      if StartError(s, r.id).Some? then State(s.sessions, s.tasks, waiting)
      else State(s.sessions[r.id := Handle(token, r.shape.clientStreaming, false)],
        s.tasks[token := NewTask(r.id, r.shape, r.initial)], waiting)
  {
    hide StartError;
  }

  lemma SpawnApplied(s: State, token: Token)
    requires token in s.tasks && s.tasks[token].phase == Created
    ensures Enabled(s, Spawn(token))
    ensures Apply(s, Spawn(token))
      == State(s.sessions, s.tasks[token := Emit(s.tasks[token], Started).(phase := Ready)], s.waiting)
  {
  }

  lemma TakeApplied(s: State, id: string)
    requires id in s.sessions && s.sessions[id].token in s.tasks && s.tasks[s.sessions[id].token].sender == Registered
    ensures var token := s.sessions[id].token;
      Apply(s, TakeHandle(id))
          == State(s.sessions - {id}, s.tasks[token := s.tasks[token].(sender := Detached)], s.waiting)
  {
  }

  class SessionHost {
    var sessions: map<string, Handle>
    var tasks: map<Token, Task>
    var waiting: multiset<StartRequest>

    ghost function View(): State
      reads this
    {
      State(sessions, tasks, waiting)
    }

    constructor ()
      ensures View() == INITIAL && Inv(View())
    {
      sessions, tasks, waiting := map[], map[], multiset{};
    }

    /** The first half of start_session, up to releasing the lock. */
    method BeginStart(rawId: string, shape: Shape, initial: Message) returns (id: string, error: Option<Refusal>)
      requires Inv(View())
      modifies this
      ensures id == Text.Trim(rawId)
      ensures var step := Step.BeginStart(StartRequest(id, shape, initial));
        && (error.None? <==> Enabled(old(View()), step))
        && error == (if 1 <= |id| <= 256 then StartError(old(View()), id) else Some(BadId))
        && View() == if error.None? then Apply(old(View()), step) else old(View())
      ensures Inv(View())
    {
      id := Text.Trim(rawId);
      if |id| == 0 || |id| > 256 {
        return id, Some(BadId);
      }
      if id in sessions {
        return id, Some(AlreadyActive);
      }
      if |sessions| >= MAX_GRPC_SESSIONS {
        return id, Some(TooManySessions);
      }
      ghost var step := Step.BeginStart(StartRequest(id, shape, initial));
      StepKeepsInv(View(), step);
      waiting := waiting + multiset{StartRequest(id, shape, initial)};
      error := None;
    }

    /** The second half of start_session: recheck, insert, announce and spawn. */
    method FinishStart(r: StartRequest, token: Token) returns (error: Option<Refusal>)
      requires Inv(View()) && r in waiting && token !in tasks
      modifies this
      ensures error == StartError(old(View()), r.id)
      ensures var inserted := Apply(old(View()), InsertStart(r, token));
        View() == if error.None? then Apply(inserted, Spawn(token)) else inserted
      ensures error.None? ==> token in tasks && tasks[token].shape == r.shape && tasks[token].initial == r.initial
      ensures Inv(View())
    {
      hide Inv, Apply, Enabled;
      ghost var before := View();
      InsertApplied(before, r, token);
      StepKeepsInv(before, InsertStart(r, token));
      waiting := waiting - multiset{r};
      if r.id in sessions {
        return Some(AlreadyActive);
      }
      if |sessions| >= MAX_GRPC_SESSIONS {
        return Some(TooManySessions);
      }
      sessions := sessions[r.id := Handle(token, r.shape.clientStreaming, false)];
      tasks := tasks[token := NewTask(r.id, r.shape, r.initial)];
      SpawnApplied(View(), token);
      StepKeepsInv(View(), Spawn(token));
      tasks := tasks[token := Emit(tasks[token], Started).(phase := Ready)];
      error := None;
    }

    method SendMessage(id: string, parsed: Option<Message>) returns (error: Option<Refusal>)
      requires Inv(View())
      modifies this
      ensures error == SendError(old(View()), id, parsed)
      ensures View() == Apply(old(View()), Step.SendMessage(id, parsed)) && Inv(View())
    {
      hide Inv, Apply, CanSend;
      StepKeepsInv(View(), Step.SendMessage(id, parsed));
      if id in sessions { EntryOf(View(), id); }
      SendApplied(View(), id, parsed);
      if id !in sessions {
        return Some(NotStarted);
      }
      var handle := sessions[id];
      if !handle.clientStreaming {
        return Some(NoRequestStream);
      }
      if handle.committed {
        return Some(AlreadyCommitted);
      }
      if parsed.None? {
        return Some(BadMessage);
      }
      if !CanSend(tasks[handle.token]) {
        return Some(NotQueued);
      }
      var t := tasks[handle.token];
      tasks := tasks[handle.token := t.(queue := t.queue + [Send(parsed.value)])];
      error := None;
    }

    method CommitSession(id: string) returns (error: Option<Refusal>)
      requires Inv(View())
      modifies this
      ensures error == CommitError(old(View()), id)
      ensures View() == Apply(old(View()), CommitStream(id)) && Inv(View())
    {
      hide Inv, Apply, CanSend;
      StepKeepsInv(View(), CommitStream(id));
      if id in sessions { EntryOf(View(), id); }
      CommitApplied(View(), id);
      if id !in sessions {
        return Some(NotActive);
      }
      var handle := sessions[id];
      if !handle.clientStreaming {
        return Some(NothingToCommit);
      }
      if handle.committed {
        return Some(AlreadyCommitted);
      }
      var t := tasks[handle.token];
      if !CanSend(t) {
        return Some(NotCommitted);
      }
      tasks := tasks[handle.token := t.(queue := t.queue + [Commit])];
      sessions := sessions[id := handle.(committed := true)];
      error := None;
    }

    /** The locked half of cancel_session: the handle leaves the registry. */
    method Take(id: string) returns (token: Token)
      requires Inv(View()) && id in sessions
      modifies this
      ensures token == old(sessions)[id].token && token in old(tasks)
      ensures View() == Apply(old(View()), TakeHandle(id)) && Inv(View())
      ensures token in tasks && tasks[token] == old(tasks)[token].(sender := Detached)
    {
      hide Inv, Apply;
      EntryOf(View(), id);
      TakeApplied(View(), id);
      StepKeepsInv(View(), TakeHandle(id));
      token := sessions[id].token;
      sessions := sessions - {id};
      tasks := tasks[token := tasks[token].(sender := Detached)];
    }

    /** The unlocked half: one try_send of a cancel, and the handle goes out of scope. */
    method NotifyHandle(token: Token) returns (sent: bool)
      requires Inv(View()) && token in tasks && tasks[token].sender == Detached
      modifies this`tasks
      ensures sent <==> CanSend(old(tasks)[token])
      ensures View() == Apply(old(View()), NotifyTask(token)) && Inv(View())
      ensures tasks == old(tasks)[token := Notify(old(tasks)[token])]
    {
      StepKeepsInv(View(), NotifyTask(token));
      hide Inv;
      var t := tasks[token];
      sent := CanSend(t);
      if sent {
        t := t.(queue := t.queue + [Cancel]);
      }
      tasks := tasks[token := t.(sender := Dropped)];
    }

    /** cancel_session: the handle leaves the registry first, whatever becomes of the notification. */
    method CancelSession(id: string) returns (error: Option<Refusal>)
      requires Inv(View())
      modifies this
      ensures Inv(View())
      ensures id !in old(sessions) ==> error == Some(NotActive) && View() == old(View())
      ensures id in old(sessions) ==>
        var token := old(sessions)[id].token;
        && token in old(tasks)
        && error == (if CanSend(old(tasks)[token]) then None else Some(NotCancelled))
        && sessions == old(sessions) - {id} && waiting == old(waiting)
        && tasks == old(tasks)[token := Notify(old(tasks)[token])]
    {
      hide Inv, Notify, CanSend;
      if id !in sessions {
        return Some(NotActive);
      }
      var token := Take(id);
      NotifyIgnoresSender(old(tasks)[token]);
      SenderIgnored(old(tasks)[token]);
      var sent := NotifyHandle(token);
      error := if sent then None else Some(NotCancelled);
    }

    /** The locked half of close_all_sessions: every handle leaves the registry. */
    method TakeAll() returns (handles: set<Token>)
      requires Inv(View())
      modifies this
      ensures View() == Apply(old(View()), TakeAllHandles) && Inv(View())
      ensures sessions == map[] && waiting == old(waiting)
      ensures handles <= tasks.Keys && Notified(old(tasks), tasks, handles)
    {
      DrainedHandles(View());
      StepKeepsInv(View(), TakeAllHandles);
      hide Inv, DetachAll, Notified;
      handles := HandleTokens(sessions);
      sessions := map[];
      tasks := DetachAll(tasks);
    }

    /** close_all_sessions: drain the registry, then notify the drained handles one by one. */
    method CloseAllSessions()
      requires Inv(View())
      modifies this
      ensures Inv(View()) && sessions == map[] && waiting == old(waiting)
      ensures Notified(old(tasks), tasks, {})
    {
      hide Inv, Notify, Notified, Apply;
      var handles := TakeAll();
      while handles != {}
        invariant Inv(View()) && sessions == map[] && waiting == old(waiting)
        invariant handles <= tasks.Keys && Notified(old(tasks), tasks, handles)
        decreases handles
      {
        var token :| token in handles;
        NotifiedIsDetached(old(tasks), tasks, handles, token);
        NotifiedMore(old(tasks), tasks, handles, token);
        var _ := NotifyHandle(token);
        handles := handles - {token};
      }
    }

    /** run_session and the closure around it, undisturbed: the oracle supplies the outcome of each
        select until the task has sent its end event and cleaned up. */
    method RunSession(token: Token, arms: seq<Arm>) returns (used: nat)
      requires Inv(View()) && token in tasks
      requires tasks[token].phase != Created && tasks[token].phase != Gone
      modifies this
      ensures Inv(View()) && used <= |arms|
      ensures var t := RunArms(old(tasks)[token], arms[..used]);
        && (used == |arms| || !ArmEnabled(t, arms[used]))
        && View() == if t.phase == Cleaning then Clean(WithTask(old(View()), token, t), token)
                     else WithTask(old(View()), token, t)
      ensures token in tasks && (tasks[token].phase == Gone ==> CompleteLog(tasks[token]))
      ensures ShowsReplies(old(tasks)[token], arms[..used], tasks[token])
    {
      hide Inv, ArmEnabled, RunArm, CompleteLog, ShowsReplies;
      used := 0;
      NothingShown(tasks[token]);
      assert arms[..0] == [];
      while used < |arms| && ArmEnabled(tasks[token], arms[used])
        invariant used <= |arms| && Inv(View()) && token in tasks
        invariant View() == WithTask(old(View()), token, RunArms(old(tasks)[token], arms[..used]))
        invariant tasks[token].phase != Created && tasks[token].phase != Gone
        invariant ShowsReplies(old(tasks)[token], arms[..used], tasks[token])
      {
        assert arms[..used + 1] == arms[..used] + [arms[used]];
        RepliesGrow(old(tasks)[token], arms[..used], tasks[token], arms[used]);
        StepKeepsInv(View(), RunTask(token, arms[used]));
        ArmFromBegun(tasks[token], arms[used]);
        assert arms[..used + 1][..used] == arms[..used];
        tasks := tasks[token := RunArm(tasks[token], arms[used])];
        used := used + 1;
      }
      if tasks[token].phase == Cleaning {
        StepKeepsInv(View(), CleanUp(token));
        var t := tasks[token];
        ClosedLog(View(), token);
        SameReplies(old(tasks)[token], arms[..used], t);
        if t.id in sessions && sessions[t.id].token == token {
          sessions := sessions - {t.id};
          tasks := tasks[token := t.(phase := Gone, sender := Dropped)];
        } else {
          tasks := tasks[token := t.(phase := Gone)];
        }
      }
    }
  }
}
