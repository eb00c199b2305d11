/** Every step of one session keeps its invariant, and what the invariant is good for. */
module GrpcTaskProofs {
  import opened Options
  import opened GrpcTask

  // ---------------------------------------------------------------------- sequences

  lemma AppendSends(cs: seq<Command>, c: Command)
    ensures Sends(cs + [c]) == Sends(cs) + (if c.Send? then [c.message] else [])
  {
    assert (cs + [c])[..|cs|] == cs;
  }

  lemma {:induction false} SendsOfConcat(a: seq<Command>, b: seq<Command>)
    ensures Sends(a + b) == Sends(a) + Sends(b)
    decreases |b|
  {
    if b == [] {
      assert a + b == a;
    } else {
      var c := b[|b| - 1];
      assert a + b == (a + b[..|b| - 1]) + [c];
      assert b == b[..|b| - 1] + [c];
      SendsOfConcat(a, b[..|b| - 1]);
      AppendSends(a + b[..|b| - 1], c);
      AppendSends(b[..|b| - 1], c);
    }
  }

  lemma AppendOutgoing(log: seq<Event>, e: Event)
    ensures OutgoingTexts(log + [e]) == OutgoingTexts(log) + (if e.Outgoing? then [e.text] else [])
  {
    assert (log + [e])[..|log|] == log;
  }

  lemma AppendTexts(ms: seq<Message>, m: Message)
    ensures Texts(ms + [m]) == Texts(ms) + [m.text]
  {
  }

  /** CommandOrder is the regular expression Send* Commit? Cancel?. */
  lemma CommandOrderIsRegular(cs: seq<Command>)
    ensures CommandOrder(cs) <==> exists n: nat :: RegularFrom(cs, n)
  {
    if CommandOrder(cs) {
      var n := LeadingSends(cs);
      AfterTheSends(cs, n);
      assert RegularFrom(cs, n);
    }
    forall n: nat | RegularFrom(cs, n) ensures CommandOrder(cs) {
      RegularIsOrdered(cs, n);
    }
  }

  lemma AfterTheSends(cs: seq<Command>, n: nat)
    requires CommandOrder(cs) && n <= |cs| && (n < |cs| ==> !cs[n].Send?)
    ensures cs[n..] in {[], [Commit], [Cancel], [Commit, Cancel]}
  {
    var rest := cs[n..];
    if n + 1 < |cs| {
      assert !cs[n].Cancel? && cs[n].Commit?;
      assert cs[n + 1].Cancel?;
      CancelIsLast(cs, n + 1);
      assert rest == [Commit, Cancel];
    } else if n < |cs| {
      assert rest == [cs[n]];
    } else {
      assert rest == [];
    }
  }

  lemma CancelIsLast(cs: seq<Command>, i: nat)
    requires CommandOrder(cs) && i < |cs| && cs[i].Cancel?
    ensures i == |cs| - 1
  {
    var last := cs[|cs| - 1];
  }

  lemma RegularIsOrdered(cs: seq<Command>, n: nat)
    requires RegularFrom(cs, n)
    ensures CommandOrder(cs)
  {
    var rest := cs[n..];
    forall i, j | 0 <= i < j < |cs| ensures !cs[i].Cancel? && (cs[i].Commit? ==> cs[j].Cancel?) {
      if i >= n {
        assert rest[i - n] == cs[i] && rest[j - n] == cs[j];
      }
    }
  }

  /** The first n commands are messages; at most a commit and a cancel follow, in this order. */
  ghost predicate RegularFrom(cs: seq<Command>, n: nat) {
    && n <= |cs|
    && (forall i :: 0 <= i < n ==> cs[i].Send?)
    && cs[n..] in {[], [Commit], [Cancel], [Commit, Cancel]}
  }

  function LeadingSends(cs: seq<Command>): (n: nat)
    ensures n <= |cs| && (forall i :: 0 <= i < n ==> cs[i].Send?) && (n < |cs| ==> !cs[n].Send?)
  {
    if cs == [] || !cs[0].Send? then 0 else 1 + LeadingSends(cs[1..])
  }

  // ---------------------------------------------------------------------- the channel

  lemma AcceptKeepsQueue(t: Task, c: Command)
    requires QueueInv(t) && CanSend(t) && !c.Cancel?
    requires t.shape.clientStreaming && t.sender != Dropped && Commit !in Accepted(t)
    ensures QueueInv(TrySend(t, c))
  {
    assert Accepted(TrySend(t, c)) == Accepted(t) + [c];
  }

  /** The request stream does not depend on what is queued. */
  lemma SameStream(t: Task, u: Task)
    requires StreamInv(t) && t.phase == u.phase && t.log == u.log && t.shape == u.shape && t.initial == u.initial
    requires t.taken == u.taken && t.forwarded == u.forwarded && t.requestOpen == u.requestOpen
    ensures StreamInv(u)
  {
  }

  /** Accepting a message or a commit keeps the session well formed when no commit came before. */
  lemma AcceptKeepsInv(t: Task, c: Command)
    requires TaskInv(t) && CanSend(t) && !c.Cancel?
    requires t.shape.clientStreaming && t.sender != Dropped && Commit !in Accepted(t)
    ensures TaskInv(TrySend(t, c))
  {
    hide QueueInv, StreamInv, LogInv;
    AcceptKeepsQueue(t, c);
    SameStream(t, TrySend(t, c));
    SameLog(t, TrySend(t, c));
  }

  lemma NotifyKeepsQueue(t: Task)
    requires QueueInv(t) && t.sender != Dropped
    ensures QueueInv(Notify(t))
  {
    if CanSend(t) {
      assert Accepted(Notify(t)) == Accepted(t) + [Cancel];
    }
  }

  lemma NotifyKeepsInv(t: Task)
    requires TaskInv(t) && t.sender != Dropped
    ensures TaskInv(Notify(t))
  {
    hide QueueInv, StreamInv, LogInv;
    NotifyKeepsQueue(t);
    SameStream(t, Notify(t));
    SameLog(t, Notify(t));
  }

  lemma SameLog(t: Task, u: Task)
    requires LogInv(t) && t.phase == u.phase && t.log == u.log && t.shape == u.shape && t.initial == u.initial
    requires t.requestOpen == u.requestOpen
    ensures LogInv(u)
  {
    match t.phase
    case Returned(error) =>
      var n: nat, tail: seq<Event> :| LogSplit(t, n, tail) && OutcomeEvents(tail, error);
      assert LogSplit(u, n, tail);
    case Cleaning =>
      var n: nat, tail: seq<Event> :| LogSplit(t, n, tail) && Outcome(tail);
      assert LogSplit(u, n, tail);
    case Gone =>
      var n: nat, tail: seq<Event> :| LogSplit(t, n, tail) && Outcome(tail);
      assert LogSplit(u, n, tail);
    case _ =>
  }

  // ---------------------------------------------------------------------- the arms and the channel

  lemma ArmMovesNoCommand(t: Task, arm: Arm)
    requires ArmEnabled(t, arm) && !arm.Receive?
    ensures var u := RunArm(t, arm);
      u.taken == t.taken && u.queue == t.queue && u.sender == t.sender && u.shape == t.shape
  {
  }

  lemma MoveFirst(taken: seq<Command>, queue: seq<Command>)
    requires queue != []
    ensures (taken + [queue[0]]) + queue[1..] == taken + queue
  {
  }

  lemma ReceiveMovesOne(t: Task, streamAlive: bool)
    requires CanReceive(t)
    ensures var u := ReceiveCommand(t, streamAlive);
      && u.sender == t.sender && u.shape == t.shape
      && u.taken + u.queue == t.taken + t.queue && |u.queue| <= |t.queue|
  {
    if t.queue != [] { MoveFirst(t.taken, t.queue); }
  }

  /** No arm loses or reorders commands. */
  lemma ArmKeepsQueue(t: Task, arm: Arm)
    requires QueueInv(t) && ArmEnabled(t, arm)
    ensures Accepted(RunArm(t, arm)) == Accepted(t)
    ensures QueueInv(RunArm(t, arm))
  {
    if arm.Receive? {
      ReceiveMovesOne(t, arm.streamAlive);
    } else {
      ArmMovesNoCommand(t, arm);
    }
    assert arm.Receive? ==> RunArm(t, arm) == ReceiveCommand(t, arm.streamAlive);
    hide RunArm, ReceiveCommand, CommandOrder;
  }

  /** A command at the head of the queue is one the task knows how to apply: the branches for an
      already committed stream and for a method without request stream are never taken. */
  lemma HeadIsApplicable(t: Task)
    requires QueueInv(t) && StreamInv(t) && Listening(t)
    ensures HeadApplicable(t)
  {
    if t.queue != [] && !t.queue[0].Cancel? {
      assert Accepted(t)[|t.taken|] == t.queue[0];
      assert t.queue[0] in Accepted(t);
      NoCommitBefore(Accepted(t), |t.taken|);
      assert Accepted(t)[..|t.taken|] == t.taken;
    }
  }

  lemma NoCommitBefore(cs: seq<Command>, k: nat)
    requires CommandOrder(cs) && k < |cs| && !cs[k].Cancel?
    ensures Commit !in cs[..k]
  {
  }

  // ---------------------------------------------------------------------- the arms and the request stream

  lemma {:induction false} QuietEvents(log: seq<Event>, tail: seq<Event>)
    requires forall e :: e in tail ==> !e.Outgoing?
    ensures OutgoingTexts(log + tail) == OutgoingTexts(log)
    decreases |tail|
  {
    if tail == [] {
      assert log + tail == log;
    } else {
      var rest := tail[..|tail| - 1];
      assert log + tail == (log + rest) + [tail[|tail| - 1]];
      AppendOutgoing(log + rest, tail[|tail| - 1]);
      QuietEvents(log, rest);
    }
  }

  /** A step that shows no outgoing message and leaves the request stream alone. */
  lemma QuietStep(t: Task, u: Task, tail: seq<Event>)
    requires StreamInv(t) && Begun(t) && Begun(u) && (InCall(u) ==> InCall(t))
    requires u.log == t.log + tail && forall e :: e in tail ==> !e.Outgoing?
    requires u.shape == t.shape && u.initial == t.initial && u.forwarded == t.forwarded
    requires t.forwarded <= Sends(t.taken) ==> u.forwarded <= Sends(u.taken)
    requires t.shape.clientStreaming && InCall(u) ==>
      Sends(u.taken) == Sends(t.taken) && (u.requestOpen <==> Commit !in u.taken)
    ensures StreamInv(u)
  {
    QuietEvents(t.log, tail);
  }

  lemma OpenUntilCommit(t: Task)
    requires StreamInv(t) && InCall(t) && t.shape.clientStreaming
    ensures t.requestOpen <==> Commit !in t.taken
  {
  }

  lemma ArmLeavesStream(t: Task, arm: Arm)
    requires ArmEnabled(t, arm) && !arm.Begin? && !arm.Receive?
    ensures var u := RunArm(t, arm);
      && u.shape == t.shape && u.initial == t.initial && u.forwarded == t.forwarded && u.taken == t.taken
      && u.requestOpen == t.requestOpen && Begun(t) && Begun(u) && (InCall(u) ==> InCall(t))
  {
  }

  lemma QuietArm(t: Task, arm: Arm)
    requires StreamInv(t) && ArmEnabled(t, arm) && !arm.Begin? && !arm.Receive?
    ensures StreamInv(RunArm(t, arm))
  {
    if InCall(t) && t.shape.clientStreaming { OpenUntilCommit(t); }
    ArmLeavesStream(t, arm);
    hide StreamInv, OutgoingTexts, Sends, RunArm, ArmEvents;
    QuietStep(t, RunArm(t, arm), ArmEvents(t, arm));
  }

  /** The events an arm other than begin and receive adds to the log. */
  function ArmEvents(t: Task, arm: Arm): (events: seq<Event>)
    requires ArmEnabled(t, arm) && !arm.Begin? && !arm.Receive?
    ensures RunArm(t, arm).log == t.log + events
    ensures forall e :: e in events ==> !e.Outgoing?
  {
    match arm
    case Answer(Good(text)) => if t.shape.serverStreaming then [] else [Incoming(text), Status(OK_CODE)]
    case Answer(Undecodable(_)) => []
    case Answer(Rejected(code, _)) => [Status(code)]
    case Item(Good(text)) => [Incoming(text)]
    case Item(Undecodable(_)) => []
    case Item(Rejected(code, _)) => [Status(code)]
    case StreamEnd => []
    case Trailers(None) => [Status(OK_CODE)]
    case Trailers(Some(r)) => [Status(r.0)]
    case Finish => (if t.phase.error.Some? then [Failed(t.phase.error.value)] else []) + [Ended]
  }

  lemma BeginKeepsStream(t: Task, metadataError: Option<string>)
    requires StreamInv(t) && t.phase == Ready
    ensures StreamInv(BeginCall(t, metadataError))
  {
    if !t.shape.clientStreaming {
      AppendOutgoing(t.log, Outgoing(t.initial.text));
    }
    assert Sends([]) == [] && Texts([]) == [];
    hide Sends, OutgoingTexts, Texts;
  }

  lemma CancelKeepsStream(t: Task, streamAlive: bool)
    requires StreamInv(t) && CanReceive(t) && (t.queue == [] || t.queue[0].Cancel?)
    ensures StreamInv(ReceiveCommand(t, streamAlive))
  {
    if t.queue != [] { AppendSends(t.taken, Cancel); }
    hide StreamInv, Sends, OutgoingTexts;
    QuietStep(t, ReceiveCommand(t, streamAlive), [Cancelled, Status(CANCELLED_CODE)]);
  }

  lemma CommitKeepsStream(t: Task, streamAlive: bool)
    requires StreamInv(t) && CanReceive(t) && t.queue != [] && t.queue[0].Commit? && t.shape.clientStreaming
    ensures StreamInv(ReceiveCommand(t, streamAlive))
  {
    AppendSends(t.taken, Commit);
    hide StreamInv;
    QuietStep(t, ReceiveCommand(t, streamAlive), [Committed]);
  }

  lemma LossKeepsStream(t: Task)
    requires StreamInv(t) && CanReceive(t) && HeadApplicable(t) && t.queue != [] && t.queue[0].Send?
    ensures StreamInv(ReceiveCommand(t, false))
  {
    AppendSends(t.taken, t.queue[0]);
    hide StreamInv, Sends;
    assert Sends(t.taken) <= Sends(t.taken + [t.queue[0]]);
    QuietStep(t, ReceiveCommand(t, false), []);
  }

  lemma ReceiveKeepsStream(t: Task, streamAlive: bool)
    requires StreamInv(t) && CanReceive(t) && HeadApplicable(t)
    requires t.shape.clientStreaming
    ensures StreamInv(ReceiveCommand(t, streamAlive))
  {
    hide StreamInv;
    if t.queue == [] || t.queue[0].Cancel? {
      CancelKeepsStream(t, streamAlive);
    } else if t.queue[0].Commit? {
      CommitKeepsStream(t, streamAlive);
    } else if streamAlive {
      ForwardKeepsStream(t, ReceiveCommand(t, true), t.queue[0].message);
    } else {
      LossKeepsStream(t);
    }
  }

  lemma ForwardKeepsStream(t: Task, u: Task, m: Message)
    requires StreamInv(t) && InCall(t) && InCall(u) && t.shape.clientStreaming && u.shape == t.shape
    requires u.taken == t.taken + [Send(m)] && u.forwarded == t.forwarded + [m]
    requires u.log == t.log + [Outgoing(m.text)] && u.requestOpen == t.requestOpen
    ensures StreamInv(u)
  {
    AppendSends(t.taken, Send(m));
    AppendOutgoing(t.log, Outgoing(m.text));
    AppendTexts(t.forwarded, m);
  }

  lemma ArmKeepsStream(t: Task, arm: Arm)
    requires StreamInv(t) && ArmEnabled(t, arm)
    requires arm.Receive? ==> HeadApplicable(t)
    ensures StreamInv(RunArm(t, arm))
  {
    match arm
    case Begin(e) => BeginKeepsStream(t, e);
    case Receive(streamAlive) =>
      if t.shape.clientStreaming { ReceiveKeepsStream(t, streamAlive); } else { CancelKeepsStream(t, streamAlive); }
    case _ => QuietArm(t, arm);
  }

  // ---------------------------------------------------------------------- the arms and the log

  lemma SplitAtEnd(t: Task, u: Task, tail: seq<Event>)
    requires LogSplit(t, |t.log|, [])
    requires u.log == t.log + tail && u.shape == t.shape && u.initial == t.initial
    ensures LogSplit(u, |t.log|, tail)
  {
    hide Body;
    var n := |t.log|;
    assert u.log[1..n] == t.log[1..n] && u.log[n..] == tail && u.log[0] == t.log[0];
  }

  lemma ExtendBody(t: Task, u: Task, e: Event)
    requires LogSplit(t, |t.log|, [])
    requires u.log == t.log + [e] && u.shape == t.shape && u.initial == t.initial
    requires InBody(e)
    requires Committed in t.log ==> e.Incoming?
    requires !t.shape.clientStreaming ==> e.Incoming?
    requires !t.shape.serverStreaming ==> forall i :: 0 <= i < |t.log| ==> !t.log[i].Incoming?
    ensures LogSplit(u, |u.log|, [])
  {
    var body := t.log[1..|t.log|];
    assert u.log[1..|u.log|] == body + [e];
    forall i | 0 <= i < |body| ensures body[i] == t.log[i + 1] { }
    assert Committed in body ==> Committed in t.log;
    BodyExtends(t.shape, t.initial, body, e);
  }

  lemma BodyExtends(shape: Shape, initial: Message, body: seq<Event>, e: Event)
    requires Body(shape, initial, body) && InBody(e)
    requires Committed in body ==> e.Incoming?
    requires !shape.clientStreaming ==> e.Incoming?
    requires !shape.serverStreaming ==> forall i :: 0 <= i < |body| ==> !body[i].Incoming?
    ensures Body(shape, initial, body + [e])
  {
  }

  lemma Ends(t: Task, u: Task, tail: seq<Event>, error: Option<string>)
    requires LogSplit(t, |t.log|, [])
    requires u.log == t.log + tail && u.shape == t.shape && u.initial == t.initial
    requires u.phase == Returned(error) && OutcomeEvents(tail, error)
    ensures LogInv(u)
  {
    SplitAtEnd(t, u, tail);
  }

  lemma BeginKeepsLog(t: Task, metadataError: Option<string>)
    requires t.log == [Started]
    ensures LogInv(BeginCall(t, metadataError))
  {
    var u := BeginCall(t, metadataError);
    var body := if t.shape.clientStreaming then [] else [Outgoing(t.initial.text)];
    assert u.log == [Started] + body;
    assert u.log[1..|u.log|] == body;
    assert Body(t.shape, t.initial, body);
    assert LogSplit(u, |u.log|, []);
    if metadataError.Some? { assert OutcomeEvents([], metadataError); }
  }

  lemma AnswerKeepsLog(t: Task, reply: Reply)
    requires LogInv(t) && ArmEnabled(t, Answer(reply))
    ensures LogInv(AnswerCall(t, reply))
  {
    var u := AnswerCall(t, reply);
    match reply
    case Rejected(code, e) => Ends(t, u, [Status(code)], Some(e));
    case Undecodable(e) => Ends(t, u, [], Some(e));
    case Good(text) =>
      if t.shape.serverStreaming {
        SplitAtEnd(t, u, []);
      } else {
        var v := Emit(t, Incoming(text));
        ExtendBody(t, v, Incoming(text));
        Ends(v, u, [Status(OK_CODE)], None);
      }
  }

  lemma ItemKeepsLog(t: Task, reply: Reply)
    requires LogInv(t) && t.phase == Streaming
    ensures LogInv(NextItem(t, reply))
  {
    var u := NextItem(t, reply);
    match reply
    case Rejected(code, e) => Ends(t, u, [Status(code)], Some(e));
    case Undecodable(e) => Ends(t, u, [], Some(e));
    case Good(text) => ExtendBody(t, u, Incoming(text));
  }

  lemma TrailersKeepLog(t: Task, rejection: Option<(nat, string)>)
    requires LogInv(t) && t.phase == Trailing
    ensures LogInv(RunArm(t, Trailers(rejection)))
  {
    var u := RunArm(t, Trailers(rejection));
    match rejection
    case None => Ends(t, u, [Status(OK_CODE)], None);
    case Some(r) => Ends(t, u, [Status(r.0)], Some(r.1));
  }

  lemma ApplyKeepsLog(t: Task, c: Command, streamAlive: bool)
    requires LogInv(t) && Listening(t)
    requires !c.Cancel? ==> t.shape.clientStreaming && t.requestOpen
    ensures LogInv(ApplyStreamCommand(t, c, streamAlive))
  {
    var u := ApplyStreamCommand(t, c, streamAlive);
    match c
    case Send(m) =>
      if streamAlive {
        ExtendBody(t, u, Outgoing(m.text));
      } else {
        Ends(t, u, [], Some(STREAM_ENDED));
      }
    case Commit => ExtendBody(t, u, Committed);
    case Cancel => CancelKeepsLog(t);
  }

  lemma CancelKeepsLog(t: Task)
    requires LogInv(t) && Listening(t)
    ensures LogInv(CancelCall(t))
  {
    var u := CancelCall(t);
    assert u.log == t.log + [Cancelled, Status(CANCELLED_CODE)];
    Ends(t, u, [Cancelled, Status(CANCELLED_CODE)], None);
  }

  lemma ReceiveKeepsLog(t: Task, streamAlive: bool)
    requires LogInv(t) && CanReceive(t) && HeadApplicable(t)
    ensures LogInv(ReceiveCommand(t, streamAlive))
  {
    if t.queue == [] {
      CancelKeepsLog(t);
    } else {
      var t1 := t.(queue := t.queue[1..], taken := t.taken + [t.queue[0]]);
      SameLog(t, t1);
      if t.shape.clientStreaming {
        ApplyKeepsLog(t1, t.queue[0], streamAlive);
      } else {
        CancelKeepsLog(t1);
      }
    }
  }

  lemma FinishCompletes(t: Task, n: nat, tail: seq<Event>)
    requires t.phase.Returned? && LogSplit(t, n, tail) && OutcomeEvents(tail, t.phase.error)
    ensures CompleteLog(FinishTask(t))
  {
    var error := t.phase.error;
    var more := if error.Some? then [Failed(error.value), Ended] else [Ended];
    FinishAppends(t, more);
    hide FinishTask, LogSplit, OutcomeEvents, Outcome;
    LongerTail(t, FinishTask(t), n, tail, more);
    OutcomeCompletes(tail, error);
  }

  lemma FinishAppends(t: Task, more: seq<Event>)
    requires t.phase.Returned? && more == if t.phase.error.Some? then [Failed(t.phase.error.value), Ended] else [Ended]
    ensures var u := FinishTask(t);
      u.log == t.log + more && u.shape == t.shape && u.initial == t.initial && u.phase == Cleaning
  {
  }

  lemma FinishKeepsLog(t: Task)
    requires LogInv(t) && t.phase.Returned?
    ensures LogInv(FinishTask(t))
  {
    hide LogSplit, OutcomeEvents, CompleteLog, InBodyOf;
    var n: nat, tail: seq<Event> :| LogSplit(t, n, tail) && OutcomeEvents(tail, t.phase.error);
    FinishCompletes(t, n, tail);
  }

  lemma OutcomeCompletes(events: seq<Event>, error: Option<string>)
    requires OutcomeEvents(events, error)
    ensures Outcome(events + if error.Some? then [Failed(error.value), Ended] else [Ended])
  {
  }

  lemma LongerTail(t: Task, u: Task, n: nat, tail: seq<Event>, more: seq<Event>)
    requires LogSplit(t, n, tail)
    requires u.log == t.log + more && u.shape == t.shape && u.initial == t.initial
    ensures LogSplit(u, n, tail + more)
  {
    hide Body;
    assert u.log[1..n] == t.log[1..n] && u.log[0] == t.log[0];
    assert u.log[n..] == tail + more;
  }

  lemma ArmKeepsLog(t: Task, arm: Arm)
    requires LogInv(t) && ArmEnabled(t, arm)
    requires arm.Receive? ==> HeadApplicable(t)
    ensures LogInv(RunArm(t, arm))
  {
    match arm
    case Begin(e) => BeginKeepsLog(t, e);
    case Answer(reply) => AnswerKeepsLog(t, reply);
    case Item(reply) => ItemKeepsLog(t, reply);
    case StreamEnd => SplitAtEnd(t, RunArm(t, arm), []);
    case Trailers(rejection) => TrailersKeepLog(t, rejection);
    case Receive(streamAlive) => ReceiveKeepsLog(t, streamAlive);
    case Finish => FinishKeepsLog(t);
  }

  /** Every step of the background task keeps the session's invariant. */
  lemma ArmKeepsInv(t: Task, arm: Arm)
    requires TaskInv(t) && ArmEnabled(t, arm)
    ensures TaskInv(RunArm(t, arm))
  {
    ArmKeepsQueue(t, arm);
    if arm.Receive? { HeadIsApplicable(t); }
    ArmKeepsStream(t, arm);
    ArmKeepsLog(t, arm);
  }
}
