/** What a session shows of the server's replies: every good one, in order, and the reason of its end. */
module GrpcReplies {
  import opened Options
  import opened GrpcTask
  import opened GrpcSessions
  import opened GrpcSessionProofs
  import opened GrpcRuns

  // ---------------------------------------------------------------------- select outcomes in turn

  ghost predicate Plays(t: Task, arms: seq<Arm>)
    decreases |arms|
  {
    arms == [] || (ArmEnabled(t, arms[0]) && Plays(RunArm(t, arms[0]), arms[1..]))
  }

  ghost function Play(t: Task, arms: seq<Arm>): Task
    requires Plays(t, arms)
    decreases |arms|
  {
    if arms == [] then t else Play(RunArm(t, arms[0]), arms[1..])
  }

  lemma PlayCons(t: Task, arm: Arm, rest: seq<Arm>)
    requires ArmEnabled(t, arm) && Plays(RunArm(t, arm), rest)
    ensures Plays(t, [arm] + rest) && Play(t, [arm] + rest) == Play(RunArm(t, arm), rest)
  {
    assert ([arm] + rest)[1..] == rest;
  }

  lemma {:induction false} PlayConcat(t: Task, a: seq<Arm>, b: seq<Arm>)
    requires Plays(t, a) && Plays(Play(t, a), b)
    ensures Plays(t, a + b) && Play(t, a + b) == Play(Play(t, a), b)
    decreases |a|
  {
    hide ArmEnabled, RunArm;
    if a == [] {
      assert a + b == b;
    } else {
      PlayConcat(RunArm(t, a[0]), a[1..], b);
      PlayCons(t, a[0], a[1..] + b);
      assert a + b == [a[0]] + (a[1..] + b);
    }
  }

  // ---------------------------------------------------------------------- every good reply is shown

  function IncomingTexts(log: seq<Event>): seq<string> {
    if log == [] then []
    else IncomingTexts(log[..|log| - 1]) + if log[|log| - 1].Incoming? then [log[|log| - 1].text] else []
  }

  /** The message of a good reply. The answer that opens a response stream carries none. */
  function Carried(shape: Shape, arm: Arm): seq<string> {
    match arm
    case Item(Good(text)) => [text]
    case Answer(Good(text)) => if shape.serverStreaming then [] else [text]
    case _ => []
  }

  function GoodTexts(shape: Shape, arms: seq<Arm>): seq<string> {
    if arms == [] then [] else Carried(shape, arms[0]) + GoodTexts(shape, arms[1..])
  }

  lemma OneMoreEvent(log: seq<Event>, e: Event)
    ensures IncomingTexts(log + [e]) == IncomingTexts(log) + if e.Incoming? then [e.text] else []
  {
    assert (log + [e])[..|log|] == log;
  }

  /** These events hold no incoming message. */
  predicate Silent(events: seq<Event>) { forall e :: e in events ==> !e.Incoming? }

  lemma {:induction false} SilentShowsNothing(log: seq<Event>, events: seq<Event>)
    requires Silent(events)
    ensures IncomingTexts(log + events) == IncomingTexts(log)
    decreases |events|
  {
    if events == [] {
      assert log + events == log;
    } else {
      var n := |events| - 1;
      SilentShowsNothing(log, events[..n]);
      OneMoreEvent(log + events[..n], events[n]);
      assert log + events == log + events[..n] + [events[n]];
    }
  }

  /** The task after an arm has the same shape, and its log grows by a message or none and by other events. */
  ghost predicate Shows(t: Task, shown: seq<string>, u: Task) {
    && |shown| <= 1 && u.shape == t.shape && |t.log| + |shown| <= |u.log|
    && (forall i :: 0 <= i < |t.log| ==> u.log[i] == t.log[i])
    && (shown != [] ==> u.log[|t.log|] == Incoming(shown[0]))
    && forall i :: |t.log| + |shown| <= i < |u.log| ==> !u.log[i].Incoming?
  }

  lemma ReceiveIsSilent(t: Task, streamAlive: bool)
    requires CanReceive(t)
    ensures Shows(t, [], ReceiveCommand(t, streamAlive))
  {
  }

  lemma AnswerIsShown(t: Task, reply: Reply)
    ensures Shows(t, Carried(t.shape, Answer(reply)), AnswerCall(t, reply))
  {
  }

  lemma ItemIsShown(t: Task, reply: Reply)
    ensures Shows(t, Carried(t.shape, Item(reply)), NextItem(t, reply))
  {
  }

  lemma OtherArmIsSilent(t: Task, arm: Arm)
    requires ArmEnabled(t, arm) && !arm.Receive? && !arm.Answer? && !arm.Item?
    ensures Shows(t, [], RunArm(t, arm))
  {
    hide ReceiveCommand, AnswerCall, NextItem;
  }

  lemma ShownText(t: Task, shown: seq<string>, u: Task)
    requires Shows(t, shown, u)
    ensures IncomingTexts(u.log) == IncomingTexts(t.log) + shown
  {
    var n := |t.log| + |shown|;
    var rest := u.log[n..];
    hide IncomingTexts;
    if shown == [] {
      assert u.log == t.log + rest;
      SilentShowsNothing(t.log, rest);
    } else {
      assert u.log == t.log + [Incoming(shown[0])] + rest;
      SilentShowsNothing(t.log + [Incoming(shown[0])], rest);
      OneMoreEvent(t.log, Incoming(shown[0]));
    }
  }

  lemma ArmShows(t: Task, arm: Arm)
    requires ArmEnabled(t, arm)
    ensures var u := RunArm(t, arm);
      u.shape == t.shape && IncomingTexts(u.log) == IncomingTexts(t.log) + Carried(t.shape, arm)
  {
    hide IncomingTexts, ReceiveCommand, AnswerCall, NextItem, Shows;
    match arm {
      case Receive(streamAlive) => ReceiveIsSilent(t, streamAlive);
      case Answer(reply) => AnswerIsShown(t, reply);
      case Item(reply) => ItemIsShown(t, reply);
      case _ => OtherArmIsSilent(t, arm);
    }
    ShownKeepsShape(t, Carried(t.shape, arm), RunArm(t, arm));
    ShownText(t, Carried(t.shape, arm), RunArm(t, arm));
  }

  lemma ShownKeepsShape(t: Task, shown: seq<string>, u: Task)
    requires Shows(t, shown, u)
    ensures u.shape == t.shape
  {
  }

  lemma {:induction false} OneMoreArm(shape: Shape, arms: seq<Arm>, arm: Arm)
    ensures GoodTexts(shape, arms + [arm]) == GoodTexts(shape, arms) + Carried(shape, arm)
  {
    hide Carried;
    if arms == [] {
      assert [arm][1..] == [];
    } else {
      OneMoreArm(shape, arms[1..], arm);
      assert (arms + [arm])[1..] == arms[1..] + [arm];
    }
  }

  /** Whatever happens in between, the messages shown are those of the good replies, in order. */
  lemma {:induction false} GoodRepliesAreShown(t: Task, arms: seq<Arm>)
    requires Plays(t, arms)
    ensures IncomingTexts(Play(t, arms).log) == IncomingTexts(t.log) + GoodTexts(t.shape, arms)
    decreases |arms|
  {
    if arms != [] {
      ArmShows(t, arms[0]);
      GoodRepliesAreShown(RunArm(t, arms[0]), arms[1..]);
    }
  }

  // ---------------------------------------------------------------------- reading to the end

  function Items(texts: seq<string>): seq<Arm> {
    seq(|texts|, i requires 0 <= i < |texts| => Item(Good(texts[i])))
  }

  function Incomings(texts: seq<string>): seq<Event> {
    seq(|texts|, i requires 0 <= i < |texts| => Incoming(texts[i]))
  }

  /** How a response stream ends: closed with good or bad trailers, or by a reply that is not good. */
  datatype Ending = Closed | BadTrailers(code: nat, error: string) | BadItem(reply: Reply)

  predicate IsEnding(e: Ending) { e.BadItem? ==> !e.reply.Good? }

  function EndingArms(e: Ending): seq<Arm> {
    match e
    case Closed => [StreamEnd, Trailers(None)]
    case BadTrailers(code, error) => [StreamEnd, Trailers(Some((code, error)))]
    case BadItem(reply) => [Item(reply)]
  }

  /** A rejection shows its own code and error, a message that cannot be decoded its error alone. */
  function ReasonEvents(reply: Reply): seq<Event> {
    match reply
    case Good(_) => [Status(OK_CODE), Ended]
    case Rejected(code, error) => [Status(code), Failed(error), Ended]
    case Undecodable(error) => [Failed(error), Ended]
  }

  function EndingEvents(e: Ending): seq<Event> {
    match e
    case Closed => [Status(OK_CODE), Ended]
    case BadTrailers(code, error) => ReasonEvents(Rejected(code, error))
    case BadItem(reply) => ReasonEvents(reply)
  }

  /** After every message of a stream the task still listens. */
  lemma {:induction false} ItemsAreShown(t: Task, texts: seq<string>)
    requires t.phase == Streaming
    ensures Plays(t, Items(texts)) && Play(t, Items(texts)) == t.(log := t.log + Incomings(texts))
    decreases |texts|
  {
    if texts == [] {
      assert t.log + Incomings(texts) == t.log;
    } else {
      var u := t.(log := t.log + [Incoming(texts[0])]);
      assert RunArm(t, Item(Good(texts[0]))) == u;
      ItemsAreShown(u, texts[1..]);
      PlayCons(t, Item(Good(texts[0])), Items(texts[1..]));
      assert Items(texts) == [Item(Good(texts[0]))] + Items(texts[1..]);
      assert t.log + Incomings(texts) == u.log + Incomings(texts[1..]);
    }
  }

  lemma EndingIsShown(t: Task, e: Ending)
    requires t.phase == Streaming && IsEnding(e)
    ensures var arms := EndingArms(e) + [Finish];
      Plays(t, arms) && Play(t, arms).log == t.log + EndingEvents(e) && Play(t, arms).phase == Cleaning
  {
    match e {
      case Closed => Play3(t, StreamEnd, Trailers(None));
      case BadTrailers(code, error) => Play3(t, StreamEnd, Trailers(Some((code, error))));
      case BadItem(reply) => Play2(t, Item(reply), Finish);
    }
  }

  lemma Play2(t: Task, a: Arm, b: Arm)
    requires ArmEnabled(t, a) && ArmEnabled(RunArm(t, a), b)
    ensures Plays(t, [a] + [b]) && Play(t, [a] + [b]) == RunArm(RunArm(t, a), b)
  {
    hide ArmEnabled, RunArm;
    var u := RunArm(t, a);
    PlayCons(u, b, []);
    assert [b] + [] == [b];
    PlayCons(t, a, [b]);
  }

  lemma Play3(t: Task, a: Arm, b: Arm)
    requires ArmEnabled(t, a) && ArmEnabled(RunArm(t, a), b) && ArmEnabled(RunArm(RunArm(t, a), b), Finish)
    ensures Plays(t, [a, b] + [Finish])
    ensures Play(t, [a, b] + [Finish]) == RunArm(RunArm(RunArm(t, a), b), Finish)
  {
    hide ArmEnabled, RunArm;
    Play2(RunArm(t, a), b, Finish);
    PlayCons(t, a, [b] + [Finish]);
    assert [a, b] + [Finish] == [a] + ([b] + [Finish]);
  }

  /** A response stream is read to its end: every message is shown, in order, and then the reason of the end. */
  lemma StreamIsReadToItsEnd(t: Task, texts: seq<string>, e: Ending)
    requires t.phase == Streaming && IsEnding(e)
    ensures var arms := Items(texts) + (EndingArms(e) + [Finish]);
      && Plays(t, arms) && Play(t, arms).phase == Cleaning
      && Play(t, arms).log == t.log + Incomings(texts) + EndingEvents(e)
    ensures forall k :: 0 <= k <= |texts| ==>
      && Plays(t, Items(texts[..k]))
      && Listening(Play(t, Items(texts[..k]))) && Play(t, Items(texts[..k])).log == t.log + Incomings(texts[..k])
  {
    hide EndingArms, EndingEvents, RunArm, ArmEnabled, Items, Incomings;
    forall k | 0 <= k <= |texts|
      ensures
        && Plays(t, Items(texts[..k]))
        && Listening(Play(t, Items(texts[..k]))) && Play(t, Items(texts[..k])).log == t.log + Incomings(texts[..k])
    {
      ItemsAreShown(t, texts[..k]);
    }
    ItemsAreShown(t, texts);
    var u := Play(t, Items(texts));
    EndingIsShown(u, e);
    PlayConcat(t, Items(texts), EndingArms(e) + [Finish]);
  }

  /** Only the end of the stream, a reply that is not good, or a received command takes a task out of reading. */
  lemma {:induction false} ReadingGoesOn(t: Task, arms: seq<Arm>)
    requires t.phase == Streaming && Plays(t, arms)
    requires forall arm :: arm in arms ==> arm.Receive? || (arm.Item? && arm.reply.Good?)
    ensures var u := Play(t, arms);
      u.phase == Streaming || (arms != [] && arms[|arms| - 1].Receive? && u.phase.Returned?)
    decreases |arms|
  {
    if arms != [] {
      var u := RunArm(t, arms[0]);
      assert arms[0] in arms && forall arm :: arm in arms[1..] ==> arm in arms;
      if u.phase == Streaming {
        ReadingGoesOn(u, arms[1..]);
      } else {
        assert arms[0].Receive? && u.phase.Returned?;
        NothingAfterReturn(u, arms[1..]);
      }
    }
  }

  lemma NothingAfterReturn(t: Task, arms: seq<Arm>)
    requires t.phase.Returned? && Plays(t, arms) && Finish !in arms
    ensures arms == []
  {
  }

  // ---------------------------------------------------------------------- whole calls

  /** A new session calls the method it was started for, with its request unless that is a stream. */
  lemma CallBegins(id: string, shape: Shape, initial: Message)
    ensures var t := Emit(NewTask(id, shape, initial), Started).(phase := Ready); var u := RunArm(t, Begin(None));
      && ArmEnabled(t, Begin(None))
      && u.id == id && u.shape == shape && u.phase == Calling && u.queue == [] && u.sender == Registered
      && u.requestOpen == shape.clientStreaming
      && u.forwarded == (if shape.clientStreaming then [] else [initial])
      && u.log == if shape.clientStreaming then [Started] else [Started, Outgoing(initial.text)]
  {
  }

  /** A call with one response shows that response and OK, or why there is none. */
  lemma UnaryAnswerIsShown(t: Task, reply: Reply)
    requires t.phase == Calling && !t.shape.serverStreaming
    ensures var arms := [Answer(reply)] + [Finish];
      && Plays(t, arms) && Play(t, arms).phase == Cleaning
      && Play(t, arms).log == t.log + (if reply.Good? then [Incoming(reply.text)] else []) + ReasonEvents(reply)
  {
    Play2(t, Answer(reply), Finish);
  }

  /** A refused response stream shows why. */
  lemma RefusedStreamIsShown(t: Task, code: nat, error: string)
    requires t.phase == Calling && t.shape.serverStreaming
    ensures var arms := [Answer(Rejected(code, error))] + [Finish];
      && Plays(t, arms) && Play(t, arms).phase == Cleaning
      && Play(t, arms).log == t.log + ReasonEvents(Rejected(code, error))
  {
    Play2(t, Answer(Rejected(code, error)), Finish);
  }

  /** An opened response stream is read to its end, whatever the opening answer says. */
  lemma OpenedStreamIsShown(t: Task, opening: string, texts: seq<string>, e: Ending)
    requires t.phase == Calling && t.shape.serverStreaming && IsEnding(e)
    ensures var arms := [Answer(Good(opening))] + (Items(texts) + (EndingArms(e) + [Finish]));
      && Plays(t, arms) && Play(t, arms).phase == Cleaning
      && Play(t, arms).log == t.log + Incomings(texts) + EndingEvents(e)
  {
    var u := t.(phase := Streaming);
    assert RunArm(t, Answer(Good(opening))) == u;
    StreamIsReadToItsEnd(u, texts, e);
    hide RunArm, EndingArms, EndingEvents;
    PlayCons(t, Answer(Good(opening)), Items(texts) + (EndingArms(e) + [Finish]));
  }

  // ---------------------------------------------------------------------- over runs of the registry

  /** What the steps of a run do to one task. */
  function ArmsOf(steps: seq<Step>, token: Token): seq<Arm> {
    if steps == [] then []
    else (if steps[0].RunTask? && steps[0].token == token then [steps[0].arm] else []) + ArmsOf(steps[1..], token)
  }

  lemma SendShowsNothing(s: State, id: string, parsed: Option<Message>, token: Token)
    requires token in s.tasks
    ensures var s' := Apply(s, SendMessage(id, parsed));
      token in s'.tasks && s'.tasks[token].log == s.tasks[token].log && s'.tasks[token].shape == s.tasks[token].shape
  {
    if SendError(s, id, parsed).None? { SendAllowed(s, id, parsed); }
    hide SendError;
  }

  lemma CommitShowsNothing(s: State, id: string, token: Token)
    requires token in s.tasks
    ensures var s' := Apply(s, CommitStream(id));
      token in s'.tasks && s'.tasks[token].log == s.tasks[token].log && s'.tasks[token].shape == s.tasks[token].shape
  {
    if CommitError(s, id).None? { CommitAllowed(s, id); }
    hide CommitError;
  }

  lemma TakeShowsNothing(s: State, step: Step, token: Token)
    requires token in s.tasks && (step.TakeHandle? || step.TakeAllHandles?)
    ensures var s' := Apply(s, step);
      token in s'.tasks && s'.tasks[token].log == s.tasks[token].log && s'.tasks[token].shape == s.tasks[token].shape
  {
  }

  lemma CleanShowsNothing(s: State, other: Token, token: Token)
    requires token in s.tasks && other in s.tasks
    ensures var s' := Clean(s, other);
      token in s'.tasks && s'.tasks[token].log == s.tasks[token].log && s'.tasks[token].shape == s.tasks[token].shape
  {
  }

  lemma OtherStepsShowNothing(s: State, step: Step, token: Token)
    requires Enabled(s, step) && token in s.tasks && !step.RunTask?
    ensures var s' := Apply(s, step); var t := s.tasks[token];
      && token in s'.tasks && s'.tasks[token].shape == t.shape
      && s'.tasks[token].log == if step == Spawn(token) then t.log + [Started] else t.log
  {
    hide SendError, CommitError, Clean, DetachAll, Detach;
    match step
    case SendMessage(id, parsed) => SendShowsNothing(s, id, parsed, token);
    case CommitStream(id) => CommitShowsNothing(s, id, token);
    case TakeHandle(_) => TakeShowsNothing(s, step, token);
    case TakeAllHandles => TakeShowsNothing(s, step, token);
    case CleanUp(other) => CleanShowsNothing(s, other, token);
    case _ => hide StartError;
  }

  /** No step but an arm of the task shows a message. */
  lemma StepShows(s: State, step: Step, token: Token)
    requires Enabled(s, step) && token in s.tasks
    ensures var s' := Apply(s, step);
      && token in s'.tasks && s'.tasks[token].shape == s.tasks[token].shape
      && IncomingTexts(s'.tasks[token].log)
         == IncomingTexts(s.tasks[token].log)
            + if step.RunTask? && step.token == token then Carried(s.tasks[token].shape, step.arm) else []
  {
    hide RunArm, ArmEnabled, IncomingTexts, Carried, Emit;
    var t := s.tasks[token];
    if step.RunTask? {
      if step.token == token { ArmShows(t, step.arm); }
    } else {
      OtherStepsShowNothing(s, step, token);
      hide Apply, Enabled;
      OneMoreEvent(t.log, Started);
    }
  }

  /** Over every run, a session shows exactly the good replies of the server, in order. */
  lemma {:induction false} RunsShowGoodReplies(s: State, steps: seq<Step>, token: Token)
    requires ValidRun(s, steps) && token in s.tasks
    ensures var s' := Run(s, steps);
      && token in s'.tasks && s'.tasks[token].shape == s.tasks[token].shape
      && IncomingTexts(s'.tasks[token].log)
         == IncomingTexts(s.tasks[token].log) + GoodTexts(s.tasks[token].shape, ArmsOf(steps, token))
    decreases |steps|
  {
    hide Apply, Enabled, IncomingTexts, Carried;
    if steps != [] {
      StepShows(s, steps[0], token);
      RunsShowGoodReplies(Apply(s, steps[0]), steps[1..], token);
      ArmsOfCons(s.tasks[token].shape, steps, token);
    }
  }

  lemma ArmsOfCons(shape: Shape, steps: seq<Step>, token: Token)
    requires steps != []
    ensures GoodTexts(shape, ArmsOf(steps, token))
         == (if steps[0].RunTask? && steps[0].token == token then Carried(shape, steps[0].arm) else [])
            + GoodTexts(shape, ArmsOf(steps[1..], token))
  {
    hide Carried;
    var rest := ArmsOf(steps[1..], token);
    if steps[0].RunTask? && steps[0].token == token {
      assert ([steps[0].arm] + rest)[1..] == rest;
    } else {
      assert [] + rest == rest;
    }
  }
}
