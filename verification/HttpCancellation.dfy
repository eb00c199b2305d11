/** Cancelling HTTP requests: the registry of active senders and pending cancellations, and the calls
    that race a request against their receiver. A second call never starts under an id in flight. */
module HttpCancellation {
  import opened Options
  import opened Sets

  const MAX_PENDING := 1024

  /** A call holds its receiver while it races; once settled, the receiver is dropped. */
  datatype Call = Racing(channel: nat) | Settled(channel: nat, canceled: bool)

  /** sent holds the channels that carry a signal; next numbers the channels. */
  datatype State = State(
    active: map<string, nat>, pending: set<string>, sent: set<nat>, calls: map<string, Call>, next: nat)

  const INITIAL := State(map[], {}, {}, map[], 0)

  datatype Step =
    | Register(id: string)
    | Cancel(id: string)
    /** The request ends first. */
    | Complete(id: string)
    /** The receiver fires first: it carries a signal, or its sender is gone. */
    | Notice(id: string)
    | Finish(id: string)

  predicate Fires(s: State, id: string)
    requires id in s.calls
  {
    s.calls[id].channel in s.sent || !exists other :: other in s.active && s.active[other] == s.calls[id].channel
  }

  predicate Enabled(s: State, step: Step) {
    match step
    case Register(id) => id !in s.calls
    case Cancel(id) => true
    case Complete(id) => id in s.calls && s.calls[id].Racing?
    case Notice(id) => id in s.calls && s.calls[id].Racing? && Fires(s, id)
    case Finish(id) => id in s.calls && s.calls[id].Settled?
  }

  /** send succeeds while the receiver is alive. */
  predicate Heard(s: State, id: string) {
    id in s.active && exists call :: call in s.calls && s.calls[call] == Racing(s.active[id])
  }

  predicate Flushes(s: State, step: Step) {
    step.Cancel? && step.id !in s.active && |s.pending| >= MAX_PENDING
  }

  function Apply(s: State, step: Step): State
    requires Enabled(s, step)
  {
    match step
    case Register(id) =>
      if id in s.pending then s.(pending := s.pending - {id})
      else s.(active := s.active[id := s.next], calls := s.calls[id := Racing(s.next)], next := s.next + 1)
    case Cancel(id) =>
      if id in s.active then
        s.(active := s.active - {id}, sent := if Heard(s, id) then s.sent + {s.active[id]} else s.sent)
      else s.(pending := (if Flushes(s, step) then {} else s.pending) + {id})
    case Complete(id) => s.(calls := s.calls[id := Settled(s.calls[id].channel, false)])
    case Notice(id) => s.(calls := s.calls[id := Settled(s.calls[id].channel, true)])
    case Finish(id) => s.(active := s.active - {id}, pending := s.pending - {id}, calls := s.calls - {id})
  }

  // ---------------------------------------------------------------------- what every step keeps

  ghost predicate ChannelsAreDistinct(s: State) {
    && (forall id, other :: id in s.calls && other in s.calls && id != other ==>
         s.calls[id].channel != s.calls[other].channel)
    && (forall id :: id in s.calls ==> s.calls[id].channel < s.next)
    && forall channel :: channel in s.sent ==> channel < s.next
  }

  /** An active sender belongs to the call in flight under its id and has not been used; a racing call
      without its sender has been signalled. */
  ghost predicate SendersBelong(s: State) {
    && (forall id :: id in s.active ==> id in s.calls && s.calls[id].channel == s.active[id] && s.active[id] !in s.sent)
    && (forall id :: id in s.calls && s.calls[id].Racing? ==> id in s.active || s.calls[id].channel in s.sent)
    && forall id :: id in s.calls && s.calls[id].Settled? && s.calls[id].canceled ==> s.calls[id].channel in s.sent
  }

  ghost predicate Inv(s: State) {
    && s.active.Keys !! s.pending
    && |s.pending| <= MAX_PENDING
    && ChannelsAreDistinct(s)
    && SendersBelong(s)
  }

  lemma ChannelsStayDistinct(s: State, step: Step)
    requires ChannelsAreDistinct(s) && SendersBelong(s) && Enabled(s, step)
    ensures ChannelsAreDistinct(Apply(s, step))
  {
    hide Fires, Heard, Flushes;
  }

  lemma SendersStillBelong(s: State, step: Step)
    requires ChannelsAreDistinct(s) && SendersBelong(s) && Enabled(s, step)
    ensures SendersBelong(Apply(s, step))
  {
    if step.Cancel? && step.id in s.active && s.calls[step.id].Racing? {
      assert s.calls[step.id] == Racing(s.active[step.id]);
    }
  }

  lemma PendingStaysApart(s: State, step: Step)
    requires s.active.Keys !! s.pending && |s.pending| <= MAX_PENDING && Enabled(s, step)
    ensures var t := Apply(s, step); t.active.Keys !! t.pending && |t.pending| <= MAX_PENDING
  {
    SubsetIsSmaller(s.pending - {step.id}, s.pending);
  }

  lemma StepKeepsInv(s: State, step: Step)
    requires Inv(s) && Enabled(s, step)
    ensures Inv(Apply(s, step))
  {
    hide Apply, Enabled, ChannelsAreDistinct, SendersBelong;
    ChannelsStayDistinct(s, step);
    SendersStillBelong(s, step);
    PendingStaysApart(s, step);
  }

  /** A completed call leaves its id in neither set, and so does a call refused at registration. */
  lemma NothingIsLeftBehind(s: State, step: Step)
    requires Inv(s) && Enabled(s, step)
    ensures step.Finish? || (step.Register? && step.id in s.pending) ==>
      var t := Apply(s, step); step.id !in t.active && step.id !in t.pending && step.id !in t.calls
  {
  }

  /** Cancelling a registered id that has not been signalled reaches the receiver of the call in flight
      under this id and no other; it reports success exactly when that call is still racing. */
  lemma CancelSignalsItsCall(s: State, id: string)
    requires Inv(s) && id in s.active
    ensures Heard(s, id) <==> s.calls[id].Racing?
    ensures var t := Apply(s, Cancel(id));
      && t.calls == s.calls && t.pending == s.pending
      && t.sent == s.sent + (if s.calls[id].Racing? then {s.calls[id].channel} else {})
      && (s.calls[id].Racing? ==> Enabled(t, Notice(id)))
      && forall other :: other in s.calls && other != id && s.calls[other].Racing? ==>
           Fires(t, other) == Fires(s, other)
  {
    var t := Apply(s, Cancel(id));
    forall other | other in s.calls && other != id && s.calls[other].Racing?
      ensures Fires(t, other) == Fires(s, other)
    {
      if other in s.active { assert t.active[other] == s.calls[other].channel; }
    }
  }

  // ---------------------------------------------------------------------- whole runs

  ghost predicate IsRun(states: seq<State>, steps: seq<Step>) {
    && |states| == |steps| + 1 && states[0] == INITIAL
    && forall i :: 0 <= i < |steps| ==> Enabled(states[i], steps[i]) && states[i + 1] == Apply(states[i], steps[i])
  }

  lemma {:induction false} RunKeepsInv(states: seq<State>, steps: seq<Step>, i: nat)
    requires IsRun(states, steps) && i <= |steps|
    ensures Inv(states[i])
    decreases i
  {
    if i > 0 {
      RunKeepsInv(states, steps, i - 1);
      StepKeepsInv(states[i - 1], steps[i - 1]);
    }
  }

  /** Step i is a cancellation that found no sender, and until step n no flush, no registration and no
      completion under the same id has taken it away. */
  ghost predicate Outstanding(states: seq<State>, steps: seq<Step>, id: string, i: nat, n: nat)
    requires IsRun(states, steps) && n <= |steps|
  {
    && i < n && steps[i] == Cancel(id) && id !in states[i].active
    && forall j :: i < j < n ==> !Flushes(states[j], steps[j]) && steps[j] != Register(id) && steps[j] != Finish(id)
  }

  /** What one step does to a pending cancellation. */
  lemma PendingAfter(s: State, step: Step, id: string)
    requires Enabled(s, step)
    ensures id in Apply(s, step).pending <==>
      || (step == Cancel(id) && id !in s.active)
      || (id in s.pending && !Flushes(s, step) && step != Register(id) && step != Finish(id))
  {
  }

  /** In every run, a registration is refused exactly when a cancellation of its id is outstanding. */
  lemma {:induction false} RegistrationIsRefusedExactlyWhenCancelled(states: seq<State>, steps: seq<Step>,
                                                                     id: string, n: nat)
    requires IsRun(states, steps) && n <= |steps|
    ensures id in states[n].pending <==> exists i :: Outstanding(states, steps, id, i, n)
    decreases n
  {
    if n > 0 {
      hide Apply, Enabled, Flushes;
      var s, step := states[n - 1], steps[n - 1];
      RegistrationIsRefusedExactlyWhenCancelled(states, steps, id, n - 1);
      PendingAfter(s, step, id);
      if id in states[n].pending {
        if step == Cancel(id) && id !in s.active {
          assert Outstanding(states, steps, id, n - 1, n);
        } else {
          var i :| Outstanding(states, steps, id, i, n - 1);
          assert Outstanding(states, steps, id, i, n);
        }
      }
      forall i: nat | Outstanding(states, steps, id, i, n) ensures id in states[n].pending {
        if i < n - 1 { assert Outstanding(states, steps, id, i, n - 1); }
      }
    }
  }

  function Cancels(steps: seq<Step>): nat {
    if steps == [] then 0 else Cancels(steps[..|steps| - 1]) + if steps[|steps| - 1].Cancel? then 1 else 0
  }

  /** No flush can intervene before 1,024 cancellations have been asked for. */
  lemma {:induction false} FlushNeedsManyCancels(states: seq<State>, steps: seq<Step>, n: nat)
    requires IsRun(states, steps) && n <= |steps|
    ensures |states[n].pending| <= Cancels(steps[..n])
    ensures n < |steps| && Flushes(states[n], steps[n]) ==> Cancels(steps[..n]) >= 1_024
    decreases n
  {
    if n > 0 {
      FlushNeedsManyCancels(states, steps, n - 1);
      assert steps[..n][..n - 1] == steps[..n - 1];
      var s, t := states[n - 1], states[n];
      if steps[n - 1].Cancel? {
        assert |s.pending + {steps[n - 1].id}| <= |s.pending| + 1;
      } else {
        assert t.pending <= s.pending;
        SubsetIsSmaller(t.pending, s.pending);
      }
    }
  }

  /** Step i cancels the call that registered last under this id before step n. */
  ghost predicate Hit(steps: seq<Step>, id: string, i: nat, n: nat)
    requires n <= |steps|
  {
    i < n && steps[i] == Cancel(id) && forall j :: i < j < n ==> steps[j] != Register(id)
  }

  lemma {:induction false} SignalledCallsWereCancelled(states: seq<State>, steps: seq<Step>, id: string, n: nat)
    requires IsRun(states, steps) && n <= |steps|
    requires id in states[n].calls && states[n].calls[id].channel in states[n].sent
    ensures exists i :: Hit(steps, id, i, n)
    decreases n
  {
    hide Inv, Apply, Enabled;
    assert states[0].calls == map[];
    var s, step := states[n - 1], steps[n - 1];
    RunKeepsInv(states, steps, n - 1);
    if step == Cancel(id) {
      assert Hit(steps, id, n - 1, n);
    } else {
      StaysUnsent(s, step, id);
      SignalledCallsWereCancelled(states, steps, id, n - 1);
      var i :| Hit(steps, id, i, n - 1);
      assert Hit(steps, id, i, n);
    }
  }

  /** In every run, a call that has settled as cancelled, or may settle so next, was cancelled after it
      registered: no cancellation of another call or of an earlier call reaches it. */
  lemma OnlyCancelledCallsAreCancelled(states: seq<State>, steps: seq<Step>, id: string, n: nat)
    requires IsRun(states, steps) && n <= |steps| && id in states[n].calls
    requires states[n].calls[id] == Settled(states[n].calls[id].channel, true) || Enabled(states[n], Notice(id))
    ensures exists i :: Hit(steps, id, i, n)
  {
    RunKeepsInv(states, steps, n);
    var s := states[n];
    assert id in s.active ==> s.active[id] == s.calls[id].channel;
    SignalledCallsWereCancelled(states, steps, id, n);
  }

  /** Only its own cancellation puts a signal on the channel of a call. */
  lemma StaysUnsent(s: State, step: Step, id: string)
    requires Inv(s) && Enabled(s, step) && step != Cancel(id)
    requires id in Apply(s, step).calls && Apply(s, step).calls[id].channel in Apply(s, step).sent
    ensures step != Register(id) && id in s.calls && s.calls[id].channel in s.sent
  {
  }

  // ---------------------------------------------------------------------- the registry object

  lemma SendersHold(s: State, id: string)
    requires Inv(s)
    ensures if id in s.active then id in s.calls && s.calls[id].channel == s.active[id] && s.active[id] !in s.sent
            else id in s.calls && s.calls[id].Racing? ==> s.calls[id].channel in s.sent
  {
  }

  class Registry {
    var active: map<string, nat>
    var pending: set<string>
    var sent: set<nat>
    var calls: map<string, Call>
    var next: nat

    function Value(): State
      reads this
    {
      State(active, pending, sent, calls, next)
    }

    ghost predicate Valid()
      reads this
    {
      Inv(Value())
    }

    constructor ()
      ensures Valid() && Value() == INITIAL
    {
      active, pending, sent, calls, next := map[], {}, {}, map[], 0;
    }

    method CancelRequest(id: string) returns (heard: bool)
      requires Valid()
      modifies this
      ensures Valid() && Value() == Apply(old(Value()), Cancel(id))
      ensures heard <==> id in old(calls) && old(calls)[id].Racing? && old(calls)[id].channel !in old(sent)
    {
      StepKeepsInv(Value(), Cancel(id));
      SendersHold(Value(), id);
      if id in active { CancelSignalsItsCall(Value(), id); }
      hide Inv, Heard;
      if id in active {
        heard := calls[id].Racing?;
        if heard { sent := sent + {active[id]}; }
        active := active - {id};
        return;
      }
      if |pending| >= MAX_PENDING {
        pending := {};
      }
      pending := pending + {id};
      heard := false;
    }

    method RegisterCall(id: string) returns (receiver: Option<nat>)
      requires Valid() && id !in calls
      modifies this
      ensures Valid() && Value() == Apply(old(Value()), Register(id))
      ensures receiver == None <==> id in old(pending)
      ensures receiver.Some? ==> active == old(active)[id := receiver.value] && receiver.value !in sent
    {
      StepKeepsInv(Value(), Register(id));
      if id in pending {
        pending := pending - {id};
        return None;
      }
      receiver := Some(next);
      active, calls, next := active[id := next], calls[id := Racing(next)], next + 1;
    }

    method FinishCall(id: string)
      requires Valid() && id in calls && calls[id].Settled?
      modifies this
      ensures Valid() && Value() == Apply(old(Value()), Finish(id))
      ensures id !in active && id !in pending
    {
      StepKeepsInv(Value(), Finish(id));
      active := active - {id};
      pending := pending - {id};
      calls := calls - {id};
    }
  }
}
