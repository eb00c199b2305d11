/** The template prompts of the app: one is shown, the others wait in a queue. */
module PromptQueue {
  import opened Options

  datatype Prompt = Prompt(id: string, input: string)

  /** A resolution hands back the entered text, or None for a cancelled prompt. */
  datatype Resolution = Resolution(prompt: Prompt, answer: Option<string>)

  function Front(active: Option<Prompt>): seq<Prompt> { if active.Some? then [active.value] else [] }

  function Prompts(resolved: seq<Resolution>): seq<Prompt> {
    seq(|resolved|, i requires 0 <= i < |resolved| => resolved[i].prompt)
  }

  function CancelAll(prompts: seq<Prompt>): seq<Resolution> {
    seq(|prompts|, i requires 0 <= i < |prompts| => Resolution(prompts[i], None))
  }

  /** The two refs, the state the dialog shows, and what has been issued and resolved so far. */
  class Prompter {
    var active: Option<Prompt>
    var queue: seq<Prompt>
    var shown: Option<Prompt>
    ghost var issued: seq<Prompt>
    ghost var resolved: seq<Resolution>

    /** Every issued prompt is in exactly one place, and the places in order are the issue order. */
    ghost predicate Valid()
      reads this
    {
      && issued == Prompts(resolved) + Front(active) + queue
      && (queue != [] ==> active.Some?)
      && shown == active
    }

    constructor ()
      ensures Valid() && issued == [] && resolved == []
    {
      active, queue, shown, issued, resolved := None, [], None, [], [];
    }

    method Request(p: Prompt)
      requires Valid()
      modifies this
      ensures Valid() && issued == old(issued) + [p] && resolved == old(resolved)
      ensures active == if old(active).Some? then old(active) else Some(p)
    {
      issued := issued + [p];
      if active.Some? {
        queue := queue + [p];
        return;
      }
      active := Some(p);
      shown := Some(p);
    }

    /** The answer goes to the prompt on display, and the next one in the queue is displayed. */
    method Resolve(answer: Option<string>)
      requires Valid()
      modifies this
      ensures Valid() && issued == old(issued)
      ensures resolved == old(resolved) + (if old(shown).Some? then [Resolution(old(shown).value, answer)] else [])
      ensures old(queue) != [] ==> shown == Some(old(queue)[0]) && queue == old(queue)[1..]
    {
      if active.None? {
        return;
      }
      resolved := resolved + [Resolution(active.value, answer)];
      if queue == [] {
        active := None;
      } else {
        active := Some(queue[0]);
        queue := queue[1..];
      }
      shown := active;
    }

    /** The prompt part of stopping the workspace runtime. */
    method Stop()
      requires Valid()
      modifies this
      ensures Valid() && issued == old(issued) && active == None && queue == []
      ensures resolved == old(resolved) + CancelAll(Front(old(active)) + old(queue))
      ensures Prompts(resolved) == issued
    {
      if active.Some? {
        resolved := resolved + [Resolution(active.value, None)];
      }
      var i := 0;
      while i < |queue|
        invariant 0 <= i <= |queue| && queue == old(queue) && active == old(active) && issued == old(issued)
        invariant resolved == old(resolved) + CancelAll(Front(active) + queue[..i])
      {
        resolved := resolved + [Resolution(queue[i], None)];
        i := i + 1;
      }
      assert Front(active) + queue[..i] == Front(active) + queue;
      active := None;
      queue := [];
      shown := None;
      assert Prompts(resolved) == issued;
    }
  }

  datatype Step = Ask(prompt: Prompt) | Answer(answer: Option<string>) | StopAll

  /** Over any run of requests, answers and stops: prompts are resolved in issue order, each at most
      once and by its own resolution; each is resolved, displayed or waiting, by its number alone. */
  method RunPrompts(steps: seq<Step>) returns (p: Prompter)
    ensures fresh(p) && p.Valid()
    ensures p.issued == Asked(steps)
    ensures Prompts(p.resolved) <= Asked(steps)
    ensures forall k :: 0 <= k < |Asked(steps)| ==> HasOnePlace(Asked(steps), p.resolved, p.active, p.queue, k)
    ensures steps != [] && steps[|steps| - 1].StopAll? ==> Prompts(p.resolved) == Asked(steps)
  {
    p := new Prompter();
    var i := 0;
    assert Asked(steps[..0]) == [];
    hide Asked, HasOnePlace;
    while i < |steps|
      invariant 0 <= i <= |steps| && fresh(p) && p.Valid() && p.issued == Asked(steps[..i])
      invariant i > 0 && steps[i - 1].StopAll? ==> Prompts(p.resolved) == p.issued
    {
      OneMoreStep(steps, i);
      match steps[i] {
        case Ask(prompt) => p.Request(prompt);
        case Answer(answer) => p.Resolve(answer);
        case StopAll => p.Stop();
      }
      i := i + 1;
    }
    assert steps[..i] == steps;
    forall k: nat | k < |p.issued| ensures HasOnePlace(p.issued, p.resolved, p.active, p.queue, k) {
      EachPromptHasOnePlace(p.issued, p.resolved, p.active, p.queue, k);
    }
  }

  lemma OneMoreStep(steps: seq<Step>, i: nat)
    requires i < |steps|
    ensures Asked(steps[..i + 1]) == Asked(steps[..i]) + (if steps[i].Ask? then [steps[i].prompt] else [])
  {
    assert steps[..i + 1][..i] == steps[..i];
  }

  function Asked(steps: seq<Step>): seq<Prompt> {
    if steps == [] then []
    else Asked(steps[..|steps| - 1]) + (if steps[|steps| - 1].Ask? then [steps[|steps| - 1].prompt] else [])
  }

  /** Prompt number k is resolved, displayed or waiting, depending on k alone. */
  ghost predicate HasOnePlace(issued: seq<Prompt>, resolved: seq<Resolution>, active: Option<Prompt>,
                              queue: seq<Prompt>, k: int)
    requires 0 <= k < |issued|
  {
    var n := |resolved|;
    if k < n then resolved[k].prompt == issued[k]
    else if k == n then active == Some(issued[k])
    else active.Some? && k - n - 1 < |queue| && queue[k - n - 1] == issued[k]
  }

  lemma EachPromptHasOnePlace(issued: seq<Prompt>, resolved: seq<Resolution>, active: Option<Prompt>,
                              queue: seq<Prompt>, k: nat)
    requires issued == Prompts(resolved) + Front(active) + queue && (queue != [] ==> active.Some?) && k < |issued|
    ensures HasOnePlace(issued, resolved, active, queue, k)
  {
  }
}
