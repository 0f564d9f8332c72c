/** FiniteRunner: runs of one machine, driven by events sent at each yield or by
    the events its reactions return. */
module FiniteRunner {
  import opened Wrappers
  import opened Machines

  /** What the outside world supplies when a run is resumed: the event sent into
      the generator, if any, and the event the reaction returns, if it is called. */
  datatype Prompt = Prompt(sent: Option<Event>, reacted: Event)

  datatype Outcome = Finished | Suspended | Raised(error: Error)

  /** One iteration of the loop: the yielded pair, its event and its callbacks. */
  datatype Leg = Leg(old_: StateName, event: Event, new_: StateName, calls: seq<Call>)

  datatype Run = Run(legs: seq<Leg>, current: Option<Jump>, outcome: Outcome)

  /** What happens after a yield: stop, fail, or go on with a next event. */
  function Resume<M>(effect: Effect<M>, prompt: Prompt): Result<Event, Outcome> {
    if effect.terminal then Failure(Finished)
    else if prompt.sent.Some? then Success(prompt.sent.value)
    else if effect.reaction.None? then Failure(Raised(NotFound))
    else Success(prompt.reacted)
  }

  /** The run from the loop head, for as long as there are prompts. */
  function RunFrom<M>(t: Table<M>, current: Option<Jump>, event: Event, prompts: seq<Prompt>): Run
    decreases |prompts|
  {
    match Step(t, current, event)
    case Failure(error) => Run([], current, Raised(error))
    case Success(move) =>
      var leg := Leg(current.value.name, event, move.jump.name, move.calls);
      if prompts == [] then Run([leg], Some(move.jump), Suspended)
      else match Resume(move.effect, prompts[0])
        case Failure(outcome) => Run([leg], Some(move.jump), outcome)
        case Success(next) =>
          var rest := RunFrom(t, Some(move.jump), next, prompts[1..]);
          Run([leg] + rest.legs, rest.current, rest.outcome)
  }

  function Prepend(legs: seq<Leg>, rest: Run): Run {
    Run(legs + rest.legs, rest.current, rest.outcome)
  }

  lemma PrependLeg(legs: seq<Leg>, leg: Leg, rest: Run)
    ensures Prepend(legs, Prepend([leg], rest)) == Prepend(legs + [leg], rest)
    ensures Prepend(legs, Run([], rest.current, rest.outcome)) == Run(legs, rest.current, rest.outcome)
  {
    assert legs + ([leg] + rest.legs) == legs + [leg] + rest.legs;
    assert legs + [] == legs;
  }

  /** FiniteRunner.run_iter, resumed once for every prompt. */
  method RunIter(m: Machine, event: Event, initialize: bool, prompts: seq<Prompt>) returns (legs: seq<Leg>, outcome: Outcome)
    requires m.Valid()
    modifies m`current
    ensures m.Valid()
    ensures initialize && !Startable(m.tables.Contents(), m.defaultStart) ==>
              && legs == [] && m.current == old(m.current)
              && outcome == Raised(StartError(m.tables.Contents(), m.defaultStart))
    ensures initialize ==> Startable(m.tables.Contents(), m.defaultStart) ==>
              Run(legs, m.current, outcome) ==
              RunFrom(m.tables.Contents(), Some(StartJump(m.tables.Contents(), m.defaultStart.value)), event, prompts)
    ensures !initialize ==>
              Run(legs, m.current, outcome) == old(RunFrom(m.tables.Contents(), m.current, event, prompts))
  {
    if initialize {
      var error := m.InitializeSelf(None);
      if error.Some? { return [], Raised(error.value); }
    }
    legs, outcome := Loop(m, event, prompts);
  }

  method Loop(m: Machine, event: Event, prompts: seq<Prompt>) returns (legs: seq<Leg>, outcome: Outcome)
    requires m.Valid()
    modifies m`current
    ensures m.Valid()
    ensures Run(legs, m.current, outcome) == old(RunFrom(m.tables.Contents(), m.current, event, prompts))
  {
    hide WellFormed, Step, Known;
    ghost var t := m.tables.Contents();
    ghost var whole := RunFrom(t, m.current, event, prompts);
    legs := [];
    var next, i := event, 0;
    while true
      invariant m.Valid() && m.tables.Contents() == t && 0 <= i <= |prompts|
      invariant whole == Prepend(legs, RunFrom(t, m.current, next, prompts[i..]))
      decreases |prompts| - i
    {
      var current := m.current;
      var r, calls := m.ProcessEvent(next);
      if r.Failure? { return legs, Raised(r.error); }
      var leg := Leg(current.value.name, next, m.current.value.name, calls);
      if i == |prompts| { return legs + [leg], Suspended; }
      var prompt := prompts[i];
      assert prompt == prompts[i..][0];
      if r.value.terminal { return legs + [leg], Finished; }
      if r.value.reaction.None? && prompt.sent.None? { return legs + [leg], Raised(NotFound); }
      next := if prompt.sent.Some? then prompt.sent.value else prompt.reacted;
      assert prompts[i..][1..] == prompts[i + 1..];
      PrependLeg(legs, leg, RunFrom(t, m.current, next, prompts[i + 1..]));
      legs, i := legs + [leg], i + 1;
    }
  }

  // ---------- Properties of whole runs ----------

  /** The legs are consecutive transitions of the table, starting at s. */
  ghost predicate IsPath<M>(t: Table<M>, s: StateName, legs: seq<Leg>)
    decreases |legs|
  {
    legs != [] ==>
      && legs[0].old_ == s
      && s in t.transitions
      && legs[0].event in t.transitions[s]
      && t.transitions[s][legs[0].event].name == legs[0].new_
      && IsPath(t, legs[0].new_, legs[1..])
  }

  predicate Terminal<M>(t: Table<M>, s: StateName) {
    s in t.states && t.states[s].terminal
  }

  /** The yielded pairs form a path through the transition table in which only
      the last target may be terminal, and the machine ends on the last target. */
  lemma {:induction false} RunsArePaths<M>(t: Table<M>, current: Option<Jump>, event: Event, prompts: seq<Prompt>)
    requires current.Some?
    ensures var run := RunFrom(t, current, event, prompts);
            && IsPath(t, current.value.name, run.legs)
            && (forall i :: 0 <= i < |run.legs| - 1 ==> !Terminal(t, run.legs[i].new_))
            && |run.legs| <= |prompts| + 1
            && run.current.Some?
            && run.current.value.name == if run.legs == [] then current.value.name else run.legs[|run.legs| - 1].new_
    decreases |prompts|
  {
    if Step(t, current, event).Success? {
      var move := Step(t, current, event).value;
      if prompts != [] && Resume(move.effect, prompts[0]).Success? {
        RunsArePaths(t, Some(move.jump), Resume(move.effect, prompts[0]).value, prompts[1..]);
      }
    }
  }

  /** The event that drives the leg after leg k: the one sent, or else the one that
      the reaction of the state just entered returned. */
  ghost predicate DrivenBy<M>(t: Table<M>, leg: Leg, prompt: Prompt, next: Event) {
    match prompt.sent
    case Some(event) => next == event
    case None => next == prompt.reacted && leg.new_ in t.states && leg.event in t.states[leg.new_].reactions
  }

  /** No event drives a next leg: none was sent and the state entered has no
      reaction, or it has no edge for the event. */
  ghost predicate StuckAfter<M>(t: Table<M>, leg: Leg, prompt: Prompt) {
    leg.new_ in t.states && leg.new_ in t.transitions
    && match prompt.sent
       case Some(event) => event !in t.transitions[leg.new_]
       case None => leg.event in t.states[leg.new_].reactions ==> prompt.reacted !in t.transitions[leg.new_]
  }

  /** What drives a run, and why it stops: it finishes exactly when it is resumed on
      a terminal state, and fails only when nothing drives a next leg. */
  lemma {:induction false} RunsFollowPrompts<M>(t: Table<M>, current: Option<Jump>, event: Event, prompts: seq<Prompt>)
    requires WellFormed(t) && Known(t, current) && current.Some? && !Terminal(t, current.value.name)
    ensures var run := RunFrom(t, current, event, prompts);
            && (run.legs == [] <==> event !in t.transitions[current.value.name])
            && (run.legs == [] ==> run.outcome == Raised(NotFound))
            && (run.legs != [] ==> run.legs[0].event == event)
            && |run.legs| <= |prompts| + 1
            && (forall k :: 0 <= k < |run.legs| - 1 ==> DrivenBy(t, run.legs[k], prompts[k], run.legs[k + 1].event))
            && (run.legs != [] && |run.legs| <= |prompts| ==>
                  var last := run.legs[|run.legs| - 1];
                  if Terminal(t, last.new_) then run.outcome == Finished
                  else run.outcome == Raised(NotFound) && StuckAfter(t, last, prompts[|run.legs| - 1]))
            && (|run.legs| == |prompts| + 1 ==> run.outcome == Suspended)
    decreases |prompts|
  {
    hide WellFormed;
    RunsArePaths(t, current, event, prompts);
    ActionableIffProcessed(t, current, event);
    if Step(t, current, event).Success? {
      var move := Step(t, current, event).value;
      TransitionsOfStates(t);
      if prompts != [] && Resume(move.effect, prompts[0]).Success? {
        var next := Resume(move.effect, prompts[0]).value;
        RunsArePaths(t, Some(move.jump), next, prompts[1..]);
        RunsFollowPrompts(t, Some(move.jump), next, prompts[1..]);
      }
    }
  }

  /** A run that starts on a non-terminal state ends normally only on a terminal
      state, and can fail only with NotFound: a missing transition, or a new
      state with neither a reaction nor a sent event. */
  lemma {:induction false} RunsEndOnTerminalStates<M>(t: Table<M>, current: Option<Jump>, event: Event, prompts: seq<Prompt>)
    requires WellFormed(t) && Known(t, current) && current.Some? && !Terminal(t, current.value.name)
    ensures var run := RunFrom(t, current, event, prompts);
            && run.outcome in {Finished, Suspended, Raised(NotFound)}
            && run.current.Some?
            && (run.outcome == Finished ==> Terminal(t, run.current.value.name))
            && (run.outcome == Suspended <==> |run.legs| == |prompts| + 1)
    decreases |prompts|
  {
    StepWellFormed(t, current, event);
    if Step(t, current, event).Success? {
      var move := Step(t, current, event).value;
      if prompts != [] && Resume(move.effect, prompts[0]).Success? {
        RunsEndOnTerminalStates(t, Some(move.jump), Resume(move.effect, prompts[0]).value, prompts[1..]);
      }
    }
  }
}
