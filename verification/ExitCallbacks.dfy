/** The exit callbacks of a run: what is called, and when that is what is documented. */
module ExitCallbacks {
  import opened Wrappers
  import opened Machines
  import opened FiniteRunner

  /** The calls a run really makes: the first leg invokes the exit callback of
      its initial jump, every later leg that of the state left one leg EARLIER,
      because a jump stores its start state's on_exit. */
  ghost predicate CallsAsCoded<M>(t: Table<M>, legs: seq<Leg>, exit: Option<Callback>)
    decreases |legs|
  {
    legs != [] ==>
      && legs[0].old_ in t.states && legs[0].new_ in t.states
      && legs[0].calls == Invoke(exit, legs[0].old_, legs[0].event)
                        + Invoke(t.states[legs[0].new_].onEnter, legs[0].new_, legs[0].event)
      && CallsAsCoded(t, legs[1..], t.states[legs[0].old_].onExit)
  }

  lemma {:induction false} CallbacksAsCoded<M>(t: Table<M>, current: Option<Jump>, event: Event, prompts: seq<Prompt>)
    requires WellFormed(t) && Known(t, current) && current.Some?
    ensures CallsAsCoded(t, RunFrom(t, current, event, prompts).legs, current.value.onExit)
    decreases |prompts|
  {
    if Step(t, current, event).Success? {
      var move := Step(t, current, event).value;
      StepWellFormed(t, current, event);
      if prompts != [] && Resume(move.effect, prompts[0]).Success? {
        CallbacksAsCoded(t, Some(move.jump), Resume(move.effect, prompts[0]).value, prompts[1..]);
      }
    }
  }

  lemma {:induction false} CallsAsCodedAt<M>(t: Table<M>, legs: seq<Leg>, exit: Option<Callback>, k: nat)
    requires CallsAsCoded(t, legs, exit) && k < |legs|
    ensures legs[k].old_ in t.states && legs[k].new_ in t.states && (k > 0 ==> legs[k - 1].old_ in t.states)
    ensures legs[k].calls == Invoke(if k == 0 then exit else t.states[legs[k - 1].old_].onExit, legs[k].old_, legs[k].event)
                           + Invoke(t.states[legs[k].new_].onEnter, legs[k].new_, legs[k].event)
    decreases k
  {
    if k > 0 { CallsAsCodedAt(t, legs[1..], t.states[legs[0].old_].onExit, k - 1); }
  }

  /** The documented calls: leave a state through its OWN on_exit. */
  function DocumentedCalls<M>(t: Table<M>, leg: Leg): seq<Call>
    requires leg.old_ in t.states && leg.new_ in t.states
  {
    Invoke(t.states[leg.old_].onExit, leg.old_, leg.event) + Invoke(t.states[leg.new_].onEnter, leg.new_, leg.event)
  }

  /** Exactly when leg k of a freshly initialised run calls what is documented:
      on the first leg always, later only when the two states left last share
      their exit callback. */
  lemma DocumentedExitIff<M>(t: Table<M>, start: StateName, event: Event, prompts: seq<Prompt>, k: nat)
    requires WellFormed(t) && start in t.states
    requires k < |RunFrom(t, Some(StartJump(t, start)), event, prompts).legs|
    ensures var legs := RunFrom(t, Some(StartJump(t, start)), event, prompts).legs;
            && legs[k].old_ in t.states && legs[k].new_ in t.states
            && (k > 0 ==> legs[k - 1].old_ in t.states)
            && (legs[k].calls == DocumentedCalls(t, legs[k]) <==>
                k == 0 || t.states[legs[k - 1].old_].onExit == t.states[legs[k].old_].onExit)
  {
    CallbacksAsCoded(t, Some(StartJump(t, start)), event, prompts);
    RunsArePaths(t, Some(StartJump(t, start)), event, prompts);
    var legs := RunFrom(t, Some(StartJump(t, start)), event, prompts).legs;
    CallsAsCodedAt(t, legs, t.states[start].onExit, k);
    var coded := if k == 0 then t.states[start].onExit else t.states[legs[k - 1].old_].onExit;
    var enter := Invoke(t.states[legs[k].new_].onEnter, legs[k].new_, legs[k].event);
    InvokeInjective(coded, t.states[legs[k].old_].onExit, legs[k].old_, legs[k].event, enter);
  }

  lemma InvokeInjective(a: Option<Callback>, b: Option<Callback>, s: StateName, e: Event, tail: seq<Call>)
    ensures Invoke(a, s, e) + tail == Invoke(b, s, e) + tail <==> a == b
  {
    if Invoke(a, s, e) + tail == Invoke(b, s, e) + tail {
      assert |Invoke(a, s, e)| == |Invoke(b, s, e)|;
      if a.Some? {
        assert (Invoke(a, s, e) + tail)[0] == Call(a.value, s, e);
        assert (Invoke(b, s, e) + tail)[0] == Call(b.value, s, e);
      }
    }
  }

  /** A two-state table on which the third callback differs from the documented one. */
  lemma DocumentedExitFails()
    ensures exists t: Table<()>, start, event, prompts, k: nat ::
              && WellFormed(t) && start in t.states
              && k < |RunFrom(t, Some(StartJump(t, start)), event, prompts).legs|
              && var legs := RunFrom(t, Some(StartJump(t, start)), event, prompts).legs;
              && legs[k].old_ in t.states && legs[k].new_ in t.states
              && legs[k].calls != DocumentedCalls(t, legs[k])
  {
    var down: StateData<()> := StateData(false, map["fall" := 0], None, Some(1), None);
    var up: StateData<()> := StateData(false, map[], None, Some(2), None);
    var t := Table(["down", "up"], map["down" := down, "up" := up],
                   map["down" := map["jump" := Jump("up", None, Some(1))],
                       "up" := map["fall" := Jump("down", None, Some(2))]]);
    var prompts := [Prompt(Some("fall"), "")];
    var start := StartJump(t, "down");
    var first := Step(t, Some(start), "jump").value;
    var rest := RunFrom(t, Some(first.jump), "fall", prompts[1..]);
    assert rest.legs[0].old_ == "up";
    assert RunFrom(t, Some(start), "jump", prompts).legs[1] == rest.legs[0];
    DocumentedExitIff(t, "down", "jump", prompts, 1);
  }

  // ---------- The condition on the table ----------

  /** Where a word of events leads from s, if every event has an edge. */
  ghost function Along<M>(t: Table<M>, s: StateName, word: seq<Event>): Option<StateName>
    decreases |word|
  {
    if word == [] then Some(s)
    else if s in t.transitions && word[0] in t.transitions[s] then Along(t, t.transitions[s][word[0]].name, word[1..])
    else None
  }

  ghost predicate Reachable<M>(t: Table<M>, start: StateName, s: StateName) {
    exists word :: Along(t, start, word) == Some(s)
  }

  ghost predicate HasEdge<M>(t: Table<M>, s: StateName, event: Event) {
    s in t.transitions && event in t.transitions[s]
  }

  /** Every edge out of a reachable state that a run can go on from leads to a
      state with the same exit callback. */
  ghost predicate ExitsAgree<M>(t: Table<M>, start: StateName)
    requires WellFormed(t)
  {
    forall a, e, f ::
      Reachable(t, start, a) && HasEdge(t, a, e) && HasEdge(t, t.transitions[a][e].name, f)
      ==> t.states[a].onExit == t.states[t.transitions[a][e].name].onExit
  }

  ghost predicate Documented<M>(t: Table<M>, leg: Leg) {
    leg.old_ in t.states && leg.new_ in t.states && leg.calls == DocumentedCalls(t, leg)
  }

  /** Every leg of every run from the start state calls what is documented. */
  ghost predicate AlwaysDocumented<M>(t: Table<M>, start: StateName)
    requires start in t.states
  {
    forall event, prompts ::
      forall leg :: leg in RunFrom(t, Some(StartJump(t, start)), event, prompts).legs ==> Documented(t, leg)
  }

  lemma {:induction false} AlongOneMore<M>(t: Table<M>, s: StateName, word: seq<Event>, event: Event)
    requires Along(t, s, word).Some? && HasEdge(t, Along(t, s, word).value, event)
    ensures Along(t, s, word + [event]) == Some(t.transitions[Along(t, s, word).value][event].name)
    decreases |word|
  {
    var more := word + [event];
    if word == [] {
      assert more[1..] == [];
    } else {
      assert more[1..] == word[1..] + [event];
      AlongOneMore(t, t.transitions[s][word[0]].name, word[1..], event);
    }
  }

  /** The legs of a path leave reachable states through edges, each the target of
      the leg before. */
  lemma {:induction false} PathIsReachable<M>(t: Table<M>, s: StateName, legs: seq<Leg>, k: nat) returns (word: seq<Event>)
    requires IsPath(t, s, legs) && k < |legs|
    ensures Along(t, s, word) == Some(legs[k].old_)
    ensures |word| == k && forall i :: 0 <= i < k ==> word[i] == legs[i].event
    ensures HasEdge(t, legs[k].old_, legs[k].event)
    ensures t.transitions[legs[k].old_][legs[k].event].name == legs[k].new_
    ensures k > 0 ==> legs[k].old_ == legs[k - 1].new_
    decreases k
  {
    if k == 0 {
      word := [];
    } else {
      var rest := PathIsReachable(t, legs[0].new_, legs[1..], k - 1);
      word := [legs[0].event] + rest;
      assert word[1..] == rest;
    }
  }

  function Sent(word: seq<Event>): (prompts: seq<Prompt>)
    ensures |prompts| == |word|
  {
    seq(|word|, i requires 0 <= i < |word| => Prompt(Some(word[i]), ""))
  }

  lemma StepAlong<M>(t: Table<M>, current: Jump, word: seq<Event>)
    requires WellFormed(t) && current.name in t.states && word != [] && Along(t, current.name, word).Some?
    ensures HasEdge(t, current.name, word[0])
    ensures var jump, step := t.transitions[current.name][word[0]], Step(t, Some(current), word[0]);
            && step.Success? && step.value.jump == jump && jump.name in t.states
            && Along(t, jump.name, word[1..]).Some?
            && (|word| > 1 ==> !step.value.effect.terminal)
  {
    ActionableIffProcessed(t, Some(current), word[0]);
    StepWellFormed(t, Some(current), word[0]);
    if |word| > 1 { assert t.transitions[t.transitions[current.name][word[0]].name] != map[]; }
  }

  /** Sending the events of a word makes a run along it. */
  lemma {:induction false} RunAlong<M>(t: Table<M>, current: Jump, word: seq<Event>)
    requires WellFormed(t) && current.name in t.states && word != [] && Along(t, current.name, word).Some?
    ensures var legs := RunFrom(t, Some(current), word[0], Sent(word[1..])).legs;
            |legs| == |word| && forall i :: 0 <= i < |word| ==> legs[i].event == word[i]
    decreases |word|
  {
    hide WellFormed, Step;
    StepAlong(t, current, word);
    if |word| > 1 {
      RunAlong(t, t.transitions[current.name][word[0]], word[1..]);
      assert Sent(word[1..])[1..] == Sent(word[1..][1..]);
    }
  }

  lemma AgreeingLegs<M>(t: Table<M>, start: StateName, event: Event, prompts: seq<Prompt>, leg: Leg)
    requires WellFormed(t) && start in t.states && ExitsAgree(t, start)
    requires leg in RunFrom(t, Some(StartJump(t, start)), event, prompts).legs
    ensures Documented(t, leg)
  {
    hide WellFormed, RunFrom, Along;
    var legs := RunFrom(t, Some(StartJump(t, start)), event, prompts).legs;
    var k :| 0 <= k < |legs| && legs[k] == leg;
    RunsArePaths(t, Some(StartJump(t, start)), event, prompts);
    DocumentedExitIff(t, start, event, prompts, k);
    if k > 0 {
      var before := PathIsReachable(t, start, legs, k - 1);
      var _ := PathIsReachable(t, start, legs, k);
      assert Reachable(t, start, legs[k - 1].old_);
    }
  }

  /** A run that goes through a reachable edge and on. */
  lemma RunThrough<M>(t: Table<M>, start: StateName, a: StateName, e: Event, f: Event)
    returns (event: Event, prompts: seq<Prompt>, k: nat)
    requires WellFormed(t) && start in t.states
    requires Reachable(t, start, a) && HasEdge(t, a, e) && HasEdge(t, t.transitions[a][e].name, f)
    ensures var legs := RunFrom(t, Some(StartJump(t, start)), event, prompts).legs;
            0 < k < |legs| && legs[k - 1].old_ == a && legs[k].old_ == t.transitions[a][e].name
  {
    hide WellFormed, RunFrom, Along;
    var word :| Along(t, start, word) == Some(a);
    AlongOneMore(t, start, word, e);
    AlongOneMore(t, start, word + [e], f);
    var all := word + [e] + [f];
    RunAlong(t, StartJump(t, start), all);
    event, prompts, k := all[0], Sent(all[1..]), |word| + 1;
    var legs := RunFrom(t, Some(StartJump(t, start)), event, prompts).legs;
    RunsArePaths(t, Some(StartJump(t, start)), event, prompts);
    var before := PathIsReachable(t, start, legs, k - 1);
    var _ := PathIsReachable(t, start, legs, k);
    assert before == word;
  }

  lemma DocumentedEdges<M>(t: Table<M>, start: StateName, a: StateName, e: Event, f: Event)
    requires WellFormed(t) && start in t.states && AlwaysDocumented(t, start)
    requires Reachable(t, start, a) && HasEdge(t, a, e) && HasEdge(t, t.transitions[a][e].name, f)
    ensures a in t.states && t.transitions[a][e].name in t.states
    ensures t.states[a].onExit == t.states[t.transitions[a][e].name].onExit
  {
    hide WellFormed, RunFrom, Reachable, HasEdge;
    var event, prompts, k := RunThrough(t, start, a, e, f);
    DocumentedExitIff(t, start, event, prompts, k);
    var legs := RunFrom(t, Some(StartJump(t, start)), event, prompts).legs;
    assert legs[k] in legs;
  }

  /** The documented exit callbacks are called on every leg of every run from the
      start state exactly when the exit callbacks agree along the reachable edges. */
  lemma AlwaysDocumentedIff<M>(t: Table<M>, start: StateName)
    requires WellFormed(t) && start in t.states
    ensures AlwaysDocumented(t, start) <==> ExitsAgree(t, start)
  {
    if ExitsAgree(t, start) {
      forall event, prompts, leg | leg in RunFrom(t, Some(StartJump(t, start)), event, prompts).legs
        ensures Documented(t, leg)
      {
        AgreeingLegs(t, start, event, prompts, leg);
      }
    }
    if AlwaysDocumented(t, start) {
      forall a, e, f | Reachable(t, start, a) && HasEdge(t, a, e) && HasEdge(t, t.transitions[a][e].name, f)
        ensures t.states[a].onExit == t.states[t.transitions[a][e].name].onExit
      {
        DocumentedEdges(t, start, a, e, f);
      }
    }
  }

  // ---------- The stored exit callback ----------

  /** The jump stores the exit callback of the state it leads to. */
  ghost predicate OwnExit<M>(t: Table<M>, jump: Jump) {
    jump.name in t.states && jump.onExit == t.states[jump.name].onExit
  }

  /** Wherever a run from the start state gets, it stores that state's exit callback. */
  ghost predicate AlwaysOwnExit<M>(t: Table<M>, start: StateName)
    requires start in t.states
  {
    forall event, prompts ::
      var run := RunFrom(t, Some(StartJump(t, start)), event, prompts);
      run.current.Some? && OwnExit(t, run.current.value)
  }

  /** Every edge out of a reachable state leads to a state with the same exit callback. */
  ghost predicate AllExitsAgree<M>(t: Table<M>, start: StateName)
    requires WellFormed(t)
  {
    forall a, e :: Reachable(t, start, a) && HasEdge(t, a, e)
      ==> t.states[a].onExit == t.states[t.transitions[a][e].name].onExit
  }

  lemma StartOwn<M>(t: Table<M>, start: StateName)
    requires start in t.states
    ensures OwnExit(t, StartJump(t, start)) && Reachable(t, start, start)
  {
    assert Along(t, start, []) == Some(start);
  }

  /** One step between states that agree. */
  lemma StepOwn<M>(t: Table<M>, start: StateName, current: Jump, event: Event)
    requires WellFormed(t) && OwnExit(t, current) && Reachable(t, start, current.name) && AllExitsAgree(t, start)
    ensures var step := Step(t, Some(current), event);
            step.Success? ==> OwnExit(t, step.value.jump) && Reachable(t, start, step.value.jump.name)
  {
    StepWellFormed(t, Some(current), event);
    if Step(t, Some(current), event).Success? {
      var word :| Along(t, start, word) == Some(current.name);
      hide WellFormed, Along;
      assert HasEdge(t, current.name, event);
      AlongOneMore(t, start, word, event);
    }
  }

  lemma {:induction false} RunOwn<M>(t: Table<M>, start: StateName, current: Jump, event: Event, prompts: seq<Prompt>)
    requires WellFormed(t) && OwnExit(t, current) && Reachable(t, start, current.name) && AllExitsAgree(t, start)
    ensures var run := RunFrom(t, Some(current), event, prompts);
            run.current.Some? && OwnExit(t, run.current.value)
    decreases |prompts|
  {
    hide WellFormed, Step, Reachable, AllExitsAgree, OwnExit;
    StepOwn(t, start, current, event);
    if Step(t, Some(current), event).Success? {
      var move := Step(t, Some(current), event).value;
      if prompts != [] && Resume(move.effect, prompts[0]).Success? {
        RunOwn(t, start, move.jump, Resume(move.effect, prompts[0]).value, prompts[1..]);
      }
    }
  }

  /** A run that ends on the target of a reachable edge. */
  lemma RunTo<M>(t: Table<M>, start: StateName, a: StateName, e: Event) returns (event: Event, prompts: seq<Prompt>)
    requires WellFormed(t) && start in t.states && Reachable(t, start, a) && HasEdge(t, a, e)
    ensures var run := RunFrom(t, Some(StartJump(t, start)), event, prompts);
            run.current == Some(t.transitions[a][e])
  {
    hide WellFormed, RunFrom, Along;
    var word :| Along(t, start, word) == Some(a);
    AlongOneMore(t, start, word, e);
    var all := word + [e];
    RunAlong(t, StartJump(t, start), all);
    event, prompts := all[0], Sent(all[1..]);
    var legs := RunFrom(t, Some(StartJump(t, start)), event, prompts).legs;
    RunsArePaths(t, Some(StartJump(t, start)), event, prompts);
    var before := PathIsReachable(t, start, legs, |word|);
    assert before == word;
    RunEndsOnJump(t, StartJump(t, start), event, prompts);
  }

  /** A run ends on the jump of its last leg's edge. */
  lemma {:induction false} RunEndsOnJump<M>(t: Table<M>, current: Jump, event: Event, prompts: seq<Prompt>)
    ensures var run := RunFrom(t, Some(current), event, prompts);
            run.legs != [] ==>
              var last := run.legs[|run.legs| - 1];
              HasEdge(t, last.old_, last.event) && run.current == Some(t.transitions[last.old_][last.event])
    decreases |prompts|
  {
    if Step(t, Some(current), event).Success? {
      var move := Step(t, Some(current), event).value;
      if prompts != [] && Resume(move.effect, prompts[0]).Success? {
        RunEndsOnJump(t, move.jump, Resume(move.effect, prompts[0]).value, prompts[1..]);
      }
    }
  }

  /** A machine stores the exit callback of the state it stands on wherever it can
      get exactly when the exit callbacks agree along all reachable edges. */
  lemma AlwaysOwnExitIff<M>(t: Table<M>, start: StateName)
    requires WellFormed(t) && start in t.states
    ensures AlwaysOwnExit(t, start) <==> AllExitsAgree(t, start)
  {
    if AllExitsAgree(t, start) {
      StartOwn(t, start);
      forall event, prompts
        ensures var run := RunFrom(t, Some(StartJump(t, start)), event, prompts);
                run.current.Some? && OwnExit(t, run.current.value)
      {
        RunOwn(t, start, StartJump(t, start), event, prompts);
      }
    }
    if AlwaysOwnExit(t, start) {
      forall a, e | Reachable(t, start, a) && HasEdge(t, a, e)
        ensures t.states[a].onExit == t.states[t.transitions[a][e].name].onExit
      {
        var event, prompts := RunTo(t, start, a, e);
        assert JumpMatches(t, a, t.transitions[a][e]);
        assert OwnExit(t, RunFrom(t, Some(StartJump(t, start)), event, prompts).current.value);
      }
    }
  }
}
