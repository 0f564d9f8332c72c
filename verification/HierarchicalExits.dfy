/** The exit callbacks of the hierarchical runner, which calls the stored ones when
    it pops machines as well as when they step. */
module HierarchicalExits {
  import opened Wrappers
  import opened Machines
  import opened FiniteRunner
  import opened ExitCallbacks
  import opened Hierarchy
  import opened HierarchicalRunner

  /** In every machine the exit callbacks agree along the edges reachable from its start. */
  ghost predicate HierarchyAgrees(n: Nesting)
    requires n.Valid()
  {
    forall m :: m in n.table && n.default[m].Some? ==> WellFormed(n.table[m]) && AllExitsAgree(n.table[m], n.default[m].value)
  }

  /** The machine stands on a state it can reach and stores that state's exit callback. */
  ghost predicate StandsOwn(n: Nesting, at: Standing, m: Machine)
    requires n.Valid() && m in n.table && m in at
  {
    at[m].Some? ==>
      && n.default[m].Some? && OwnExit(n.table[m], at[m].value)
      && Reachable(n.table[m], n.default[m].value, at[m].value.name)
  }

  ghost predicate AllStandOwn(n: Nesting, at: Standing)
    requires IsStanding(n, at)
  {
    forall m :: m in n.table ==> StandsOwn(n, at, m)
  }

  /** The exit callbacks, as documented, of the states the popped machines stand on. */
  ghost function DocumentedExits(n: Nesting, at: Standing, stack: seq<Machine>, keep: nat, event: Event): seq<Call>
    requires forall i :: keep <= i < |stack| ==> stack[i] in n.table && stack[i] in at && at[stack[i]].Some?
    requires forall i :: keep <= i < |stack| ==> at[stack[i]].value.name in n.table[stack[i]].states
    decreases |stack| - keep
  {
    if |stack| <= keep then []
    else
      var state := at[stack[keep]].value.name;
      DocumentedExits(n, at, stack, keep + 1, event) + Invoke(n.table[stack[keep]].states[state].onExit, state, event)
  }

  lemma {:induction false} ExitsDocumented(n: Nesting, at: Standing, stack: seq<Machine>, keep: nat, event: Event)
    requires forall i :: keep <= i < |stack| ==> stack[i] in n.table && stack[i] in at && at[stack[i]].Some?
    requires forall i :: keep <= i < |stack| ==>
               at[stack[i]].value.name in n.table[stack[i]].states && OwnExit(n.table[stack[i]], at[stack[i]].value)
    ensures ExitCalls(at, stack, keep, event) == DocumentedExits(n, at, stack, keep, event)
    decreases |stack| - keep
  {
    if keep < |stack| { ExitsDocumented(n, at, stack, keep + 1, event); }
  }

  /** A step of one machine in such a hierarchy. */
  lemma StepStandsOwn(n: Nesting, at: Standing, m: Machine, event: Event)
    requires IsStanding(n, at) && Sound(n, at) && HierarchyAgrees(n) && m in n.table && StandsOwn(n, at, m)
    ensures var step := StepOf(n, at, m, event);
            step.Success? ==> at[m].Some? && StandsOwn(n, at[m := Some(step.value.jump)], m)
  {
    hide WellFormed, Known, AllExitsAgree, Reachable, Step, OwnExit;
    if at[m].Some? {
      StepOwn(n.table[m], n.default[m].value, at[m].value, event);
    }
  }

  lemma StartStandsOwn(n: Nesting, at: Standing, m: Machine)
    requires IsStanding(n, at) && m in n.table && at[m] == n.Start(m)
    ensures StandsOwn(n, at, m)
  {
    hide Reachable, OwnExit;
    if at[m].Some? { StartOwn(n.table[m], n.default[m].value); }
  }

  lemma InitStandsOwn(n: Nesting, at: Standing, m: Machine)
    requires IsStanding(n, at) && AllStandOwn(n, at) && m in n.table
    ensures AllStandOwn(n, Init(n, at, m).0)
  {
    hide Init, Nesting.Reach, Nesting.Start, Nesting.Valid, OwnExit, Reachable;
    InitMeaning(n, at, m);
    var now := Init(n, at, m).0;
    forall k | k in n.table
      ensures StandsOwn(n, now, k)
    {
      if now[k] == n.Start(k) { StartStandsOwn(n, now, k); } else { assert StandsOwn(n, at, k); }
    }
  }

  /** The calls of a successful step of a machine that stores its state's callback. */
  lemma StepDocumented(n: Nesting, at: Standing, m: Machine, event: Event)
    requires IsStanding(n, at) && m in n.table && StepOf(n, at, m, event).Success?
    requires WellFormed(n.table[m]) && at[m].Some? && OwnExit(n.table[m], at[m].value)
    ensures var move, old_ := StepOf(n, at, m, event).value, at[m].value.name;
            && old_ in n.table[m].states && move.jump.name in n.table[m].states
            && move.calls == Invoke(n.table[m].states[old_].onExit, old_, event)
                           + Invoke(n.table[m].states[move.jump.name].onEnter, move.jump.name, event)
  {
    StepWellFormed(n.table[m], at[m], event);
  }

  /** Dispatch leaves every machine standing on a state whose callback it stores. */
  lemma DispatchStandsOwn(n: Nesting, at: Standing, stack: seq<Machine>, event: Event)
    requires IsStack(n, at, stack) && AreMachines(n, at, stack) && Sound(n, at)
    requires HierarchyAgrees(n) && AllStandOwn(n, at)
    ensures var d := Dispatch(n, at, stack, event);
            IsStanding(n, d.at) && AllStandOwn(n, d.at)
  {
    hide Dispatch, StepOf, Nesting.Valid, Carries, OwnExit, Reachable, HierarchyAgrees, Sound;
    DispatchKeepsStack(n, at, stack, event);
    InnermostFirst(n, at, stack, event);
    var d := Dispatch(n, at, stack, event);
    forall k | k in n.table
      ensures StandsOwn(n, d.at, k)
    {
      assert StandsOwn(n, at, k);
      if i :| |d.stack| - 1 <= i < |stack| && stack[i] == k {
        if i == |d.stack| - 1 { StepStandsOwn(n, at, k, event); }
      } else {
        assert d.at[k] == at[k];
      }
    }
  }

  /** Dispatch calls what is documented, and only that: the exit callbacks of the
      states the popped machines stood on, topmost first, then those of the step. */
  lemma DispatchDocumented(n: Nesting, at: Standing, stack: seq<Machine>, event: Event)
    requires IsStack(n, at, stack) && AreMachines(n, at, stack) && Sound(n, at)
    requires HierarchyAgrees(n) && AllStandOwn(n, at)
    ensures var d := Dispatch(n, at, stack, event);
            var keep, m := |d.stack|, stack[|d.stack| - 1];
            && m in n.table && m in d.at
            && (forall i :: keep <= i < |stack| ==> stack[i] in n.table && stack[i] in at && at[stack[i]].Some?
                                                    && at[stack[i]].value.name in n.table[stack[i]].states)
            && var exits := DocumentedExits(n, at, stack, keep, event);
               if d.result.Failure? then d.calls == exits
               else
                 && at[m].Some? && d.at[m].Some?
                 && var old_, new_ := at[m].value.name, d.at[m].value.name;
                    && old_ in n.table[m].states && new_ in n.table[m].states
                    && d.calls == exits + (Invoke(n.table[m].states[old_].onExit, old_, event)
                                           + Invoke(n.table[m].states[new_].onEnter, new_, event))
  {
    hide Dispatch, StepOf, Nesting.Valid, Carries, Reachable, HierarchyAgrees, WellFormed, ExitCalls, DocumentedExits;
    DispatchCalls(n, at, stack, event);
    var d := Dispatch(n, at, stack, event);
    forall i | |d.stack| <= i < |stack|
      ensures at[stack[i]].value.name in n.table[stack[i]].states && OwnExit(n.table[stack[i]], at[stack[i]].value)
    {
      assert StandsOwn(n, at, stack[i]);
    }
    ExitsDocumented(n, at, stack, |d.stack|, event);
    var m := stack[|d.stack| - 1];
    assert StandsOwn(n, at, m);
    if d.result.Success? { StepDocumented(n, at, m, event); }
  }

  // ---------- Whole runs ----------

  lemma IterateStandsOwn(n: Nesting, at: Standing, stack: seq<Machine>, event: Event)
    requires IsStack(n, at, stack) && Sound(n, at) && HierarchyAgrees(n) && AllStandOwn(n, at)
    ensures var it := Iterate(n, at, stack, event);
            IsStanding(n, it.at) && AllStandOwn(n, it.at)
  {
    hide Sound, Dispatch, Init, Nesting.Valid, Carries, HierarchyAgrees, AllStandOwn;
    DispatchBegins(n, at, stack, event);
    DispatchKeepsStack(n, at, stack, event);
    DispatchStandsOwn(n, at, stack, event);
    var d := Dispatch(n, at, stack, event);
    if d.result.Success? && d.result.value.machine.Some? {
      InitStandsOwn(n, d.at, d.result.value.machine.value);
    }
  }

  /** Wherever a run gets, every machine stores the exit callback of the state it
      stands on; so DispatchDocumented speaks of every dispatch of every run. */
  lemma {:induction false} RunsStandOwn(n: Nesting, at: Standing, stack: seq<Machine>, event: Event, prompts: seq<Prompt>)
    requires IsStack(n, at, stack) && Sound(n, at) && HierarchyAgrees(n) && AllStandOwn(n, at)
    ensures var run := RunStack(n, at, stack, event, prompts);
            IsStanding(n, run.at) && AllStandOwn(n, run.at)
    decreases |prompts|
  {
    hide Sound, Iterate, YieldOf, Nesting.Valid, IsStack, HierarchyAgrees, AllStandOwn;
    IterateKeepsStack(n, at, stack, event);
    IterateSound(n, at, stack, event);
    IterateStandsOwn(n, at, stack, event);
    var it := Iterate(n, at, stack, event);
    if it.result.Success? && prompts != [] {
      var resumed := Resume(Ending(it.result.value, |it.stack|), prompts[0]);
      if resumed.Success? {
        RunsStandOwn(n, it.at, it.stack, resumed.value, prompts[1..]);
      }
    }
  }
}
