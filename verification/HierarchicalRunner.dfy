/** HierarchicalRunner: a stack of machines, dispatched innermost-first. */
module HierarchicalRunner {
  import opened Wrappers
  import opened Sequences
  import opened Machines
  import opened FiniteRunner
  import opened Hierarchy

  // ---------- The stack invariant ----------

  /** k is the machine attached to the current state of m. */
  ghost predicate Carries(n: Nesting, at: Standing, m: Machine, k: Machine)
    requires IsStanding(n, at) && m in n.table
  {
    at[m].Some? && at[m].value.name in n.table[m].states && n.table[m].states[at[m].value.name].machine == Some(k)
  }

  /** Every machine above another is the one attached to the current state of the
      machine beneath it, and all but perhaps the bottom one are initialised. */
  ghost predicate IsStack(n: Nesting, at: Standing, stack: seq<Machine>) {
    && IsStanding(n, at) && stack != []
    && (forall i :: 0 <= i < |stack| ==> stack[i] in n.table)
    && (forall i :: 0 < i < |stack| ==> at[stack[i]].Some? && Carries(n, at, stack[i - 1], stack[i]))
  }

  function Top(stack: seq<Machine>): Machine
    requires stack != []
  {
    stack[|stack| - 1]
  }

  function Beneath(stack: seq<Machine>): seq<Machine>
    requires stack != []
  {
    stack[..|stack| - 1]
  }

  /** Ranks fall along the stack, so no machine is on it twice. */
  lemma {:induction false} StackFalls(n: Nesting, at: Standing, stack: seq<Machine>)
    requires IsStack(n, at, stack)
    ensures forall m :: m in Beneath(stack) ==> m in n.rank && n.rank[Top(stack)] < n.rank[m]
    ensures Top(stack) in n.rank && Top(stack) !in Beneath(stack)
    decreases |stack|
  {
    if |stack| > 1 {
      var below := Beneath(stack);
      assert IsStack(n, at, below);
      StackFalls(n, at, below);
      assert Carries(n, at, Top(below), Top(stack));
      forall m | m in below
        ensures m in n.rank && n.rank[Top(stack)] < n.rank[m]
      {
        assert below == Beneath(below) + [Top(below)];
      }
    }
  }

  /** Heights fall along the stack too, so its depth is at most the height of its
      bottom machine plus one. */
  lemma {:induction false} StackDepth(n: Nesting, at: Standing, stack: seq<Machine>)
    requires IsStack(n, at, stack)
    ensures n.Valid() && stack[0] in n.table && Top(stack) in n.table
    ensures |stack| + n.Height(Top(stack)) <= n.Height(stack[0]) + 1 && |stack| <= n.Height(stack[0]) + 1
    decreases |stack|
  {
    hide Nesting.Height;
    if |stack| > 1 {
      var below := Beneath(stack);
      assert IsStack(n, at, below);
      StackDepth(n, at, below);
      assert Carries(n, at, Top(below), Top(stack));
      HeightMeaning(n, Top(below));
      assert Top(stack) in n.Nests(Top(below));
    }
  }

  lemma {:induction false} StackDistinct(n: Nesting, at: Standing, stack: seq<Machine>)
    requires IsStack(n, at, stack)
    ensures forall i, j :: 0 <= i < j < |stack| ==> stack[i] != stack[j]
    decreases |stack|
  {
    StackFalls(n, at, stack);
    if |stack| > 1 {
      var below := Beneath(stack);
      assert IsStack(n, at, below);
      StackDistinct(n, at, below);
      forall i, j | 0 <= i < j < |stack|
        ensures stack[i] != stack[j]
      {
        if j == |stack| - 1 { assert below[i] == stack[i]; } else { assert below[i] == stack[i] && below[j] == stack[j]; }
      }
    }
  }

  /** The invariant reads only where the machines of the stack stand. */
  lemma StackFrame(n: Nesting, at: Standing, now: Standing, stack: seq<Machine>)
    requires IsStack(n, at, stack) && IsStanding(n, now)
    requires forall m :: m in stack ==> now[m] == at[m]
    ensures IsStack(n, now, stack)
  {
    forall i | 0 < i < |stack|
      ensures now[stack[i]].Some? && Carries(n, now, stack[i - 1], stack[i])
    {
      assert Carries(n, at, stack[i - 1], stack[i]);
    }
  }

  lemma StackBelow(n: Nesting, at: Standing, stack: seq<Machine>, jump: Option<Jump>)
    requires IsStack(n, at, stack)
    ensures IsStanding(n, at[Top(stack) := jump])
    ensures |stack| > 1 ==> IsStack(n, at[Top(stack) := jump], Beneath(stack))
    ensures |stack| == 1 || jump.Some? ==> IsStack(n, at[Top(stack) := jump], stack)
  {
    StackFalls(n, at, stack);
    var now := at[Top(stack) := jump];
    assert IsStanding(n, now);
    if |stack| > 1 {
      assert IsStack(n, at, Beneath(stack));
      StackFrame(n, at, now, Beneath(stack));
      assert Carries(n, at, stack[|stack| - 2], stack[|stack| - 1]);
    }
  }

  // ---------- HierarchicalRunner._process_event ----------

  /** What process_event does on one machine of the hierarchy. */
  ghost function StepOf(n: Nesting, at: Standing, m: Machine, event: Event): (r: Result<Move<Machine>, Error>)
    requires IsStanding(n, at) && m in n.table
    ensures r == Failure(NotInitialized) <==> at[m].None?
    ensures r.Failure? ==> r.error in {NotInitialized, InvalidState, NotFound, KeyError}
  {
    Step(n.table[m], at[m], event)
  }

  /** The machine raises one of the exceptions the runner catches, InvalidState and NotFound. */
  ghost predicate PassesOn(n: Nesting, at: Standing, m: Machine, event: Event)
    requires IsStanding(n, at) && m in n.table
  {
    var step := StepOf(n, at, m, event);
    step.Failure? && step.error in {InvalidState, NotFound}
  }

  ghost predicate AreMachines(n: Nesting, at: Standing, stack: seq<Machine>) {
    IsStanding(n, at) && stack != [] && forall m :: m in stack ==> m in n.table
  }

  /** How many machines stay on the stack. */
  ghost function Keep(n: Nesting, at: Standing, stack: seq<Machine>, event: Event): (keep: nat)
    requires AreMachines(n, at, stack)
    ensures 1 <= keep <= |stack|
    decreases |stack|
  {
    hide PassesOn, IsStanding;
    if |stack| == 1 || !PassesOn(n, at, Top(stack), event) then |stack|
    else Keep(n, at, Beneath(stack), event)
  }

  /** Those up to the innermost one that acts, or the bottom one when all refuse. */
  lemma {:induction false} KeepIsInnermost(n: Nesting, at: Standing, stack: seq<Machine>, event: Event)
    requires AreMachines(n, at, stack)
    ensures var keep := Keep(n, at, stack, event);
            && (keep == 1 || !PassesOn(n, at, stack[keep - 1], event))
            && (forall i :: keep <= i < |stack| ==> PassesOn(n, at, stack[i], event))
    decreases |stack|
  {
    hide PassesOn, IsStanding;
    if |stack| > 1 && PassesOn(n, at, Top(stack), event) {
      KeepIsInnermost(n, at, Beneath(stack), event);
    }
  }

  /** The exit callbacks of the machines above the first keep, topmost first. */
  ghost function ExitCalls(at: Standing, stack: seq<Machine>, keep: nat, event: Event): seq<Call>
    requires forall i :: keep <= i < |stack| ==> stack[i] in at && at[stack[i]].Some?
    decreases |stack| - keep
  {
    if |stack| <= keep then []
    else
      var top := at[stack[keep]].value;
      ExitCalls(at, stack, keep + 1, event) + Invoke(top.onExit, top.name, event)
  }

  /** The machines above the first keep are uninitialised, the others where they were. */
  ghost function Popped(n: Nesting, at: Standing, stack: seq<Machine>, keep: nat): (now: Standing)
    requires IsStanding(n, at) && keep <= |stack|
    ensures IsStanding(n, now)
  {
    map m | m in n.table :: if m in stack[keep..] then None else at[m]
  }

  datatype Dispatched = Dispatched(stack: seq<Machine>, at: Standing, result: Result<Effect<Machine>, Error>,
                                   calls: seq<Call>)

  /** Innermost-first dispatch: the machines above the handler are exited top-down
      and left uninitialised, the handler steps, nothing else moves. */
  ghost function Dispatch(n: Nesting, at: Standing, stack: seq<Machine>, event: Event): (d: Dispatched)
    requires AreMachines(n, at, stack)
    ensures 1 <= |d.stack| <= |stack| && d.stack == stack[..|d.stack|]
  {
    hide StepOf;
    KeepIsInnermost(n, at, stack, event);
    var keep := Keep(n, at, stack, event);
    var handler := stack[keep - 1];
    var popped := Popped(n, at, stack, keep);
    var exits := ExitCalls(at, stack, keep, event);
    match StepOf(n, at, handler, event)
    case Success(move) =>
      Dispatched(stack[..keep], popped[handler := Some(move.jump)], Success(move.effect), exits + move.calls)
    case Failure(error) => Dispatched(stack[..keep], popped, Failure(error), exits)
  }

  /** The standing after a step of one machine. */
  ghost function Stepped(n: Nesting, at: Standing, m: Machine, event: Event): (now: Standing)
    requires IsStanding(n, at) && m in n.table
    ensures IsStanding(n, now)
  {
    match StepOf(n, at, m, event)
    case Success(move) => at[m := Some(move.jump)]
    case Failure(_) => at
  }

  method StepMachine(m: Machine, event: Event, ghost n: Nesting, ghost at: Standing)
    returns (r: Result<Effect<Machine>, Error>, calls: seq<Call>)
    requires Describes(n) && Stands(n, at) && m in n.table
    modifies m`current
    ensures Stands(n, Stepped(n, at, m, event)) && m.current == Stepped(n, at, m, event)[m]
    ensures match StepOf(n, at, m, event)
            case Success(move) => r == Success(move.effect) && calls == move.calls
            case Failure(error) => r == Failure(error) && calls == []
  {
    hide WellFormed, Machine.Valid, Nesting.Valid, Describes, Known, Step;
    AsDescribed(m, n, at);
    r, calls := m.ProcessEvent(event);
  }

  /** One round of the loop: the top of what is left refused and is popped. */
  lemma PopOne(n: Nesting, at: Standing, stack: seq<Machine>, k: nat, event: Event)
    requires IsStack(n, at, stack) && 1 <= k <= |stack|
    ensures var m := stack[k - 1];
            && m in n.table && m in at
            && Popped(n, at, stack, k)[m] == at[m]
            && StepOf(n, Popped(n, at, stack, k), m, event) == StepOf(n, at, m, event)
            && Popped(n, at, stack, k)[m := None] == Popped(n, at, stack, k - 1)
            && AreMachines(n, at, stack[..k])
            && Keep(n, at, stack[..k], event) ==
                 if k == 1 || !PassesOn(n, at, m, event) then k else Keep(n, at, stack[..k - 1], event)
  {
    hide StepOf, PassesOn;
    StackDistinct(n, at, stack);
    assert Beneath(stack[..k]) == stack[..k - 1];
    assert Top(stack[..k]) == stack[k - 1];
    StepReads(n, at, Popped(n, at, stack, k), stack[k - 1], event);
  }

  lemma StepReads(n: Nesting, at: Standing, now: Standing, m: Machine, event: Event)
    requires IsStanding(n, at) && IsStanding(n, now) && m in n.table && at[m] == now[m]
    ensures StepOf(n, now, m, event) == StepOf(n, at, m, event)
  {
    hide Step;
  }

  method Uninitialise(m: Machine, ghost n: Nesting, ghost at: Standing)
    requires Stands(n, at) && m in n.table
    modifies m`current
    ensures IsStanding(n, at[m := None]) && Stands(n, at[m := None])
  {
    hide WellFormed, Nesting.Valid;
    m.current := None;
  }

  lemma DispatchBegins(n: Nesting, at: Standing, stack: seq<Machine>, event: Event)
    requires IsStack(n, at, stack)
    ensures |stack| >= 1 && AreMachines(n, at, stack) && IsStanding(n, at) && Popped(n, at, stack, |stack|) == at
    ensures forall i :: 0 < i < |stack| ==> stack[i] in at && at[stack[i]].Some?
    ensures ExitCalls(at, stack, |stack|, event) == []
  {
  }

  /** A machine that passes on is popped; one that does not ends the dispatch. */
  lemma DispatchRound(n: Nesting, at: Standing, stack: seq<Machine>, k: nat, event: Event)
    requires IsStack(n, at, stack) && 1 <= k <= |stack| && AreMachines(n, at, stack)
    requires Keep(n, at, stack, event) <= k
    ensures forall i :: k <= i < |stack| ==> stack[i] in at && at[stack[i]].Some?
    ensures var m, popped := stack[k - 1], Popped(n, at, stack, k);
            && m in n.table && m in at && IsStanding(n, popped) && IsStanding(n, at)
            && StepOf(n, popped, m, event) == StepOf(n, at, m, event)
            && if k == 1 || !PassesOn(n, at, m, event) then
                 var d := Dispatch(n, at, stack, event);
                 && d.stack == stack[..k] && d.at == Stepped(n, popped, m, event)
                 && match StepOf(n, at, m, event)
                    case Success(move) => d.result == Success(move.effect) && d.calls == ExitCalls(at, stack, k, event) + move.calls
                    case Failure(error) => d.result == Failure(error) && d.calls == ExitCalls(at, stack, k, event)
               else
                 && Keep(n, at, stack, event) <= k - 1 && at[m].Some?
                 && Stepped(n, popped, m, event) == popped && popped[m] == at[m]
                 && popped[m := None] == Popped(n, at, stack, k - 1)
                 && ExitCalls(at, stack, k - 1, event)
                    == ExitCalls(at, stack, k, event) + Invoke(at[m].value.onExit, at[m].value.name, event)
  {
    hide StepOf, Nesting.Valid, IsStack, Carries, Keep, AreMachines;
    DispatchBegins(n, at, stack, event);
    PopOne(n, at, stack, k, event);
    KeepIsInnermost(n, at, stack, event);
  }

  /** HierarchicalRunner._process_event. */
  method ProcessEvent(machines: seq<Machine>, event: Event, ghost n: Nesting, ghost at: Standing)
    returns (rest: seq<Machine>, r: Result<Effect<Machine>, Error>, calls: seq<Call>)
    requires Describes(n) && Stands(n, at) && IsStack(n, at, machines)
    modifies n.table.Keys`current
    ensures Describes(n) && AreMachines(n, at, machines)
    ensures var d := Dispatch(n, at, machines, event);
            rest == d.stack && r == d.result && calls == d.calls && IsStanding(n, d.at) && Stands(n, d.at)
  {
    hide WellFormed, Known, Nesting.Valid, StepOf, Stepped, Keep, Dispatch, Popped, ExitCalls, Stands, Describes,
         IsStanding, IsStack, AreMachines, Machine.Valid;
    DispatchBegins(n, at, machines, event);
    rest, calls := machines, [];
    ghost var now := at;
    while true
      invariant 1 <= |rest| <= |machines| && rest == machines[..|rest|]
      invariant Keep(n, at, machines, event) <= |rest|
      invariant forall i :: |rest| <= i < |machines| ==> machines[i] in at && at[machines[i]].Some?
      invariant now == Popped(n, at, machines, |rest|) && IsStanding(n, now) && Stands(n, now) && Describes(n)
      invariant calls == ExitCalls(at, machines, |rest|, event)
      decreases |rest|
    {
      DispatchRound(n, at, machines, |rest|, event);
      var machine := rest[|rest| - 1];
      var more;
      r, more := StepMachine(machine, event, n, now);
      calls := calls + more;
      if r.Success? || r.error !in {InvalidState, NotFound} || |rest| == 1 { return; }
      var current := machine.current;
      if current.Some? && current.value.onExit.Some? {
        calls := calls + [Call(current.value.onExit.value, current.value.name, event)];
      }
      Uninitialise(machine, n, now);
      now := now[machine := None];
      rest := rest[..|rest| - 1];
    }
  }

  /** The event goes to the innermost machine that does not refuse it. Everything
      above that machine had refused and is left uninitialised, everything beneath
      it and off the stack is untouched, and its own step is all that happened to
      it. When an initialised stack fails, but for a failed lookup, all of it had
      refused and only the unchanged bottom machine is left. */
  lemma InnermostFirst(n: Nesting, at: Standing, stack: seq<Machine>, event: Event)
    requires IsStack(n, at, stack) && AreMachines(n, at, stack)
    ensures var d := Dispatch(n, at, stack, event);
            var handler := stack[|d.stack| - 1];
            && d.at.Keys == at.Keys
            && (forall i :: |d.stack| <= i < |stack| ==> PassesOn(n, at, stack[i], event) && d.at[stack[i]] == None)
            && (forall k :: k in n.table && (forall i :: |d.stack| - 1 <= i < |stack| ==> stack[i] != k) ==> d.at[k] == at[k])
            && d.at[handler] == Stepped(n, at, handler, event)[handler]
            && (|d.stack| == 1 || !PassesOn(n, at, handler, event))
            && (d.result.Success? <==> StepOf(n, at, handler, event).Success?)
            && (d.result.Failure? && d.result.error != KeyError && at[stack[0]].Some? ==>
                  |d.stack| == 1 && PassesOn(n, at, stack[0], event) && d.result.error in {NotFound, InvalidState})
  {
    hide StepOf, Nesting.Valid, IsStack, Carries, Keep, ExitCalls, PassesOn;
    KeepIsInnermost(n, at, stack, event);
    StackDistinct(n, at, stack);
    DispatchOutcome(n, at, stack, event);
  }

  lemma DispatchOutcome(n: Nesting, at: Standing, stack: seq<Machine>, event: Event)
    requires IsStack(n, at, stack) && AreMachines(n, at, stack)
    ensures var d := Dispatch(n, at, stack, event);
            d.result.Failure? && d.result.error != KeyError && at[stack[0]].Some? ==>
              |d.stack| == 1 && PassesOn(n, at, stack[0], event) && d.result.error in {NotFound, InvalidState}
  {
    hide StepOf, Nesting.Valid, Keep, ExitCalls, Popped;
    KeepIsInnermost(n, at, stack, event);
  }

  /** Which machines pass an event on: those that stand on a state without a
      transition for it, a terminal state among them. */
  lemma PassesOnIff(n: Nesting, at: Standing, m: Machine, event: Event)
    requires IsStanding(n, at) && Sound(n, at) && m in n.table
    ensures PassesOn(n, at, m, event) <==> at[m].Some? && !Actionable(n.table[m], at[m], event)
    ensures StepOf(n, at, m, event).Success? <==> Actionable(n.table[m], at[m], event)
  {
    hide Lists, JumpMatches;
    ActionableIffProcessed(n.table[m], at[m], event);
  }

  // ---------- One round of run_iter ----------

  /** What a successful step says about the table. */
  lemma StepLands(n: Nesting, at: Standing, m: Machine, event: Event)
    requires IsStanding(n, at) && m in n.table && StepOf(n, at, m, event).Success?
    ensures var move := StepOf(n, at, m, event).value;
            && at[m].Some? && move.jump.name in n.table[m].states
            && var data := n.table[m].states[move.jump.name];
            && move.effect.machine == data.machine && move.effect.terminal == data.terminal
            && (data.machine.Some? ==> data.machine.value in n.table && m in n.rank && data.machine.value in n.rank
                                       && n.rank[data.machine.value] < n.rank[m])
  {
  }

  /** Dispatch keeps the stack invariant and leaves the handler on top. */
  lemma DispatchKeepsStack(n: Nesting, at: Standing, stack: seq<Machine>, event: Event)
    requires IsStack(n, at, stack) && AreMachines(n, at, stack)
    ensures var d := Dispatch(n, at, stack, event);
            && IsStack(n, d.at, d.stack)
            && (d.result.Success? ==> d.at[Top(d.stack)].Some? && d.at[stack[0]].Some?)
            && (at[stack[0]].Some? ==> d.at[stack[0]].Some?)
            && (d.result.Success? ==>
                  && d.at[Top(d.stack)].value.name in n.table[Top(d.stack)].states
                  && var here := n.table[Top(d.stack)].states[d.at[Top(d.stack)].value.name];
                  && d.result.value.terminal == here.terminal && d.result.value.machine == here.machine
                  && (here.machine.Some? ==> here.machine.value in n.rank && here.machine.value in n.table
                                             && Top(d.stack) in n.rank
                                             && n.rank[here.machine.value] < n.rank[Top(d.stack)]))
  {
    hide StepOf, Nesting.Valid, Keep, ExitCalls, PassesOn;
    var keep := Keep(n, at, stack, event);
    var popped := Popped(n, at, stack, keep);
    var kept := stack[..keep];
    StackDistinct(n, at, stack);
    assert IsStack(n, at, kept);
    StackFrame(n, at, popped, kept);
    PopOne(n, at, stack, keep, event);
    if StepOf(n, at, Top(kept), event).Success? {
      StepLands(n, at, Top(kept), event);
      StackBelow(n, popped, kept, Some(StepOf(n, at, Top(kept), event).value.jump));
      if keep > 1 { assert Carries(n, at, stack[0], stack[1]); }
    }
  }

  /** One iteration up to the yield: dispatch, then push the machine nested in the
      state just entered, if there is one, freshly initialised. */
  ghost function Iterate(n: Nesting, at: Standing, stack: seq<Machine>, event: Event): Dispatched
    requires IsStack(n, at, stack)
  {
    hide StepOf, Dispatch, Init;
    DispatchBegins(n, at, stack, event);
    DispatchKeepsStack(n, at, stack, event);
    var d := Dispatch(n, at, stack, event);
    if d.result.Failure? || d.result.value.machine.None? then d
    else
      var machine := d.result.value.machine.value;
      var (now, error) := Init(n, d.at, machine);
      if error.Some? then Dispatched(d.stack, now, Failure(error.value), d.calls)
      else Dispatched(d.stack + [machine], now, d.result, d.calls)
  }

  /** Initialising the machine attached to the top's current state touches nothing
      on the stack, so the machine can be pushed. */
  lemma PushKeepsStack(n: Nesting, at: Standing, stack: seq<Machine>, k: Machine)
    requires IsStack(n, at, stack) && k in n.table && Carries(n, at, Top(stack), k)
    requires k in n.rank && Top(stack) in n.rank && n.rank[k] < n.rank[Top(stack)]
    ensures var (now, error) := Init(n, at, k);
            && IsStack(n, now, stack) && now[stack[0]] == at[stack[0]] && now[Top(stack)] == at[Top(stack)]
            && (error.None? ==> IsStack(n, now, stack + [k]) && now[k] == n.Start(k) && now[k].Some?)
  {
    hide Init, Nesting.Reach, Nesting.Start, Nesting.Valid;
    var (now, error) := Init(n, at, k);
    InitMeaning(n, at, k);
    StackFalls(n, at, stack);
    forall m | m in stack
      ensures now[m] == at[m]
    {
      assert m in Beneath(stack) || m == Top(stack);
    }
    StackFrame(n, at, now, stack);
  }

  /** The stack invariant survives every iteration, failed ones included; on
      success the bottom machine stands on a state, and when it is alone on the
      stack the effect is its own. */
  lemma IterateKeepsStack(n: Nesting, at: Standing, stack: seq<Machine>, event: Event)
    requires IsStack(n, at, stack)
    ensures var it := Iterate(n, at, stack, event);
            && IsStack(n, it.at, it.stack) && it.stack[0] == stack[0]
            && (at[stack[0]].Some? || it.result.Success? ==> it.at[stack[0]].Some?)
            && (it.result.Success? && |it.stack| == 1 ==>
                  it.result.value.terminal == Terminal(n.table[stack[0]], it.at[stack[0]].value.name))
            && (it.result.Failure? && at[stack[0]].Some? ==> it.result.error in {NotFound, InvalidState, KeyError})
  {
    hide StepOf, Init, Nesting.Reach, Nesting.Start, Nesting.Valid, Dispatch;
    DispatchBegins(n, at, stack, event);
    DispatchKeepsStack(n, at, stack, event);
    InnermostFirst(n, at, stack, event);
    var d := Dispatch(n, at, stack, event);
    if d.result.Success? && d.result.value.machine.Some? {
      PushKeepsStack(n, d.at, d.stack, d.result.value.machine.value);
    }
  }

  /** FiniteMachine.current_state. */
  function CurrentState(current: Option<Jump>): Option<StateName> {
    match current
    case None => None
    case Some(jump) => Some(jump.name)
  }

  datatype Yield = Yield(old_: Option<StateName>, new_: Option<StateName>, event: Event, calls: seq<Call>)

  /** The pair yielded by an iteration: the state of the innermost machine before
      it, and the new state of the machine that handled the event. */
  ghost function YieldOf(n: Nesting, at: Standing, stack: seq<Machine>, event: Event): Yield
    requires IsStack(n, at, stack)
  {
    hide Nesting.Valid;
    DispatchBegins(n, at, stack, event);
    DispatchKeepsStack(n, at, stack, event);
    var d := Dispatch(n, at, stack, event);
    Yield(CurrentState(at[Top(stack)]), CurrentState(d.at[Top(d.stack)]), event, d.calls)
  }

  lemma YieldMeaning(n: Nesting, at: Standing, stack: seq<Machine>, event: Event)
    requires IsStack(n, at, stack) && AreMachines(n, at, stack)
    ensures var d := Dispatch(n, at, stack, event);
            && stack[|stack| - 1] in at && stack[|d.stack| - 1] in d.at
            && YieldOf(n, at, stack, event)
               == Yield(CurrentState(at[stack[|stack| - 1]]), CurrentState(d.at[stack[|d.stack| - 1]]), event, d.calls)
  {
    hide Dispatch, Nesting.Valid;
    DispatchKeepsStack(n, at, stack, event);
  }

  /** What a successful iteration does. Of the machines on the stack the innermost
      one that does not pass the event on steps, and the machines above it are off
      the stack. If the state it enters has a nested machine, that machine is on top
      now and stands on its start state; otherwise the one that stepped is. The pair
      yielded is the state of what was the innermost machine, and the state entered. */
  lemma IterateEnters(n: Nesting, at: Standing, stack: seq<Machine>, event: Event) returns (j: nat)
    requires IsStack(n, at, stack)
    ensures var it := Iterate(n, at, stack, event);
            j < |stack| && (it.result.Success? ==>
              var m := stack[j];
              && m in n.table && m in at && m in it.at
              && (forall i :: j < i < |stack| ==> stack[i] in n.table && PassesOn(n, at, stack[i], event))
              && (forall i :: j < i < |stack| ==> stack[i] in at && at[stack[i]].Some?)
              && var step := Step(n.table[m], at[m], event);
                 && step.Success? && it.at[m] == Some(step.value.jump) && step.value.jump.name in n.table[m].states
                 && it.result.value == step.value.effect
                 && YieldOf(n, at, stack, event).old_ == CurrentState(at[stack[|stack| - 1]])
                 && YieldOf(n, at, stack, event).new_ == Some(step.value.jump.name)
                 && YieldOf(n, at, stack, event).event == event
                 && YieldOf(n, at, stack, event).calls == ExitCalls(at, stack, j + 1, event) + step.value.calls
                 && match n.table[m].states[step.value.jump.name].machine
                    case None => it.stack == stack[..j + 1]
                    case Some(k) =>
                      it.stack == stack[..j + 1] + [k] && k in n.table && k in it.at && it.at[k] == n.Start(k) && it.at[k].Some?)
  {
    hide Dispatch, Init, Nesting.Valid, Nesting.Start, PassesOn, Step, YieldOf, ExitCalls;
    DispatchBegins(n, at, stack, event);
    DispatchKeepsStack(n, at, stack, event);
    InnermostFirst(n, at, stack, event);
    DispatchCalls(n, at, stack, event);
    YieldMeaning(n, at, stack, event);
    var d := Dispatch(n, at, stack, event);
    j := |d.stack| - 1;
    if d.result.Success? {
      StepLands(n, at, stack[j], event);
      if d.result.value.machine.Some? {
        PushKeepsStack(n, d.at, d.stack, d.result.value.machine.value);
      }
    }
  }

  /** The calls and the effect of a dispatch, and where it leaves the handler. */
  lemma DispatchCalls(n: Nesting, at: Standing, stack: seq<Machine>, event: Event)
    requires IsStack(n, at, stack) && AreMachines(n, at, stack)
    ensures var d := Dispatch(n, at, stack, event);
            var keep, m := |d.stack|, stack[|d.stack| - 1];
            && m in n.table && m in d.at
            && (forall i :: keep <= i < |stack| ==> stack[i] in n.table && stack[i] in at && at[stack[i]].Some?)
            && match StepOf(n, at, m, event)
               case Success(move) =>
                 && d.result == Success(move.effect) && d.at[m] == Some(move.jump)
                 && d.calls == ExitCalls(at, stack, keep, event) + move.calls
               case Failure(_) => d.result.Failure? && d.calls == ExitCalls(at, stack, keep, event)
  {
    hide StepOf, Nesting.Valid, Carries, ExitCalls;
    KeepIsInnermost(n, at, stack, event);
  }

  /** Why an iteration fails. The machine that did not pass on, or the bottom one when
      all the others did, raised the error itself; or it stepped to a state whose
      nested machine, or one nested in that, cannot start, and the error is that of
      such a machine; InitIsPreorder says which. */
  lemma IterateFails(n: Nesting, at: Standing, stack: seq<Machine>, event: Event) returns (j: nat)
    requires IsStack(n, at, stack)
    ensures var it := Iterate(n, at, stack, event);
            j < |stack| && (it.result.Failure? ==>
              var m := stack[j];
              && it.stack == stack[..j + 1] && m in n.table && m in at
              && (j == 0 || !PassesOn(n, at, m, event))
              && (forall i :: j < i < |stack| ==> stack[i] in n.table && PassesOn(n, at, stack[i], event))
              && var step := Step(n.table[m], at[m], event);
                 && (step.Failure? ==> it.result.error == step.error)
                 && (step.Success? ==>
                       && step.value.effect.machine.Some? && step.value.effect.machine.value in n.table
                       && Unstartable(n, n.Preorder(step.value.effect.machine.value), it.result.error)))
  {
    hide Dispatch, Init, Nesting.Valid, Nesting.Start, Nesting.Preorder, PassesOn, Step, ExitCalls;
    DispatchBegins(n, at, stack, event);
    DispatchKeepsStack(n, at, stack, event);
    InnermostFirst(n, at, stack, event);
    DispatchCalls(n, at, stack, event);
    DispatchError(n, at, stack, event);
    var d := Dispatch(n, at, stack, event);
    j := |d.stack| - 1;
    if d.result.Success? && d.result.value.machine.Some? {
      var machine := d.result.value.machine.value;
      InitIsPreorder(n, d.at, machine);
      FirstUnstartable(n, d.at, n.Preorder(machine));
    }
  }

  /** A failing dispatch fails with the error of the handler's step. */
  lemma DispatchError(n: Nesting, at: Standing, stack: seq<Machine>, event: Event)
    requires IsStack(n, at, stack) && AreMachines(n, at, stack)
    ensures var d := Dispatch(n, at, stack, event);
            var m := stack[|d.stack| - 1];
            d.result.Failure? ==> StepOf(n, at, m, event) == Failure(d.result.error)
  {
    hide StepOf, Nesting.Valid, Carries, ExitCalls, Keep;
  }

  /** From a sound hierarchy no lookup fails, and it stays sound. */
  lemma DispatchSound(n: Nesting, at: Standing, stack: seq<Machine>, event: Event)
    requires IsStack(n, at, stack) && AreMachines(n, at, stack) && Sound(n, at)
    ensures var d := Dispatch(n, at, stack, event);
            Sound(n, d.at) && d.result != Failure(KeyError)
  {
    hide WellFormed, Nesting.Valid, Keep, ExitCalls, IsStack, Carries, Step;
    var handler := stack[Keep(n, at, stack, event) - 1];
    StepWellFormed(n.table[handler], at[handler], event);
  }

  lemma IterateSound(n: Nesting, at: Standing, stack: seq<Machine>, event: Event)
    requires IsStack(n, at, stack) && Sound(n, at)
    ensures var it := Iterate(n, at, stack, event);
            Sound(n, it.at) && it.result != Failure(KeyError)
  {
    hide Sound, Dispatch, Init, Nesting.Valid, Carries;
    DispatchBegins(n, at, stack, event);
    DispatchKeepsStack(n, at, stack, event);
    DispatchSound(n, at, stack, event);
    var d := Dispatch(n, at, stack, event);
    if d.result.Success? && d.result.value.machine.Some? {
      InitSound(n, d.at, d.result.value.machine.value);
    }
  }

  // ---------- Whole runs ----------

  datatype StackRun = StackRun(stack: seq<Machine>, at: Standing, pairs: seq<Yield>, outcome: Outcome)

  /** Only a lone bottom machine can end the run. */
  function Ending(effect: Effect<Machine>, depth: nat): Effect<Machine> {
    effect.(terminal := depth == 1 && effect.terminal)
  }

  ghost function RunStack(n: Nesting, at: Standing, stack: seq<Machine>, event: Event, prompts: seq<Prompt>): StackRun
    requires IsStack(n, at, stack)
    decreases |prompts|
  {
    hide Iterate, IsStack, YieldOf;
    IterateKeepsStack(n, at, stack, event);
    var it := Iterate(n, at, stack, event);
    match it.result
    case Failure(error) => StackRun(it.stack, it.at, [], Raised(error))
    case Success(effect) =>
      var pair := YieldOf(n, at, stack, event);
      if prompts == [] then StackRun(it.stack, it.at, [pair], Suspended)
      else match Resume(Ending(effect, |it.stack|), prompts[0])
        case Failure(outcome) => StackRun(it.stack, it.at, [pair], outcome)
        case Success(next) =>
          var rest := RunStack(n, it.at, it.stack, next, prompts[1..]);
          rest.(pairs := [pair] + rest.pairs)
  }

  /** For every run of an initialised hierarchy, however it is driven: wherever it
      stands, the stack is the bottom machine with, above each machine, the one
      attached to its current state, never deeper than the hierarchy is high; it
      ends normally only with the bottom machine alone on a terminal state, and
      it can fail only with NotFound, InvalidState or a failed lookup. */
  lemma {:induction false} RunsKeepStack(n: Nesting, at: Standing, stack: seq<Machine>, event: Event, prompts: seq<Prompt>)
    requires IsStack(n, at, stack) && at[stack[0]].Some?
    ensures var run := RunStack(n, at, stack, event, prompts);
            && IsStack(n, run.at, run.stack) && run.stack[0] == stack[0] && run.at[stack[0]].Some?
            && n.Valid() && stack[0] in n.table && |run.stack| <= n.Height(stack[0]) + 1
            && (run.outcome == Finished ==>
                  run.stack == [stack[0]] && Terminal(n.table[stack[0]], run.at[stack[0]].value.name))
            && run.outcome in {Finished, Suspended, Raised(NotFound), Raised(InvalidState), Raised(KeyError)}
            && |run.pairs| <= |prompts| + 1
    decreases |prompts|
  {
    hide Iterate, YieldOf, Nesting.Valid, Nesting.Height;
    IterateKeepsStack(n, at, stack, event);
    var it := Iterate(n, at, stack, event);
    StackDepth(n, it.at, it.stack);
    if it.result.Success? && prompts != [] {
      var resumed := Resume(Ending(it.result.value, |it.stack|), prompts[0]);
      if resumed.Success? {
        RunsKeepStack(n, it.at, it.stack, resumed.value, prompts[1..]);
      }
    }
  }

  /** Well-formed tables never make a run fail with a failed lookup. */
  lemma {:induction false} RunsStaySound(n: Nesting, at: Standing, stack: seq<Machine>, event: Event, prompts: seq<Prompt>)
    requires IsStack(n, at, stack) && Sound(n, at)
    ensures var run := RunStack(n, at, stack, event, prompts);
            Sound(n, run.at) && run.outcome != Raised(KeyError)
    decreases |prompts|
  {
    hide Sound, Iterate, YieldOf, Nesting.Valid, IsStack;
    IterateKeepsStack(n, at, stack, event);
    IterateSound(n, at, stack, event);
    var it := Iterate(n, at, stack, event);
    if it.result.Success? && prompts != [] {
      var resumed := Resume(Ending(it.result.value, |it.stack|), prompts[0]);
      if resumed.Success? {
        RunsStaySound(n, it.at, it.stack, resumed.value, prompts[1..]);
      }
    }
  }

  /** Every machine of the hierarchy can be started. */
  ghost predicate AllStart(n: Nesting)
    requires n.Valid()
  {
    forall k :: k in n.table ==> n.Start(k).Some?
  }

  /** The bottom machine is alone, where it was, and could not take the event. */
  ghost predicate StuckAtBottom(n: Nesting, at: Standing, bottom: Machine, d: Dispatched) {
    && d.result.Failure? && d.stack == [bottom] && bottom in n.table && bottom in at && bottom in d.at
    && d.at[bottom] == at[bottom] && at[bottom].Some?
    && (d.result.error == InvalidState <==> Terminal(n.table[bottom], at[bottom].value.name))
  }

  /** Then an iteration can fail only on the bottom machine, all others having
      passed the event on; the bottom machine stays where it was. */
  lemma ReadyIterationFailsAtBottom(n: Nesting, at: Standing, stack: seq<Machine>, event: Event)
    requires IsStack(n, at, stack) && Sound(n, at) && n.Valid() && AllStart(n) && at[stack[0]].Some? && stack[0] in n.table
    ensures var it := Iterate(n, at, stack, event);
            it.result.Failure? ==> StuckAtBottom(n, at, stack[0], it)
  {
    hide WellFormed, Init, Nesting.Reach, Nesting.Start, Dispatch, StepOf, Known, StuckAtBottom;
    DispatchBegins(n, at, stack, event);
    DispatchKeepsStack(n, at, stack, event);
    InnermostFirst(n, at, stack, event);
    DispatchFailure(n, at, stack, event);
    var d := Dispatch(n, at, stack, event);
    if d.result.Success? && d.result.value.machine.Some? {
      InitMeaning(n, d.at, d.result.value.machine.value);
    }
  }

  lemma DispatchFailure(n: Nesting, at: Standing, stack: seq<Machine>, event: Event)
    requires IsStack(n, at, stack) && AreMachines(n, at, stack) && Sound(n, at) && at[stack[0]].Some?
    ensures var d := Dispatch(n, at, stack, event);
            d.result.Failure? ==> StuckAtBottom(n, at, stack[0], d)
  {
    hide WellFormed, Nesting.Valid, Keep, ExitCalls, Carries, Sound;
    DispatchSound(n, at, stack, event);
    DispatchOutcome(n, at, stack, event);
    StackDistinct(n, at, stack);
    assert stack[..1] == [stack[0]];
  }

  /** The machine stands on a state with a nested machine. */
  ghost predicate Hosts(n: Nesting, at: Standing, m: Machine) {
    && m in n.table && m in at && at[m].Some? && at[m].value.name in n.table[m].states
    && n.table[m].states[at[m].value.name].machine.Some?
  }

  /** If the machine is on a terminal state, that state has a nested machine. */
  ghost predicate EndsOrHosts(n: Nesting, at: Standing, m: Machine) {
    m in n.table && m in at && at[m].Some? && (Terminal(n.table[m], at[m].value.name) ==> Hosts(n, at, m))
  }

  /** An iteration that leaves machines above the bottom one either left that one
      where it was or moved it to the state whose nested machine it pushed. */
  lemma IterateHosts(n: Nesting, at: Standing, stack: seq<Machine>, event: Event)
    requires IsStack(n, at, stack) && EndsOrHosts(n, at, stack[0])
    ensures var it := Iterate(n, at, stack, event);
            it.result.Success? && |it.stack| > 1 ==> EndsOrHosts(n, it.at, stack[0])
  {
    hide StepOf, Init, Dispatch, Nesting.Valid, Terminal;
    DispatchBegins(n, at, stack, event);
    DispatchKeepsStack(n, at, stack, event);
    InnermostFirst(n, at, stack, event);
    StackDistinct(n, at, stack);
    var d := Dispatch(n, at, stack, event);
    if d.result.Success? {
      if |d.stack| > 1 { assert d.at[stack[0]] == at[stack[0]]; }
      if d.result.value.machine.Some? { PushKeepsStack(n, d.at, d.stack, d.result.value.machine.value); }
    }
  }

  /** A run of such a hierarchy that ends with InvalidState left the bottom machine
      alone on a terminal state. Unless it stood there from the start, that state
      has a nested machine, which ran until it could not go on. */
  lemma {:induction false} ReadyRunsFailAtBottom(n: Nesting, at: Standing, stack: seq<Machine>, event: Event,
                                                 prompts: seq<Prompt>)
    requires IsStack(n, at, stack) && Sound(n, at) && n.Valid() && AllStart(n)
    requires at[stack[0]].Some? && stack[0] in n.table
    ensures var run := RunStack(n, at, stack, event, prompts);
            && run.stack != [] && run.stack[0] == stack[0] && stack[0] in run.at && run.at[stack[0]].Some?
            && (run.outcome == Raised(InvalidState) ==>
                  && run.stack == [stack[0]] && Terminal(n.table[stack[0]], run.at[stack[0]].value.name)
                  && (EndsOrHosts(n, at, stack[0]) ==> Hosts(n, run.at, stack[0])))
    decreases |prompts|
  {
    hide Iterate, YieldOf, Nesting.Valid, AllStart, Terminal;
    IterateKeepsStack(n, at, stack, event);
    ReadyIterationFailsAtBottom(n, at, stack, event);
    IterateSound(n, at, stack, event);
    if EndsOrHosts(n, at, stack[0]) { IterateHosts(n, at, stack, event); }
    var it := Iterate(n, at, stack, event);
    if it.result.Success? && prompts != [] {
      var resumed := Resume(Ending(it.result.value, |it.stack|), prompts[0]);
      if resumed.Success? {
        ReadyRunsFailAtBottom(n, it.at, it.stack, resumed.value, prompts[1..]);
      }
    }
  }

  /** An iteration that leaves the bottom machine alone leaves it on a state without
      a nested machine. */
  lemma AloneHostsNothing(n: Nesting, at: Standing, stack: seq<Machine>, event: Event)
    requires IsStack(n, at, stack)
    ensures var it := Iterate(n, at, stack, event);
            it.result.Success? && |it.stack| == 1 ==> !Hosts(n, it.at, stack[0])
  {
    hide Iterate, Nesting.Valid, Nesting.Start, PassesOn, Step;
    var j := IterateEnters(n, at, stack, event);
  }

  /** A failing iteration does not move the bottom machine to a state without a nested one. */
  lemma FailedIterateHosts(n: Nesting, at: Standing, stack: seq<Machine>, event: Event)
    requires IsStack(n, at, stack) && EndsOrHosts(n, at, stack[0])
    ensures var it := Iterate(n, at, stack, event);
            it.result.Failure? ==> EndsOrHosts(n, it.at, stack[0])
  {
    hide StepOf, Init, Dispatch, Nesting.Valid, Terminal;
    DispatchBegins(n, at, stack, event);
    DispatchKeepsStack(n, at, stack, event);
    InnermostFirst(n, at, stack, event);
    StackDistinct(n, at, stack);
    var d := Dispatch(n, at, stack, event);
    if d.result.Success? {
      if |d.stack| > 1 { assert d.at[stack[0]] == at[stack[0]]; }
      if d.result.value.machine.Some? { PushKeepsStack(n, d.at, d.stack, d.result.value.machine.value); }
    } else {
      FailedDispatchKeepsBottom(n, at, stack, event);
    }
  }

  lemma FailedDispatchKeepsBottom(n: Nesting, at: Standing, stack: seq<Machine>, event: Event)
    requires IsStack(n, at, stack) && AreMachines(n, at, stack)
    ensures var d := Dispatch(n, at, stack, event);
            d.result.Failure? ==> d.at[stack[0]] == at[stack[0]]
  {
    hide StepOf, Nesting.Valid, Carries, ExitCalls, Keep;
    StackDistinct(n, at, stack);
  }

  /** A run ends normally exactly when it is resumed after the bottom machine entered
      a terminal state that has no nested machine. Until then, whatever nested
      machines do, it goes on or fails. */
  lemma {:induction false} RunsFinishIff(n: Nesting, at: Standing, stack: seq<Machine>, event: Event, prompts: seq<Prompt>)
    requires IsStack(n, at, stack) && EndsOrHosts(n, at, stack[0])
    ensures var run := RunStack(n, at, stack, event, prompts);
            && stack[0] in n.table && stack[0] in run.at && run.at[stack[0]].Some?
            && (run.outcome == Finished <==>
                  Terminal(n.table[stack[0]], run.at[stack[0]].value.name) && !Hosts(n, run.at, stack[0])
                  && |run.pairs| <= |prompts|)
    decreases |prompts|
  {
    hide Iterate, YieldOf, Nesting.Valid, Terminal, Hosts;
    IterateKeepsStack(n, at, stack, event);
    IterateHosts(n, at, stack, event);
    FailedIterateHosts(n, at, stack, event);
    AloneHostsNothing(n, at, stack, event);
    var it := Iterate(n, at, stack, event);
    if it.result.Success? && prompts != [] {
      var resumed := Resume(Ending(it.result.value, |it.stack|), prompts[0]);
      if resumed.Success? {
        RunsFinishIff(n, it.at, it.stack, resumed.value, prompts[1..]);
      }
    }
  }

  lemma YieldEvent(n: Nesting, at: Standing, stack: seq<Machine>, event: Event)
    requires IsStack(n, at, stack)
    ensures YieldOf(n, at, stack, event).event == event
  {
    hide Nesting.Valid, Dispatch;
  }

  /** The event of every later iteration is the one sent, or else the one that the
      reaction to the last iteration returned. */
  lemma {:induction false} StackRunsFollowPrompts(n: Nesting, at: Standing, stack: seq<Machine>, event: Event, prompts: seq<Prompt>)
    requires IsStack(n, at, stack)
    ensures var run := RunStack(n, at, stack, event, prompts);
            && |run.pairs| <= |prompts| + 1
            && (run.pairs != [] ==> run.pairs[0].event == event)
            && (forall k :: 0 <= k < |run.pairs| - 1 ==>
                  run.pairs[k + 1].event == prompts[k].sent.GetOr(prompts[k].reacted))
            && (|run.pairs| == |prompts| + 1 <==> run.outcome == Suspended)
    decreases |prompts|
  {
    hide Iterate, Nesting.Valid, YieldOf, IsStack;
    IterateKeepsStack(n, at, stack, event);
    YieldEvent(n, at, stack, event);
    var it := Iterate(n, at, stack, event);
    if it.result.Success? && prompts != [] {
      var resumed := Resume(Ending(it.result.value, |it.stack|), prompts[0]);
      if resumed.Success? {
        StackRunsFollowPrompts(n, it.at, it.stack, resumed.value, prompts[1..]);
      }
    }
  }

  /** The topmost of the machines that are popped is exited first. */
  lemma {:induction false} TopmostFirst(at: Standing, stack: seq<Machine>, top: Machine, keep: nat, event: Event)
    requires forall i :: keep <= i < |stack| ==> stack[i] in at && at[stack[i]].Some?
    requires top in at && at[top].Some? && keep <= |stack|
    ensures ExitCalls(at, stack + [top], keep, event)
         == Invoke(at[top].value.onExit, at[top].value.name, event) + ExitCalls(at, stack, keep, event)
    decreases |stack| - keep
  {
    hide Invoke;
    var all, first := stack + [top], Invoke(at[top].value.onExit, at[top].value.name, event);
    if keep < |stack| {
      TopmostFirst(at, stack, top, keep + 1, event);
      assert all[keep] == stack[keep];
      var jump := at[stack[keep]].value;
      Associative(first, ExitCalls(at, stack, keep + 1, event), Invoke(jump.onExit, jump.name, event));
    } else {
      assert all[keep] == top && ExitCalls(at, all, keep + 1, event) == [] && ExitCalls(at, stack, keep, event) == [];
      assert [] + first == first + [];
    }
  }

  /** A machine without nested machines runs exactly as under FiniteRunner. */
  lemma {:induction false} FlatRunsAreFinite(n: Nesting, at: Standing, root: Machine, event: Event, prompts: seq<Prompt>)
    requires IsStack(n, at, [root]) && root in n.table
    requires forall s :: s in n.table[root].states ==> n.table[root].states[s].machine.None?
    ensures var flat := RunFrom(n.table[root], at[root], event, prompts);
            var run := RunStack(n, at, [root], event, prompts);
            && run.stack == [root] && run.at == at[root := flat.current] && run.outcome == flat.outcome
            && |run.pairs| == |flat.legs|
            && (forall i :: 0 <= i < |run.pairs| ==> run.pairs[i] == OfLeg(flat.legs[i]))
    decreases |prompts|
  {
    hide Iterate, YieldOf, Nesting.Valid, Step;
    FlatIteration(n, at, root, event);
    var it := Iterate(n, at, [root], event);
    if it.result.Success? && prompts != [] {
      var resumed := Resume(it.result.value, prompts[0]);
      if resumed.Success? {
        IterateKeepsStack(n, at, [root], event);
        FlatRunsAreFinite(n, it.at, root, resumed.value, prompts[1..]);
      }
    }
  }

  function OfLeg(leg: Leg): Yield {
    Yield(Some(leg.old_), Some(leg.new_), leg.event, leg.calls)
  }

  lemma FlatIteration(n: Nesting, at: Standing, root: Machine, event: Event)
    requires IsStack(n, at, [root]) && root in n.table
    requires forall s :: s in n.table[root].states ==> n.table[root].states[s].machine.None?
    ensures var it := Iterate(n, at, [root], event);
            && it.stack == [root]
            && match Step(n.table[root], at[root], event)
               case Failure(error) => it.result == Failure(error) && it.at == at
               case Success(move) =>
                 && it.result == Success(move.effect) && it.at == at[root := Some(move.jump)]
                 && at[root].Some?
                 && YieldOf(n, at, [root], event) ==
                      OfLeg(Leg(at[root].value.name, event, move.jump.name, move.calls))
  {
    hide Step, Nesting.Valid;
    DispatchBegins(n, at, [root], event);
    assert Popped(n, at, [root], 1) == at;
    if StepOf(n, at, root, event).Success? {
      StepLands(n, at, root, event);
    }
  }

  // ---------- HierarchicalRunner.run_iter ----------

  method IterateOnce(machines: seq<Machine>, event: Event, ghost n: Nesting, ghost at: Standing)
    returns (stack: seq<Machine>, r: Result<Effect<Machine>, Error>, pair: Yield)
    requires Describes(n) && Stands(n, at) && IsStack(n, at, machines)
    modifies n.table.Keys`current
    ensures var it := Iterate(n, at, machines, event);
            && Describes(n) && IsStack(n, it.at, it.stack) && Stands(n, it.at)
            && stack == it.stack && r == it.result
    ensures r.Success? ==> pair == YieldOf(n, at, machines, event)
  {
    hide WellFormed, Known, Nesting.Valid, Dispatch, Stands, Describes, Init;
    DispatchBegins(n, at, machines, event);
    DispatchKeepsStack(n, at, machines, event);
    IterateKeepsStack(n, at, machines, event);
    CurrentOf(n, at, Top(machines));
    var old_ := machines[|machines| - 1].current;
    var calls;
    stack, r, calls := ProcessEvent(machines, event, n, at);
    ghost var d := Dispatch(n, at, machines, event);
    CurrentOf(n, d.at, Top(stack));
    var new_ := stack[|stack| - 1].current;
    pair := Yield(CurrentState(old_), CurrentState(new_), event, calls);
    if r.Success? && r.value.machine.Some? && r.value.machine.value != stack[|stack| - 1] {
      var machine := r.value.machine.value;
      var none := (_: Machine) => None;
      NoChoice(n, machine, none);
      var error := Initialize(machine, None, none, n, d.at);
      if error.Some? {
        r := Failure(error.value);
      } else {
        stack := stack + [machine];
      }
    }
  }

  lemma CurrentOf(n: Nesting, at: Standing, m: Machine)
    requires Stands(n, at) && m in n.table
    ensures m in at && m.current == at[m]
  {
  }

  lemma PrependPair(pairs: seq<Yield>, pair: Yield, rest: seq<Yield>)
    ensures pairs + ([pair] + rest) == pairs + [pair] + rest && pairs + [] == pairs
  {
  }

  /** The loop of run_iter, resumed once for every prompt. */
  method Loop(machines: seq<Machine>, event: Event, prompts: seq<Prompt>, ghost n: Nesting, ghost at: Standing)
    returns (stack: seq<Machine>, pairs: seq<Yield>, outcome: Outcome)
    requires Describes(n) && Stands(n, at) && IsStack(n, at, machines)
    modifies n.table.Keys`current
    ensures var run := RunStack(n, at, machines, event, prompts);
            && stack == run.stack && pairs == run.pairs && outcome == run.outcome
            && Describes(n) && Stands(n, run.at)
  {
    hide *;
    ghost var run := RunStack(n, at, machines, event, prompts);
    ghost var now := at;
    stack, pairs := machines, [];
    var next, i := event, 0;
    while true
      invariant 0 <= i <= |prompts|
      invariant Describes(n) && Stands(n, now) && IsStack(n, now, stack)
      invariant var rest := RunStack(n, now, stack, next, prompts[i..]);
                run == StackRun(rest.stack, rest.at, pairs + rest.pairs, rest.outcome)
      decreases |prompts| - i
    {
      RunRound(n, now, stack, next, prompts[i..]);
      ghost var was, before := now, stack;
      var r, pair;
      stack, r, pair := IterateOnce(stack, next, n, now);
      now := Iterate(n, was, before, next).at;
      PrependPair(pairs, pair, []);
      if r.Failure? { return stack, pairs, Raised(r.error); }
      var effect := r.value;
      if i == |prompts| { return stack, pairs + [pair], Suspended; }
      var prompt := prompts[i];
      if |stack| == 1 && effect.terminal { return stack, pairs + [pair], Finished; }
      if effect.reaction.None? && prompt.sent.None? { return stack, pairs + [pair], Raised(NotFound); }
      next := if prompt.sent.Some? then prompt.sent.value else prompt.reacted;
      assert prompts[i..][1..] == prompts[i + 1..];
      PrependPair(pairs, pair, RunStack(n, now, stack, next, prompts[i + 1..]).pairs);
      pairs, i := pairs + [pair], i + 1;
    }
  }

  /** One unfolding of a run. */
  lemma RunRound(n: Nesting, at: Standing, stack: seq<Machine>, event: Event, prompts: seq<Prompt>)
    requires IsStack(n, at, stack)
    ensures var run, it, pair := RunStack(n, at, stack, event, prompts), Iterate(n, at, stack, event), YieldOf(n, at, stack, event);
            && IsStack(n, it.at, it.stack)
            && match it.result
               case Failure(error) => run == StackRun(it.stack, it.at, [], Raised(error))
               case Success(effect) =>
                 if prompts == [] then run == StackRun(it.stack, it.at, [pair], Suspended)
                 else if |it.stack| == 1 && effect.terminal then run == StackRun(it.stack, it.at, [pair], Finished)
                 else if prompts[0].sent.None? && effect.reaction.None? then
                   run == StackRun(it.stack, it.at, [pair], Raised(NotFound))
                 else
                   var next := if prompts[0].sent.Some? then prompts[0].sent.value else prompts[0].reacted;
                   var rest := RunStack(n, it.at, it.stack, next, prompts[1..]);
                   run == StackRun(rest.stack, rest.at, [pair] + rest.pairs, rest.outcome)
  {
    hide Iterate, YieldOf, Nesting.Valid, IsStack;
    IterateKeepsStack(n, at, stack, event);
  }

  /** HierarchicalRunner.run_iter. */
  method RunIter(root: Machine, event: Event, initialize: bool, prompts: seq<Prompt>, ghost n: Nesting, ghost at: Standing)
    returns (stack: seq<Machine>, pairs: seq<Yield>, outcome: Outcome)
    requires Describes(n) && Stands(n, at) && root in n.table
    modifies n.table.Keys`current
    ensures Describes(n) && IsStanding(n, at)
    ensures var (begun, error) := if initialize then Init(n, at, root) else (at, None);
            && IsStanding(n, begun)
            && if error.Some? then stack == [root] && pairs == [] && outcome == Raised(error.value) && Stands(n, begun)
               else
                 && IsStack(n, begun, [root])
                 && var run := RunStack(n, begun, [root], event, prompts);
                    stack == run.stack && pairs == run.pairs && outcome == run.outcome && Stands(n, run.at)
    ensures outcome != Raised(KeyError)
  {
    hide *;
    AsDescribed(root, n, at);
    ghost var begun := at;
    if initialize {
      var none := (_: Machine) => None;
      NoChoice(n, root, none);
      var error := Initialize(root, None, none, n, at);
      begun := Init(n, at, root).0;
      AsDescribed(root, n, begun);
      if error.Some? { return [root], [], Raised(error.value); }
    }
    SingletonIsStack(n, begun, root);
    RunsStaySound(n, begun, [root], event, prompts);
    stack, pairs, outcome := Loop([root], event, prompts, n, begun);
  }

  lemma SingletonIsStack(n: Nesting, at: Standing, root: Machine)
    requires IsStanding(n, at) && root in n.table
    ensures IsStack(n, at, [root])
  {
  }
}
