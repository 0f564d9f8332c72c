/** The state machines of automaton: a state table and a transition table that
    must stay in step, and the jump the machine currently stands on. */
module Machines {
  import opened Wrappers

  type StateName = string
  type Event = string
  type Callback = nat  // stands for a Python callable
  type Reaction = nat  // stands for a (callable, args, kwargs) triple

  /** KeyError stands for a failed lookup in the tables; StepWellFormed shows that
      well-formed tables never raise it. */
  datatype Error = NotInitialized | InvalidState | NotFound | Duplicate | FrozenMachine | KeyError

  /** One row of the state table; M is the type of nested machines. */
  datatype StateData<+M> = StateData(
    terminal: bool,
    reactions: map<Event, Reaction>,
    onEnter: Option<Callback>,
    onExit: Option<Callback>,
    machine: Option<M>)

  datatype Jump = Jump(name: StateName, onEnter: Option<Callback>, onExit: Option<Callback>)

  datatype Effect<+M> = Effect(reaction: Option<Reaction>, terminal: bool, machine: Option<M>)

  /** One callback invocation. */
  datatype Call = Call(callback: Callback, state: StateName, event: Event)

  /** The state table, an ordered dictionary, and the transition table. */
  datatype Table<+M> = Table(order: seq<StateName>,
                             states: map<StateName, StateData<M>>,
                             transitions: map<StateName, map<Event, Jump>>)

  /** What a successful process_event produces. */
  datatype Move<+M> = Move(jump: Jump, effect: Effect<M>, calls: seq<Call>)

  function Invoke(callback: Option<Callback>, state: StateName, event: Event): seq<Call> {
    match callback
    case None => []
    case Some(c) => [Call(c, state, event)]
  }

  // ---------- Table invariant ----------

  /** Every jump leads to a known state and carries that state's on_enter,
      together with the on_exit of the state it STARTS from. */
  ghost predicate JumpMatches<M>(t: Table<M>, start: StateName, jump: Jump)
    requires start in t.states
  {
    && jump.name in t.states
    && jump.onEnter == t.states[jump.name].onEnter
    && jump.onExit == t.states[start].onExit
  }

  ghost predicate Lists(order: seq<StateName>, names: set<StateName>) {
    && (forall s :: s in order <==> s in names)
    && (forall i, j :: 0 <= i < j < |order| ==> order[i] != order[j])
  }

  ghost predicate EdgesMatch<M>(t: Table<M>)
    requires t.states.Keys == t.transitions.Keys
  {
    forall s, e :: s in t.transitions && e in t.transitions[s] ==> JumpMatches(t, s, t.transitions[s][e])
  }

  /** Both tables know the same states, every edge leads to one of them, and
      terminal states have no edges. */
  ghost predicate WellFormed<M>(t: Table<M>) {
    && Lists(t.order, t.states.Keys)
    && t.states.Keys == t.transitions.Keys
    && EdgesMatch(t)
    && (forall s :: s in t.states && t.states[s].terminal ==> t.transitions[s] == map[])
  }

  ghost predicate Known<M>(t: Table<M>, current: Option<Jump>) {
    current.Some? ==> current.value.name in t.states
  }

  /** What table edits never take away: states stay, with their flags and callbacks. */
  ghost predicate Extends<M>(before: Table<M>, after: Table<M>) {
    forall s :: s in before.states ==>
      && s in after.states
      && after.states[s].terminal == before.states[s].terminal
      && after.states[s].onEnter == before.states[s].onEnter
      && after.states[s].onExit == before.states[s].onExit
      && after.states[s].machine == before.states[s].machine
  }

  // ---------- Specification of one event ----------

  predicate Actionable<M>(t: Table<M>, current: Option<Jump>, event: Event) {
    current.Some? && current.value.name in t.transitions && event in t.transitions[current.value.name]
  }

  function Step<M>(t: Table<M>, current: Option<Jump>, event: Event): (r: Result<Move<M>, Error>)
    ensures r.Success? ==> current.Some? && Known(t, Some(r.value.jump))
    ensures r == Failure(NotInitialized) <==> current.None?
    ensures r.Failure? ==> r.error in {NotInitialized, InvalidState, NotFound, KeyError}
  {
    if current.None? then Failure(NotInitialized)
    else
      var here := current.value;
      if here.name !in t.states then Failure(KeyError)
      else if t.states[here.name].terminal then Failure(InvalidState)
      else if here.name !in t.transitions then Failure(KeyError)
      else if event !in t.transitions[here.name] then Failure(NotFound)
      else
        var jump := t.transitions[here.name][event];
        if jump.name !in t.states then Failure(KeyError)
        else
          var data := t.states[jump.name];
          var reaction := if event in data.reactions then Some(data.reactions[event]) else None;
          Success(Move(jump, Effect(reaction, data.terminal, data.machine),
                       Invoke(here.onExit, here.name, event) + Invoke(jump.onEnter, jump.name, event)))
  }

  /** On well-formed tables no lookup fails. */
  lemma StepWellFormed<M>(t: Table<M>, current: Option<Jump>, event: Event)
    requires WellFormed(t) && Known(t, current)
    ensures Step(t, current, event) != Failure(KeyError)
    ensures Step(t, current, event).Success? ==>
              current.value.name in t.transitions && event in t.transitions[current.value.name]
              && JumpMatches(t, current.value.name, t.transitions[current.value.name][event])
  {
    if current.Some? && event in t.transitions[current.value.name] {
      assert JumpMatches(t, current.value.name, t.transitions[current.value.name][event]);
    }
  }

  function StartJump<M>(t: Table<M>, start: StateName): Jump
    requires start in t.states
  {
    Jump(start, None, t.states[start].onExit)
  }

  /** Why a machine cannot start. */
  function StartError<M>(t: Table<M>, start: Option<StateName>): Error {
    if start.Some? && start.value in t.states then InvalidState else NotFound
  }

  predicate Startable<M>(t: Table<M>, start: Option<StateName>) {
    start.Some? && start.value in t.states && !t.states[start.value].terminal
  }

  /** is_actionable_event(e) is true exactly when process_event(e) succeeds, and
      otherwise an initialised machine refuses with InvalidState on a terminal
      state and with NotFound on any other. */
  lemma ActionableIffProcessed<M>(t: Table<M>, current: Option<Jump>, event: Event)
    requires WellFormed(t) && Known(t, current)
    ensures Actionable(t, current, event) <==> Step(t, current, event).Success?
    ensures current.Some? && !Actionable(t, current, event) ==>
              Step(t, current, event) == Failure(if t.states[current.value.name].terminal then InvalidState else NotFound)
  {
    StepWellFormed(t, current, event);
    if Actionable(t, current, event) {
      assert t.transitions[current.value.name] != map[];
    }
  }

  /** The table after a state was added at the end. */
  function WithState<M>(t: Table<M>, state: StateName, data: StateData<M>): Table<M> {
    Table(t.order + [state], t.states[state := data], t.transitions[state := map[]])
  }

  lemma WithStateWellFormed<M>(t: Table<M>, state: StateName, data: StateData<M>)
    requires WellFormed(t) && state !in t.states
    ensures WellFormed(WithState(t, state, data)) && Extends(t, WithState(t, state, data))
  {
    var more := WithState(t, state, data);
    assert Lists(more.order, more.states.Keys) by {
      hide EdgesMatch;
      assert forall s :: s in (t.order + [state]) <==> s in t.order || s == state;
    }
    assert EdgesMatch(more) by {
      hide Lists;
    }
    hide Lists, EdgesMatch;
  }

  /** The table after a reaction was added. */
  function WithReaction<M>(t: Table<M>, state: StateName, event: Event, reaction: Reaction): Table<M>
    requires state in t.states
  {
    var data := t.states[state];
    t.(states := t.states[state := data.(reactions := data.reactions[event := reaction])])
  }

  lemma WithReactionWellFormed<M>(t: Table<M>, state: StateName, event: Event, reaction: Reaction)
    requires WellFormed(t) && state in t.states
    ensures WellFormed(WithReaction(t, state, event, reaction)) && Extends(t, WithReaction(t, state, event, reaction))
  {
    var more := WithReaction(t, state, event, reaction);
    assert more.states.Keys == t.states.Keys;
    assert EdgesMatch(more) by {
      hide Lists;
    }
    hide Lists, EdgesMatch;
  }

  lemma ExtendsItself<M>(t: Table<M>)
    ensures Extends(t, t)
  {
  }

  /** The table after an edge was added or replaced. */
  function WithEdge<M>(t: Table<M>, start: StateName, end: StateName, event: Event): Table<M>
    requires start in t.states && end in t.states && start in t.transitions
  {
    var target := Jump(end, t.states[end].onEnter, t.states[start].onExit);
    t.(transitions := t.transitions[start := t.transitions[start][event := target]])
  }

  lemma TransitionsOfStates<M>(t: Table<M>)
    requires WellFormed(t)
    ensures t.transitions.Keys == t.states.Keys
  {
  }

  lemma WithEdgeWellFormed<M>(t: Table<M>, start: StateName, end: StateName, event: Event)
    requires WellFormed(t) && start in t.states && end in t.states && !t.states[start].terminal
    ensures WellFormed(WithEdge(t, start, end, event))
  {
  }

  // ---------- The shared tables and the machine ----------

  /** The two dictionaries; shallow copies of a machine share this object. */
  class Tables {
    var order: seq<StateName>
    var states: map<StateName, StateData<Machine>>
    var transitions: map<StateName, map<Event, Jump>>

    constructor ()
      ensures Contents() == Table([], map[], map[])
    {
      order, states, transitions := [], map[], map[];
    }

    constructor Of(t: Table<Machine>)
      ensures Contents() == t
    {
      order, states, transitions := t.order, t.states, t.transitions;
    }

    function Contents(): Table<Machine>
      reads this
    {
      Table(order, states, transitions)
    }
  }

  /** FiniteMachine, and HierarchicalFiniteMachine when states carry nested machines. */
  class Machine {
    const tables: Tables
    var defaultStart: Option<StateName>
    var current: Option<Jump>
    var frozen: bool

    constructor ()
      ensures fresh(tables) && tables.Contents() == Table([], map[], map[])
      ensures Valid() && defaultStart == None && current == None && !frozen
    {
      tables := new Tables();
      defaultStart, current, frozen := None, None, false;
    }

    constructor CopyOf(tables: Tables, defaultStart: Option<StateName>, frozen: bool)
      ensures this.tables == tables && this.defaultStart == defaultStart
      ensures current == None && this.frozen == frozen
    {
      this.tables, this.defaultStart, this.current, this.frozen := tables, defaultStart, None, frozen;
    }

    ghost predicate Valid()
      reads this, tables
    {
      WellFormed(tables.Contents()) && Known(tables.Contents(), current)
    }

    method SetDefaultStart(state: StateName) returns (r: Option<Error>)
      requires Valid()
      modifies this`defaultStart
      ensures Valid()
      ensures r == if frozen then Some(FrozenMachine) else if state !in tables.states then Some(NotFound) else None
      ensures defaultStart == if r.None? then Some(state) else old(defaultStart)
    {
      if frozen { return Some(FrozenMachine); }
      if state !in tables.states { return Some(NotFound); }
      defaultStart := Some(state);
      return None;
    }

    method AddState(state: StateName, terminal: bool, onEnter: Option<Callback>, onExit: Option<Callback>,
                    machine: Option<Machine>)
      returns (r: Option<Error>)
      requires Valid()
      modifies tables
      ensures Valid() && Extends(old(tables.Contents()), tables.Contents())
      ensures r == if frozen then Some(FrozenMachine) else if state in old(tables.states) then Some(Duplicate) else None
      ensures r.Some? ==> tables.Contents() == old(tables.Contents())
      ensures r.None? ==>
                tables.Contents() == WithState(old(tables.Contents()), state, StateData(terminal, map[], onEnter, onExit, machine))
    {
      hide WellFormed, JumpMatches, Extends;
      ExtendsItself(tables.Contents());
      if frozen { return Some(FrozenMachine); }
      if state in tables.states { return Some(Duplicate); }
      WithStateWellFormed(tables.Contents(), state, StateData(terminal, map[], onEnter, onExit, machine));
      tables.order := tables.order + [state];
      tables.states := tables.states[state := StateData(terminal, map[], onEnter, onExit, machine)];
      tables.transitions := tables.transitions[state := map[]];
      return None;
    }

    method AddReaction(state: StateName, event: Event, reaction: Reaction) returns (r: Option<Error>)
      requires Valid()
      modifies tables`states
      ensures Valid() && Extends(old(tables.Contents()), tables.Contents())
      ensures r == if frozen then Some(FrozenMachine)
                   else if state !in old(tables.states) then Some(NotFound)
                   else if event in old(tables.states)[state].reactions then Some(Duplicate) else None
      ensures r.Some? ==> tables.Contents() == old(tables.Contents())
      ensures r.None? ==> tables.Contents() == WithReaction(old(tables.Contents()), state, event, reaction)
    {
      hide WellFormed, JumpMatches, Extends;
      ExtendsItself(tables.Contents());
      if frozen { return Some(FrozenMachine); }
      if state !in tables.states { return Some(NotFound); }
      WithReactionWellFormed(tables.Contents(), state, event, reaction);
      var data := tables.states[state];
      if event in data.reactions { return Some(Duplicate); }
      tables.states := tables.states[state := data.(reactions := data.reactions[event := reaction])];
      return None;
    }

    method AddTransition(start: StateName, end: StateName, event: Event, replace: bool) returns (r: Option<Error>)
      requires Valid()
      modifies tables`transitions
      ensures Valid()
      ensures r == if frozen then Some(FrozenMachine)
                   else if start !in tables.states || end !in tables.states then Some(NotFound)
                   else if tables.states[start].terminal then Some(InvalidState)
                   else if event in old(tables.transitions)[start] && !replace
                           && old(tables.transitions)[start][event].name != end then Some(Duplicate)
                   else None
      ensures r.Some? ==> tables.Contents() == old(tables.Contents())
      ensures r.None? ==>
                var edges := old(tables.transitions)[start];
                if event in edges && edges[event].name == end && !replace
                then tables.transitions == old(tables.transitions)
                else tables.Contents() == WithEdge(old(tables.Contents()), start, end, event)
    {
      hide WellFormed, JumpMatches;
      if frozen { return Some(FrozenMachine); }
      if start !in tables.states { return Some(NotFound); }
      if end !in tables.states { return Some(NotFound); }
      if tables.states[start].terminal { return Some(InvalidState); }
      TransitionsOfStates(tables.Contents());
      if event in tables.transitions[start] && !replace {
        if tables.transitions[start][event].name != end { return Some(Duplicate); }
      } else {
        WithEdgeWellFormed(tables.Contents(), start, end, event);
        var target := Jump(end, tables.states[end].onEnter, tables.states[start].onExit);
        tables.transitions := tables.transitions[start := tables.transitions[start][event := target]];
      }
      return None;
    }

    method IsActionableEvent(event: Event) returns (b: bool)
      requires Valid()
      ensures b <==> Step(tables.Contents(), current, event).Success?
    {
      ActionableIffProcessed(tables.Contents(), current, event);
      if current.None? { return false; }
      if event !in tables.transitions[current.value.name] { return false; }
      return true;
    }

    method ProcessEvent(event: Event) returns (r: Result<Effect<Machine>, Error>, calls: seq<Call>)
      requires Valid()
      modifies this`current
      ensures Valid()
      ensures match old(Step(tables.Contents(), current, event))
              case Success(move) => r == Success(move.effect) && current == Some(move.jump) && calls == move.calls
              case Failure(error) => r == Failure(error) && current == old(current) && calls == []
    {
      calls := [];
      StepWellFormed(tables.Contents(), current, event);
      if current.None? { return Failure(NotInitialized), calls; }
      var here := current.value;
      if tables.states[here.name].terminal { return Failure(InvalidState), calls; }
      if event !in tables.transitions[here.name] { return Failure(NotFound), calls; }
      var replacement := tables.transitions[here.name][event];
      if here.onExit.Some? {
        calls := calls + [Call(here.onExit.value, here.name, event)];
      }
      if replacement.onEnter.Some? {
        calls := calls + [Call(replacement.onEnter.value, replacement.name, event)];
      }
      current := Some(replacement);
      var data := tables.states[replacement.name];
      var reaction := if event in data.reactions then Some(data.reactions[event]) else None;
      r := Success(Effect(reaction, data.terminal, data.machine));
    }

    /** FiniteMachine.initialize; nested machines are handled in module Hierarchy. */
    method InitializeSelf(start: Option<StateName>) returns (r: Option<Error>)
      requires Valid()
      modifies this`current
      ensures Valid()
      ensures var chosen := if start.Some? then start else defaultStart;
              && (r.None? <==> Startable(tables.Contents(), chosen))
              && (r == Some(NotFound) <==> chosen.None? || chosen.value !in tables.states)
              && (r == Some(InvalidState) <==> chosen.Some? && chosen.value in tables.states && tables.states[chosen.value].terminal)
              && (r.None? ==> current == Some(StartJump(tables.Contents(), chosen.value)))
              && (r.Some? ==>
                    && current == old(current)
                    && r == Some(StartError(tables.Contents(), chosen)))
    {
      var chosen := if start.Some? then start else defaultStart;
      if chosen.None? || chosen.value !in tables.states { return Some(NotFound); }
      if tables.states[chosen.value].terminal { return Some(InvalidState); }
      current := Some(Jump(chosen.value, None, tables.states[chosen.value].onExit));
      return None;
    }

    method Freeze()
      modifies this`frozen
      ensures frozen
    {
      frozen := true;
    }

    /** A deep copy owns fresh tables with the same contents; a shallow copy
        shares the very same tables. Either way the copy is uninitialised. */
    method Copy(shallow: bool, unfreeze: bool) returns (c: Machine)
      requires Valid()
      ensures fresh(c) && c.Valid() && c.current == None && c.defaultStart == defaultStart
      ensures c.frozen == (frozen && !unfreeze)
      ensures shallow ==> c.tables == tables
      ensures !shallow ==> fresh(c.tables) && c.tables.Contents() == tables.Contents()
    {
      var copyFrozen := if unfreeze && frozen then false else frozen;
      var t := tables;
      if !shallow {
        t := new Tables.Of(tables.Contents());
      }
      c := new Machine.CopyOf(t, defaultStart, copyFrozen);
    }
  }
}
