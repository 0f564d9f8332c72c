/** Everything that can be asked of a machine, as a function on what it holds, and
    runs of its copies. Module DictMachines says what copies share. */
module MachineCopies {
  import opened Wrappers
  import opened Machines
  import opened FiniteRunner

  /** Everything that can be asked of a machine that may change it. */
  datatype Op =
    | AddState(state: StateName, terminal: bool, onEnter: Option<Callback>, onExit: Option<Callback>, machine: Option<Machine>)
    | AddReaction(state: StateName, event: Event, reaction: Reaction)
    | AddTransition(start: StateName, end: StateName, event: Event, replace: bool)
    | SetDefaultStart(state: StateName)
    | Initialize(from: Option<StateName>)
    | Process(event: Event)
    | Freeze

  datatype Reply = Done | Refused(error: Error) | Moved(effect: Effect<Machine>, calls: seq<Call>)

  /** All that a machine holds. */
  datatype View = View(table: Table<Machine>, default: Option<StateName>, current: Option<Jump>, frozen: bool)

  function ViewOf(m: Machine): View
    reads m, m.tables
  {
    View(m.tables.Contents(), m.defaultStart, m.current, m.frozen)
  }

  // ---------- One operation ----------

  function Perform(v: View, op: Op): (View, Reply) {
    match op
    case AddState(state, terminal, onEnter, onExit, machine) =>
      if v.frozen then (v, Refused(FrozenMachine))
      else if state in v.table.states then (v, Refused(Duplicate))
      else (v.(table := WithState(v.table, state, StateData(terminal, map[], onEnter, onExit, machine))), Done)
    case AddReaction(state, event, reaction) =>
      if v.frozen then (v, Refused(FrozenMachine))
      else if state !in v.table.states then (v, Refused(NotFound))
      else if event in v.table.states[state].reactions then (v, Refused(Duplicate))
      else (v.(table := WithReaction(v.table, state, event, reaction)), Done)
    case AddTransition(start, end, event, replace) => Connect(v, start, end, event, replace)
    case SetDefaultStart(state) =>
      if v.frozen then (v, Refused(FrozenMachine))
      else if state !in v.table.states then (v, Refused(NotFound))
      else (v.(default := Some(state)), Done)
    case Initialize(from) =>
      var chosen := if from.Some? then from else v.default;
      if Startable(v.table, chosen) then (v.(current := Some(StartJump(v.table, chosen.value))), Done)
      else (v, Refused(StartError(v.table, chosen)))
    case Process(event) =>
      (match Step(v.table, v.current, event)
       case Success(move) => (v.(current := Some(move.jump)), Moved(move.effect, move.calls))
       case Failure(error) => (v, Refused(error)))
    case Freeze => (v.(frozen := true), Done)
  }

  function Connect(v: View, start: StateName, end: StateName, event: Event, replace: bool): (View, Reply) {
    if v.frozen then (v, Refused(FrozenMachine))
    else if start !in v.table.states || end !in v.table.states then (v, Refused(NotFound))
    else if v.table.states[start].terminal then (v, Refused(InvalidState))
    else if start !in v.table.transitions then (v, Refused(KeyError))
    else
      var edges := v.table.transitions[start];
      if event in edges && !replace then (v, if edges[event].name != end then Refused(Duplicate) else Done)
      else (v.(table := WithEdge(v.table, start, end, event)), Done)
  }

  function PerformAll(v: View, ops: seq<Op>): (View, seq<Reply>) {
    if ops == [] then (v, [])
    else
      var (w, replies) := PerformAll(v, ops[..|ops| - 1]);
      var (x, reply) := Perform(w, ops[|ops| - 1]);
      (x, replies + [reply])
  }

  // ---------- What operations keep ----------

  ghost predicate Sound(v: View) {
    WellFormed(v.table) && Known(v.table, v.current)
  }

  /** Every operation keeps the table invariant and the current state known, and
      takes no state, flag or callback away. */
  lemma PerformKeeps(v: View, op: Op)
    requires Sound(v)
    ensures Sound(Perform(v, op).0) && Extends(v.table, Perform(v, op).0.table)
  {
    hide WellFormed, Step, Connect;
    match op
    case AddState(state, terminal, onEnter, onExit, machine) =>
      ExtendsItself(v.table);
      if state !in v.table.states {
        WithStateWellFormed(v.table, state, StateData(terminal, map[], onEnter, onExit, machine));
      }
    case AddReaction(state, event, reaction) =>
      ExtendsItself(v.table);
      if state in v.table.states { WithReactionWellFormed(v.table, state, event, reaction); }
    case AddTransition(start, end, event, replace) =>
      ConnectKeeps(v, start, end, event, replace);
    case _ =>
  }

  lemma ConnectKeeps(v: View, start: StateName, end: StateName, event: Event, replace: bool)
    requires Sound(v)
    ensures Sound(Connect(v, start, end, event, replace).0)
    ensures Extends(v.table, Connect(v, start, end, event, replace).0.table)
  {
    hide WellFormed;
    TransitionsOfStates(v.table);
    if start in v.table.states && end in v.table.states && !v.table.states[start].terminal {
      WithEdgeWellFormed(v.table, start, end, event);
    }
  }

  lemma ExtendsTwice(a: Table<Machine>, b: Table<Machine>, c: Table<Machine>)
    requires Extends(a, b) && Extends(b, c)
    ensures Extends(a, c)
  {
  }

  lemma {:induction false} PerformAllKeeps(v: View, ops: seq<Op>)
    requires Sound(v)
    ensures var (w, replies) := PerformAll(v, ops);
            Sound(w) && Extends(v.table, w.table) && |replies| == |ops|
    decreases |ops|
  {
    hide Sound, Perform, Extends;
    if ops == [] {
      ExtendsItself(v.table);
    } else {
      var init := ops[..|ops| - 1];
      PerformAllKeeps(v, init);
      var w := PerformAll(v, init).0;
      PerformKeeps(w, ops[|ops| - 1]);
      ExtendsTwice(v.table, w.table, Perform(w, ops[|ops| - 1]).0.table);
    }
  }

  lemma PerformOneMore(v: View, ops: seq<Op>, op: Op)
    ensures PerformAll(v, ops + [op]) ==
            var (w, replies) := PerformAll(v, ops);
            var (x, reply) := Perform(w, op);
            (x, replies + [reply])
    ensures PerformAll(v, []) == (v, [])
  {
    hide Perform;
    assert (ops + [op])[..|ops|] == ops;
  }

  // ---------- What operations change ----------

  function ReactionAt(t: Table<Machine>, state: StateName, event: Event): Option<Reaction> {
    if state in t.states && event in t.states[state].reactions then Some(t.states[state].reactions[event]) else None
  }

  function EdgeAt(t: Table<Machine>, state: StateName, event: Event): Option<Jump> {
    if state in t.transitions && event in t.transitions[state] then Some(t.transitions[state][event]) else None
  }

  /** Adding a reaction is what makes a reaction appear, where there was none. */
  lemma PerformReactions(v: View, op: Op, state: StateName, event: Event)
    requires Sound(v)
    ensures var (w, reply) := Perform(v, op);
            if op.AddReaction? && op.state == state && op.event == event && reply == Done
            then ReactionAt(v.table, state, event) == None && ReactionAt(w.table, state, event) == Some(op.reaction)
            else ReactionAt(w.table, state, event) == ReactionAt(v.table, state, event)
  {
    hide WellFormed, Known, Step;
  }

  /** Adding a transition is what makes an edge appear, or replaces one on request. */
  lemma PerformEdges(v: View, op: Op, state: StateName, event: Event)
    requires Sound(v)
    ensures var (w, reply) := Perform(v, op);
            if op.AddTransition? && op.start == state && op.event == event && reply == Done
               && (op.replace || EdgeAt(v.table, state, event).None?)
            then && state in v.table.states && op.end in v.table.states
                 && EdgeAt(w.table, state, event)
                    == Some(Jump(op.end, v.table.states[op.end].onEnter, v.table.states[state].onExit))
            else EdgeAt(w.table, state, event) == EdgeAt(v.table, state, event)
  {
    hide WellFormed, Known, Step;
    TransitionsOfSound(v);
  }

  lemma TransitionsOfSound(v: View)
    requires Sound(v)
    ensures v.table.transitions.Keys == v.table.states.Keys
  {
    hide WellFormed;
    TransitionsOfStates(v.table);
  }

  /** Adding a state is what makes a state appear, last in the order; the other
      operations change nothing but the one thing they are for. */
  lemma PerformStates(v: View, op: Op, state: StateName)
    requires Sound(v)
    ensures var (w, reply) := Perform(v, op);
            && (if op.AddState? && reply == Done then w.table.order == v.table.order + [op.state] && op.state !in v.table.states
                else w.table.order == v.table.order)
            && (state in w.table.states <==> state in v.table.states || (op.AddState? && reply == Done && op.state == state))
            && (op.AddState? && reply == Done && op.state == state ==>
                  var row := w.table.states[state];
                  && row.terminal == op.terminal && row.onEnter == op.onEnter && row.onExit == op.onExit
                  && row.machine == op.machine && row.reactions == map[])
            && w.default == (if op.SetDefaultStart? && reply == Done then Some(op.state) else v.default)
            && w.frozen == (v.frozen || op.Freeze?)
            && (!op.Initialize? && !op.Process? ==> w.current == v.current)
            && (v.frozen ==> w.table == v.table)
  {
    hide WellFormed, Known, Step;
  }

  /** No sequence of operations loses or replaces a reaction. */
  lemma {:induction false} ReactionsStay(v: View, ops: seq<Op>, state: StateName, event: Event)
    requires Sound(v) && ReactionAt(v.table, state, event).Some?
    ensures ReactionAt(PerformAll(v, ops).0.table, state, event) == ReactionAt(v.table, state, event)
    decreases |ops|
  {
    hide Sound, Perform, ReactionAt;
    if ops != [] {
      var init, last := ops[..|ops| - 1], ops[|ops| - 1];
      ReactionsStay(v, init, state, event);
      PerformAllKeeps(v, init);
      PerformReactions(PerformAll(v, init).0, last, state, event);
    }
  }

  /** The effect of a step is that of the state entered: its flag, its nested machine,
      and its reaction to the event, if it has one. */
  lemma ProcessMeaning(v: View, event: Event)
    ensures var (w, reply) := Perform(v, Process(event));
            reply.Moved? ==>
              && w.current.Some? && w.current.value.name in v.table.states && w.table == v.table
              && reply.effect.reaction == ReactionAt(v.table, w.current.value.name, event)
              && reply.effect.terminal == v.table.states[w.current.value.name].terminal
              && reply.effect.machine == v.table.states[w.current.value.name].machine
  {
  }

  /** Once a reaction was added, every later step into its state on its event
      carries it, whatever was done in between. */
  lemma ReactionServed(v: View, state: StateName, event: Event, reaction: Reaction, ops: seq<Op>)
    requires Sound(v) && Perform(v, AddReaction(state, event, reaction)).1 == Done
    ensures var later := PerformAll(Perform(v, AddReaction(state, event, reaction)).0, ops).0;
            var (w, reply) := Perform(later, Process(event));
            reply.Moved? && w.current.value.name == state ==> reply.effect.reaction == Some(reaction)
  {
    hide Sound, Perform, ReactionAt;
    var op := AddReaction(state, event, reaction);
    PerformKeeps(v, op);
    PerformReactions(v, op, state, event);
    ReactionsStay(Perform(v, op).0, ops, state, event);
    ProcessMeaning(PerformAll(Perform(v, op).0, ops).0, event);
  }

  // ---------- Machines ----------

  method Do(m: Machine, op: Op) returns (reply: Reply)
    requires m.Valid()
    modifies m, m.tables
    ensures m.Valid() && (ViewOf(m), reply) == old(Perform(ViewOf(m), op))
    ensures Extends(old(m.tables.Contents()), m.tables.Contents())
  {
    hide WellFormed, Step;
    ExtendsItself(m.tables.Contents());
    var r: Option<Error> := None;
    match op {
      case AddState(state, terminal, onEnter, onExit, machine) =>
        r := m.AddState(state, terminal, onEnter, onExit, machine);
      case AddReaction(state, event, reaction) =>
        r := m.AddReaction(state, event, reaction);
      case AddTransition(start, end, event, replace) =>
        TransitionsOfStates(m.tables.Contents());
        r := m.AddTransition(start, end, event, replace);
      case SetDefaultStart(state) =>
        r := m.SetDefaultStart(state);
      case Initialize(from) =>
        r := m.InitializeSelf(from);
      case Process(event) =>
        var moved, calls := m.ProcessEvent(event);
        return match moved case Success(effect) => Moved(effect, calls) case Failure(error) => Refused(error);
      case Freeze =>
        m.Freeze();
    }
    reply := if r.Some? then Refused(r.value) else Done;
  }

  // ---------- Copies ----------

  /** A copy, deep or shallow, and its source, started alike, make the same moves
      and callbacks and end alike on every event and every prompting. */
  method RunCopy(m: Machine, shallow: bool, unfreeze: bool, start: Option<StateName>, event: Event, prompts: seq<Prompt>)
    returns (c: Machine, error: Option<Error>, ours: Run, theirs: Run)
    requires m.Valid()
    modifies m`current
    ensures m.Valid() && c.Valid() && fresh(c) && (shallow ==> c.tables == m.tables)
    ensures var t, chosen := m.tables.Contents(), if start.Some? then start else m.defaultStart;
            if Startable(t, chosen) then
              && error == None && ours == theirs == RunFrom(t, Some(StartJump(t, chosen.value)), event, prompts)
              && m.current == c.current == ours.current
            else error == Some(StartError(t, chosen)) && m.current == old(m.current) && c.current == None
  {
    hide WellFormed, Known, RunFrom;
    c := m.Copy(shallow, unfreeze);
    ours, theirs := Run([], None, Suspended), Run([], None, Suspended);
    error := m.InitializeSelf(start);
    var again := c.InitializeSelf(start);
    if error.None? {
      var legs, outcome := RunIter(m, event, false, prompts);
      ours := Run(legs, m.current, outcome);
      legs, outcome := RunIter(c, event, false, prompts);
      theirs := Run(legs, c.current, outcome);
    }
  }
}
