/** FiniteMachine down to its dictionaries: which of them a copy owns, and which it
    shares. Here the table of a machine is spread over objects that change in place. */
module DictMachines {
  import opened Wrappers
  import opened Machines
  import opened MachineCopies

  /** The reactions of a state. */
  class Reactions {
    var entries: map<Event, Reaction>

    constructor (entries: map<Event, Reaction>)
      ensures this.entries == entries
    {
      this.entries := entries;
    }
  }

  /** The row of a state in the state table. */
  class Row {
    var terminal: bool
    var reactions: Reactions
    var onEnter: Option<Callback>
    var onExit: Option<Callback>
    var machine: Option<Machine>

    constructor (terminal: bool, reactions: Reactions, onEnter: Option<Callback>, onExit: Option<Callback>,
                 machine: Option<Machine>)
      ensures this.terminal == terminal && this.reactions == reactions && this.machine == machine
      ensures this.onEnter == onEnter && this.onExit == onExit
    {
      this.terminal, this.reactions, this.machine, this.onEnter, this.onExit := terminal, reactions, machine, onEnter, onExit;
    }

    /** A copy of the row whose reactions are a copy too. */
    method Copy() returns (r: Row)
      ensures fresh(r) && fresh(r.reactions) && r.Data() == Data()
    {
      r := new Row(terminal, reactions, onEnter, onExit, machine);
      r.reactions := new Reactions(r.reactions.entries);
    }

    function Data(): StateData<Machine>
      reads this, reactions
    {
      StateData(terminal, reactions.entries, onEnter, onExit, machine)
    }
  }

  /** The transitions out of a state. */
  class Edges {
    var targets: map<Event, Jump>

    constructor (targets: map<Event, Jump>)
      ensures this.targets == targets
    {
      this.targets := targets;
    }
  }

  /** The two outer dictionaries. */
  class Dictionaries {
    var order: seq<StateName>
    var rows: map<StateName, Row>
    var edges: map<StateName, Edges>
    ghost var repr: set<object>  // these dictionaries and all inner ones

    /** No inner dictionary serves two states. */
    ghost predicate Owned()
      reads this, repr
    {
      && this in repr
      && (forall s :: s in rows ==> rows[s] in repr && rows[s].reactions in repr)
      && (forall s :: s in edges ==> edges[s] in repr)
      && (forall s, u :: s in rows && u in rows && s != u ==> rows[s] != rows[u] && rows[s].reactions != rows[u].reactions)
      && (forall s, u :: s in edges && u in edges && s != u ==> edges[s] != edges[u])
    }

    /** Together the dictionaries hold the table t. */
    ghost predicate Holds(t: Table<Machine>)
      requires Owned()
      reads this, repr
    {
      && order == t.order && rows.Keys == t.states.Keys && edges.Keys == t.transitions.Keys
      && (forall s :: s in rows ==> rows[s].Data() == t.states[s])
      && (forall s :: s in edges ==> edges[s].targets == t.transitions[s])
    }

    constructor ()
      ensures fresh(repr) && Owned() && Holds(Table([], map[], map[]))
    {
      order, rows, edges := [], map[], map[];
      repr := {this};
    }

    /** A new row for a state, last in the order. */
    method PutRow(state: StateName, row: Row, ghost t: Table<Machine>, ghost data: StateData<Machine>)
      requires row.Data() == data && Owned() && Holds(t) && state !in t.states && row !in repr && row.reactions !in repr
      modifies this
      ensures Owned() && repr == old(repr) + {row, row.reactions} && rows == old(rows)[state := row]
      ensures Holds(Table(t.order + [state], t.states[state := data], t.transitions))
    {
      order := order + [state];
      rows := rows[state := row];
      repr := repr + {row, row.reactions};
      assert Owned();
    }

    /** A new dictionary of transitions for a state. */
    method PutEdges(state: StateName, targets: Edges, ghost t: Table<Machine>, ghost data: map<Event, Jump>)
      requires targets.targets == data && Owned() && Holds(t) && state !in t.transitions && targets !in repr
      modifies this
      ensures Owned() && repr == old(repr) + {targets} && rows == old(rows)
      ensures Holds(t.(transitions := t.transitions[state := data]))
    {
      edges := edges[state := targets];
      repr := repr + {targets};
      assert Owned();
    }

    method SetMachine(state: StateName, machine: Option<Machine>, ghost t: Table<Machine>)
      requires Owned() && Holds(t) && state in t.states && state in rows
      modifies rows[state]
      ensures Owned() && repr == old(repr)
      ensures Holds(t.(states := t.states[state := t.states[state].(machine := machine)]))
    {
      assert forall s :: s in rows && s != state ==> rows[s] != rows[state];
      rows[state].machine := machine;
      assert Owned() by {
        assert forall s :: s in rows ==> rows[s].reactions == old(rows[s].reactions);
      }
      assert rows[state].Data() == t.states[state].(machine := machine);
    }

    /** add_state's two assignments, then the one of hierarchical machines. */
    method AddState(state: StateName, terminal: bool, onEnter: Option<Callback>, onExit: Option<Callback>,
                    machine: Option<Machine>, ghost t: Table<Machine>)
      requires Owned() && Holds(t) && state !in t.states && state !in t.transitions
      modifies this
      ensures fresh(repr - old(repr))
      ensures Owned() && Holds(WithState(t, state, StateData(terminal, map[], onEnter, onExit, machine)))
    {
      hide Owned, Holds;
      SelfOwned();
      var reactions := new Reactions(map[]);
      var row := new Row(terminal, reactions, onEnter, onExit, None);
      ghost var data := StateData(terminal, map[], onEnter, onExit, None);
      PutRow(state, row, t, data);
      var targets := new Edges(map[]);
      PutEdges(state, targets, Table(t.order + [state], t.states[state := data], t.transitions), map[]);
      if machine.Some? {
        SetMachine(state, machine, WithState(t, state, data));
        assert t.states[state := data][state := data.(machine := machine)] == t.states[state := data.(machine := machine)];
      }
    }

    lemma SelfOwned()
      requires Owned()
      ensures this in repr
    {
    }

    method AddReaction(state: StateName, event: Event, reaction: Reaction, ghost t: Table<Machine>)
      requires Owned() && Holds(t) && state in rows
      modifies rows[state].reactions
      ensures repr == old(repr) && Owned() && Holds(WithReaction(t, state, event, reaction))
    {
      var reactions := rows[state].reactions;
      reactions.entries := reactions.entries[event := reaction];
    }

    method AddTransition(start: StateName, end: StateName, event: Event, ghost t: Table<Machine>)
      requires Owned() && Holds(t) && start in rows && end in rows && start in edges
      modifies edges[start]
      ensures repr == old(repr) && Owned() && Holds(WithEdge(t, start, end, event))
    {
      var target := Jump(end, rows[end].onEnter, rows[start].onExit);
      edges[start].targets := edges[start].targets[event := target];
    }

    /** The two loops of a deep copy. */
    method Copy(ghost t: Table<Machine>) returns (c: Dictionaries)
      requires Owned() && Holds(t) && Lists(t.order, t.states.Keys)
      ensures fresh(c.repr) && c.Owned() && c.Holds(t)
    {
      hide Owned, Holds;
      c := new Dictionaries();
      CopyRows(c, t);
      CopyEdges(c, t);
    }

    method CopyRow(state: StateName, ghost t: Table<Machine>) returns (copied: Row)
      requires Owned() && Holds(t) && state in t.states
      ensures fresh(copied) && fresh(copied.reactions) && copied.Data() == t.states[state]
    {
      copied := rows[state].Copy();
    }

    method CopyTargets(state: StateName, ghost t: Table<Machine>) returns (copied: Edges)
      requires Owned() && Holds(t) && state in t.transitions
      ensures fresh(copied) && copied.targets == t.transitions[state]
    {
      copied := new Edges(edges[state].targets);
    }

    /** Every row is copied, and its reactions once more. */
    method CopyRows(c: Dictionaries, ghost t: Table<Machine>)
      requires Owned() && Holds(t) && Lists(t.order, t.states.Keys)
      requires c !in repr && c.Owned() && c.Holds(Table([], map[], map[]))
      modifies c
      ensures c.Owned() && fresh(c.repr - old(c.repr)) && c.Holds(t.(transitions := map[]))
    {
      hide *;
      OrderIs(t);
      FirstRowsEnds(t);
      for i := 0 to |order|
        invariant c.Owned() && fresh(c.repr - old(c.repr)) && c.Holds(FirstRows(t, i))
      {
        var state := order[i];
        FirstRowsMore(t, i);
        var copied := CopyRow(state, t);
        c.PutRow(state, copied, FirstRows(t, i), t.states[state]);
      }
    }

    method CopyEdges(c: Dictionaries, ghost t: Table<Machine>)
      requires Owned() && Holds(t)
      requires c !in repr && c.Owned() && c.Holds(t.(transitions := map[]))
      modifies c
      ensures c.Owned() && fresh(c.repr - old(c.repr)) && c.Holds(t)
    {
      hide Owned, Holds;
      OrderIs(t);
      var states := edges.Keys;
      ghost var done := t.(transitions := map[]);
      while states != {}
        invariant states <= t.transitions.Keys && c.Owned() && fresh(c.repr - old(c.repr)) && c.Holds(done)
        invariant done.order == t.order && done.states == t.states
        invariant done.transitions.Keys == t.transitions.Keys - states
        invariant forall s :: s in done.transitions ==> done.transitions[s] == t.transitions[s]
      {
        var state :| state in states;
        var copied := CopyTargets(state, t);
        c.PutEdges(state, copied, done, t.transitions[state]);
        done := done.(transitions := done.transitions[state := t.transitions[state]]);
        states := states - {state};
      }
      assert done.transitions == t.transitions;
      assert done == t;
    }

    /** _effect_builder. */
    method EffectOf(state: StateName, event: Event, ghost t: Table<Machine>) returns (effect: Effect<Machine>)
      requires Owned() && Holds(t) && state in t.states
      ensures var data := t.states[state];
              effect == Effect(if event in data.reactions then Some(data.reactions[event]) else None, data.terminal, data.machine)
    {
      hide Owned, Holds;
      RowOf(t, state);
      var entries := rows[state].reactions.entries;
      effect := Effect(if event in entries then Some(entries[event]) else None, rows[state].terminal, rows[state].machine);
    }

    lemma RowOf(t: Table<Machine>, s: StateName)
      requires Owned() && Holds(t)
      ensures s in rows <==> s in t.states
      ensures s in rows ==> rows[s].Data() == t.states[s] && rows[s].reactions in repr
    {
    }

    lemma EdgesOf(t: Table<Machine>, s: StateName)
      requires Owned() && Holds(t)
      ensures s in edges <==> s in t.transitions
      ensures s in edges ==> edges[s].targets == t.transitions[s] && edges[s] in repr
    {
    }

    lemma OrderIs(t: Table<Machine>)
      requires Owned() && Holds(t)
      ensures this in repr && order == t.order && edges.Keys == t.transitions.Keys
    {
    }
  }

  lemma ListsOf(t: Table<Machine>)
    requires WellFormed(t)
    ensures Lists(t.order, t.states.Keys)
  {
  }

  /** process_event on a view, without the lookups that cannot fail. */
  lemma PerformProcess(v: View, event: Event)
    requires Sound(v)
    ensures v.table.transitions.Keys == v.table.states.Keys
    ensures v.current.Some? ==> v.current.value.name in v.table.states
    ensures Perform(v, Process(event)) ==
            if v.current.None? then (v, Refused(NotInitialized))
            else
              var here := v.current.value;
              if v.table.states[here.name].terminal then (v, Refused(InvalidState))
              else if event !in v.table.transitions[here.name] then (v, Refused(NotFound))
              else
                var jump := v.table.transitions[here.name][event];
                if jump.name !in v.table.states then (v, Refused(KeyError))
                else
                  var data := v.table.states[jump.name];
                  var reaction := if event in data.reactions then Some(data.reactions[event]) else None;
                  (v.(current := Some(jump)),
                   Moved(Effect(reaction, data.terminal, data.machine),
                         Invoke(here.onExit, here.name, event) + Invoke(jump.onEnter, jump.name, event)))
    ensures Perform(v, Process(event)).1 != Refused(KeyError)
  {
    hide WellFormed;
    StepWellFormed(v.table, v.current, event);
    TransitionsOfStates(v.table);
  }

  /** The first n rows of a table. */
  ghost function FirstRows(t: Table<Machine>, n: nat): Table<Machine>
    requires n <= |t.order|
  {
    Table(t.order[..n], map s | s in t.states && s in t.order[..n] :: t.states[s], map[])
  }

  lemma FirstRowsEnds(t: Table<Machine>)
    requires Lists(t.order, t.states.Keys)
    ensures FirstRows(t, 0) == Table([], map[], map[])
    ensures FirstRows(t, |t.order|) == t.(transitions := map[])
  {
    assert t.order[..|t.order|] == t.order;
  }

  lemma FirstRowsMore(t: Table<Machine>, i: nat)
    requires i < |t.order| && Lists(t.order, t.states.Keys)
    ensures var rows, s := FirstRows(t, i), t.order[i];
            && s in t.states && s !in rows.states
            && FirstRows(t, i + 1) == Table(rows.order + [s], rows.states[s := t.states[s]], rows.transitions)
  {
    var s := t.order[i];
    assert t.order[..i + 1] == t.order[..i] + [s];
    assert s in t.states && s !in t.order[..i];
    hide Lists;
    assert forall k :: k in t.order[..i + 1] <==> k in t.order[..i] || k == s;
    assert FirstRows(t, i + 1).states == FirstRows(t, i).states[s := t.states[s]];
  }

  /** FiniteMachine; shallow copies share the object with the two dictionaries. */
  class DictMachine {
    const dicts: Dictionaries
    var defaultStart: Option<StateName>
    var current: Option<Jump>
    var frozen: bool

    constructor (dicts: Dictionaries, defaultStart: Option<StateName>, frozen: bool)
      ensures this.dicts == dicts && this.defaultStart == defaultStart && this.current == None && this.frozen == frozen
    {
      this.dicts, this.defaultStart, this.current, this.frozen := dicts, defaultStart, None, frozen;
    }

    /** The machine and all its dictionaries hold v. */
    ghost predicate Shows(v: View)
      reads this, dicts, dicts.repr
    {
      && this !in dicts.repr && dicts.Owned() && dicts.Holds(v.table) && Sound(v)
      && defaultStart == v.default && current == v.current && frozen == v.frozen
    }

    method AddState(op: Op, ghost v: View) returns (reply: Reply)
      requires op.AddState? && Shows(v)
      modifies dicts.repr
      ensures Shows(Perform(v, op).0) && reply == Perform(v, op).1 && fresh(dicts.repr - old(dicts.repr))
    {
      hide WellFormed, Known, Dictionaries.Owned;
      PerformKeeps(v, op);
      if frozen { return Refused(FrozenMachine); }
      if op.state in dicts.rows { return Refused(Duplicate); }
      TransitionsOfStates(v.table);
      dicts.SelfOwned();
      dicts.AddState(op.state, op.terminal, op.onEnter, op.onExit, op.machine, v.table);
      reply := Done;
    }

    method AddReaction(op: Op, ghost v: View) returns (reply: Reply)
      requires op.AddReaction? && Shows(v)
      modifies dicts.repr
      ensures Shows(Perform(v, op).0) && reply == Perform(v, op).1 && dicts.repr == old(dicts.repr)
    {
      hide Sound, Dictionaries.Owned, Dictionaries.Holds;
      PerformKeeps(v, op);
      dicts.RowOf(v.table, op.state);
      if frozen { return Refused(FrozenMachine); }
      if op.state !in dicts.rows { return Refused(NotFound); }
      if op.event in dicts.rows[op.state].reactions.entries { return Refused(Duplicate); }
      dicts.AddReaction(op.state, op.event, op.reaction, v.table);
      reply := Done;
    }

    method AddTransition(op: Op, ghost v: View) returns (reply: Reply)
      requires op.AddTransition? && Shows(v)
      modifies dicts.repr
      ensures Shows(Perform(v, op).0) && reply == Perform(v, op).1 && dicts.repr == old(dicts.repr)
    {
      hide Sound, Dictionaries.Owned, Dictionaries.Holds;
      PerformKeeps(v, op);
      dicts.RowOf(v.table, op.start);
      dicts.RowOf(v.table, op.end);
      dicts.EdgesOf(v.table, op.start);
      TransitionsOfSound(v);
      if frozen { return Refused(FrozenMachine); }
      if op.start !in dicts.rows { return Refused(NotFound); }
      if op.end !in dicts.rows { return Refused(NotFound); }
      if dicts.rows[op.start].terminal { return Refused(InvalidState); }
      var targets := dicts.edges[op.start].targets;
      if op.event in targets && !op.replace {
        if targets[op.event].name != op.end { return Refused(Duplicate); }
      } else {
        dicts.AddTransition(op.start, op.end, op.event, v.table);
      }
      reply := Done;
    }

    method Initialize(start: Option<StateName>, ghost v: View) returns (reply: Reply)
      requires Shows(v)
      modifies this`current
      ensures Shows(Perform(v, Op.Initialize(start)).0) && reply == Perform(v, Op.Initialize(start)).1
    {
      hide WellFormed;
      var chosen := if start.Some? then start else defaultStart;
      if chosen.None? || chosen.value !in dicts.rows { return Refused(NotFound); }
      if dicts.rows[chosen.value].terminal { return Refused(InvalidState); }
      current := Some(Jump(chosen.value, None, dicts.rows[chosen.value].onExit));
      reply := Done;
    }

    method ProcessEvent(event: Event, ghost v: View) returns (reply: Reply)
      requires Shows(v)
      modifies this`current
      ensures Shows(Perform(v, Process(event)).0) && reply == Perform(v, Process(event)).1
    {
      hide Sound, Perform, Dictionaries.Owned, Dictionaries.Holds;
      PerformKeeps(v, Process(event));
      PerformProcess(v, event);
      if current.None? { return Refused(NotInitialized); }
      var here := current.value;
      dicts.RowOf(v.table, here.name);
      dicts.EdgesOf(v.table, here.name);
      if dicts.rows[here.name].terminal { return Refused(InvalidState); }
      if event !in dicts.edges[here.name].targets { return Refused(NotFound); }
      var replacement := dicts.edges[here.name].targets[event];
      var calls := [];
      if here.onExit.Some? {
        calls := calls + [Call(here.onExit.value, here.name, event)];
      }
      if replacement.onEnter.Some? {
        calls := calls + [Call(replacement.onEnter.value, replacement.name, event)];
      }
      current := Some(replacement);
      var effect := dicts.EffectOf(replacement.name, event, v.table);
      reply := Moved(effect, calls);
    }

    method SetDefaultStart(state: StateName, ghost v: View) returns (reply: Reply)
      requires Shows(v)
      modifies this`defaultStart
      ensures Shows(Perform(v, Op.SetDefaultStart(state)).0) && reply == Perform(v, Op.SetDefaultStart(state)).1
    {
      hide WellFormed, Dictionaries.Owned, Dictionaries.Holds;
      dicts.RowOf(v.table, state);
      if frozen { return Refused(FrozenMachine); }
      if state !in dicts.rows { return Refused(NotFound); }
      defaultStart := Some(state);
      reply := Done;
    }

    method Freeze(ghost v: View) returns (reply: Reply)
      requires Shows(v)
      modifies this`frozen
      ensures Shows(Perform(v, Op.Freeze).0) && reply == Perform(v, Op.Freeze).1
    {
      hide WellFormed, Dictionaries.Owned, Dictionaries.Holds;
      frozen := true;
      reply := Done;
    }

    /** Any operation does to the dictionaries what it does to the view. */
    method Do(op: Op, ghost v: View) returns (reply: Reply)
      requires Shows(v)
      modifies this, dicts.repr
      ensures Shows(Perform(v, op).0) && reply == Perform(v, op).1 && fresh(dicts.repr - old(dicts.repr))
    {
      hide *;
      match op {
        case AddState(_, _, _, _, _) => reply := AddState(op, v);
        case AddReaction(_, _, _) => reply := AddReaction(op, v);
        case AddTransition(_, _, _, _) => reply := AddTransition(op, v);
        case SetDefaultStart(state) => reply := SetDefaultStart(state, v);
        case Initialize(start) => reply := Initialize(start, v);
        case Process(event) => reply := ProcessEvent(event, v);
        case Freeze => reply := Freeze(v);
      }
    }

    /** copy: a deep copy owns every one of its dictionaries, a shallow one none. */
    method Copy(shallow: bool, unfreeze: bool, ghost v: View) returns (c: DictMachine)
      requires Shows(v)
      ensures fresh(c) && c.Shows(v.(current := None, frozen := v.frozen && !unfreeze))
      ensures if shallow then c.dicts == dicts else fresh(c.dicts) && fresh(c.dicts.repr)
    {
      hide WellFormed, Dictionaries.Owned, Dictionaries.Holds;
      ListsOf(v.table);
      var copyFrozen := if unfreeze && frozen then false else frozen;
      var copied := dicts;
      if !shallow {
        copied := dicts.Copy(v.table);
        copied.SelfOwned();
      }
      c := new DictMachine(copied, defaultStart, copyFrozen);
    }
  }

  // ---------- Two machines side by side ----------

  datatype Turn = Turn(second: bool, op: Op)

  /** What one of the two machines is asked to do. */
  function OpsOf(script: seq<Turn>, second: bool): seq<Op> {
    if script == [] then []
    else
      var last := script[|script| - 1];
      OpsOf(script[..|script| - 1], second) + if last.second == second then [last.op] else []
  }

  lemma OpsOneMore(script: seq<Turn>, turn: Turn, second: bool)
    ensures var ops := OpsOf(script, second);
            OpsOf(script + [turn], second) == if turn.second == second then ops + [turn.op] else ops
  {
    assert (script + [turn])[..|script|] == script;
  }

  /** No dictionary, inner or outer, belongs to both machines. */
  ghost predicate Apart(m: DictMachine, c: DictMachine)
    reads m, c, m.dicts, c.dicts
  {
    m != c && m.dicts.repr !! c.dicts.repr && m !in c.dicts.repr && c !in m.dicts.repr
  }

  /** One operation on one of two machines that are apart. */
  method DoApart(m: DictMachine, op: Op, c: DictMachine, ghost v: View, ghost w: View) returns (reply: Reply)
    requires m.Shows(v) && c.Shows(w) && Apart(m, c)
    modifies m, m.dicts.repr
    ensures m.Shows(Perform(v, op).0) && reply == Perform(v, op).1
    ensures c.Shows(w) && Apart(m, c) && c.dicts.repr == old(c.dicts.repr) && fresh(m.dicts.repr - old(m.dicts.repr))
  {
    hide Perform, Sound, Dictionaries.Holds;
    m.dicts.SelfOwned();
    c.dicts.SelfOwned();
    reply := m.Do(op, v);
  }

  /** Machines with dictionaries of their own take no notice of each other, however
      what is done with them is interleaved: each answers, and ends up, as if alone. */
  method Interleave(m: DictMachine, c: DictMachine, script: seq<Turn>, ghost v: View, ghost w: View)
    returns (ours: seq<Reply>, theirs: seq<Reply>)
    requires m.Shows(v) && c.Shows(w) && Apart(m, c)
    modifies m, m.dicts.repr, c, c.dicts.repr
    ensures var alone := PerformAll(v, OpsOf(script, false));
            m.Shows(alone.0) && ours == alone.1
    ensures var alone := PerformAll(w, OpsOf(script, true));
            c.Shows(alone.0) && theirs == alone.1
    ensures Apart(m, c)
  {
    hide *;
    ours, theirs := [], [];
    NothingDone(v, w);
    for i := 0 to |script|
      invariant m.Shows(PerformAll(v, OpsOf(script[..i], false)).0) && ours == PerformAll(v, OpsOf(script[..i], false)).1
      invariant c.Shows(PerformAll(w, OpsOf(script[..i], true)).0) && theirs == PerformAll(w, OpsOf(script[..i], true)).1
      invariant Apart(m, c) && fresh(m.dicts.repr - old(m.dicts.repr)) && fresh(c.dicts.repr - old(c.dicts.repr))
    {
      var turn := script[i];
      assert script[..i + 1] == script[..i] + [turn];
      OpsOneMore(script[..i], turn, false);
      OpsOneMore(script[..i], turn, true);
      ghost var before, behind := PerformAll(v, OpsOf(script[..i], false)).0, PerformAll(w, OpsOf(script[..i], true)).0;
      if turn.second {
        PerformOneMore(w, OpsOf(script[..i], true), turn.op);
        ApartTurned(m, c);
        var reply := DoApart(c, turn.op, m, behind, before);
        ApartTurned(c, m);
        theirs := theirs + [reply];
      } else {
        PerformOneMore(v, OpsOf(script[..i], false), turn.op);
        var reply := DoApart(m, turn.op, c, before, behind);
        ours := ours + [reply];
      }
    }
    assert script[..|script|] == script;
  }

  lemma ApartTurned(m: DictMachine, c: DictMachine)
    requires Apart(m, c)
    ensures Apart(c, m)
  {
  }

  lemma NothingDone(v: View, w: View)
    ensures OpsOf([], false) == OpsOf([], true) == []
    ensures PerformAll(v, []) == (v, []) && PerformAll(w, []) == (w, [])
  {
  }

  /** A deep copy and its source, started alike, stay two separate machines: each
      answers, and ends up, as the one machine they both were when started would
      if asked its own share of the script. Equal shares get equal answers. */
  method RunDeepCopy(m: DictMachine, unfreeze: bool, start: Option<StateName>, script: seq<Turn>, ghost v: View)
    returns (c: DictMachine, ours: seq<Reply>, theirs: seq<Reply>)
    requires m.Shows(v)
    modifies m, m.dicts.repr
    ensures fresh(c) && fresh(c.dicts) && Apart(m, c)
    ensures var copied := v.(current := None, frozen := v.frozen && !unfreeze);
            var mine := PerformAll(Perform(v, Initialize(start)).0, OpsOf(script, false));
            var other := PerformAll(Perform(copied, Initialize(start)).0, OpsOf(script, true));
            && m.Shows(mine.0) && ours == mine.1 && c.Shows(other.0) && theirs == other.1
    ensures Startable(v.table, if start.Some? then start else v.default) ==>
              Perform(v.(current := None, frozen := v.frozen && !unfreeze), Initialize(start)).0
              == (var begun := Perform(v, Initialize(start)).0; begun.(frozen := begun.frozen && !unfreeze))
  {
    hide PerformAll, OpsOf, Sound, Step, Dictionaries.Owned, Dictionaries.Holds;
    m.dicts.SelfOwned();
    c := m.Copy(false, unfreeze, v);
    c.dicts.SelfOwned();
    ghost var copied := v.(current := None, frozen := v.frozen && !unfreeze);
    var _ := m.Initialize(start, v);
    var _ := c.Initialize(start, copied);
    ours, theirs := Interleave(m, c, script, Perform(v, Initialize(start)).0, Perform(copied, Initialize(start)).0);
  }

  /** Whatever is done with one of two machines that share their dictionaries, a
      shallow copy and its source, the other stays where it was, with its start
      state and its frozen flag; it holds the same extended tables. */
  method EditShared(m: DictMachine, c: DictMachine, ops: seq<Op>, ghost v: View, ghost w: View) returns (replies: seq<Reply>)
    requires m.Shows(v) && c.Shows(w) && m != c && m.dicts == c.dicts && v.table == w.table
    modifies c, c.dicts.repr
    ensures var done := PerformAll(w, ops);
            && c.Shows(done.0) && replies == done.1 && m.Shows(v.(table := done.0.table))
            && Extends(v.table, done.0.table)
  {
    hide *;
    replies := [];
    ShowsSound(c, w);
    PerformAllKeeps(w, ops);
    NothingDone(w, w);
    for i := 0 to |ops|
      invariant c.Shows(PerformAll(w, ops[..i]).0) && replies == PerformAll(w, ops[..i]).1
      invariant m.Shows(v.(table := PerformAll(w, ops[..i]).0.table))
      invariant fresh(c.dicts.repr - old(c.dicts.repr))
    {
      assert ops[..i + 1] == ops[..i] + [ops[i]];
      PerformOneMore(w, ops[..i], ops[i]);
      ghost var before := PerformAll(w, ops[..i]).0;
      var reply := DoShared(c, ops[i], m, before, v.(table := before.table));
      replies := replies + [reply];
    }
    assert ops[..|ops|] == ops;
  }

  lemma ShowsSound(m: DictMachine, v: View)
    requires m.Shows(v)
    ensures Sound(v)
  {
  }

  method DoShared(m: DictMachine, op: Op, c: DictMachine, ghost v: View, ghost w: View) returns (reply: Reply)
    requires m.Shows(v) && c.Shows(w) && m != c && m.dicts == c.dicts && v.table == w.table
    modifies m, m.dicts.repr
    ensures m.Shows(Perform(v, op).0) && reply == Perform(v, op).1
    ensures c.Shows(w.(table := Perform(v, op).0.table)) && fresh(m.dicts.repr - old(m.dicts.repr))
  {
    hide Perform, WellFormed, Dictionaries.Holds, Dictionaries.Owned;
    PerformKeeps(v, op);
    reply := m.Do(op, v);
  }
}
