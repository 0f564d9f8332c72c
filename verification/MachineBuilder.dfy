/** FiniteMachine.build: a machine from a listing of its states. */
module MachineBuilder {
  import opened Wrappers
  import opened Sequences
  import opened Machines

  datatype StateSpec = StateSpec(name: StateName, terminal: bool, nextStates: map<Event, StateName>,
                                 onEnter: Option<Callback>, onExit: Option<Callback>)

  function Names(space: seq<StateSpec>): (r: seq<StateName>)
    ensures |r| == |space| && forall i :: 0 <= i < |space| ==> r[i] == space[i].name
  {
    seq(|space|, i requires 0 <= i < |space| => space[i].name)
  }

  ghost predicate Listed(space: seq<StateSpec>, n: nat, name: StateName)
    requires n <= |space|
  {
    exists i :: 0 <= i < n && space[i].name == name
  }

  /** The edge leads to a listed state and does not leave a terminal one. */
  ghost predicate Sound(space: seq<StateSpec>, spec: StateSpec, event: Event)
    requires event in spec.nextStates
  {
    Listed(space, |space|, spec.nextStates[event]) && !spec.terminal
  }

  /** The error a bad edge of the i-th state raises, all states before being sound.
      Its edges are added in any order, so any of its bad edges may come first. */
  ghost predicate FirstBadEdge(space: seq<StateSpec>, i: nat, error: Error)
    requires i < |space|
  {
    exists e :: e in space[i].nextStates && !Sound(space, space[i], e)
                && error == if Listed(space, |space|, space[i].nextStates[e]) then InvalidState else NotFound
  }

  ghost predicate SoundUpTo(space: seq<StateSpec>, n: nat)
    requires n <= |space|
  {
    forall i, e :: 0 <= i < n && e in space[i].nextStates ==> Sound(space, space[i], e)
  }

  ghost predicate Connected(space: seq<StateSpec>) {
    SoundUpTo(space, |space|)
  }

  function Data(spec: StateSpec): StateData<Machine> {
    StateData(spec.terminal, map[], spec.onEnter, spec.onExit, None)
  }

  /** The row has the flag and the callbacks that were listed, and nothing else. */
  ghost predicate IsListed(row: StateData<Machine>, spec: StateSpec) {
    && row.terminal == spec.terminal && row.onEnter == spec.onEnter && row.onExit == spec.onExit
    && row.reactions == map[] && row.machine == None
  }

  /** The state table lists exactly the first n states, in order. */
  ghost predicate HasStates(t: Table<Machine>, space: seq<StateSpec>, n: nat)
    requires n <= |space|
  {
    && |t.order| == n
    && (forall i :: 0 <= i < n ==> t.order[i] == space[i].name && space[i].name in t.states
                                   && IsListed(t.states[space[i].name], space[i]))
    && (forall s :: s in t.states ==> Listed(space, n, s))
  }

  /** The edges of the state are exactly those it lists for the given events. */
  ghost predicate HasEdges(t: Table<Machine>, spec: StateSpec, events: set<Event>) {
    && spec.name in t.transitions && t.transitions[spec.name].Keys == events <= spec.nextStates.Keys
    && forall e :: e in events ==> t.transitions[spec.name][e].name == spec.nextStates[e]
  }

  /** All edges of the first n states, none of the others. */
  ghost predicate HasEdgesUpTo(t: Table<Machine>, space: seq<StateSpec>, n: nat) {
    forall i :: 0 <= i < |space| ==> HasEdges(t, space[i], if i < n then space[i].nextStates.Keys else {})
  }

  lemma AddedState(t: Table<Machine>, space: seq<StateSpec>, n: nat)
    requires n < |space| && HasStates(t, space, n) && HasEdgesUpTo(t, space[..n], 0) && Distinct(Names(space[..n]))
    requires space[n].name !in t.states
    ensures var t' := WithState(t, space[n].name, Data(space[n]));
            HasStates(t', space, n + 1) && HasEdgesUpTo(t', space[..n + 1], 0) && Distinct(Names(space[..n + 1]))
  {
    AddedStateEdges(t, space, n);
    hide HasEdges, HasEdgesUpTo, Distinct;
    assert Names(space[..n + 1]) == Names(space[..n]) + [space[n].name];
    DistinctMore(Names(space[..n]), [], space[n].name);
    assert Listed(space, n + 1, space[n].name);
    forall s | s in t.states
      ensures Listed(space, n + 1, s)
    {
      assert Listed(space, n, s);
    }
  }

  lemma AddedStateEdges(t: Table<Machine>, space: seq<StateSpec>, n: nat)
    requires n < |space| && HasEdgesUpTo(t, space[..n], 0)
    requires forall i :: 0 <= i < n ==> space[i].name != space[n].name
    ensures HasEdgesUpTo(WithState(t, space[n].name, Data(space[n])), space[..n + 1], 0)
  {
    var more := space[..n + 1];
    forall i | 0 <= i < |more|
      ensures HasEdges(WithState(t, space[n].name, Data(space[n])), more[i], {})
    {
      if i < n { assert HasEdges(t, space[..n][i], {}); }
    }
  }

  method AddStates(m: Machine, space: seq<StateSpec>) returns (r: Option<Error>)
    requires m.Valid() && !m.frozen && m.tables.Contents() == Table([], map[], map[])
    modifies m.tables
    ensures m.Valid()
    ensures r == if Distinct(Names(space)) then None else Some(Duplicate)
    ensures r.None? ==> HasStates(m.tables.Contents(), space, |space|) && HasEdgesUpTo(m.tables.Contents(), space, 0)
  {
    hide WellFormed, HasEdges, HasEdgesUpTo, Extends;
    EmptyTable(space);
    for i := 0 to |space|
      invariant m.Valid() && Distinct(Names(space[..i]))
      invariant HasStates(m.tables.Contents(), space, i) && HasEdgesUpTo(m.tables.Contents(), space[..i], 0)
    {
      if space[i].name !in m.tables.states { AddedState(m.tables.Contents(), space, i); }
      r := m.AddState(space[i].name, space[i].terminal, space[i].onEnter, space[i].onExit, None);
      if r.Some? {
        var j :| 0 <= j < i && space[j].name == space[i].name;
        return;
      }
    }
    assert space[..|space|] == space;
    r := None;
  }

  lemma EmptyTable(space: seq<StateSpec>)
    ensures var t := Table<Machine>.Table([], map[], map[]);
            HasStates(t, space, 0) && HasEdgesUpTo(t, space[..0], 0) && Distinct(Names(space[..0]))
  {
  }

  lemma AddedEdge(t: Table<Machine>, space: seq<StateSpec>, i: nat, done: set<Event>, e: Event)
    requires i < |space| && Distinct(Names(space)) && HasStates(t, space, |space|)
    requires HasEdgesBut(t, space, i, done) && e in space[i].nextStates && Sound(space, space[i], e)
    ensures space[i].nextStates[e] in t.states && space[i].name in t.states
    ensures var t' := WithEdge(t, space[i].name, space[i].nextStates[e], e);
            HasStates(t', space, |space|) && HasEdgesBut(t', space, i, done + {e})
  {
    assert Listed(space, |space|, space[i].nextStates[e]);
    assert HasEdges(t, space[i], done);
    var t' := WithEdge(t, space[i].name, space[i].nextStates[e], e);
    forall j | 0 <= j < |space| && j != i
      ensures HasEdges(t', space[j], if j < i then space[j].nextStates.Keys else {})
    {
      assert space[j].name != space[i].name;
      assert HasEdges(t, space[j], if j < i then space[j].nextStates.Keys else {});
    }
  }

  /** All edges before state i, the given ones of state i, none after. */
  ghost predicate HasEdgesBut(t: Table<Machine>, space: seq<StateSpec>, i: nat, done: set<Event>)
    requires i < |space|
  {
    && HasEdges(t, space[i], done)
    && forall j :: 0 <= j < |space| && j != i ==> HasEdges(t, space[j], if j < i then space[j].nextStates.Keys else {})
  }

  method AddEdges(m: Machine, space: seq<StateSpec>, i: nat) returns (r: Option<Error>)
    requires m.Valid() && !m.frozen && i < |space| && Distinct(Names(space))
    requires HasStates(m.tables.Contents(), space, |space|) && HasEdgesUpTo(m.tables.Contents(), space, i)
    modifies m.tables`transitions
    ensures m.Valid()
    ensures r.None? <==> forall e :: e in space[i].nextStates ==> Sound(space, space[i], e)
    ensures r.None? ==> HasStates(m.tables.Contents(), space, |space|) && HasEdgesUpTo(m.tables.Contents(), space, i + 1)
    ensures r.Some? ==> FirstBadEdge(space, i, r.value)
  {
    hide WellFormed, HasEdges;
    var spec := space[i];
    var events := spec.nextStates.Keys;
    ghost var done: set<Event> := {};
    r := None;
    while events != {}
      invariant m.Valid() && r.None? && events <= spec.nextStates.Keys && done == spec.nextStates.Keys - events
      invariant HasStates(m.tables.Contents(), space, |space|) && HasEdgesBut(m.tables.Contents(), space, i, done)
      invariant forall e :: e in done ==> Sound(space, spec, e)
    {
      var e :| e in events;
      events := events - {e};
      NotYet(m.tables.Contents(), spec, done, e);
      if Sound(space, spec, e) { AddedEdge(m.tables.Contents(), space, i, done, e); }
      r := m.AddTransition(spec.name, spec.nextStates[e], e, false);
      if r.Some? { return; }
      done := done + {e};
    }
    assert done == spec.nextStates.Keys;
  }

  lemma NotYet(t: Table<Machine>, spec: StateSpec, done: set<Event>, e: Event)
    requires HasEdges(t, spec, done) && e !in done
    ensures spec.name in t.transitions && e !in t.transitions[spec.name]
  {
  }

  /** build succeeds exactly on listings with distinct names whose edges lead to
      listed states and leave no terminal one; the machine then has exactly the
      listed states, in order, and exactly the listed edges. */
  method Build(space: seq<StateSpec>) returns (m: Machine, r: Option<Error>)
    ensures fresh(m) && m.Valid() && m.current == None && !m.frozen
    ensures r.None? <==> Distinct(Names(space)) && Connected(space)
    ensures r == Some(Duplicate) <==> !Distinct(Names(space))
    ensures r.Some? && r.value != Duplicate ==>
              exists i :: 0 <= i < |space| && SoundUpTo(space, i) && FirstBadEdge(space, i, r.value)
    ensures r.None? ==>
              HasStates(m.tables.Contents(), space, |space|) && HasEdgesUpTo(m.tables.Contents(), space, |space|)
  {
    hide WellFormed, HasEdges, HasEdgesUpTo, HasStates;
    m := new Machine();
    r := AddStates(m, space);
    if r.Some? { return; }
    for i := 0 to |space|
      invariant m.Valid() && m.current == None && !m.frozen && r.None?
      invariant HasStates(m.tables.Contents(), space, |space|) && HasEdgesUpTo(m.tables.Contents(), space, i)
      invariant SoundUpTo(space, i)
    {
      r := AddEdges(m, space, i);
      if r.Some? { return; }
    }
  }

  /** The triples __iter__ yields for the built machine are exactly the listed edges. */
  lemma BuiltEdges(t: Table<Machine>, space: seq<StateSpec>, s: StateName, e: Event, d: StateName)
    requires WellFormed(t) && Distinct(Names(space))
    requires HasStates(t, space, |space|) && HasEdgesUpTo(t, space, |space|)
    ensures (s in t.transitions && e in t.transitions[s] && t.transitions[s][e].name == d) <==>
            exists i :: 0 <= i < |space| && space[i].name == s && e in space[i].nextStates && space[i].nextStates[e] == d
  {
    hide WellFormed;
    if s in t.transitions && e in t.transitions[s] {
      assert t.transitions.Keys == t.states.Keys by { TransitionsOfStates(t); }
      assert Listed(space, |space|, s);
      var i :| 0 <= i < |space| && space[i].name == s;
      assert HasEdges(t, space[i], space[i].nextStates.Keys);
      assert e in space[i].nextStates && space[i].nextStates[e] == t.transitions[s][e].name;
    }
    if exists i :: 0 <= i < |space| && space[i].name == s && e in space[i].nextStates && space[i].nextStates[e] == d {
      var i :| 0 <= i < |space| && space[i].name == s && e in space[i].nextStates && space[i].nextStates[e] == d;
      assert HasEdges(t, space[i], space[i].nextStates.Keys);
    }
  }
}
