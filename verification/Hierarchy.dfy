/** A hierarchy of machines, some nested in states of others, and
    HierarchicalFiniteMachine.initialize. */
module Hierarchy {
  import opened Wrappers
  import opened Machines

  /** The machines of a hierarchy with their tables and start states, and a rank
      that shows the nesting to be acyclic. */
  datatype Nesting = Nesting(table: map<Machine, Table<Machine>>,
                             default: map<Machine, Option<StateName>>,
                             rank: map<Machine, nat>)
  {
    ghost predicate Valid() {
      && table.Keys == default.Keys == rank.Keys
      && (forall m, s :: m in table && s in table[m].states && table[m].states[s].machine.Some? ==>
            var c := table[m].states[s].machine.value;
            c in table && rank[c] < rank[m])
    }

    /** The machine nested in the i-th state of m, if any. */
    ghost function Nested(m: Machine, i: nat): (r: Option<Machine>)
      requires Valid() && m in table && i < |table[m].order|
      ensures r.Some? ==> r.value in table && rank[r.value] < rank[m]
    {
      if table[m].order[i] in table[m].states then table[m].states[table[m].order[i]].machine else None
    }

    /** Everything nested in the states of m from the i-th on, at any depth. */
    ghost function Below(m: Machine, i: nat): (r: set<Machine>)
      requires Valid() && m in table && i <= |table[m].order|
      ensures forall k :: k in r ==> k in table && rank[k] < rank[m]
      decreases rank[m], 0, |table[m].order| - i
    {
      if i == |table[m].order| then {}
      else if Nested(m, i).None? then Below(m, i + 1)
      else Reach(Nested(m, i).value) + Below(m, i + 1)
    }

    /** m and everything nested in it. */
    ghost function Reach(m: Machine): (r: set<Machine>)
      requires Valid() && m in table
      ensures m in r && forall k :: k in r ==> k in table && (k == m || rank[k] < rank[m])
      decreases rank[m], 1
    {
      {m} + Below(m, 0)
    }

    /** m, then the machines nested in its states in the order of the states, each
        followed by those nested in it. */
    ghost function Preorder(m: Machine): (r: seq<Machine>)
      requires Valid() && m in table
      ensures forall k :: k in r ==> k in table
      decreases rank[m], 1
    {
      [m] + PreorderFrom(m, 0)
    }

    ghost function PreorderFrom(m: Machine, i: nat): (r: seq<Machine>)
      requires Valid() && m in table && i <= |table[m].order|
      ensures forall k :: k in r ==> k in table
      decreases rank[m], 0, |table[m].order| - i
    {
      if i == |table[m].order| then []
      else if Nested(m, i).None? then PreorderFrom(m, i + 1)
      else Preorder(Nested(m, i).value) + PreorderFrom(m, i + 1)
    }

    /** The machines nested directly in the states of m. */
    ghost function Nests(m: Machine): (r: set<Machine>)
      requires Valid() && m in table
      ensures forall c :: c in r ==> c in table && rank[c] < rank[m]
    {
      set s | s in table[m].states && table[m].states[s].machine.Some? :: table[m].states[s].machine.value
    }

    /** How deep machines are nested in m. */
    ghost function Height(m: Machine): nat
      requires Valid() && m in table
      decreases rank[m], 1
    {
      Highest(m, Nests(m))
    }

    /** One more than the greatest height of the given machines nested in m. */
    ghost function Highest(m: Machine, nested: set<Machine>): nat
      requires Valid() && m in table && nested <= Nests(m)
      decreases rank[m], 0, nested
    {
      if nested == {} then 0
      else
        var c :| c in nested;
        var h, rest := Height(c) + 1, Highest(m, nested - {c});
        if h < rest then rest else h
    }

    /** The same hierarchy, ranked by height. */
    ghost function ByHeight(): (n: Nesting)
      requires Valid()
      ensures n.table == table && n.default == default && n.rank.Keys == table.Keys
      ensures forall k :: k in table ==> n.rank[k] == Height(k)
    {
      hide Height, Highest, Nests;
      this.(rank := map k | k in table :: Height(k))
    }

    /** The jump initialisation gives a machine, if it can start at all. */
    ghost function Start(m: Machine): (r: Option<Jump>)
      requires Valid() && m in table
      ensures Known(table[m], r)
    {
      if Startable(table[m], default[m]) then Some(StartJump(table[m], default[m].value)) else None
    }
  }

  lemma {:induction false} HighestMeaning(n: Nesting, m: Machine, nested: set<Machine>)
    requires n.Valid() && m in n.table && nested <= n.Nests(m)
    ensures forall c :: c in nested ==> n.Height(c) < n.Highest(m, nested)
    ensures if nested == {} then n.Highest(m, nested) == 0
            else exists c :: c in nested && n.Highest(m, nested) == n.Height(c) + 1
    decreases nested
  {
    hide Nesting.Valid, Nesting.Nests, Nesting.Height;
    if nested != {} {
      var c :| c in nested && n.Highest(m, nested) ==
        var h, rest := n.Height(c) + 1, n.Highest(m, nested - {c}); if h < rest then rest else h;
      HighestMeaning(n, m, nested - {c});
    }
  }

  /** A machine is higher than those nested in it, by one than the highest of them. */
  lemma HeightMeaning(n: Nesting, m: Machine)
    requires n.Valid() && m in n.table
    ensures forall c :: c in n.Nests(m) ==> n.Height(c) < n.Height(m)
    ensures if n.Nests(m) == {} then n.Height(m) == 0 else exists c :: c in n.Nests(m) && n.Height(m) == n.Height(c) + 1
  {
    hide Nesting.Valid, Nesting.Nests, Nesting.Highest;
    HighestMeaning(n, m, n.Nests(m));
  }

  /** Heights are the least rank there is. */
  lemma {:induction false} HeightIsLeastRank(n: Nesting, m: Machine)
    requires n.Valid() && m in n.table
    ensures n.Height(m) <= n.rank[m]
    decreases n.rank[m]
  {
    hide Nesting.Height, Nesting.Nests;
    HeightMeaning(n, m);
    forall c | c in n.Nests(m)
      ensures n.Height(c) <= n.rank[c]
    {
      HeightIsLeastRank(n, c);
    }
  }

  lemma HeightIsRank(n: Nesting)
    requires n.Valid()
    ensures n.ByHeight().Valid()
  {
    hide Nesting.Height;
    var heights := n.ByHeight();
    forall k, s | k in heights.table && s in heights.table[k].states && heights.table[k].states[s].machine.Some?
      ensures var c := n.table[k].states[s].machine.value;
              c in heights.table && heights.rank[c] < heights.rank[k]
    {
      HeightMeaning(n, k);
      assert n.table[k].states[s].machine.value in n.Nests(k);
    }
  }

  /** Where every machine of a hierarchy stands. */
  type Standing = map<Machine, Option<Jump>>

  ghost predicate IsStanding(n: Nesting, at: Standing) {
    n.Valid() && at.Keys == n.table.Keys
  }

  /** All tables are well-formed, and every machine that stands stands on a known state. */
  ghost predicate Sound(n: Nesting, at: Standing) {
    forall m :: m in n.table && m in at ==> WellFormed(n.table[m]) && Known(n.table[m], at[m])
  }

  /** The objects really are as n describes them. */
  ghost predicate Describes(n: Nesting)
    reads n.table.Keys`defaultStart, set m | m in n.table.Keys :: m.tables
  {
    && n.Valid()
    && forall m :: m in n.table ==> m.tables.Contents() == n.table[m] && m.defaultStart == n.default[m]
  }

  /** The machines stand as at says. */
  ghost predicate Stands(n: Nesting, at: Standing)
    reads n.table.Keys`current
  {
    IsStanding(n, at) && Sound(n, at) && forall m :: m in n.table ==> m.current == at[m]
  }

  // ---------- HierarchicalFiniteMachine.initialize ----------

  /** Depth-first, in the order of the state tables, up to the first failure. */
  ghost function Init(n: Nesting, at: Standing, m: Machine): (r: (Standing, Option<Error>))
    requires IsStanding(n, at) && m in n.table
    ensures IsStanding(n, r.0) && (r.1.Some? ==> r.1.value in {NotFound, InvalidState})
    decreases n.rank[m], 1
  {
    if n.Start(m).None? then (at, Some(StartError(n.table[m], n.default[m])))
    else InitNested(n, at[m := n.Start(m)], m, 0)
  }

  ghost function InitNested(n: Nesting, at: Standing, m: Machine, i: nat): (r: (Standing, Option<Error>))
    requires IsStanding(n, at) && m in n.table && i <= |n.table[m].order|
    ensures IsStanding(n, r.0) && (r.1.Some? ==> r.1.value in {NotFound, InvalidState})
    decreases n.rank[m], 0, |n.table[m].order| - i
  {
    if i == |n.table[m].order| then (at, None)
    else if n.Nested(m, i).None? then InitNested(n, at, m, i + 1)
    else
      var (now, error) := Init(n, at, n.Nested(m, i).value);
      if error.Some? then (now, error) else InitNested(n, now, m, i + 1)
  }

  /** No machine outside reached moved, those in it only to their start states, and
      all of them if all. */
  ghost predicate Restarted(n: Nesting, at: Standing, now: Standing, reached: set<Machine>, all: bool) {
    && n.Valid() && at.Keys == now.Keys == n.table.Keys
    && forall k :: k in n.table ==>
         if k !in reached then now[k] == at[k] else now[k] == n.Start(k) || (now[k] == at[k] && !all)
  }

  lemma RestartedTwice(n: Nesting, at: Standing, mid: Standing, now: Standing, first: set<Machine>, second: set<Machine>,
                       all: bool)
    requires Restarted(n, at, mid, first, all) && Restarted(n, mid, now, second, all)
    ensures Restarted(n, at, now, first + second, all)
  {
    hide Nesting.Valid, Nesting.Start;
  }

  lemma RestartedWithin(n: Nesting, at: Standing, now: Standing, first: set<Machine>, second: set<Machine>)
    requires Restarted(n, at, now, first, false) && first <= second
    ensures Restarted(n, at, now, second, false)
  {
    hide Nesting.Valid, Nesting.Start;
  }

  lemma RestartedOne(n: Nesting, at: Standing, m: Machine)
    requires IsStanding(n, at) && m in n.table
    ensures Restarted(n, at, at, {}, true) && Restarted(n, at, at, {m}, false)
    ensures IsStanding(n, at[m := n.Start(m)]) && Restarted(n, at, at[m := n.Start(m)], {m}, true)
  {
    hide Nesting.Start;
  }

  /** Initialisation succeeds exactly when m and every machine nested in it can
      start; it then puts exactly those machines on their start states. */
  lemma {:induction false} InitMeaning(n: Nesting, at: Standing, m: Machine)
    requires IsStanding(n, at) && m in n.table
    ensures var (now, error) := Init(n, at, m);
            && (error.None? <==> forall k :: k in n.Reach(m) ==> n.Start(k).Some?)
            && Restarted(n, at, now, n.Reach(m), error.None?)
    decreases n.rank[m], 1
  {
    hide Nesting.Start, Restarted;
    RestartedOne(n, at, m);
    if n.Start(m).Some? {
      var begun := at[m := n.Start(m)];
      InitNestedMeaning(n, begun, m, 0);
      var (now, error) := InitNested(n, begun, m, 0);
      if error.Some? { RestartedPartly(n, at, begun, {m}); }
      RestartedTwice(n, at, begun, now, {m}, n.Below(m, 0), error.None?);
    } else {
      RestartedWithin(n, at, at, {m}, n.Reach(m));
    }
  }

  lemma RestartedPartly(n: Nesting, at: Standing, now: Standing, reached: set<Machine>)
    requires Restarted(n, at, now, reached, true)
    ensures Restarted(n, at, now, reached, false)
  {
    hide Nesting.Valid, Nesting.Start;
  }

  lemma {:induction false} InitNestedMeaning(n: Nesting, at: Standing, m: Machine, i: nat)
    requires IsStanding(n, at) && m in n.table && i <= |n.table[m].order|
    ensures var (now, error) := InitNested(n, at, m, i);
            && (error.None? <==> forall k :: k in n.Below(m, i) ==> n.Start(k).Some?)
            && Restarted(n, at, now, n.Below(m, i), error.None?)
    decreases n.rank[m], 0, |n.table[m].order| - i
  {
    hide Known, Nesting.Start, Nesting.Nested, Restarted;
    if i == |n.table[m].order| {
      RestartedOne(n, at, m);
    } else if n.Nested(m, i).None? {
      InitNestedMeaning(n, at, m, i + 1);
    } else {
      var c := n.Nested(m, i).value;
      var (mid, error) := Init(n, at, c);
      InitMeaning(n, at, c);
      if error.None? {
        InitNestedMeaning(n, mid, m, i + 1);
        var (now, error') := InitNested(n, mid, m, i + 1);
        if error'.Some? { RestartedPartly(n, at, mid, n.Reach(c)); }
        RestartedTwice(n, at, mid, now, n.Reach(c), n.Below(m, i + 1), error'.None?);
      } else {
        RestartedWithin(n, at, mid, n.Reach(c), n.Below(m, i));
      }
    }
  }

  /** Starting machines one after the other, up to the first that cannot start. */
  ghost function StartEach(n: Nesting, at: Standing, machines: seq<Machine>): (Standing, Option<Error>)
    requires n.Valid() && forall k :: k in machines ==> k in n.table
    decreases |machines|
  {
    if machines == [] then (at, None)
    else
      var m := machines[0];
      if n.Start(m).None? then (at, Some(StartError(n.table[m], n.default[m])))
      else StartEach(n, at[m := n.Start(m)], machines[1..])
  }

  lemma {:induction false} StartBoth(n: Nesting, at: Standing, a: seq<Machine>, b: seq<Machine>)
    requires n.Valid() && (forall k :: k in a ==> k in n.table) && (forall k :: k in b ==> k in n.table)
    ensures var first := StartEach(n, at, a);
            StartEach(n, at, a + b) == if first.1.Some? then first else StartEach(n, first.0, b)
    decreases |a|
  {
    hide Nesting.Valid, Nesting.Start;
    if a == [] {
      assert a + b == b;
    } else {
      assert (a + b)[0] == a[0] && (a + b)[1..] == a[1..] + b;
      if n.Start(a[0]).Some? { StartBoth(n, at[a[0] := n.Start(a[0])], a[1..], b); }
    }
  }

  /** The error is that of one of the machines that cannot start. */
  ghost predicate Unstartable(n: Nesting, machines: seq<Machine>, error: Error)
    requires n.Valid() && forall k :: k in machines ==> k in n.table
  {
    exists k :: k in machines && n.Start(k).None? && error == StartError(n.table[k], n.default[k])
  }

  lemma {:induction false} FirstUnstartable(n: Nesting, at: Standing, machines: seq<Machine>)
    requires n.Valid() && forall k :: k in machines ==> k in n.table
    ensures var error := StartEach(n, at, machines).1;
            error.Some? ==> Unstartable(n, machines, error.value)
    decreases |machines|
  {
    hide Nesting.Start;
    if machines != [] {
      assert machines[0] in machines;
      if n.Start(machines[0]).Some? { FirstUnstartable(n, at[machines[0] := n.Start(machines[0])], machines[1..]); }
    }
  }

  /** The recursion starts machines in preorder; the error is that of the first one
      that cannot start, and those before it stand on their start states. */
  lemma {:induction false} InitIsPreorder(n: Nesting, at: Standing, m: Machine)
    requires IsStanding(n, at) && m in n.table
    ensures Init(n, at, m) == StartEach(n, at, n.Preorder(m))
    decreases n.rank[m], 1
  {
    hide Nesting.Start, Known;
    assert ([m] + n.PreorderFrom(m, 0))[1..] == n.PreorderFrom(m, 0);
    if n.Start(m).Some? { InitNestedIsPreorder(n, at[m := n.Start(m)], m, 0); }
  }

  lemma {:induction false} InitNestedIsPreorder(n: Nesting, at: Standing, m: Machine, i: nat)
    requires IsStanding(n, at) && m in n.table && i <= |n.table[m].order|
    ensures InitNested(n, at, m, i) == StartEach(n, at, n.PreorderFrom(m, i))
    decreases n.rank[m], 0, |n.table[m].order| - i
  {
    hide Nesting.Start, Known, Nesting.Nested;
    if i < |n.table[m].order| {
      if n.Nested(m, i).None? {
        InitNestedIsPreorder(n, at, m, i + 1);
      } else {
        var c := n.Nested(m, i).value;
        InitIsPreorder(n, at, c);
        StartBoth(n, at, n.Preorder(c), n.PreorderFrom(m, i + 1));
        var (now, error) := Init(n, at, c);
        if error.None? { InitNestedIsPreorder(n, now, m, i + 1); }
      }
    }
  }

  lemma InitSound(n: Nesting, at: Standing, m: Machine)
    requires IsStanding(n, at) && Sound(n, at) && m in n.table
    ensures Sound(n, Init(n, at, m).0)
  {
    hide WellFormed, Init, Nesting.Reach, Nesting.Valid;
    InitMeaning(n, at, m);
  }

  lemma AsDescribed(m: Machine, n: Nesting, at: Standing)
    requires Describes(n) && Stands(n, at) && m in n.table
    ensures IsStanding(n, at) && Sound(n, at) && n.Valid() && m in n.rank && m in n.default
    ensures m.Valid() && m.defaultStart == n.default[m] && m.tables.Contents() == n.table[m]
    ensures m.tables.order == n.table[m].order && m.tables.states == n.table[m].states
    ensures forall i :: 0 <= i < |n.table[m].order| ==> n.table[m].order[i] in n.table[m].states
  {
  }

  lemma StandsEach(n: Nesting, at: Standing)
    requires Stands(n, at)
    ensures IsStanding(n, at) && Sound(n, at) && at.Keys == n.table.Keys
    ensures forall k :: k in n.table ==> k.current == at[k]
  {
  }

  lemma StandsMoved(n: Nesting, at: Standing, m: Machine, jump: Option<Jump>)
    requires IsStanding(n, at) && Sound(n, at) && at.Keys == n.table.Keys
    requires m in n.table && Known(n.table[m], jump) && m.current == jump
    requires forall k :: k in n.table && k != m ==> k.current == at[k]
    ensures IsStanding(n, at[m := jump]) && Stands(n, at[m := jump])
  {
    hide WellFormed, Known, Nesting.Valid;
  }

  lemma StartMeaning(n: Nesting, m: Machine)
    requires n.Valid() && m in n.table && m in n.default
    ensures var t, start := n.table[m], n.default[m];
            n.Start(m) == if Startable(t, start) then Some(StartJump(t, start.value)) else None
  {
  }

  // ---------- Explicit start states ----------

  function Or<T>(a: Option<T>, b: Option<T>): Option<T> {
    if a.Some? then a else b
  }

  /** c is n with the start states that an explicit one for m, and a fetcher for
      the machines nested in it, leave to choose. */
  ghost predicate Chooses(n: Nesting, c: Nesting, m: Machine, start: Option<StateName>,
                          fetcher: Machine -> Option<StateName>) {
    && n.Valid() && c.Valid() && c.table == n.table && c.rank == n.rank && m in n.table
    && c.default[m] == Or(start, n.default[m])
    && forall k :: k in n.table && n.rank[k] < n.rank[m] ==> c.default[k] == Or(fetcher(k), n.default[k])
  }

  ghost function Choice(n: Nesting, m: Machine, start: Option<StateName>, fetcher: Machine -> Option<StateName>): (c: Nesting)
    requires n.Valid() && m in n.table
    ensures Chooses(n, c, m, start, fetcher) && c.default.Keys == n.default.Keys
    ensures forall k :: k in n.default ==> c.default[k] == Or(if k == m then start else fetcher(k), n.default[k])
  {
    n.(default := map k | k in n.table :: Or(if k == m then start else fetcher(k), n.default[k]))
  }

  /** Without explicit start states every machine starts where it does by default. */
  lemma NoChoice(n: Nesting, m: Machine, fetcher: Machine -> Option<StateName>)
    requires n.Valid() && m in n.table && forall k :: k in n.table ==> fetcher(k) == None
    ensures Choice(n, m, None, fetcher) == n
  {
    assert Choice(n, m, None, fetcher).default == n.default;
  }

  lemma ChoiceBelow(n: Nesting, c: Nesting, m: Machine, start: Option<StateName>, fetcher: Machine -> Option<StateName>, k: Machine)
    requires Chooses(n, c, m, start, fetcher) && k in n.table && n.rank[k] < n.rank[m]
    ensures Chooses(n, c, k, fetcher(k), fetcher)
  {
  }

  lemma ChoiceShape(n: Nesting, c: Nesting, m: Machine, start: Option<StateName>, fetcher: Machine -> Option<StateName>)
    requires Chooses(n, c, m, start, fetcher)
    ensures n.Valid() && c.Valid() && c.table == n.table && c.rank == n.rank && m in n.table && m in n.default && m in c.default
    ensures c.default[m] == Or(start, n.default[m])
    ensures forall at :: IsStanding(n, at) <==> IsStanding(c, at)
  {
  }

  method InitializeOne(m: Machine, start: Option<StateName>, fetcher: Machine -> Option<StateName>,
                       ghost n: Nesting, ghost c: Nesting, ghost at: Standing)
    returns (r: Option<Error>)
    requires Describes(n) && Stands(n, at) && Chooses(n, c, m, start, fetcher)
    modifies m`current
    ensures c.Valid() && m in c.table && m in c.default
    ensures r == if c.Start(m).None? then Some(StartError(c.table[m], c.default[m])) else None
    ensures Stands(n, if r.None? then at[m := c.Start(m)] else at)
  {
    hide WellFormed, Machine.Valid, Nesting.Valid, Describes, Known, Nesting.Start, Chooses, Stands, Sound, IsStanding;
    ChoiceShape(n, c, m, start, fetcher);
    AsDescribed(m, n, at);
    StandsEach(n, at);
    StartMeaning(c, m);
    r := m.InitializeSelf(start);
    StandsMoved(n, at, m, if r.None? then c.Start(m) else at[m]);
    assert at[m := at[m]] == at;
  }

  lemma InitStep(n: Nesting, at: Standing, m: Machine, i: nat)
    requires IsStanding(n, at) && m in n.table && i < |n.table[m].order|
    requires n.table[m].order[i] in n.table[m].states
    ensures match n.table[m].states[n.table[m].order[i]].machine
            case None => InitNested(n, at, m, i) == InitNested(n, at, m, i + 1)
            case Some(c) =>
              && c in n.table && c in n.rank && n.rank[c] < n.rank[m]
              && IsStanding(n, Init(n, at, c).0)
              && InitNested(n, at, m, i) ==
                   if Init(n, at, c).1.Some? then Init(n, at, c) else InitNested(n, Init(n, at, c).0, m, i + 1)
  {
  }

  lemma InitBegin(n: Nesting, at: Standing, m: Machine)
    requires IsStanding(n, at) && m in n.table && m in n.default
    ensures n.Start(m).None? ==> Init(n, at, m) == (at, Some(StartError(n.table[m], n.default[m])))
    ensures n.Start(m).Some? ==> IsStanding(n, at[m := n.Start(m)]) && Init(n, at, m) == InitNested(n, at[m := n.Start(m)], m, 0)
    ensures InitNested(n, at, m, |n.table[m].order|) == (at, None)
  {
    hide Nesting.Start;
  }

  /** HierarchicalFiniteMachine.initialize: the source's recursion, with the start
      states that the start given to the outermost call and the fetcher choose. */
  method Initialize(m: Machine, start: Option<StateName>, fetcher: Machine -> Option<StateName>,
                    ghost n: Nesting, ghost at: Standing)
    returns (r: Option<Error>)
    requires Describes(n) && Stands(n, at) && m in n.table
    modifies n.table.Keys`current
    ensures Describes(n) && n.Valid()
    ensures var c := Choice(n, m, start, fetcher);
            && IsStanding(c, at) && m in c.table
            && Stands(n, Init(c, at, m).0) && r == Init(c, at, m).1
  {
    hide *;
    AsDescribed(m, n, at);
    r := InitializeAs(m, start, fetcher, n, Choice(n, m, start, fetcher), at);
  }

  method InitializeAs(m: Machine, start: Option<StateName>, fetcher: Machine -> Option<StateName>,
                    ghost n: Nesting, ghost c: Nesting, ghost at: Standing)
    returns (r: Option<Error>)
    requires Describes(n) && Stands(n, at) && Chooses(n, c, m, start, fetcher)
    modifies n.table.Keys`current
    ensures Describes(n) && IsStanding(c, at) && m in c.table
    ensures Stands(n, Init(c, at, m).0) && r == Init(c, at, m).1
    decreases n.rank[m]
  {
    hide *;
    ChoiceShape(n, c, m, start, fetcher);
    AsDescribed(m, n, at);
    InitBegin(c, at, m);
    r := InitializeOne(m, start, fetcher, n, c, at);
    if r.Some? { return; }
    ghost var now := at[m := c.Start(m)];
    var order, states := m.tables.order, m.tables.states;
    var i := 0;
    while i < |order|
      invariant 0 <= i <= |order| && r.None?
      invariant IsStanding(c, now) && Describes(n) && Stands(n, now)
      invariant Init(c, at, m) == InitNested(c, now, m, i)
    {
      InitStep(c, now, m, i);
      var data := states[order[i]];
      if data.machine.Some? {
        var nested := data.machine.value;
        ChoiceBelow(n, c, m, start, fetcher, nested);
        r := InitializeAs(nested, fetcher(nested), fetcher, n, c, now);
        now := Init(c, now, nested).0;
        if r.Some? { return; }
      }
      i := i + 1;
    }
    InitBegin(c, now, m);
  }
}
