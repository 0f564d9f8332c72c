# OpenStack Ocata: state machines, work partitioning and data pipelines, verified

A Dafny 4.11 model of four pieces of OpenStack (Ocata) that other services lean on,
with proofs of the properties their documentation, tests and callers rely on.

| file | models |
|---|---|
| `Machines.dfy` | automaton's `FiniteMachine`: the two tables, the current jump, copies that share or own tables |
| `MachineBuilder.dfy` | `FiniteMachine.build` |
| `FiniteRunner.dfy` | `FiniteRunner.run_iter` and whole runs |
| `ExitCallbacks.dfy` | the callbacks of a run, as coded and as documented |
| `MachineCopies.dfy` | every operation on a machine as a function, and runs of copies |
| `DictMachines.dfy` | `FiniteMachine` down to its inner dictionaries, `copy`, and what a copy and its source do to each other |
| `Hierarchy.dfy` | nested machines and `HierarchicalFiniteMachine.initialize` |
| `HierarchicalExits.dfy` | the exit callbacks of the hierarchical runner, as coded and as documented |
| `HierarchicalRunner.dfy` | `HierarchicalRunner._process_event` and `run_iter`: the stack of machines |
| `Decimals.dfy` | numbers at the end of replica keys and topic names |
| `HashRing.dfy`, `RingLaws.dfy` | the consistent-hash ring of aodh and ceilometer, and its laws |
| `Partition.dfy` | `PartitionCoordinator.extract_my_subset` and the split of work over agents |
| `Routing.dfy` | ceilometer's notification agents: bucketing, topics, queue ownership, delivery |
| `PipelineManager.dfy` | linking sources to sinks, and pipeline names |
| `Sink.dfy` | `SampleSink`: a chain of stateful transformers with a staged flush |
| `Nesting.dfy`, `NestingRoundTrip.dfy` | `recursive_keypairs` and `restore_nesting` |
| `NestedUpdate.dfy` | `update_nested` |
| `ParsedQuery.dfy`, `CanonicalQuery.dfy` | `_parsed_query2dict`, and the dictionary it ought to build |
| `CliQuery.dfy` | `cli_to_array` |

## How the model is built

- Python objects that change in place are classes: the hash ring, a transformer, a sample
  sink, a machine. Their methods are proved against functions on values, and the laws are
  proved about those functions.
- A machine is modelled twice against the same functions. `DictMachines` has a class for
  every dictionary, inner ones too, and says which of them a copy owns; `Machines` keeps a
  table as one value inside an object that shallow copies share, which is what the runners
  need.
- Exceptions are results (`Failure`, `Some(error)`, `Raised`); a failed call states what it
  left unchanged.
- Callbacks are numbers, and a call of a callback is an entry in the sequence of calls that
  a method returns. They neither raise nor change the machine.
- A generator such as `run_iter` is fed with prompts, one per resumption: the event sent
  in, if any, and the event the reaction returns, if it is called. A statement about all
  prompt sequences is a statement about every prefix of every run.
- `hash` on the ring (the first four bytes of an MD5 digest) and Python's `hash` of a
  string are arbitrary functions; nothing is assumed injective.
- Where the source iterates over a dictionary, the model picks the keys in an arbitrary
  order, so what is proved holds for every order. State tables, which are ordered, are
  visited in their order.

## Where the code does not do what it says

- `machines.py:177-181` promises that `on_exit` is the callback of the state being exited.
  A jump stores the `on_exit` of the state it STARTS from, and a later step calls it when
  leaving the state it LED to. `AlwaysDocumentedIff` says of which tables and start states
  the promise is kept: those where the exit callbacks of the two ends of every edge agree
  that a run can reach and go on from. `DocumentedExitFails` gives a run that breaks it.
  The hierarchical runner also calls the stored callback of a machine it pops, so there the
  exit callbacks must agree along all reachable edges (`AlwaysOwnExitIff`,
  `DispatchDocumented`).
- `pipeline.py:588-590` prefixes event pipeline names with `event:` so that they never equal
  the name of a sample pipeline. `NamesCollide` shows a sample pipeline from source `event`
  to sink `disk` and the event pipeline of source and sink `disk` with one name;
  `NamesApartIff` gives the exact condition on the sample pipeline.
- `_parsed_query2dict` mistakes a compared value for an operator when it is one of the
  operator words. `OperatorWordsFail` gives two inputs: comparing with `and` raises, and
  comparing with `=` yields the bare field name. `CanonicalIffClean` gives the exact
  condition for all queries: the intended dictionary is built exactly when no compared value
  is an operator word. On truth values alone the same condition is exact for queries whose
  fields are no operator words (`FaithfulIffClean`) and for single comparisons
  (`FaithfulComparisonIff`), but not for all: `FaithfulByChance` gives a query that means
  the same although it is translated wrongly.

## Model

| member | source | states |
|---|---|---|
| Machines.ActionableIffProcessed | automaton-1.7.1/automaton/machines.py:201-208 | is_actionable_event is true exactly when process_event would succeed; otherwise an initialised machine refuses with InvalidState on a terminal state and with NotFound on any other |
| Machines.StepWellFormed | automaton-1.7.1/automaton/machines.py:285-324 | on tables that satisfy the invariant no lookup of process_event fails |
| Machines.WithStateWellFormed | automaton-1.7.1/automaton/machines.py:183-199 | adding a state keeps both tables in step and takes nothing away |
| Machines.WithReactionWellFormed | automaton-1.7.1/automaton/machines.py:230-241 | adding a reaction keeps the table invariant and every state's flags and callbacks |
| Machines.WithEdgeWellFormed | automaton-1.7.1/automaton/machines.py:264-283 | adding or replacing an edge from a non-terminal state to a known one keeps the table invariant, the jump's stored callbacks included |
| Machines.Machine.SetDefaultStart | automaton-1.7.1/automaton/machines.py:128-135 | refused on a frozen machine or unknown state, which changes nothing; otherwise sets the default |
| Machines.Machine.AddState | automaton-1.7.1/automaton/machines.py:174-199 | the exact error in each case, nothing changed on error, and the new state at the end of both tables otherwise; nested machine as in lines 487-491 |
| Machines.Machine.AddReaction | automaton-1.7.1/automaton/machines.py:210-241 | the exact error in each case, nothing changed on error, and one more reaction otherwise |
| Machines.Machine.AddTransition | automaton-1.7.1/automaton/machines.py:243-283 | the exact error in each case, nothing changed on error; re-adding the same edge without replace is silently nothing, otherwise exactly that edge is set |
| Machines.Machine.IsActionableEvent | automaton-1.7.1/automaton/machines.py:201-208 | true exactly when processing the event would succeed |
| Machines.Machine.ProcessEvent | automaton-1.7.1/automaton/machines.py:285-324 | on success exit then enter is called, the machine stands on the target and the target's effect is returned; a refused event changes nothing and calls nothing |
| Machines.Machine.InitializeSelf | automaton-1.7.1/automaton/machines.py:326-347 | succeeds exactly on a known non-terminal start state, calling nothing; otherwise the exact error and no change |
| DictMachines.DictMachine.Copy | automaton-1.7.1/automaton/machines.py:349-377 | an uninitialised copy; a deep one holds equal tables and owns every dictionary of it, inner ones included, a shallow one uses its source's |
| DictMachines.Row.Copy | automaton-1.7.1/automaton/machines.py:369-370 | a copied row is new, and so is its dictionary of reactions, with the same contents |
| DictMachines.Dictionaries.Copy | automaton-1.7.1/automaton/machines.py:367-373 | the two loops yield dictionaries that hold the same table in the same order and are all new |
| DictMachines.Dictionaries.AddState | automaton-1.7.1/automaton/machines.py:193-199 | adds exactly the new row and its empty inner dictionaries, all new; nested machine as in lines 487-491 |
| DictMachines.Dictionaries.AddReaction | automaton-1.7.1/automaton/machines.py:234-238 | changes one inner dictionary in place, and with it exactly that reaction of the table |
| DictMachines.Dictionaries.AddTransition | automaton-1.7.1/automaton/machines.py:281-283 | changes one inner dictionary in place, and with it exactly that edge of the table |
| DictMachines.DictMachine.Do | automaton-1.7.1/automaton/machines.py:174-347 | every operation on the dictionaries gives the specified reply and the specified contents, and touches only the machine's own dictionaries or new ones |
| MachineBuilder.Build | automaton-1.7.1/automaton/machines.py:137-158 | succeeds exactly for distinct names with edges to listed states and none out of terminal ones, and then has exactly the listed states, in order, and the listed edges; otherwise raises Duplicate for a repeated name, or the error of a bad edge of the first state that has one: NotFound for an unlisted target, else InvalidState |
| MachineBuilder.BuiltEdges | automaton-1.7.1/automaton/machines.py:400-404 | iterating over a built machine yields exactly the listed edges |
| FiniteRunner.RunIter | automaton-1.7.1/automaton/runners.py:73-94 | performs the specified run for every prompting, from the start state or from where the machine stands; a machine that cannot start yields nothing and is unchanged |
| FiniteRunner.RunsArePaths | automaton-1.7.1/automaton/runners.py:73-94 | the yielded pairs form a path through the transition table in which only the last target may be terminal, and the machine ends on the last target |
| FiniteRunner.RunsEndOnTerminalStates | automaton-1.7.1/automaton/runners.py:69-94 | a run from a non-terminal state ends normally only on a terminal state and fails only with NotFound |
| FiniteRunner.RunsFollowPrompts | automaton-1.7.1/automaton/runners.py:73-94 | every later leg is driven by the event sent or else by the one the reaction of the state entered returned; a resumed run finishes exactly on a terminal state and otherwise stops only where nothing drives a next leg |
| ExitCallbacks.CallbacksAsCoded | automaton-1.7.1/automaton/machines.py:315-324 | in every run each step calls exit then enter, the enter callback being the entered state's and the exit callback that of the state left one step earlier, with the name of the state being left |
| ExitCallbacks.AlwaysDocumentedIff | automaton-1.7.1/automaton/machines.py:177-181 | every step of every run from a start state calls the documented callbacks exactly when, along each edge that can be reached and gone on from, the two states share their exit callback |
| ExitCallbacks.DocumentedExitIff | automaton-1.7.1/automaton/machines.py:281-283 | one step calls the documented callbacks exactly when it is the first or the two states left last share their exit callback |
| ExitCallbacks.DocumentedExitFails | automaton-1.7.1/automaton/machines.py:281-283 | a concrete run on which a step calls the wrong exit callback |
| ExitCallbacks.AlwaysOwnExitIff | automaton-1.7.1/automaton/machines.py:177-181 | a machine holds the exit callback of the state it stands on, wherever it can get, exactly when the exit callbacks agree along all reachable edges |
| HierarchicalExits.DispatchDocumented | automaton-1.7.1/automaton/runners.py:128-142 | in a hierarchy whose exit callbacks agree in that way, a dispatch calls exactly what is documented: the exit callbacks of the states the popped machines stood on, topmost first, then those of the step |
| HierarchicalExits.RunsStandOwn | automaton-1.7.1/automaton/runners.py:144-188 | in such a hierarchy this holds of every dispatch of every run, since all machines always hold the exit callback of the state they stand on |
| MachineCopies.RunCopy | automaton-1.7.1/automaton/machines.py:349-377 | a copy, deep or shallow, started in the same state as its source makes the same moves and callbacks under every prompting, with the same outcome and final state |
| DictMachines.EditShared | automaton-1.7.1/automaton/machines.py:374-376 | any sequence of edits, initialisations and events on one of two machines that share their dictionaries leaves the other where it was, with its start state and frozen flag, on the same extended tables |
| MachineCopies.PerformAllKeeps | automaton-1.7.1/automaton/machines.py:174-347 | over any sequence of operations the table invariant holds, the current state is known or unset, and no state, flag or callback is taken away |
| MachineCopies.PerformReactions | automaton-1.7.1/automaton/machines.py:234-238 | a reaction appears only by being added, where there was none; no other operation changes the reaction of any state to any event |
| MachineCopies.PerformEdges | automaton-1.7.1/automaton/machines.py:264-283 | an edge appears, or on request is replaced, only by adding a transition, with the enter callback of its target and the exit callback of its start; every other edge stays as it was |
| MachineCopies.PerformStates | automaton-1.7.1/automaton/machines.py:183-199 | a state appears only by being added, last in the order, with what was asked for and no reactions; the default start, the current state and the frozen flag each change only by their own operations, and nothing in the tables of a frozen machine does |
| MachineCopies.ReactionsStay | automaton-1.7.1/automaton/machines.py:234-241 | no sequence of operations loses or replaces a reaction |
| MachineCopies.ReactionServed | automaton-1.7.1/automaton/machines.py:210-241 | once a reaction was added, every later step into its state on its event carries it, whatever was done in between |
| MachineCopies.ProcessMeaning | automaton-1.7.1/automaton/machines.py:315-324 | the effect of a step has the flag and the nested machine of the state entered, and that state's reaction to the event |
| DictMachines.Interleave | automaton-1.7.1/automaton/machines.py:365-373 | two machines that share no dictionary, driven by any interleaving of operations, each answer and end up as if alone |
| DictMachines.RunDeepCopy | automaton-1.7.1/automaton/machines.py:349-377 | a deep copy and its source, started alike, share no dictionary and each behave under any interleaving as the one machine they both were, so equal requests get equal answers |
| MachineCopies.Do | automaton-1.7.1/automaton/machines.py:174-347 | every operation has its specified reply and effect, and never takes a state, a flag or a callback away |
| Hierarchy.InitMeaning | automaton-1.7.1/automaton/machines.py:502-538 | initialisation succeeds exactly when the machine and all machines nested in it can start, and then moves exactly those to their start states |
| Hierarchy.InitIsPreorder | automaton-1.7.1/automaton/machines.py:521-538 | the recursion starts machines in preorder, each before those nested in its states in table order; the error is that of the first one that cannot start, and those before it have been started |
| Hierarchy.Initialize | automaton-1.7.1/automaton/machines.py:502-538 | the recursive initialisation of a machine and everything nested in it, in table order, up to the first failure, with an explicit start state for the machine and a fetcher of start states for the nested ones |
| Hierarchy.HeightMeaning | automaton-1.7.1/automaton/machines.py:487-491 | a machine is higher than the machines nested in it, by one than the highest of them |
| Hierarchy.HeightIsLeastRank | automaton-1.7.1/automaton/machines.py:487-491 | no ranking that falls along nesting is lower than the height |
| Hierarchy.HeightIsRank | automaton-1.7.1/automaton/machines.py:487-491 | the height is such a ranking itself |
| HierarchicalRunner.StackFalls | automaton-1.7.1/automaton/runners.py:156-170 | a stack satisfying the invariant holds no machine twice |
| HierarchicalRunner.StackDepth | automaton-1.7.1/automaton/runners.py:156-170 | such a stack is at most one deeper than its bottom machine is high, and shallower by what could still be nested in its top |
| HierarchicalRunner.KeepIsInnermost | automaton-1.7.1/automaton/runners.py:128-142 | the handler is the topmost machine that does not raise a caught exception, or the bottom one |
| HierarchicalRunner.InnermostFirst | automaton-1.7.1/automaton/runners.py:116-142 | everything above the handler had refused and is uninitialised, everything beneath and off the stack is untouched, the handler made its own step; when all refuse only the unchanged bottom machine is left |
| HierarchicalRunner.DispatchCalls | automaton-1.7.1/automaton/runners.py:128-142 | the calls of a dispatch are the exit callbacks of the popped machines and then the calls of the handler's step, whose effect it returns |
| HierarchicalRunner.TopmostFirst | automaton-1.7.1/automaton/runners.py:132-140 | of the popped machines the topmost is exited first |
| HierarchicalRunner.RunsStaySound | automaton-1.7.1/automaton/runners.py:144-188 | from tables that satisfy their invariant no run fails with a failed lookup, and every machine always stands on a known state |
| HierarchicalRunner.PassesOnIff | automaton-1.7.1/automaton/runners.py:130-142 | a machine passes an event on exactly when it stands on a state without a transition for it |
| HierarchicalRunner.ProcessEvent | automaton-1.7.1/automaton/runners.py:116-142 | the loop that exits and pops machines reaches exactly the specified dispatch, exit callbacks topmost first |
| HierarchicalRunner.DispatchKeepsStack | automaton-1.7.1/automaton/runners.py:159-162 | dispatch keeps the stack invariant and leaves the handler on top, on a state whose nested machine is the effect's |
| HierarchicalRunner.PushKeepsStack | automaton-1.7.1/automaton/runners.py:163-170 | initialising and pushing the machine of the entered state touches nothing on the stack and keeps the invariant, failed initialisation included |
| HierarchicalRunner.IterateKeepsStack | automaton-1.7.1/automaton/runners.py:159-170 | the stack invariant survives every iteration; a lone bottom machine is the one the effect speaks of |
| HierarchicalRunner.IterateEnters | automaton-1.7.1/automaton/runners.py:158-171 | after every successful iteration the innermost machine that did not pass on has made its step, the machines above it are off the stack, and exactly the machine nested in the state it entered, if there is one, is on top of it on its start state; the pair yielded is the innermost machine's old state and the state entered |
| HierarchicalRunner.IterateFails | automaton-1.7.1/automaton/runners.py:128-170 | an iteration fails with the error of the machine that did not pass on, or of the root when all others did, or with that of a machine nested in the state entered that cannot start |
| HierarchicalRunner.RunsKeepStack | automaton-1.7.1/automaton/runners.py:144-188 | for every run and prompting: each machine on the stack is the one attached to the current state of the machine beneath, the depth is bounded by the height, the run ends normally only with the root alone on a terminal state |
| HierarchicalRunner.RunsFinishIff | automaton-1.7.1/automaton/runners.py:175-179 | a run ends normally exactly when it is resumed after the root entered a terminal state without a nested machine |
| HierarchicalRunner.StackRunsFollowPrompts | automaton-1.7.1/automaton/runners.py:171-188 | the event of every later iteration is the one sent, or else the one the reaction returned |
| HierarchicalRunner.ReadyIterationFailsAtBottom | automaton-1.7.1/automaton/runners.py:132-135 | if all machines can start, an iteration fails only with the unchanged root alone on the stack |
| HierarchicalRunner.ReadyRunsFailAtBottom | automaton-1.7.1/automaton/runners.py:175-188 | if all machines can start, a run ends with InvalidState only when the root alone is on a terminal state, one with a nested machine unless the root stood there from the start |
| HierarchicalRunner.FlatRunsAreFinite | automaton-1.7.1/automaton/runners.py:144-188 | without nested machines the hierarchical runner makes the same run as FiniteRunner |
| HierarchicalRunner.RunIter | automaton-1.7.1/automaton/runners.py:144-188 | the generator performs exactly the specified run of the stack |
| HashRing.HashRing.constructor | ceilometer-8.0.1/ceilometer/utils.py:224-233 | the dictionary holds the last node written at every position and the positions are sorted, repeats included |
| HashRing.HashRing.GetNode | ceilometer-8.0.1/ceilometer/utils.py:246-250 | returns the last writer of the next ring position, going round; none exactly on an empty ring |
| HashRing.HashRing.Position | ceilometer-8.0.1/ceilometer/utils.py:241-244 | the index of the least position above the key's hash, or of the least position when there is none |
| HashRing.Bisect | ceilometer-8.0.1/ceilometer/utils.py:243 | the number of elements at most x |
| HashRing.OwnerUnique | aodh-4.0.0/aodh/coordination.py:93-97 | a position has at most one owner |
| RingLaws.OwnerExists | aodh-4.0.0/aodh/coordination.py:93-97 | every position of a non-empty ring has an owner |
| RingLaws.EntriesIff | ceilometer-8.0.1/ceilometer/utils.py:224-233 | exactly the listed nodes have entries, at the hashes of the node's name, a dash and each replica number |
| RingLaws.ReplicaKeysDiffer | aodh-4.0.0/aodh/coordination.py:77-78 | the keys of different replicas, of one node or of two, are different strings |
| RingLaws.KeysApartSuffices | aodh-4.0.0/aodh/coordination.py:72-80 | if the hash tells the replica keys apart, no two nodes share a position and each node has as many positions as replicas |
| RingLaws.LastListedWins | aodh-4.0.0/aodh/coordination.py:76-80 | where nodes collide, the one listed last has the position |
| RingLaws.MinimalDisruption | aodh-4.0.0/aodh/coordination.py:72-97 | a position not given to n keeps its owner when n is removed, at any place in the list and with hash collisions |
| RingLaws.OrderIndependentIff | aodh-4.0.0/aodh/coordination.py:76-80 | owners are the same for every order of the nodes exactly when no two distinct nodes share a ring position |
| Partition.SharesAreExact | aodh-4.0.0/aodh/coordination.py:216-243 | the shares of all agents together are the work, every item with its multiplicity |
| Partition.SharesAreExactInAnyOrder | aodh-4.0.0/aodh/coordination.py:216-243 | the same when every agent sees the members in an order of its own, provided no two members share a ring position |
| Partition.SharesAreDisjoint | aodh-4.0.0/aodh/coordination.py:238-241 | no item is in the shares of two agents |
| Partition.LeavingTakesNothing | aodh-4.0.0/aodh/coordination.py:238-241 | when an agent leaves, the others keep all the work they had |
| Partition.LoneAgentGetsAll | aodh-4.0.0/aodh/coordination.py:200-202 | an agent without a backend gets everything, in order |
| Partition.ShareMeaning | aodh-4.0.0/aodh/coordination.py:238-241 | an agent keeps an item exactly when the ring of all members gives it the hash of the item's string; shares of concatenated work are concatenated |
| Partition.KeepMine | ceilometer-8.0.1/ceilometer/coordination.py:218-221 | the filtered list is the agent's share in the original order |
| Partition.GetMembers | ceilometer-8.0.1/ceilometer/coordination.py:178-187 | asks again while the group is missing, and returns the first other answer |
| Partition.AnswersMeaning | ceilometer-8.0.1/ceilometer/coordination.py:178-187 | the answers are the replies without those that the group is missing, in order |
| Partition.DecideMeaning | aodh-4.0.0/aodh/coordination.py:211-247 | the first answer that is an error or lists this agent fixes the outcome, nothing after an error and the agent's share otherwise; not in the group exactly when as many answers as allowed omit the agent, waiting exactly when fewer have come |
| Partition.TakenAtMostOnce | aodh-4.0.0/aodh/coordination.py:211-247 | as long as the members that agents are told of agree, no item is taken twice, whatever errors and missing groups agents meet on the way |
| Partition.ExtractMySubset | aodh-4.0.0/aodh/coordination.py:211-247 | everything without a group or backend; otherwise the first of at most ten answers that is an error gives the empty list, or that lists this agent its share; MemberNotInGroupError exactly when ten answers omit it |
| Routing.TopicInjective | ceilometer-8.0.1/ceilometer/notification.py:279-280 | distinct pipelines or queues never share a topic, whatever their names |
| Routing.GetNotifiers | ceilometer-8.0.1/ceilometer/notification.py:104-112 | one notifier topic per queue of the pipeline, named after the pipeline and the queue |
| Routing.HashGrouping | ceilometer-8.0.1/ceilometer/pipeline.py:152-157 | hashes the concatenated grouping fields, missing or None ones counting as empty |
| Routing.GroupingConcat | ceilometer-8.0.1/ceilometer/pipeline.py:153-157 | the grouping value is the concatenation of the fields in the order of the keys |
| Routing.GroupingOne | ceilometer-8.0.1/ceilometer/pipeline.py:156 | a missing or None field counts as empty |
| Routing.EveryFieldCounts | ceilometer-8.0.1/ceilometer/pipeline.py:153-157 | datapoints that differ in one grouping field and agree on the others have different grouping values |
| Routing.Publish | ceilometer-8.0.1/ceilometer/pipeline.py:169-187 | sends every datapoint along exactly its routes, up to the first datapoint without the filter attribute, which raises KeyError |
| Routing.RoutesConcat | ceilometer-8.0.1/ceilometer/pipeline.py:174-186 | batches are routed datapoint by datapoint, in order |
| Routing.RoutesOne | ceilometer-8.0.1/ceilometer/pipeline.py:174-186 | a batch of one datapoint is routed as that datapoint |
| Routing.ConfigureListener | ceilometer-8.0.1/ceilometer/notification.py:276-281 | the targets are the product of owned queues and pipelines |
| Routing.RoutedOnce | ceilometer-8.0.1/ceilometer/pipeline.py:176-186 | a datapoint goes to one queue of each pipeline that accepts it, chosen by its grouping value alone, and to none of the others |
| Routing.ListensIffOwns | ceilometer-8.0.1/ceilometer/notification.py:259-281 | an agent listens on a topic exactly when the pipeline is configured and the ring gives it the queue |
| Routing.OneListener | ceilometer-8.0.1/ceilometer/notification.py:259-281 | every topic that can be sent to is heard by exactly one agent |
| Routing.SameGroupSameAgent | ceilometer-8.0.1/ceilometer/pipeline.py:180-186 | datapoints with equal grouping values reach one and the same agent of the group, and no other |
| Routing.DeliveryIsExact | ceilometer-8.0.1/ceilometer/notification.py:114-139 | over all agents, what is received is what is sent, nothing lost or doubled |
| PipelineManager.Setup | ceilometer-8.0.1/ceilometer/pipeline.py:792-829 | succeeds exactly when names are unique and all sinks exist, yielding one pipeline per source and sink in order; otherwise raises the error of the first source that has no sinks, an unknown sink, or a pipeline whose name is taken |
| PipelineManager.AllPipesConcat | ceilometer-8.0.1/ceilometer/pipeline.py:814-828 | pipelines come source by source, and for one source sink by sink |
| PipelineManager.PlainNamesApart | ceilometer-8.0.1/ceilometer/pipeline.py:568-570 | names of sources and sinks without colons give different pairs different pipeline names |
| PipelineManager.CheckSinks | ceilometer-8.0.1/ceilometer/pipeline.py:294-303 | succeeds exactly when the source has sinks and all are configured |
| PipelineManager.NamesApartIff | ceilometer-8.0.1/ceilometer/pipeline.py:587-590 | exactly which sample pipelines can share a name with an event pipeline |
| PipelineManager.NamesCollide | ceilometer-8.0.1/ceilometer/pipeline.py:568-570 | a sample and an event pipeline with the same name |
| Sink.BatchIndependence | ceilometer-8.0.1/ceilometer/pipeline.py:507-542 | publishing two batches in one call or in two gives the same states and the same published sequence |
| Sink.StageByStage | ceilometer-8.0.1/ceilometer/pipeline.py:488-529 | sample by sample through the chain equals all samples stage by stage to the end: same states, same published sequence, same losses up to order |
| Sink.FlushStageByStage | ceilometer-8.0.1/ceilometer/pipeline.py:544-555 | flushing the chain equals flushing stage by stage, each stage taking what the one before it passed on and released before it releases what it holds: same states, same published sequence, same losses up to order |
| Sink.Conservation | ceilometer-8.0.1/ceilometer/pipeline.py:488-555 | over any sequence of publishes and flushes, injected weight is published, lost to a logged exception, or still held |
| Sink.FlushEmpties | ceilometer-8.0.1/ceilometer/pipeline.py:544-555 | after a flush all buffers are empty, because a stage feeds only later ones |
| Sink.FlushTwice | ceilometer-8.0.1/ceilometer/pipeline.py:544-555 | a second flush publishes and loses nothing |
| Sink.SampleSink.TransformSample | ceilometer-8.0.1/ceilometer/pipeline.py:488-505 | one sample from a stage on, through the transformers' own state changes, with the sample logged on an exception |
| Sink.SampleSink.PublishSamplesFrom | ceilometer-8.0.1/ceilometer/pipeline.py:507-539 | the loop over a batch performs the specified publication |
| Sink.SampleSink.Flush | ceilometer-8.0.1/ceilometer/pipeline.py:544-555 | flushes the stages in order, each into the stages after it, going on past one that raises |
| Nesting.InsertLookup | ceilometer-8.0.1/ceilometer/utils.py:107-113 | restoring one composite key on an open path adds that leaf and changes no other |
| Nesting.RestoreNesting | ceilometer-8.0.1/ceilometer/utils.py:104-114 | terminates, and for every visiting order equals inserting the composite keys one by one |
| NestingRoundTrip.RecursiveKeypairs | ceilometer-8.0.1/ceilometer/utils.py:92-101 | yields every leaf exactly once under its composite key |
| NestingRoundTrip.KeysDistinct | ceilometer-8.0.1/ceilometer/utils.py:92-101 | the composite keys of a clean dictionary are pairwise distinct |
| NestingRoundTrip.Rebuild | ceilometer-8.0.1/ceilometer/utils.py:104-114 | after any part of the composite keys, in any order, exactly the leaves visited so far are in place |
| NestingRoundTrip.FlattenAndRestore | ceilometer-8.0.1/ceilometer/utils.py:92-114 | flattening and restoring gives the dictionary back exactly when it is clean: separators cannot be read into its names and no nested dictionary is empty |
| NestedUpdate.UpdateNested | ceilometer-8.0.1/ceilometer/utils.py:191-203 | the recursive merge, whatever the order of the updates, a leaf met by a dictionary being an error |
| NestedUpdate.UpdatedLeaves | ceilometer-8.0.1/ceilometer/utils.py:191-203 | every leaf of the updates is at its path, and exactly the original leaves not overwritten at or above their path remain |
| NestedUpdate.Idempotent | ceilometer-8.0.1/ceilometer/utils.py:191-203 | updating again with the same updates changes nothing |
| NestedUpdate.Associative | ceilometer-8.0.1/ceilometer/utils.py:191-203 | merging updates first and applying them in turn agree, errors included |
| NestedUpdate.FailsIffClash | ceilometer-8.0.1/ceilometer/utils.py:198-200 | the update fails exactly when a non-empty dictionary of the updates meets a leaf of the original |
| ParsedQuery.ParsedQueryToDict | aodhclient-0.8.0/aodhclient/utils.py:60-88 | the popping loop computes the specified translation of any token list, errors included |
| ParsedQuery.RunChain | aodhclient-0.8.0/aodhclient/utils.py:67-86 | a group is translated by joining its operands from the last to the first, flattening the last when it has the same operator |
| ParsedQuery.CleanKeepsMeaning | aodhclient-0.8.0/aodhclient/utils.py:60-93 | a query whose compared values are not operator words is translated to a well-shaped dictionary with the same truth value in every environment |
| ParsedQuery.FaithfulIffClean | aodhclient-0.8.0/aodhclient/utils.py:60-93 | for plain fields, translation keeps the meaning exactly when no compared value anywhere in the query is an operator word |
| ParsedQuery.FaithfulComparisonIff | aodhclient-0.8.0/aodhclient/utils.py:60-88 | for one comparison with any field: exactly when its value is not an operator word |
| ParsedQuery.OperatorWordsFail | aodhclient-0.8.0/aodhclient/utils.py:72-86 | two concrete comparisons with operator words: one raises, one loses its operator and value |
| CanonicalQuery.CanonicalIffClean | aodhclient-0.8.0/aodhclient/utils.py:60-93 | for every query and whatever its fields, translation yields the intended dictionary exactly when no compared value is an operator word |
| CanonicalQuery.ManyValue | aodhclient-0.8.0/aodhclient/utils.py:67-86 | a group is translated exactly when its operands are and the last is no plain value; the result lists the operands from the last to the first, the last one flattened when it is a group of the same word |
| CanonicalQuery.FaithfulByChance | aodhclient-0.8.0/aodhclient/utils.py:60-88 | a query translated wrongly that keeps its truth value in every environment |
| CliQuery.CliToArray | aodhclient-0.8.0/aodhclient/utils.py:138-176 | parses the items in order, or gives the first error |
| CliQuery.ParseOneMeaning | aodhclient-0.8.0/aodhclient/utils.py:150-175 | what any item with an operator is parsed to, the operator being the leftmost and longest one and the type ending at the first double colon: empty parts and unknown types are errors |
| CliQuery.OperatorMissingIff | aodhclient-0.8.0/aodhclient/utils.py:152-157 | an item is refused for its operator exactly when it has no operator character; any other one divides into field, operator and rest |
| CliQuery.RoundTripOneIff | aodhclient-0.8.0/aodhclient/utils.py:153-167 | a printed item is parsed back exactly when its field and value are plain |
| CliQuery.RoundTripIff | aodhclient-0.8.0/aodhclient/utils.py:138-176 | a printed list of items is parsed back exactly when it is non-empty and every item is printable |

## Left out

- Initialize: requires acyclic nesting, since on cyclic nesting the source recurses without end; machines shared between states are covered.
- Step: does not model what precedes a failed lookup in the tables; StepWellFormed shows that none fails on tables that satisfy their invariant, and every API call keeps that invariant.
- RestoreNesting: does not say what becomes of values that hold composite keys of their own, whose treatment depends on the visiting order, nor that nested dictionaries of the argument are changed in place.
- RecursiveKeypairs: does not model the sorting of the keys, nor the decoding of lists; the result is stated for every order.
- ExtractMySubset: does not model joining and leaving groups, heartbeats or waiting; the backend is the sequence of its answers.
- UpdateNested: does not model aliasing; dictionaries are values, so the original is unchanged by construction.
- Balanced: transformers and publishers are contracts; concrete ones are not part of this model, and publishers' own exceptions, which the sink swallows, are not recorded.
- ParsedQueryToDict: does not model the parser itself nor list groups, which its grammar never produces; queries start as parse trees.
- Copy: does not cover the machines nested in the states of a hierarchical machine, which its copies share; independence is that of the copied machine, its dictionaries and current state.
- Machine: `Machines.Machine.Copy` copies a table as one value; which dictionaries a copy owns is the subject of `DictMachines`.
- DeliveryIsExact: ends at the agent; inside it, oslo.messaging picks endpoints by matching publisher ids, which is not part of this model.
- The order of events within a state, the `nested_machines` dictionary, `pformat`, callback names and closing a generator early.
- Messaging, group membership libraries, MD5, file-name matching and configuration loading.
- `EventSink`, `PublishContext`, polling sources and source filtering: no state beyond what is shown.
