/** PartitionCoordinator: how agents split a set of tasks over the hash ring. */
module Partition {
  import opened Wrappers
  import opened Sequences
  import opened HashRing
  import opened RingLaws

  const REPLICAS: nat := 100
  const ATTEMPTS: nat := 5

  /** What the coordination backend answers to a request for the group members. */
  datatype Reply = Members(ids: seq<Node>) | GroupNotCreated | ToozError

  datatype Outcome<T> = Subset(items: seq<T>) | MemberNotInGroup | Waiting

  // ---------- Specification ----------

  ghost predicate Mine(hash: string -> Hash, members: seq<Node>, me: Node, key: string) {
    Owns(Points(hash, members, REPLICAS), hash(key), me)
  }

  /** The items an agent keeps, in their original order. */
  ghost function Share<T>(hash: string -> Hash, members: seq<Node>, me: Node, items: seq<T>, str: T -> string): (r: seq<T>)
    ensures forall v :: v in r ==> v in items && Mine(hash, members, me, str(v))
  {
    if items == [] then []
    else
      var last := items[|items| - 1];
      Share(hash, members, me, items[..|items| - 1], str) + if Mine(hash, members, me, str(last)) then [last] else []
  }

  /** An agent keeps an item exactly when the ring of all members gives it the
      position of the item's string; shares of work put together are put together. */
  lemma {:induction false} ShareMeaning<T>(hash: string -> Hash, members: seq<Node>, me: Node, a: seq<T>, v: T, b: seq<T>, str: T -> string)
    ensures Share(hash, members, me, [v], str) == if Owns(Points(hash, members, REPLICAS), hash(str(v)), me) then [v] else []
    ensures Share(hash, members, me, a + b, str) == Share(hash, members, me, a, str) + Share(hash, members, me, b, str)
    decreases |b|
  {
    hide Owns;
    assert [v][..0] == [];
    if b == [] {
      assert a + b == a;
    } else {
      var init, last := b[..|b| - 1], b[|b| - 1];
      assert (a + b)[..|a + b| - 1] == a + init;
      ShareMeaning(hash, members, me, a, v, init, str);
    }
  }

  // ---------- The shares split the work exactly ----------

  lemma PointsNonEmpty(hash: string -> Hash, members: seq<Node>)
    requires members != []
    ensures Points(hash, members, REPLICAS) != []
  {
    var last := members[|members| - 1];
    assert |NodePoints(hash, last, REPLICAS)| == 100;
  }

  lemma OwnerIsMember(hash: string -> Hash, members: seq<Node>, key: string) returns (owner: Node)
    requires members != []
    ensures owner in members && Mine(hash, members, owner, key)
  {
    PointsNonEmpty(hash, members);
    var points := Points(hash, members, REPLICAS);
    owner := OwnerExists(points, hash(key));
    var i :| 0 <= i < |points| && points[i].node == owner && IsNext(points, hash(key), points[i].at) && IsLastAt(points, i);
    assert points[i] in points;
  }

  /** The shares of all agents put together. */
  ghost function AllShares<T>(hash: string -> Hash, members: seq<Node>, agents: seq<Node>, items: seq<T>, str: T -> string): multiset<T> {
    if agents == [] then multiset{}
    else
      AllShares(hash, members, agents[..|agents| - 1], items, str)
      + multiset(Share(hash, members, agents[|agents| - 1], items, str))
  }

  lemma MineUnique(hash: string -> Hash, members: seq<Node>, a: Node, b: Node, key: string)
    requires Mine(hash, members, a, key) && Mine(hash, members, b, key)
    ensures a == b
  {
    OwnerUnique(Points(hash, members, REPLICAS), hash(key), a, b);
  }

  lemma ShareOneMore<T>(hash: string -> Hash, members: seq<Node>, me: Node, items: seq<T>, v: T, str: T -> string)
    ensures Share(hash, members, me, items + [v], str) ==
            Share(hash, members, me, items, str) + if Mine(hash, members, me, str(v)) then [v] else []
  {
    hide Mine;
    assert (items + [v])[..|items|] == items;
  }

  lemma OneMoreShared<T>(hash: string -> Hash, members: seq<Node>, me: Node, items: seq<T>, v: T, str: T -> string)
    ensures multiset(Share(hash, members, me, items + [v], str)) ==
            multiset(Share(hash, members, me, items, str)) + if Mine(hash, members, me, str(v)) then multiset{v} else multiset{}
  {
    hide Mine, Share;
    ShareOneMore(hash, members, me, items, v, str);
  }

  /** One more item goes to its owner, if that is among the agents. */
  lemma {:induction false} OneMoreItem<T>(hash: string -> Hash, members: seq<Node>, agents: seq<Node>, items: seq<T>, v: T,
                                          str: T -> string, owner: Node)
    requires Distinct(agents) && Mine(hash, members, owner, str(v))
    ensures AllShares(hash, members, agents, items + [v], str) ==
            AllShares(hash, members, agents, items, str) + if owner in agents then multiset{v} else multiset{}
    decreases |agents|
  {
    hide Mine, Share;
    if agents != [] {
      var init, last := agents[..|agents| - 1], agents[|agents| - 1];
      assert agents == init + [last];
      assert owner in agents <==> owner in init || owner == last;
      OneMoreItem(hash, members, init, items, v, str, owner);
      OneMoreShared(hash, members, last, items, v, str);
      if Mine(hash, members, last, str(v)) { MineUnique(hash, members, last, owner, str(v)); }
    }
  }

  /** When all agents see the same members, each member being one agent, their
      shares together are the work, every item with its multiplicity. */
  lemma {:induction false} SharesAreExact<T>(hash: string -> Hash, members: seq<Node>, agents: seq<Node>, items: seq<T>, str: T -> string)
    requires members != [] && Distinct(agents) && forall m :: m in members <==> m in agents
    ensures AllShares(hash, members, agents, items, str) == multiset(items)
    decreases |items|
  {
    if items == [] {
      NoItems(hash, members, agents, items, str);
    } else {
      var init, v := items[..|items| - 1], items[|items| - 1];
      assert items == init + [v];
      SharesAreExact(hash, members, agents, init, str);
      var owner := OwnerIsMember(hash, members, str(v));
      OneMoreItem(hash, members, agents, init, v, str, owner);
    }
  }

  lemma {:induction false} NoItems<T>(hash: string -> Hash, members: seq<Node>, agents: seq<Node>, items: seq<T>, str: T -> string)
    requires items == []
    ensures AllShares(hash, members, agents, items, str) == multiset{}
    decreases |agents|
  {
    if agents != [] { NoItems(hash, members, agents[..|agents| - 1], items, str); }
  }

  /** What the agents keep when each of them sees the members in an order of its own. */
  ghost function AllSeen<T>(hash: string -> Hash, view: Node -> seq<Node>, agents: seq<Node>, items: seq<T>, str: T -> string): multiset<T> {
    if agents == [] then multiset{}
    else
      var last := agents[|agents| - 1];
      AllSeen(hash, view, agents[..|agents| - 1], items, str) + multiset(Share(hash, view(last), last, items, str))
  }

  lemma {:induction false} ShareInAnyOrder<T>(hash: string -> Hash, members: seq<Node>, other: seq<Node>, me: Node, items: seq<T>,
                                              str: T -> string)
    requires CollisionFree(hash, members, REPLICAS) && multiset(other) == multiset(members) && members != []
    ensures Share(hash, other, me, items, str) == Share(hash, members, me, items, str)
    decreases |items|
  {
    hide CollisionFree;
    if items != [] {
      var last := items[|items| - 1];
      ShareInAnyOrder(hash, members, other, me, items[..|items| - 1], str);
      var owner := OwnerIsMember(hash, members, str(last));
      CollisionFreeSuffices(hash, members, other, REPLICAS, hash(str(last)), owner);
      if Mine(hash, members, me, str(last)) { MineUnique(hash, members, me, owner, str(last)); }
      if Mine(hash, other, me, str(last)) { MineUnique(hash, other, me, owner, str(last)); }
    }
  }

  /** When no two members share a ring position, the agents need not even see the
      members in the same order. */
  lemma SharesAreExactInAnyOrder<T>(hash: string -> Hash, members: seq<Node>, view: Node -> seq<Node>, agents: seq<Node>,
                                    items: seq<T>, str: T -> string)
    requires members != [] && Distinct(agents) && forall m :: m in members <==> m in agents
    requires CollisionFree(hash, members, REPLICAS) && forall a :: a in agents ==> multiset(view(a)) == multiset(members)
    ensures AllSeen(hash, view, agents, items, str) == multiset(items)
  {
    AllSeenIsAllShares(hash, members, view, agents, items, str);
    SharesAreExact(hash, members, agents, items, str);
  }

  lemma {:induction false} AllSeenIsAllShares<T>(hash: string -> Hash, members: seq<Node>, view: Node -> seq<Node>, agents: seq<Node>,
                                                 items: seq<T>, str: T -> string)
    requires members != [] && CollisionFree(hash, members, REPLICAS)
    requires forall a :: a in agents ==> multiset(view(a)) == multiset(members)
    ensures AllSeen(hash, view, agents, items, str) == AllShares(hash, members, agents, items, str)
    decreases |agents|
  {
    hide Share, CollisionFree;
    if agents != [] {
      var last := agents[|agents| - 1];
      AllSeenIsAllShares(hash, members, view, agents[..|agents| - 1], items, str);
      ShareInAnyOrder(hash, members, view(last), last, items, str);
    }
  }

  /** No item is in the shares of two agents. */
  lemma SharesAreDisjoint<T>(hash: string -> Hash, members: seq<Node>, a: Node, b: Node, items: seq<T>, str: T -> string, v: T)
    requires v in Share(hash, members, a, items, str) && v in Share(hash, members, b, items, str)
    ensures a == b
  {
    OwnerUnique(Points(hash, members, REPLICAS), hash(str(v)), a, b);
  }

  /** When an agent leaves, every other agent keeps all the work it had. */
  lemma {:induction false} LeavingTakesNothing<T>(hash: string -> Hash, members: seq<Node>, leaver: Node, me: Node, items: seq<T>, str: T -> string)
    requires me != leaver
    ensures multiset(Share(hash, members, me, items, str)) <= multiset(Share(hash, Without(members, leaver), me, items, str))
    decreases |items|
  {
    if items != [] {
      var last := items[|items| - 1];
      LeavingTakesNothing(hash, members, leaver, me, items[..|items| - 1], str);
      if Mine(hash, members, me, str(last)) {
        MinimalDisruption(hash, members, REPLICAS, leaver, hash(str(last)), me);
      }
    }
  }

  lemma ShareOfNothing<T>(hash: string -> Hash, members: seq<Node>, me: Node, items: seq<T>, str: T -> string)
    requires items == []
    ensures Share(hash, members, me, items, str) == []
  {
  }

  /** An agent that is alone gets everything, in order. */
  lemma {:induction false} LoneAgentGetsAll<T>(hash: string -> Hash, me: Node, items: seq<T>, str: T -> string)
    ensures Share(hash, [me], me, items, str) == items
    decreases |items|
  {
    hide Mine, Share;
    if items != [] {
      var init, last := items[..|items| - 1], items[|items| - 1];
      LoneAgentGetsAll(hash, me, init, str);
      var owner := OwnerIsMember(hash, [me], str(last));
      assert items == init + [last];
      ShareOneMore(hash, [me], me, init, last, str);
    } else {
      ShareOfNothing(hash, [me], me, items, str);
    }
  }

  // ---------- extract_my_subset ----------

  /** The answers _get_members acts on: it asks again while the group is missing. */
  function Answers(replies: seq<Reply>): (r: seq<Reply>)
    ensures forall a :: a in r ==> !a.GroupNotCreated?
  {
    if replies == [] then []
    else if replies[0].GroupNotCreated? then Answers(replies[1..])
    else [replies[0]] + Answers(replies[1..])
  }

  lemma {:induction false} AnswersMeaning(a: seq<Reply>, reply: Reply, b: seq<Reply>)
    ensures Answers([reply]) == if reply.GroupNotCreated? then [] else [reply]
    ensures Answers(a + b) == Answers(a) + Answers(b)
    decreases |a|
  {
    assert [reply][1..] == [];
    if a == [] {
      assert a + b == b;
    } else {
      assert (a + b)[1..] == a[1..] + b;
      AnswersMeaning(a[1..], reply, b);
    }
  }

  predicate Decides(me: Node, answer: Reply) {
    answer.ToozError? || (answer.Members? && me in answer.ids)
  }

  /** The outcome after at most limit answers: that of the first one that decides. */
  ghost function Decide<T>(hash: string -> Hash, me: Node, items: seq<T>, str: T -> string, answers: seq<Reply>, limit: nat): Outcome<T>
    decreases limit
  {
    if limit == 0 then MemberNotInGroup
    else if answers == [] then Waiting
    else if !Decides(me, answers[0]) then Decide(hash, me, items, str, answers[1..], limit - 1)
    else if answers[0].ToozError? then Subset([])
    else Subset(Share(hash, answers[0].ids, me, items, str))
  }

  /** The first of the answers that is an error or lists this agent. */
  ghost predicate FirstDeciding(me: Node, answers: seq<Reply>, i: int) {
    && 0 <= i < |answers| && (answers[i].ToozError? || (answers[i].Members? && me in answers[i].ids))
    && forall j :: 0 <= j < i ==> Omits(me, answers[j])
  }

  ghost predicate Omits(me: Node, answer: Reply) {
    !answer.ToozError? && (answer.Members? ==> me !in answer.ids)
  }

  /** What that answer makes of the work: nothing after an error, this agent's share
      among the members it lists otherwise. */
  ghost predicate Follows<T>(hash: string -> Hash, me: Node, items: seq<T>, str: T -> string, answer: Reply, r: Outcome<T>) {
    match answer
    case ToozError => r == Subset([])
    case Members(ids) => r == Subset(Share(hash, ids, me, items, str))
    case GroupNotCreated => false
  }

  lemma {:induction false} DecideFirst<T>(hash: string -> Hash, me: Node, items: seq<T>, str: T -> string, answers: seq<Reply>,
                                          limit: nat, i: int)
    requires FirstDeciding(me, answers, i) && i < limit
    ensures Follows(hash, me, items, str, answers[i], Decide(hash, me, items, str, answers, limit))
    decreases limit
  {
    hide Share;
    if i > 0 {
      assert Omits(me, answers[0]);
      DecideFirst(hash, me, items, str, answers[1..], limit - 1, i - 1);
    }
  }

  ghost predicate OmittedBy(me: Node, answers: seq<Reply>, n: nat) {
    forall j :: 0 <= j < n && j < |answers| ==> Omits(me, answers[j])
  }

  lemma {:induction false} DecideNone<T>(hash: string -> Hash, me: Node, items: seq<T>, str: T -> string, answers: seq<Reply>,
                                         limit: nat)
    requires OmittedBy(me, answers, limit)
    ensures Decide(hash, me, items, str, answers, limit) == if |answers| >= limit then MemberNotInGroup else Waiting
    decreases limit
  {
    hide Share;
    if limit > 0 && answers != [] {
      assert Omits(me, answers[0]);
      DecideNone(hash, me, items, str, answers[1..], limit - 1);
    }
  }

  /** Unless all of the first n answers omit the agent, one of them is the first that does not. */
  lemma {:induction false} DecidingOrOmitted(me: Node, answers: seq<Reply>, n: nat) returns (i: int)
    requires forall a :: a in answers ==> !a.GroupNotCreated?
    ensures OmittedBy(me, answers, n) || (FirstDeciding(me, answers, i) && i < n)
  {
    i := 0;
    while i < n && i < |answers| && Omits(me, answers[i])
      invariant 0 <= i && forall j :: 0 <= j < i && j < |answers| ==> Omits(me, answers[j])
    {
      i := i + 1;
    }
    if i < n && i < |answers| { assert answers[i] in answers; }
  }

  /** The first deciding answer fixes the outcome if it comes within the limit. The
      agent is not in the group exactly when that many answers omit it, and waits
      exactly when fewer have come and none of them decides. */
  lemma DecideMeaning<T>(hash: string -> Hash, me: Node, items: seq<T>, str: T -> string, answers: seq<Reply>, limit: nat)
    requires forall a :: a in answers ==> !a.GroupNotCreated?
    ensures var r := Decide(hash, me, items, str, answers, limit);
            && (forall i :: FirstDeciding(me, answers, i) && i < limit ==> Follows(hash, me, items, str, answers[i], r))
            && (r.MemberNotInGroup? <==> |answers| >= limit && OmittedBy(me, answers, limit))
            && (r.Waiting? <==> |answers| < limit && OmittedBy(me, answers, limit))
  {
    hide Decide, OmittedBy, Omits;
    forall i | FirstDeciding(me, answers, i) && i < limit
      ensures Follows(hash, me, items, str, answers[i], Decide(hash, me, items, str, answers, limit))
    {
      DecideFirst(hash, me, items, str, answers, limit, i);
    }
    var i := DecidingOrOmitted(me, answers, limit);
    if OmittedBy(me, answers, limit) { DecideNone(hash, me, items, str, answers, limit); }
  }

  // ---------- No work is done twice ----------

  function ItemsOf<T>(r: Outcome<T>): seq<T> {
    match r
    case Subset(items) => items
    case _ => []
  }

  /** All that a number of agents take on, each after the replies it got. */
  ghost function AllTaken<T>(hash: string -> Hash, agents: seq<Node>, replies: Node -> seq<Reply>, items: seq<T>, str: T -> string): multiset<T> {
    if agents == [] then multiset{}
    else
      var last := agents[|agents| - 1];
      AllTaken(hash, agents[..|agents| - 1], replies, items, str)
      + multiset(ItemsOf(Decide(hash, last, items, str, Answers(replies(last)), 2 * ATTEMPTS)))
  }

  /** Every answer that lists members lists these. */
  ghost predicate Agree(members: seq<Node>, answers: seq<Reply>) {
    forall answer :: answer in answers && answer.Members? ==> answer.ids == members
  }

  lemma {:induction false} TakenIsShare<T>(hash: string -> Hash, members: seq<Node>, me: Node, items: seq<T>, str: T -> string,
                                           answers: seq<Reply>, limit: nat)
    requires Agree(members, answers)
    ensures var taken := ItemsOf(Decide(hash, me, items, str, answers, limit));
            taken == [] || taken == Share(hash, members, me, items, str)
    decreases limit
  {
    hide Share;
    if limit > 0 && answers != [] {
      assert answers[0] in answers;
      TakenIsShare(hash, members, me, items, str, answers[1..], limit - 1);
    }
  }

  lemma {:induction false} SharesAtMost<T>(hash: string -> Hash, members: seq<Node>, agents: seq<Node>, items: seq<T>, str: T -> string)
    requires Distinct(agents)
    ensures AllShares(hash, members, agents, items, str) <= multiset(items)
    decreases |items|
  {
    hide Share, Mine;
    if items == [] || members == [] {
      NoShares(hash, members, agents, items, str);
    } else {
      var init, v := items[..|items| - 1], items[|items| - 1];
      assert items == init + [v];
      SharesAtMost(hash, members, agents, init, str);
      var owner := OwnerIsMember(hash, members, str(v));
      OneMoreItem(hash, members, agents, init, v, str, owner);
    }
  }

  lemma {:induction false} NoShares<T>(hash: string -> Hash, members: seq<Node>, agents: seq<Node>, items: seq<T>, str: T -> string)
    requires items == [] || members == []
    ensures AllShares(hash, members, agents, items, str) == multiset{}
    decreases |agents|
  {
    if agents != [] {
      var last := agents[|agents| - 1];
      NoShares(hash, members, agents[..|agents| - 1], items, str);
      NoShare(hash, members, last, items, str);
    }
  }

  lemma {:induction false} NoShare<T>(hash: string -> Hash, members: seq<Node>, me: Node, items: seq<T>, str: T -> string)
    requires items == [] || members == []
    ensures Share(hash, members, me, items, str) == []
    decreases |items|
  {
    if items != [] { NoShare(hash, members, me, items[..|items| - 1], str); }
  }

  /** As long as the members that agents are told of agree, no item is taken twice,
      whatever errors and missing groups the agents meet on the way. */
  lemma {:induction false} TakenAtMostOnce<T>(hash: string -> Hash, members: seq<Node>, agents: seq<Node>, replies: Node -> seq<Reply>,
                                              items: seq<T>, str: T -> string)
    requires Distinct(agents) && forall a :: a in agents ==> Agree(members, Answers(replies(a)))
    ensures AllTaken(hash, agents, replies, items, str) <= multiset(items)
  {
    TakenWithinShares(hash, members, agents, replies, items, str);
    SharesAtMost(hash, members, agents, items, str);
  }

  lemma {:induction false} TakenWithinShares<T>(hash: string -> Hash, members: seq<Node>, agents: seq<Node>, replies: Node -> seq<Reply>,
                                                items: seq<T>, str: T -> string)
    requires forall a :: a in agents ==> Agree(members, Answers(replies(a)))
    ensures AllTaken(hash, agents, replies, items, str) <= AllShares(hash, members, agents, items, str)
    decreases |agents|
  {
    hide Share, Decide, Agree, Answers;
    if agents != [] {
      var last := agents[|agents| - 1];
      TakenWithinShares(hash, members, agents[..|agents| - 1], replies, items, str);
      TakenIsShare(hash, members, last, items, str, Answers(replies(last)), 2 * ATTEMPTS);
    }
  }

  method KeepMine<T>(hash: string -> Hash, members: seq<Node>, me: Node, items: seq<T>, str: T -> string) returns (mine: seq<T>)
    ensures mine == Share(hash, members, me, items, str)
  {
    var ring := new HashRing(hash, members, REPLICAS);
    mine := [];
    for i := 0 to |items|
      invariant ring.Valid() && ring.hash == hash && ring.points == Points(hash, members, REPLICAS)
      invariant mine == Share(hash, members, me, items[..i], str)
    {
      var owner := ring.GetNode(str(items[i]));
      assert items[..i + 1][..i] == items[..i];
      if owner == Some(me) {
        mine := mine + [items[i]];
      } else if Mine(hash, members, me, str(items[i])) {
        OwnerUnique(ring.points, hash(str(items[i])), me, owner.value);
      }
    }
    assert items[..|items|] == items;
  }

  /** _get_members, when connected: the first answer, and the replies left. */
  method GetMembers(replies: seq<Reply>) returns (answer: Option<Reply>, rest: seq<Reply>)
    ensures answer.None? ==> Answers(replies) == [] && rest == []
    ensures answer.Some? ==> !answer.value.GroupNotCreated? && Answers(replies) == [answer.value] + Answers(rest)
  {
    rest := replies;
    while rest != []
      invariant Answers(rest) == Answers(replies)
      decreases |rest|
    {
      var reply := rest[0];
      rest := rest[1..];
      if !reply.GroupNotCreated? { return Some(reply), rest; }
    }
    answer := None;
  }

  /** Up to five attempts, each asking for the members at most twice. */
  method Attempt<T>(hash: string -> Hash, me: Node, items: seq<T>, str: T -> string, replies: seq<Reply>)
    returns (r: Outcome<T>)
    ensures r == Decide(hash, me, items, str, Answers(replies), 2 * ATTEMPTS)
  {
    hide Share, Answers;
    var rest := replies;
    for attempt := 0 to ATTEMPTS
      invariant Decide(hash, me, items, str, Answers(replies), 2 * ATTEMPTS)
             == Decide(hash, me, items, str, Answers(rest), 2 * (ATTEMPTS - attempt))
    {
      var answer;
      answer, rest := GetMembers(rest);
      if answer.None? { return Waiting; }
      if answer.value.ToozError? { return Subset([]); }
      if me !in answer.value.ids {
        answer, rest := GetMembers(rest);  // after joining the group again
        if answer.None? { return Waiting; }
        if answer.value.ToozError? { return Subset([]); }
      }
      if me in answer.value.ids {
        var mine := KeepMine(hash, answer.value.ids, me, items, str);
        return Subset(mine);
      }
    }
    r := MemberNotInGroup;
  }

  /** The first of at most ten answers that is an error or lists this agent decides. */
  method ExtractMySubset<T>(hash: string -> Hash, me: Node, connected: bool, groupId: string, items: seq<T>, str: T -> string,
                            replies: seq<Reply>)
    returns (r: Outcome<T>)
    ensures groupId == "" || !connected ==> r == Subset(items)
    ensures groupId != "" && connected ==> r == Decide(hash, me, items, str, Answers(replies), 2 * ATTEMPTS)
    ensures groupId != "" && connected ==>
              var answers := Answers(replies);
              && (forall i :: FirstDeciding(me, answers, i) && i < 10 ==> Follows(hash, me, items, str, answers[i], r))
              && (r.MemberNotInGroup? <==> |answers| >= 10 && OmittedBy(me, answers, 10))
              && (r.Waiting? <==> |answers| < 10 && OmittedBy(me, answers, 10))
  {
    hide Decide, Share, Answers, FirstDeciding, Follows, OmittedBy;
    if groupId == "" { return Subset(items); }
    if !connected {
      LoneAgentGetsAll(hash, me, items, str);
      var mine := KeepMine(hash, [me], me, items, str);
      return Subset(mine);
    }
    r := Attempt(hash, me, items, str, replies);
    DecideMeaning(hash, me, items, str, Answers(replies), 10);
  }
}
