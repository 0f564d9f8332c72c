/** How the notification agents route datapoints: bucketing, topics, and the
    ownership of queues by the agents of the group. */
module Routing {
  import opened Wrappers
  import opened Decimals
  import opened Sequences
  import opened HashRing
  import opened RingLaws
  import opened Partition

  const NOTIFICATION_IPC := "ceilometer-pipe"

  /** Serialized data; None stands for Python's None. */
  type Datapoint = map<string, Option<string>>

  /** A pipeline as seen by the transport: its name, filter and grouping keys. */
  datatype Transporter = Transporter(name: string, filter: Option<string> -> bool, groupingKeys: seq<string>) {
    /** The filter looks at one attribute; datapoints without it are an error, see Publish. */
    predicate Accepts(d: Datapoint, filterAttr: string) {
      filterAttr in d && filter(d[filterAttr])
    }
  }

  datatype Message = Message(topic: string, payload: Datapoint)

  function Topic(pipe: string, queue: nat): string {
    NOTIFICATION_IPC + "-" + pipe + "-" + Decimal(queue)
  }

  // ---------- Topic names ----------

  /** Distinct pipelines or queues never share a topic, whatever dashes and
      digits the pipeline names contain. */
  lemma TopicInjective(p: string, x: nat, q: string, y: nat)
    requires Topic(p, x) == Topic(q, y)
    ensures p == q && x == y
  {
    var ap, aq := NOTIFICATION_IPC + "-" + p, NOTIFICATION_IPC + "-" + q;
    NumberedNames(ap, x, aq, y);
    assert p == ap[|NOTIFICATION_IPC| + 1..] && q == aq[|NOTIFICATION_IPC| + 1..];
  }

  // ---------- Sending ----------

  function Field(datapoint: Datapoint, key: string): string {
    if key in datapoint && datapoint[key].Some? then datapoint[key].value else ""
  }

  function GroupingValue(datapoint: Datapoint, keys: seq<string>): string {
    if keys == [] then "" else GroupingValue(datapoint, keys[..|keys| - 1]) + Field(datapoint, keys[|keys| - 1])
  }

  /** A single grouping field; a missing or None one counts as empty. */
  lemma GroupingOne(d: Datapoint, key: string)
    ensures GroupingValue(d, [key]) == if key in d && d[key] != None then d[key].value else ""
  {
    assert [key][..0] == [];
    assert "" + Field(d, key) == Field(d, key);
  }

  /** The grouping value is the concatenation of the fields, in the order of the keys. */
  lemma {:induction false} GroupingConcat(d: Datapoint, a: seq<string>, b: seq<string>)
    ensures GroupingValue(d, a + b) == GroupingValue(d, a) + GroupingValue(d, b)
    decreases |b|
  {
    hide Field;
    if b == [] {
      assert a + b == a;
    } else {
      var init, last := b[..|b| - 1], b[|b| - 1];
      var all := a + b;
      assert all[|all| - 1] == last && all[..|all| - 1] == a + init;
      GroupingConcat(d, a, init);
      Associative(GroupingValue(d, a), GroupingValue(d, init), Field(d, last));
    }
  }

  lemma {:induction false} SameFieldsSameValue(d: Datapoint, e: Datapoint, keys: seq<string>)
    requires forall key :: key in keys ==> Field(d, key) == Field(e, key)
    ensures GroupingValue(d, keys) == GroupingValue(e, keys)
    decreases |keys|
  {
    if keys != [] { SameFieldsSameValue(d, e, keys[..|keys| - 1]); }
  }

  /** Every grouping field counts: datapoints that differ in one of them and agree on
      the others have different grouping values. */
  lemma EveryFieldCounts(d: Datapoint, e: Datapoint, a: seq<string>, key: string, b: seq<string>)
    requires forall k :: k in a || k in b ==> Field(d, k) == Field(e, k)
    requires Field(d, key) != Field(e, key)
    ensures GroupingValue(d, a + [key] + b) != GroupingValue(e, a + [key] + b)
  {
    SameFieldsSameValue(d, e, a);
    SameFieldsSameValue(d, e, b);
    GroupingConcat(d, a + [key], b);
    GroupingConcat(e, a + [key], b);
    GroupingConcat(d, a, [key]);
    GroupingConcat(e, a, [key]);
    GroupingOne(d, key);
    GroupingOne(e, key);
    hide GroupingValue;
    Cancel(GroupingValue(d, a), Field(d, key), Field(e, key), GroupingValue(d, b));
  }

  lemma Cancel(a: string, x: string, y: string, b: string)
    ensures a + x + b == a + y + b ==> x == y
  {
    if a + x + b == a + y + b {
      assert |x| == |y|;
      assert x == (a + x + b)[|a|..|a| + |x|];
      assert y == (a + y + b)[|a|..|a| + |y|];
    }
  }

  /** Where one datapoint goes in one pipeline. */
  datatype Route = Route(pipe: string, queue: nat, datapoint: Datapoint)

  function RoutesOf(pyHash: string -> int, filterAttr: string, queues: nat, pipes: seq<Transporter>, d: Datapoint): (r: seq<Route>)
    requires queues > 0
    ensures forall route :: route in r ==> route.queue < queues
  {
    if pipes == [] then []
    else
      var last := pipes[|pipes| - 1];
      RoutesOf(pyHash, filterAttr, queues, pipes[..|pipes| - 1], d)
      + if last.Accepts(d, filterAttr)
        then [Route(last.name, pyHash(GroupingValue(d, last.groupingKeys)) % queues, d)] else []
  }

  function Routes(pyHash: string -> int, filterAttr: string, queues: nat, pipes: seq<Transporter>, data: seq<Datapoint>): (r: seq<Route>)
    requires queues > 0
    ensures forall route :: route in r ==> route.queue < queues
  {
    if data == [] then []
    else Routes(pyHash, filterAttr, queues, pipes, data[..|data| - 1])
         + RoutesOf(pyHash, filterAttr, queues, pipes, data[|data| - 1])
  }

  function MessageOf(route: Route): Message {
    Message(Topic(route.pipe, route.queue), route.datapoint)
  }

  function Messages(routes: seq<Route>): (r: seq<Message>)
    ensures |r| == |routes| && forall i :: 0 <= i < |routes| ==> r[i] == MessageOf(routes[i])
  {
    seq(|routes|, i requires 0 <= i < |routes| => MessageOf(routes[i]))
  }

  lemma RoutesOne(pyHash: string -> int, filterAttr: string, queues: nat, pipes: seq<Transporter>, d: Datapoint)
    requires queues > 0
    ensures Routes(pyHash, filterAttr, queues, pipes, [d]) == RoutesOf(pyHash, filterAttr, queues, pipes, d)
  {
    hide RoutesOf;
    assert [d][..0] == [];
  }

  /** Batches are routed datapoint by datapoint, in order. */
  lemma {:induction false} RoutesConcat(pyHash: string -> int, filterAttr: string, queues: nat, pipes: seq<Transporter>,
                                        a: seq<Datapoint>, b: seq<Datapoint>)
    requires queues > 0
    ensures Routes(pyHash, filterAttr, queues, pipes, a + b) ==
            Routes(pyHash, filterAttr, queues, pipes, a) + Routes(pyHash, filterAttr, queues, pipes, b)
    decreases |b|
  {
    hide RoutesOf;
    if b == [] {
      assert a + b == a;
    } else {
      var init, last := b[..|b| - 1], b[|b| - 1];
      var all := a + b;
      assert all[|all| - 1] == last && all[..|all| - 1] == a + init;
      RoutesConcat(pyHash, filterAttr, queues, pipes, a, init);
      Associative(Routes(pyHash, filterAttr, queues, pipes, a), Routes(pyHash, filterAttr, queues, pipes, init),
                  RoutesOf(pyHash, filterAttr, queues, pipes, last));
    }
  }

  method HashGrouping(pyHash: string -> int, datapoint: Datapoint, keys: seq<string>) returns (h: int)
    ensures h == pyHash(GroupingValue(datapoint, keys))
  {
    var value := "";
    for i := 0 to |keys|
      invariant value == GroupingValue(datapoint, keys[..i])
    {
      assert keys[..i + 1][..i] == keys[..i];
      value := value + Field(datapoint, keys[i]);
    }
    assert keys[..|keys|] == keys;
    h := pyHash(value);
  }

  lemma TopicText(pipe: string, queue: nat)
    ensures Topic(pipe, queue) == "ceilometer-pipe-" + pipe + "-" + Decimal(queue)
  {
    assert NOTIFICATION_IPC + "-" == "ceilometer-pipe-";
  }

  /** _get_notifiers: the topics of the queues of a pipeline. */
  method GetNotifiers(pipe: string, queues: nat) returns (topics: seq<string>)
    ensures |topics| == queues && forall x :: 0 <= x < queues ==> topics[x] == Topic(pipe, x)
    ensures forall x :: 0 <= x < queues ==> topics[x] == "ceilometer-pipe-" + pipe + "-" + Decimal(x)
  {
    hide Topic;
    topics := [];
    for x := 0 to queues
      invariant |topics| == x && forall y :: 0 <= y < x ==> topics[y] == Topic(pipe, y)
    {
      topics := topics + [Topic(pipe, x)];
    }
    forall x | 0 <= x < queues
      ensures Topic(pipe, x) == "ceilometer-pipe-" + pipe + "-" + Decimal(x)
    {
      TopicText(pipe, x);
    }
  }

  lemma MessagesSplit(a: seq<Route>, b: seq<Route>)
    ensures Messages(a + b) == Messages(a) + Messages(b)
  {
    hide Topic;
  }

  /** The inner loop: one datapoint to every pipeline that accepts it. */
  method PublishOne(pyHash: string -> int, filterAttr: string, queues: nat, pipes: seq<Transporter>, d: Datapoint)
    returns (sent: seq<Message>, found: bool)
    requires queues > 0
    ensures found <==> pipes == [] || filterAttr in d
    ensures sent == if found then Messages(RoutesOf(pyHash, filterAttr, queues, pipes, d)) else []
  {
    hide Topic, Messages, GroupingValue;
    sent := [];
    assert Messages([]) == [];
    for j := 0 to |pipes|
      invariant sent == Messages(RoutesOf(pyHash, filterAttr, queues, pipes[..j], d))
      invariant j > 0 ==> filterAttr in d
    {
      assert pipes[..j + 1][..j] == pipes[..j];
      if filterAttr !in d { return [], false; }
      ghost var routes := RoutesOf(pyHash, filterAttr, queues, pipes[..j], d);
      if pipes[j].filter(d[filterAttr]) {
        var notifiers := GetNotifiers(pipes[j].name, queues);
        var h := HashGrouping(pyHash, d, pipes[j].groupingKeys);
        MessagesSplit(routes, [Route(pipes[j].name, h % queues, d)]);
        sent := sent + [Message(notifiers[h % queues], d)];
      } else {
        assert routes + [] == routes;
      }
    }
    assert pipes[..|pipes|] == pipes;
    found := true;
  }

  /** The messages for one more datapoint. */
  lemma RoutesSplit(pyHash: string -> int, filterAttr: string, queues: nat, pipes: seq<Transporter>, data: seq<Datapoint>, i: nat)
    requires queues > 0 && i <= |data|
    ensures i == 0 ==> Messages(Routes(pyHash, filterAttr, queues, pipes, data[..i])) == []
    ensures i < |data| ==>
              Messages(Routes(pyHash, filterAttr, queues, pipes, data[..i + 1])) ==
              Messages(Routes(pyHash, filterAttr, queues, pipes, data[..i]))
              + Messages(RoutesOf(pyHash, filterAttr, queues, pipes, data[i]))
  {
    hide RoutesOf, Topic;
    if i < |data| {
      assert data[..i + 1][..i] == data[..i];
      MessagesSplit(Routes(pyHash, filterAttr, queues, pipes, data[..i]), RoutesOf(pyHash, filterAttr, queues, pipes, data[i]));
    }
  }

  /** PipelinePublishContext: every datapoint to one queue of every pipeline that
      accepts it, up to the first datapoint that lacks the filter attribute. */
  method Publish(pyHash: string -> int, filterAttr: string, queues: nat, pipes: seq<Transporter>, data: seq<Datapoint>)
    returns (sent: seq<Message>, keyError: Option<nat>)
    requires queues > 0
    ensures keyError.None? <==> pipes == [] || forall d :: d in data ==> filterAttr in d
    ensures keyError.None? ==> sent == Messages(Routes(pyHash, filterAttr, queues, pipes, data))
    ensures keyError.Some? ==>
              var n := keyError.value;
              && n < |data| && filterAttr !in data[n] && (forall i :: 0 <= i < n ==> filterAttr in data[i])
              && sent == Messages(Routes(pyHash, filterAttr, queues, pipes, data[..n]))
  {
    hide *;
    sent := [];
    RoutesSplit(pyHash, filterAttr, queues, pipes, data, 0);
    for i := 0 to |data|
      invariant sent == Messages(Routes(pyHash, filterAttr, queues, pipes, data[..i]))
      invariant pipes == [] || forall j :: 0 <= j < i ==> filterAttr in data[j]
    {
      var more, found := PublishOne(pyHash, filterAttr, queues, pipes, data[i]);
      if !found { return sent, Some(i); }
      RoutesSplit(pyHash, filterAttr, queues, pipes, data, i);
      sent := sent + more;
    }
    assert data[..|data|] == data;
    keyError := None;
  }

  // ---------- Listening ----------

  /** The topic belongs to one of the queues under one of the pipelines. */
  ghost predicate ListensTo(queues: seq<nat>, pipes: seq<string>, topic: string) {
    exists x, p :: x in queues && p in pipes && topic == Topic(p, x)
  }

  function PipeTopics(queue: nat, pipes: seq<string>): (r: seq<string>)
    ensures |r| == |pipes| && forall j :: 0 <= j < |pipes| ==> r[j] == Topic(pipes[j], queue)
  {
    seq(|pipes|, j requires 0 <= j < |pipes| => Topic(pipes[j], queue))
  }

  /** itertools.product of queues and pipelines, as topics. */
  function ProductTopics(queues: seq<nat>, pipes: seq<string>): seq<string> {
    if queues == [] then []
    else ProductTopics(queues[..|queues| - 1], pipes) + PipeTopics(queues[|queues| - 1], pipes)
  }

  lemma {:induction false} ProductTopicsIff(queues: seq<nat>, pipes: seq<string>, topic: string)
    ensures topic in ProductTopics(queues, pipes) <==> ListensTo(queues, pipes, topic)
    decreases |queues|
  {
    hide Topic;
    if queues != [] {
      var init, last := queues[..|queues| - 1], queues[|queues| - 1];
      ProductTopicsIff(init, pipes, topic);
      assert queues == init + [last];
      if p :| p in pipes && topic == Topic(p, last) {
        var j :| 0 <= j < |pipes| && pipes[j] == p;
        assert PipeTopics(last, pipes)[j] == topic;
      }
    }
  }

  /** The targets of _configure_pipeline_listener. */
  method ConfigureListener(queues: seq<nat>, pipes: seq<string>) returns (targets: seq<string>)
    ensures targets == ProductTopics(queues, pipes)
    ensures forall topic :: topic in targets <==> ListensTo(queues, pipes, topic)
  {
    targets := [];
    for i := 0 to |queues|
      invariant targets == ProductTopics(queues[..i], pipes)
    {
      for j := 0 to |pipes|
        invariant targets == ProductTopics(queues[..i], pipes) + PipeTopics(queues[i], pipes)[..j]
      {
        targets := targets + [Topic(pipes[j], queues[i])];
      }
      assert PipeTopics(queues[i], pipes)[..|pipes|] == PipeTopics(queues[i], pipes);
      assert queues[..i + 1][..i] == queues[..i];
    }
    assert queues[..|queues|] == queues;
    forall topic
      ensures topic in targets <==> ListensTo(queues, pipes, topic)
    {
      ProductTopicsIff(queues, pipes, topic);
    }
  }

  // ---------- End to end ----------

  function Range(n: nat): (r: seq<nat>)
    ensures |r| == n && forall i :: 0 <= i < n ==> r[i] == i
  {
    seq(n, i => i)
  }

  /** The agent listens on the topic: one of its queues under one of the pipelines. */
  ghost predicate AgentListens(hash: string -> Hash, members: seq<Node>, agent: Node, queues: nat, pipes: seq<string>, topic: string) {
    ListensTo(Share(hash, members, agent, Range(queues), Decimal), pipes, topic)
  }

  lemma {:induction false} InShareIff<T>(hash: string -> Hash, members: seq<Node>, me: Node, items: seq<T>, str: T -> string, v: T)
    ensures v in Share(hash, members, me, items, str) <==> v in items && Mine(hash, members, me, str(v))
    decreases |items|
  {
    hide Mine;
    if items != [] {
      InShareIff(hash, members, me, items[..|items| - 1], str, v);
      assert items == items[..|items| - 1] + [items[|items| - 1]];
    }
  }

  /** An agent listens on a pipeline's topic exactly when it owns the queue. */
  lemma ListensIffOwns(hash: string -> Hash, members: seq<Node>, agent: Node, queues: nat, pipes: seq<string>, pipe: string, x: nat)
    ensures AgentListens(hash, members, agent, queues, pipes, Topic(pipe, x)) <==>
            pipe in pipes && x < queues && Mine(hash, members, agent, Decimal(x))
  {
    hide Mine, Share, Topic;
    var share := Share(hash, members, agent, Range(queues), Decimal);
    InShareIff(hash, members, agent, Range(queues), Decimal, x);
    assert x < queues ==> Range(queues)[x] == x;
    if AgentListens(hash, members, agent, queues, pipes, Topic(pipe, x)) {
      var y, p :| y in share && p in pipes && Topic(pipe, x) == Topic(p, y);
      TopicInjective(pipe, x, p, y);
    }
  }

  /** Every topic a datapoint can be sent to is heard by exactly one agent. */
  lemma OneListener(hash: string -> Hash, members: seq<Node>, queues: nat, pipes: seq<string>, pipe: string, x: nat)
    returns (agent: Node)
    requires members != [] && pipe in pipes && x < queues
    ensures agent in members && AgentListens(hash, members, agent, queues, pipes, Topic(pipe, x))
    ensures forall other :: AgentListens(hash, members, other, queues, pipes, Topic(pipe, x)) ==> other == agent
  {
    agent := OwnerIsMember(hash, members, Decimal(x));
    ListensIffOwns(hash, members, agent, queues, pipes, pipe, x);
    forall other | AgentListens(hash, members, other, queues, pipes, Topic(pipe, x))
      ensures other == agent
    {
      ListensIffOwns(hash, members, other, queues, pipes, pipe, x);
      MineUnique(hash, members, other, agent, Decimal(x));
    }
  }

  /** What an agent receives of the messages sent. */
  ghost function Received(hash: string -> Hash, members: seq<Node>, agent: Node, queues: nat, pipes: seq<string>, sent: seq<Route>): seq<Route> {
    if sent == [] then []
    else
      var last := sent[|sent| - 1];
      Received(hash, members, agent, queues, pipes, sent[..|sent| - 1])
      + if AgentListens(hash, members, agent, queues, pipes, MessageOf(last).topic) then [last] else []
  }

  ghost function AllReceived(hash: string -> Hash, members: seq<Node>, agents: seq<Node>, queues: nat, pipes: seq<string>, sent: seq<Route>): multiset<Route> {
    if agents == [] then multiset{}
    else AllReceived(hash, members, agents[..|agents| - 1], queues, pipes, sent)
         + multiset(Received(hash, members, agents[|agents| - 1], queues, pipes, sent))
  }

  /** Receiving is the same split as that of the queues. */
  lemma {:induction false} ReceivedIsShare(hash: string -> Hash, members: seq<Node>, agent: Node, queues: nat, pipes: seq<string>, sent: seq<Route>)
    requires forall route :: route in sent ==> route.pipe in pipes && route.queue < queues
    ensures Received(hash, members, agent, queues, pipes, sent) ==
            Share(hash, members, agent, sent, (route: Route) => Decimal(route.queue))
    decreases |sent|
  {
    hide Mine, AgentListens;
    if sent != [] {
      var init, last := sent[..|sent| - 1], sent[|sent| - 1];
      assert sent == init + [last] && last in sent;
      ReceivedIsShare(hash, members, agent, queues, pipes, init);
      ListensIffOwns(hash, members, agent, queues, pipes, last.pipe, last.queue);
    }
  }

  lemma {:induction false} AllReceivedIsAllShares(hash: string -> Hash, members: seq<Node>, agents: seq<Node>, queues: nat, pipes: seq<string>, sent: seq<Route>)
    requires forall route :: route in sent ==> route.pipe in pipes && route.queue < queues
    ensures AllReceived(hash, members, agents, queues, pipes, sent) ==
            AllShares(hash, members, agents, sent, (route: Route) => Decimal(route.queue))
    decreases |agents|
  {
    hide Received, Share;
    if agents != [] {
      AllReceivedIsAllShares(hash, members, agents[..|agents| - 1], queues, pipes, sent);
      ReceivedIsShare(hash, members, agents[|agents| - 1], queues, pipes, sent);
    }
  }

  lemma {:induction false} RoutesUsePipes(pyHash: string -> int, filterAttr: string, queues: nat, pipes: seq<Transporter>, data: seq<Datapoint>, names: seq<string>)
    requires queues > 0 && forall p :: p in pipes ==> p.name in names
    ensures forall route :: route in Routes(pyHash, filterAttr, queues, pipes, data) ==> route.pipe in names
    decreases |data|
  {
    if data != [] {
      RoutesUsePipes(pyHash, filterAttr, queues, pipes, data[..|data| - 1], names);
      RoutesOfUsePipes(pyHash, filterAttr, queues, pipes, data[|data| - 1], names);
    }
  }

  lemma {:induction false} RoutesOfUsePipes(pyHash: string -> int, filterAttr: string, queues: nat, pipes: seq<Transporter>, d: Datapoint, names: seq<string>)
    requires queues > 0 && forall p :: p in pipes ==> p.name in names
    ensures forall route :: route in RoutesOf(pyHash, filterAttr, queues, pipes, d) ==> route.pipe in names
    decreases |pipes|
  {
    if pipes != [] {
      assert pipes[|pipes| - 1] in pipes;
      RoutesOfUsePipes(pyHash, filterAttr, queues, pipes[..|pipes| - 1], d, names);
    }
  }

  /** Nothing sent is lost or received twice: over all agents, what is received is
      what is sent, for every batch of datapoints and every set of pipelines. */
  lemma DeliveryIsExact(hash: string -> Hash, pyHash: string -> int, filterAttr: string, queues: nat, pipes: seq<Transporter>,
                        names: seq<string>, members: seq<Node>, agents: seq<Node>, data: seq<Datapoint>)
    requires queues > 0 && forall p :: p in pipes ==> p.name in names
    requires members != [] && Distinct(agents) && forall m :: m in members <==> m in agents
    ensures var sent := Routes(pyHash, filterAttr, queues, pipes, data);
            AllReceived(hash, members, agents, queues, names, sent) == multiset(sent)
  {
    var sent := Routes(pyHash, filterAttr, queues, pipes, data);
    RoutesUsePipes(pyHash, filterAttr, queues, pipes, data, names);
    AllReceivedIsAllShares(hash, members, agents, queues, names, sent);
    SharesAreExact(hash, members, agents, sent, (route: Route) => Decimal(route.queue));
  }

  // ---------- Buckets ----------

  function PipeNames(pipes: seq<Transporter>): (r: seq<string>)
    ensures |r| == |pipes| && forall i :: 0 <= i < |pipes| ==> r[i] == pipes[i].name
  {
    seq(|pipes|, i requires 0 <= i < |pipes| => pipes[i].name)
  }

  /** The routes of one pipeline. */
  ghost function RoutesFor(routes: seq<Route>, pipe: string): seq<Route> {
    if routes == [] then []
    else RoutesFor(routes[..|routes| - 1], pipe) + if routes[|routes| - 1].pipe == pipe then [routes[|routes| - 1]] else []
  }

  /** A datapoint goes to one queue of every pipeline that accepts it, chosen by
      its grouping value alone, and to none of the others. */
  lemma {:induction false} RoutedOnce(pyHash: string -> int, filterAttr: string, queues: nat, pipes: seq<Transporter>, d: Datapoint, k: nat)
    requires queues > 0 && Distinct(PipeNames(pipes)) && k < |pipes|
    ensures var p := pipes[k];
            RoutesFor(RoutesOf(pyHash, filterAttr, queues, pipes, d), p.name) ==
            if filterAttr in d && p.filter(d[filterAttr]) then [Route(p.name, pyHash(GroupingValue(d, p.groupingKeys)) % queues, d)] else []
    decreases |pipes|
  {
    var init, last, p := pipes[..|pipes| - 1], pipes[|pipes| - 1], pipes[k];
    var routes := RoutesOf(pyHash, filterAttr, queues, init, d);
    if last.Accepts(d, filterAttr) {
      var route := Route(last.name, pyHash(GroupingValue(d, last.groupingKeys)) % queues, d);
      assert (routes + [route])[..|routes + [route]| - 1] == routes;
    } else {
      assert routes + [] == routes;
    }
    if k == |pipes| - 1 {
      NotRouted(pyHash, filterAttr, queues, init, d, p.name);
    } else {
      RoutedOnce(pyHash, filterAttr, queues, init, d, k);
    }
  }

  lemma {:induction false} NotRouted(pyHash: string -> int, filterAttr: string, queues: nat, pipes: seq<Transporter>, d: Datapoint, name: string)
    requires queues > 0 && forall i :: 0 <= i < |pipes| ==> pipes[i].name != name
    ensures RoutesFor(RoutesOf(pyHash, filterAttr, queues, pipes, d), name) == []
    decreases |pipes|
  {
    if pipes != [] {
      var init, last := pipes[..|pipes| - 1], pipes[|pipes| - 1];
      NotRouted(pyHash, filterAttr, queues, init, d, name);
      var routes := RoutesOf(pyHash, filterAttr, queues, init, d);
      if last.Accepts(d, filterAttr) {
        var route := Route(last.name, pyHash(GroupingValue(d, last.groupingKeys)) % queues, d);
        assert (routes + [route])[..|routes + [route]| - 1] == routes;
      } else {
        assert routes + [] == routes;
      }
    }
  }

  /** Datapoints with equal grouping values reach the same agent in a pipeline: one
      agent hears the topics of both, and nobody else hears either. */
  lemma SameGroupSameAgent(hash: string -> Hash, pyHash: string -> int, filterAttr: string, queues: nat, pipes: seq<Transporter>,
                           names: seq<string>, members: seq<Node>, k: nat, d: Datapoint, e: Datapoint)
    returns (agent: Node)
    requires queues > 0 && Distinct(PipeNames(pipes)) && k < |pipes| && members != [] && pipes[k].name in names
    requires pipes[k].Accepts(d, filterAttr) && pipes[k].Accepts(e, filterAttr)
    requires GroupingValue(d, pipes[k].groupingKeys) == GroupingValue(e, pipes[k].groupingKeys)
    ensures var ofD := RoutesFor(RoutesOf(pyHash, filterAttr, queues, pipes, d), pipes[k].name);
            var ofE := RoutesFor(RoutesOf(pyHash, filterAttr, queues, pipes, e), pipes[k].name);
            && |ofD| == |ofE| == 1 && agent in members
            && (forall a :: AgentListens(hash, members, a, queues, names, MessageOf(ofD[0]).topic) <==> a == agent)
            && (forall a :: AgentListens(hash, members, a, queues, names, MessageOf(ofE[0]).topic) <==> a == agent)
  {
    hide Mine, AgentListens, Topic;
    RoutedOnce(pyHash, filterAttr, queues, pipes, d, k);
    RoutedOnce(pyHash, filterAttr, queues, pipes, e, k);
    var x := pyHash(GroupingValue(d, pipes[k].groupingKeys)) % queues;
    agent := OneListener(hash, members, queues, names, pipes[k].name, x);
  }
}
