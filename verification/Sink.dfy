/** SampleSink: a chain of stateful transformers, injected at any stage. */
module Sink {
  import opened Wrappers
  import opened Sequences

  /** What a transformer does with one sample: pass on a sample, keep or drop it, or raise. */
  datatype Handled<+X> = Emitted(sample: X) | Absorbed | Raised

  /** The behaviour of a transformer with state S: handle_sample and flush, the
      latter returning None when it raises. */
  datatype Behaviour<!S, !X> = Behaviour(handle: (S, X) -> (S, Handled<X>), flush: S -> (S, Option<seq<X>>))

  /** States of the chain, samples published, and samples logged as lost to an exception. */
  datatype Result<+S, +X> = Result(states: seq<S>, published: seq<X>, logged: seq<X>)

  // ---------- Specification ----------

  /** _transform_sample: one sample from stage start to the end of the chain. */
  function Transform<S, X>(chain: seq<Behaviour<S, X>>, states: seq<S>, start: nat, x: X): (r: Result<S, X>)
    requires |states| == |chain| && start <= |chain|
    ensures |r.states| == |chain| && r.states[..start] == states[..start]
    decreases |chain| - start
  {
    if start == |chain| then Result(states, [x], [])
    else
      var (s, handled) := chain[start].handle(states[start], x);
      match handled
      case Emitted(y) => Transform(chain, states[start := s], start + 1, y)
      case Absorbed => Result(states[start := s], [], [])
      case Raised => Result(states[start := s], [], [x])
  }

  function Then<S, X>(first: Result<S, X>, rest: Result<S, X>): Result<S, X> {
    Result(rest.states, first.published + rest.published, first.logged + rest.logged)
  }

  /** _publish_samples: every sample through the whole chain before the next one. */
  function PublishFrom<S, X>(chain: seq<Behaviour<S, X>>, states: seq<S>, start: nat, samples: seq<X>): (r: Result<S, X>)
    requires |states| == |chain| && start <= |chain|
    ensures |r.states| == |chain| && r.states[..start] == states[..start]
    decreases |samples|
  {
    if samples == [] then Result(states, [], [])
    else
      var first := Transform(chain, states, start, samples[0]);
      Then(first, PublishFrom(chain, first.states, start, samples[1..]))
  }

  /** flush from stage i on: what each stage releases goes to the stages after it. */
  function FlushFrom<S, X>(chain: seq<Behaviour<S, X>>, states: seq<S>, i: nat): (r: Result<S, X>)
    requires |states| == |chain| && i <= |chain|
    ensures |r.states| == |chain| && r.states[..i] == states[..i]
    decreases |chain| - i
  {
    if i == |chain| then Result(states, [], [])
    else
      var (s, released) := chain[i].flush(states[i]);
      var first := PublishFrom(chain, states[i := s], i + 1, released.GetOr([]));
      Then(first, FlushFrom(chain, first.states, i + 1))
  }

  // ---------- Batches ----------

  lemma ThenAssociative<S, X>(a: Result<S, X>, b: Result<S, X>, c: Result<S, X>)
    ensures Then(a, Then(b, c)) == Then(Then(a, b), c)
  {
  }

  /** Pushing two batches in one call or in two is the same. */
  lemma {:induction false} BatchIndependence<S, X>(chain: seq<Behaviour<S, X>>, states: seq<S>, start: nat, a: seq<X>, b: seq<X>)
    requires |states| == |chain| && start <= |chain|
    ensures var first := PublishFrom(chain, states, start, a);
            var second := PublishFrom(chain, first.states, start, b);
            var both := PublishFrom(chain, states, start, a + b);
            && both == Then(first, second) && both.states == second.states
            && both.published == first.published + second.published && both.logged == first.logged + second.logged
    decreases |a|
  {
    if a == [] {
      assert a + b == b;
    } else {
      var one := Transform(chain, states, start, a[0]);
      assert (a + b)[1..] == a[1..] + b;
      BatchIndependence(chain, one.states, start, a[1..], b);
      var first := PublishFrom(chain, one.states, start, a[1..]);
      ThenAssociative(one, first, PublishFrom(chain, first.states, start, b));
    }
  }

  /** What came out before, put in front. */
  function Before<S, X>(published: seq<X>, logged: seq<X>, rest: Result<S, X>): Result<S, X> {
    Result(rest.states, published + rest.published, logged + rest.logged)
  }

  lemma BeforeThen<S, X>(published: seq<X>, logged: seq<X>, first: Result<S, X>, rest: Result<S, X>)
    ensures Before(published, logged, Then(first, rest)) == Before(published + first.published, logged + first.logged, rest)
    ensures Before([], [], rest) == rest
  {
    assert published + (first.published + rest.published) == published + first.published + rest.published;
    assert logged + (first.logged + rest.logged) == logged + first.logged + rest.logged;
    assert [] + rest.published == rest.published && [] + rest.logged == rest.logged;
  }

  lemma BeforeNothing<S, X>(published: seq<X>, logged: seq<X>, states: seq<S>)
    ensures Before(published, logged, Result(states, [], [])) == Result(states, published, logged)
  {
  }

  lemma PublishNothing<S, X>(chain: seq<Behaviour<S, X>>, states: seq<S>, start: nat)
    requires |states| == |chain| && start <= |chain|
    ensures PublishFrom(chain, states, start, []) == Result(states, [], [])
  {
  }

  lemma PublishUnfolds<S, X>(chain: seq<Behaviour<S, X>>, states: seq<S>, start: nat, samples: seq<X>, i: nat)
    requires |states| == |chain| && start <= |chain| && i <= |samples|
    ensures i == |samples| ==> PublishFrom(chain, states, start, samples[i..]) == Result(states, [], [])
    ensures i < |samples| ==>
              var one := Transform(chain, states, start, samples[i]);
              PublishFrom(chain, states, start, samples[i..]) == Then(one, PublishFrom(chain, one.states, start, samples[i + 1..]))
  {
    if i < |samples| { assert samples[i..][1..] == samples[i + 1..]; }
  }

  lemma FlushUnfolds<S, X>(chain: seq<Behaviour<S, X>>, states: seq<S>, i: nat)
    requires |states| == |chain| && i <= |chain|
    ensures i == |chain| ==> FlushFrom(chain, states, i) == Result(states, [], [])
    ensures i < |chain| ==>
              var (s, released) := chain[i].flush(states[i]);
              var first := PublishFrom(chain, states[i := s], i + 1, released.GetOr([]));
              FlushFrom(chain, states, i) == Then(first, FlushFrom(chain, first.states, i + 1))
  {
  }

  // ---------- Stage by stage ----------

  /** All samples through one stage. */
  function Stage<S, X>(b: Behaviour<S, X>, state: S, samples: seq<X>): (r: (S, seq<X>, seq<X>))
    decreases |samples|
  {
    if samples == [] then (state, [], [])
    else
      var (s, handled) := b.handle(state, samples[0]);
      var (end, out, lost) := Stage(b, s, samples[1..]);
      match handled
      case Emitted(y) => (end, [y] + out, lost)
      case Absorbed => (end, out, lost)
      case Raised => (end, out, [samples[0]] + lost)
  }

  /** The stages before start are neither read nor changed. */
  lemma {:induction false} TransformFrame<S, X>(chain: seq<Behaviour<S, X>>, states: seq<S>, start: nat, x: X, i: nat, s: S)
    requires |states| == |chain| && i < start <= |chain|
    ensures var r := Transform(chain, states, start, x);
            Transform(chain, states[i := s], start, x) == Result(r.states[i := s], r.published, r.logged)
    decreases |chain| - start
  {
    if start < |chain| {
      var (t, handled) := chain[start].handle(states[start], x);
      assert states[i := s][start := t] == states[start := t][i := s];
      if handled.Emitted? { TransformFrame(chain, states[start := t], start + 1, handled.sample, i, s); }
    }
  }

  /** Same states, same samples published in the same order, same samples lost. */
  ghost predicate Agree<S, X>(r: Result<S, X>, lost: seq<X>, q: Result<S, X>) {
    r.states == q.states && r.published == q.published && multiset(r.logged) == multiset(lost) + multiset(q.logged)
  }

  lemma AgreeThen<S, X>(a: Result<S, X>, b: Result<S, X>, r: Result<S, X>, lost: seq<X>, q: Result<S, X>)
    requires Agree(r, lost, q) && a.published == b.published && a.logged == b.logged
    ensures Agree(Then(a, r), lost, Then(b, q))
  {
  }

  lemma AgreeLost<S, X>(a: Result<S, X>, r: Result<S, X>, lost: seq<X>, q: Result<S, X>)
    requires Agree(r, lost, q) && a.published == []
    ensures Agree(Then(a, r), a.logged + lost, q)
    ensures [] + lost == lost
  {
    assert [] + r.published == r.published;
  }

  /** Sample by sample through the whole chain leaves the same states and publishes
      the same sequence as all samples through the first stage, then what came out
      of it through the rest; the lost samples are the same up to order. */
  lemma {:induction false} FirstStage<S, X>(chain: seq<Behaviour<S, X>>, states: seq<S>, start: nat, samples: seq<X>)
    requires |states| == |chain| && start < |chain|
    ensures var (end, out, lost) := Stage(chain[start], states[start], samples);
            var r := PublishFrom(chain, states, start, samples);
            var q := PublishFrom(chain, states[start := end], start + 1, out);
            Agree(r, lost, q)
    decreases |samples|
  {
    if samples == [] {
      assert states[start := states[start]] == states;
    } else {
      hide Transform, PublishFrom, Agree;
      var x, more := samples[0], samples[1..];
      var (s, handled) := chain[start].handle(states[start], x);
      var (end, out, lost) := Stage(chain[start], s, more);
      var one := Transform(chain, states, start, x);
      TransformFirst(chain, states, start, x);
      FirstStage(chain, one.states, start, more);
      PublishCons(chain, states, start, x, more);
      assert samples == [x] + more;
      assert states[start := s][start := end] == states[start := end];
      if handled.Emitted? {
        TransformFrame(chain, states[start := s], start + 1, handled.sample, start, end);
        PublishCons(chain, states[start := end], start + 1, handled.sample, out);
        AgreeThen(one, Transform(chain, states[start := end], start + 1, handled.sample),
                  PublishFrom(chain, one.states, start, more), lost,
                  PublishFrom(chain, Transform(chain, states[start := end], start + 1, handled.sample).states, start + 1, out));
      } else {
        AgreeLost(one, PublishFrom(chain, one.states, start, more), lost, PublishFrom(chain, states[start := end], start + 1, out));
      }
    }
  }

  lemma PublishCons<S, X>(chain: seq<Behaviour<S, X>>, states: seq<S>, start: nat, x: X, more: seq<X>)
    requires |states| == |chain| && start <= |chain|
    ensures var one := Transform(chain, states, start, x);
            PublishFrom(chain, states, start, [x] + more) == Then(one, PublishFrom(chain, one.states, start, more))
  {
    assert ([x] + more)[1..] == more;
  }

  /** The first stage of a transformation. */
  lemma TransformFirst<S, X>(chain: seq<Behaviour<S, X>>, states: seq<S>, start: nat, x: X)
    requires |states| == |chain| && start < |chain|
    ensures var (s, handled) := chain[start].handle(states[start], x);
            var r := Transform(chain, states, start, x);
            && r.states[start] == s
            && match handled
               case Emitted(y) => r == Transform(chain, states[start := s], start + 1, y)
               case Absorbed => r == Result(states[start := s], [], [])
               case Raised => r == Result(states[start := s], [], [x])
  {
    var (s, handled) := chain[start].handle(states[start], x);
    if handled.Emitted? {
      var r := Transform(chain, states[start := s], start + 1, handled.sample);
      assert r.states[..start + 1][start] == states[start := s][..start + 1][start];
    }
  }

  /** All samples through one stage after the other, from start to the end. */
  function Stages<S, X>(chain: seq<Behaviour<S, X>>, states: seq<S>, start: nat, samples: seq<X>): (r: Result<S, X>)
    requires |states| == |chain| && start <= |chain|
    ensures |r.states| == |chain|
    decreases |chain| - start
  {
    if start == |chain| then Result(states, samples, [])
    else
      var (end, out, lost) := Stage(chain[start], states[start], samples);
      var rest := Stages(chain, states[start := end], start + 1, out);
      Result(rest.states, rest.published, lost + rest.logged)
  }

  lemma {:induction false} PublishAtEnd<S, X>(chain: seq<Behaviour<S, X>>, states: seq<S>, samples: seq<X>)
    requires |states| == |chain|
    ensures PublishFrom(chain, states, |chain|, samples) == Result(states, samples, [])
    decreases |samples|
  {
    if samples != [] {
      PublishAtEnd(chain, states, samples[1..]);
      assert samples == [samples[0]] + samples[1..];
    }
  }

  /** Sample by sample through the whole chain leaves the same states and publishes
      the same sequence as all samples stage by stage, with the same samples lost. */
  lemma {:induction false} StageByStage<S, X>(chain: seq<Behaviour<S, X>>, states: seq<S>, start: nat, samples: seq<X>)
    requires |states| == |chain| && start <= |chain|
    ensures Agree(PublishFrom(chain, states, start, samples), [], Stages(chain, states, start, samples))
    decreases |chain| - start
  {
    hide PublishFrom, Stage;
    if start == |chain| {
      PublishAtEnd(chain, states, samples);
    } else {
      var (end, out, lost) := Stage(chain[start], states[start], samples);
      FirstStage(chain, states, start, samples);
      StageByStage(chain, states[start := end], start + 1, out);
    }
  }

  // ---------- Flushing stage by stage ----------

  /** Every stage takes what came out of the stage before it, then releases what it
      holds, and hands both on. */
  function FlushStages<S, X>(chain: seq<Behaviour<S, X>>, states: seq<S>, start: nat, samples: seq<X>): (r: Result<S, X>)
    requires |states| == |chain| && start <= |chain|
    ensures |r.states| == |chain|
    decreases |chain| - start
  {
    if start == |chain| then Result(states, samples, [])
    else
      var (mid, out, lost) := Stage(chain[start], states[start], samples);
      var (end, released) := chain[start].flush(mid);
      var rest := FlushStages(chain, states[start := end], start + 1, out + released.GetOr([]));
      Result(rest.states, rest.published, lost + rest.logged)
  }

  /** The stages before start are neither read nor changed by a batch. */
  lemma {:induction false} PublishFrame<S, X>(chain: seq<Behaviour<S, X>>, states: seq<S>, start: nat, samples: seq<X>, i: nat, s: S)
    requires |states| == |chain| && i < start <= |chain|
    ensures var r := PublishFrom(chain, states, start, samples);
            PublishFrom(chain, states[i := s], start, samples) == Result(r.states[i := s], r.published, r.logged)
    decreases |samples|
  {
    hide Transform;
    if samples != [] {
      TransformFrame(chain, states, start, samples[0], i, s);
      var one := Transform(chain, states, start, samples[0]);
      PublishFrame(chain, one.states, start, samples[1..], i, s);
    }
  }

  lemma AgreeFlush<S, X>(batch: Result<S, X>, first: Result<S, X>, second: Result<S, X>, rest: Result<S, X>, lost: seq<X>,
                         staged: Result<S, X>)
    requires batch.published == first.published && multiset(batch.logged) == multiset(lost) + multiset(first.logged)
    requires Agree(Then(Then(first, second), rest), [], staged)
    ensures Agree(Then(batch, Then(second, rest)), [], Result(staged.states, staged.published, lost + staged.logged))
  {
    Associative(batch.published, second.published, rest.published);
    assert multiset(batch.logged + (second.logged + rest.logged))
        == multiset(lost) + multiset(first.logged + second.logged + rest.logged);
    assert multiset(lost + staged.logged) == multiset(lost) + multiset(staged.logged);
  }

  /** Flushing the chain after a batch gives the same states and the same published
      sequence as flushing stage by stage, with the same samples lost. */
  lemma {:induction false} FlushStageByStage<S, X>(chain: seq<Behaviour<S, X>>, states: seq<S>, start: nat, samples: seq<X>)
    requires |states| == |chain| && start <= |chain|
    ensures var batch := PublishFrom(chain, states, start, samples);
            Agree(Then(batch, FlushFrom(chain, batch.states, start)), [], FlushStages(chain, states, start, samples))
    decreases |chain| - start
  {
    hide Stage, PublishFrom, FlushFrom;
    var batch := PublishFrom(chain, states, start, samples);
    FlushUnfolds(chain, batch.states, start);
    if start == |chain| {
      PublishAtEnd(chain, states, samples);
    } else {
      var (mid, out, lost) := Stage(chain[start], states[start], samples);
      var (end, released) := chain[start].flush(mid);
      var more := released.GetOr([]);
      FirstStage(chain, states, start, samples);
      var onward := PublishFrom(chain, states[start := mid], start + 1, out);
      assert onward.states[start] == mid by { assert onward.states[..start + 1][start] == states[start := mid][..start + 1][start]; }
      PublishFrame(chain, states[start := mid], start + 1, out, start, end);
      assert states[start := mid][start := end] == states[start := end];
      var first := PublishFrom(chain, states[start := end], start + 1, out);
      BatchIndependence(chain, states[start := end], start + 1, out, more);
      FlushStageByStage(chain, states[start := end], start + 1, out + more);
      var second := PublishFrom(chain, first.states, start + 1, more);
      var rest := FlushFrom(chain, second.states, start + 1);
      assert batch.states[start := end] == first.states;
      AgreeFlush(batch, first, second, rest, lost, FlushStages(chain, states[start := end], start + 1, out + more));
    }
  }

  // ---------- Conservation ----------

  function Total<X>(weight: X -> nat, samples: seq<X>): nat {
    if samples == [] then 0 else weight(samples[0]) + Total(weight, samples[1..])
  }

  function Held<S>(held: S -> nat, states: seq<S>): nat {
    if states == [] then 0 else held(states[0]) + Held(held, states[1..])
  }

  /** What a transformer receives it passes on or holds (in a buffer, or on its own
      record of drops); what it releases on flush it no longer holds. */
  ghost predicate Balanced<S(!new), X(!new)>(b: Behaviour<S, X>, weight: X -> nat, held: S -> nat) {
    && (forall s, x ::
          var (s', handled) := b.handle(s, x);
          match handled
          case Emitted(y) => weight(x) + held(s) == weight(y) + held(s')
          case Absorbed => weight(x) + held(s) == held(s')
          case Raised => held(s) == held(s'))
    && (forall s ::
          var (s', released) := b.flush(s);
          held(s) == Total(weight, released.GetOr([])) + held(s'))
  }

  lemma {:induction false} TotalConcat<X>(weight: X -> nat, a: seq<X>, b: seq<X>)
    ensures Total(weight, a + b) == Total(weight, a) + Total(weight, b)
    decreases |a|
  {
    if a == [] {
      assert a + b == b;
    } else {
      assert (a + b)[1..] == a[1..] + b;
      TotalConcat(weight, a[1..], b);
    }
  }

  lemma {:induction false} HeldUpdate<S>(held: S -> nat, states: seq<S>, i: nat, s: S)
    requires i < |states|
    ensures Held(held, states[i := s]) + held(states[i]) == Held(held, states) + held(s)
    decreases i
  {
    if i > 0 {
      assert states[i := s][1..] == states[1..][i - 1 := s];
      HeldUpdate(held, states[1..], i - 1, s);
    } else {
      assert states[i := s][1..] == states[1..];
    }
  }

  ghost predicate Conserves<S, X>(weight: X -> nat, held: S -> nat, injected: nat, before: seq<S>, r: Result<S, X>) {
    injected + Held(held, before) == Total(weight, r.published) + Total(weight, r.logged) + Held(held, r.states)
  }

  lemma ThenConserves<S, X>(weight: X -> nat, held: S -> nat, i: nat, j: nat, before: seq<S>, first: Result<S, X>, rest: Result<S, X>)
    requires Conserves(weight, held, i, before, first) && Conserves(weight, held, j, first.states, rest)
    ensures Conserves(weight, held, i + j, before, Then(first, rest))
  {
    TotalConcat(weight, first.published, rest.published);
    TotalConcat(weight, first.logged, rest.logged);
  }

  lemma {:induction false} TransformConserves<S(!new), X(!new)>(chain: seq<Behaviour<S, X>>, states: seq<S>, start: nat, x: X, weight: X -> nat, held: S -> nat)
    requires |states| == |chain| && start <= |chain| && forall b :: b in chain ==> Balanced(b, weight, held)
    ensures Conserves(weight, held, weight(x), states, Transform(chain, states, start, x))
    decreases |chain| - start
  {
    if start == |chain| {
      assert [x][1..] == [];
    } else {
      var b := chain[start];
      assert b in chain;
      var (s, handled) := b.handle(states[start], x);
      HeldUpdate(held, states, start, s);
      if handled.Emitted? { TransformConserves(chain, states[start := s], start + 1, handled.sample, weight, held); }
      if handled.Raised? { assert [x][1..] == []; }
    }
  }

  lemma {:induction false} PublishConserves<S(!new), X(!new)>(chain: seq<Behaviour<S, X>>, states: seq<S>, start: nat, samples: seq<X>, weight: X -> nat, held: S -> nat)
    requires |states| == |chain| && start <= |chain| && forall b :: b in chain ==> Balanced(b, weight, held)
    ensures Conserves(weight, held, Total(weight, samples), states, PublishFrom(chain, states, start, samples))
    decreases |samples|
  {
    if samples != [] {
      var first := Transform(chain, states, start, samples[0]);
      TransformConserves(chain, states, start, samples[0], weight, held);
      PublishConserves(chain, first.states, start, samples[1..], weight, held);
      ThenConserves(weight, held, weight(samples[0]), Total(weight, samples[1..]), states, first,
                    PublishFrom(chain, first.states, start, samples[1..]));
    }
  }

  lemma {:induction false} FlushConserves<S(!new), X(!new)>(chain: seq<Behaviour<S, X>>, states: seq<S>, i: nat, weight: X -> nat, held: S -> nat)
    requires |states| == |chain| && i <= |chain| && forall b :: b in chain ==> Balanced(b, weight, held)
    ensures Conserves(weight, held, 0, states, FlushFrom(chain, states, i))
    decreases |chain| - i
  {
    if i < |chain| {
      var b := chain[i];
      assert b in chain;
      var (s, released) := b.flush(states[i]);
      HeldUpdate(held, states, i, s);
      var samples := released.GetOr([]);
      PublishConserves(chain, states[i := s], i + 1, samples, weight, held);
      var first := PublishFrom(chain, states[i := s], i + 1, samples);
      assert Conserves(weight, held, 0, states, first);
      FlushConserves(chain, first.states, i + 1, weight, held);
      ThenConserves(weight, held, 0, 0, states, first, FlushFrom(chain, first.states, i + 1));
    }
  }

  /** What a sink is asked to do. */
  datatype Request<+X> = Publish(samples: seq<X>) | Flush

  function Serve<S, X>(chain: seq<Behaviour<S, X>>, states: seq<S>, request: Request<X>): (r: Result<S, X>)
    requires |states| == |chain|
    ensures |r.states| == |chain|
  {
    match request
    case Publish(samples) => PublishFrom(chain, states, 0, samples)
    case Flush => FlushFrom(chain, states, 0)
  }

  function ServeAll<S, X>(chain: seq<Behaviour<S, X>>, states: seq<S>, requests: seq<Request<X>>): (r: Result<S, X>)
    requires |states| == |chain|
    ensures |r.states| == |chain|
    decreases |requests|
  {
    if requests == [] then Result(states, [], [])
    else
      var first := Serve(chain, states, requests[0]);
      Then(first, ServeAll(chain, first.states, requests[1..]))
  }

  function Injected<X>(weight: X -> nat, requests: seq<Request<X>>): nat {
    if requests == [] then 0
    else (if requests[0].Publish? then Total(weight, requests[0].samples) else 0) + Injected(weight, requests[1..])
  }

  /** Over any sequence of requests: what was injected is published, logged as lost
      to an exception, or still held. */
  lemma {:induction false} Conservation<S(!new), X(!new)>(chain: seq<Behaviour<S, X>>, states: seq<S>, requests: seq<Request<X>>, weight: X -> nat, held: S -> nat)
    requires |states| == |chain| && forall b :: b in chain ==> Balanced(b, weight, held)
    ensures Conserves(weight, held, Injected(weight, requests), states, ServeAll(chain, states, requests))
    decreases |requests|
  {
    if requests != [] {
      var first := Serve(chain, states, requests[0]);
      var injected := if requests[0].Publish? then Total(weight, requests[0].samples) else 0;
      match requests[0] {
        case Publish(samples) => PublishConserves(chain, states, 0, samples, weight, held);
        case Flush => FlushConserves(chain, states, 0, weight, held);
      }
      Conservation(chain, first.states, requests[1..], weight, held);
      ThenConserves(weight, held, injected, Injected(weight, requests[1..]), states, first, ServeAll(chain, first.states, requests[1..]));
    }
  }

  // ---------- Flushing ----------

  /** Flushing never raises and leaves the buffer empty; an empty buffer releases nothing. */
  ghost predicate Drains<S(!new), X>(b: Behaviour<S, X>, empty: S -> bool) {
    forall s :: b.flush(s).1.Some? && empty(b.flush(s).0) && (empty(s) ==> b.flush(s).1 == Some([]))
  }

  /** After a flush all buffers are empty, for a stage feeds only later stages. */
  lemma {:induction false} FlushEmpties<S(!new), X>(chain: seq<Behaviour<S, X>>, states: seq<S>, i: nat, empty: S -> bool)
    requires |states| == |chain| && i <= |chain| && forall b :: b in chain ==> Drains(b, empty)
    requires forall j :: 0 <= j < i ==> empty(states[j])
    ensures forall j :: 0 <= j < |chain| ==> empty(FlushFrom(chain, states, i).states[j])
    decreases |chain| - i
  {
    if i < |chain| {
      var b := chain[i];
      assert b in chain;
      var (s, released) := b.flush(states[i]);
      var first := PublishFrom(chain, states[i := s], i + 1, released.GetOr([]));
      forall j | 0 <= j <= i
        ensures empty(first.states[j])
      {
        assert first.states[j] == first.states[..i + 1][j] == states[i := s][..i + 1][j];
      }
      FlushEmpties(chain, first.states, i + 1, empty);
    }
  }

  /** Flushing again publishes nothing and loses nothing. */
  lemma {:induction false} SecondFlushIsSilent<S(!new), X>(chain: seq<Behaviour<S, X>>, states: seq<S>, i: nat, empty: S -> bool)
    requires |states| == |chain| && i <= |chain| && forall b :: b in chain ==> Drains(b, empty)
    requires forall j :: 0 <= j < |states| ==> empty(states[j])
    ensures FlushFrom(chain, states, i).published == [] && FlushFrom(chain, states, i).logged == []
    decreases |chain| - i
  {
    if i < |chain| {
      var b := chain[i];
      assert b in chain;
      var (s, released) := b.flush(states[i]);
      assert released == Some([]);
      SecondFlushIsSilent(chain, states[i := s], i + 1, empty);
    }
  }

  /** A flush right after a flush. */
  lemma FlushTwice<S(!new), X>(chain: seq<Behaviour<S, X>>, states: seq<S>, empty: S -> bool)
    requires |states| == |chain| && forall b :: b in chain ==> Drains(b, empty)
    ensures var again := FlushFrom(chain, FlushFrom(chain, states, 0).states, 0);
            again.published == [] && again.logged == []
  {
    FlushEmpties(chain, states, 0, empty);
    SecondFlushIsSilent(chain, FlushFrom(chain, states, 0).states, 0, empty);
  }

  // ---------- The sink object ----------

  class Transformer<!S, !X> {
    const behaviour: Behaviour<S, X>
    var state: S

    constructor (behaviour: Behaviour<S, X>, state: S)
      ensures this.behaviour == behaviour && this.state == state
    {
      this.behaviour, this.state := behaviour, state;
    }

    method HandleSample(x: X) returns (r: Handled<X>)
      modifies this
      ensures (state, r) == behaviour.handle(old(state), x)
    {
      var (s, handled) := behaviour.handle(state, x);
      state, r := s, handled;
    }

    method Flush() returns (r: Option<seq<X>>)
      modifies this
      ensures (state, r) == behaviour.flush(old(state))
    {
      var (s, released) := behaviour.flush(state);
      state, r := s, released;
    }
  }

  class SampleSink<!S, !X> {
    const transformers: seq<Transformer<S, X>>
    var published: seq<X>  // what every publisher of the sink was given
    var logged: seq<X>     // the samples named in error messages

    constructor (transformers: seq<Transformer<S, X>>)
      ensures this.transformers == transformers && published == [] && logged == []
    {
      this.transformers, this.published, this.logged := transformers, [], [];
    }

    /** Every transformer instance belongs to one stage. */
    ghost predicate Valid() {
      forall i, j :: 0 <= i < j < |transformers| ==> transformers[i] != transformers[j]
    }

    ghost function Chain(): (r: seq<Behaviour<S, X>>)
      ensures |r| == |transformers|
    {
      seq(|transformers|, i requires 0 <= i < |transformers| => transformers[i].behaviour)
    }

    ghost function States(): (r: seq<S>)
      reads transformers
      ensures |r| == |transformers| && forall i :: 0 <= i < |r| ==> r[i] == transformers[i].state
    {
      seq(|transformers|, i requires 0 <= i < |transformers| reads transformers => transformers[i].state)
    }

    method TransformSample(start: nat, sample: X) returns (out: Option<X>)
      requires Valid() && start <= |transformers|
      modifies transformers, this`logged
      ensures Valid()
      ensures var r := old(Transform(Chain(), States(), start, sample));
              && States() == r.states && logged == old(logged) + r.logged
              && r.published == (match out case None => [] case Some(x) => [x])
    {
      var x := sample;
      var i := start;
      while i < |transformers|
        invariant start <= i <= |transformers|
        invariant logged == old(logged)
        invariant Transform(Chain(), States(), i, x) == old(Transform(Chain(), States(), start, sample))
      {
        ghost var before := States();
        var handled := transformers[i].HandleSample(x);
        assert States() == before[i := transformers[i].state];
        match handled {
          case Emitted(y) => x := y;
          case Absorbed => return None;
          case Raised =>
            logged := logged + [x];
            return None;
        }
        i := i + 1;
      }
      assert logged + [] == logged;
      out := Some(x);
    }

    /** _publish_samples */
    method PublishSamplesFrom(start: nat, samples: seq<X>)
      requires Valid() && start <= |transformers|
      modifies transformers, this
      ensures Valid()
      ensures var r := old(PublishFrom(Chain(), States(), start, samples));
              && States() == r.states && published == old(published) + r.published && logged == old(logged) + r.logged
    {
      hide Transform, PublishFrom, Before, Valid, Chain, States;
      var transformed: seq<X> := [];
      ghost var all := PublishFrom(Chain(), States(), start, samples);
      ghost var lost: seq<X> := [];
      assert samples[0..] == samples;
      BeforeThen([], [], all, all);
      for i := 0 to |samples|
        invariant Valid()
        invariant published == old(published) && logged == old(logged) + lost
        invariant all == Before(transformed, lost, PublishFrom(Chain(), States(), start, samples[i..]))
      {
        PublishUnfolds(Chain(), States(), start, samples, i);
        ghost var one := Transform(Chain(), States(), start, samples[i]);
        BeforeThen(transformed, lost, one, PublishFrom(Chain(), one.states, start, samples[i + 1..]));
        var out := TransformSample(start, samples[i]);
        transformed := transformed + (match out case None => [] case Some(x) => [x]);
        lost := lost + one.logged;
      }
      PublishUnfolds(Chain(), States(), start, samples, |samples|);
      BeforeNothing(transformed, lost, States());
      if transformed != [] { published := published + transformed; }
    }

    /** flush */
    method Flush()
      requires Valid()
      modifies transformers, this
      ensures Valid()
      ensures var r := old(FlushFrom(Chain(), States(), 0));
              && States() == r.states && published == old(published) + r.published && logged == old(logged) + r.logged
    {
      hide PublishFrom, FlushFrom, Before, Valid;
      ghost var all := FlushFrom(Chain(), States(), 0);
      ghost var given: seq<X>, lost: seq<X> := [], [];
      BeforeThen([], [], all, all);
      for i := 0 to |transformers|
        invariant Valid()
        invariant published == old(published) + given && logged == old(logged) + lost
        invariant all == Before(given, lost, FlushFrom(Chain(), States(), i))
      {
        FlushUnfolds(Chain(), States(), i);
        ghost var before := States();
        var released := FlushTransformer(i);
        ghost var first := PublishFrom(Chain(), States(), i + 1, released.GetOr([]));
        BeforeThen(given, lost, first, FlushFrom(Chain(), first.states, i + 1));
        PublishNothing(Chain(), States(), i + 1);
        if released.Some? { PublishSamplesFrom(i + 1, released.value); }
        given, lost := given + first.published, lost + first.logged;
      }
      FlushUnfolds(Chain(), States(), |transformers|);
      BeforeNothing(given, lost, States());
    }

    method FlushTransformer(i: nat) returns (released: Option<seq<X>>)
      requires Valid() && i < |transformers|
      modifies transformers[i]
      ensures Valid()
      ensures var (s, out) := old(Chain()[i].flush(States()[i])); released == out && States() == old(States())[i := s]
    {
      released := transformers[i].Flush();
    }

    method PublishSamples(samples: seq<X>)
      requires Valid()
      modifies transformers, this
      ensures Valid()
      ensures var r := old(PublishFrom(Chain(), States(), 0, samples));
              && States() == r.states && published == old(published) + r.published && logged == old(logged) + r.logged
    {
      PublishSamplesFrom(0, samples);
    }
  }
}
