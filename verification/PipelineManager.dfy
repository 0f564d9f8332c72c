/** PipelineManager: linking sources to sinks, and the names pipelines get. */
module PipelineManager {
  import opened Wrappers
  import opened Sequences

  datatype Source = Source(name: string, sinks: seq<string>)

  datatype Pipe = Pipe(source: string, sink: string)

  datatype Error = DuplicateSource | DuplicateSink | NoSink | DanglingSink | DuplicatePipeline

  function PipeName(pipe: Pipe): string {
    if pipe.source == pipe.sink then pipe.source else pipe.source + ":" + pipe.sink
  }

  function EventPipeName(pipe: Pipe): string {
    "event:" + PipeName(pipe)
  }

  // ---------- Names of sample and event pipelines ----------

  predicate StartsWith(s: string, prefix: string) {
    |prefix| <= |s| && s[..|prefix|] == prefix
  }

  /** The prefix is meant to keep event pipelines apart from sample pipelines. It
      does so for a given sample pipeline, whatever the event pipelines are,
      exactly when the sample's source is neither named "event", with a sink of
      another name, nor "event:" followed by anything. */
  lemma NamesApartIff(sample: Pipe)
    ensures (forall event: Pipe :: EventPipeName(event) != PipeName(sample)) <==>
            !(sample.source == "event" && sample.sink != "event") && !StartsWith(sample.source, "event:")
  {
    var name := PipeName(sample);
    if StartsWith(name, "event:") {
      var rest := name[|"event:"|..];
      assert EventPipeName(Pipe(rest, rest)) == "event:" + rest;
      assert EventPipeName(Pipe(rest, rest)) == name;
    }
    forall event: Pipe | EventPipeName(event) == name
      ensures StartsWith(name, "event:")
    {
    }
    NamePrefix(sample);
  }

  lemma NamePrefix(pipe: Pipe)
    ensures StartsWith(PipeName(pipe), "event:") <==>
            (pipe.source == "event" && pipe.sink != "event") || StartsWith(pipe.source, "event:")
  {
    var name, source := PipeName(pipe), pipe.source;
    if pipe.source != pipe.sink {
      assert name[|source|] == ':';
      assert forall i :: 0 <= i < |source| ==> name[i] == source[i];
      if StartsWith(name, "event:") {
        assert forall i :: 0 <= i < 6 ==> name[i] == "event:"[i];
        assert |source| >= 5;
        if |source| == 5 {
          assert source == name[..5];
          assert name[..5] == "event:"[..5];
        } else {
          assert source[..6] == name[..6];
        }
      }
      if StartsWith(source, "event:") {
        assert name[..6] == source[..6];
      }
    }
  }

  /** A sample and an event pipeline that share a name all the same. */
  lemma NamesCollide()
    ensures PipeName(Pipe("event", "disk")) == EventPipeName(Pipe("disk", "disk"))
  {
  }

  lemma DividedAt(a: string, b: string, c: string, d: string)
    requires ':' !in a && ':' !in c && a + ":" + b == c + ":" + d
    ensures a == c && b == d
  {
    var w := a + ":" + b;
    assert w[|a|] == ':' && w[|c|] == ':';
    assert forall i :: 0 <= i < |a| ==> w[i] == a[i] && a[i] in a;
    assert forall i :: 0 <= i < |c| ==> w[i] == c[i] && c[i] in c;
    assert a == w[..|a|] && c == w[..|c|] && b == w[|a| + 1..] && d == w[|c| + 1..];
  }

  lemma NameHasColon(pipe: Pipe)
    requires ':' !in pipe.source && ':' !in pipe.sink
    ensures ':' in PipeName(pipe) <==> pipe.source != pipe.sink
  {
    if pipe.source != pipe.sink { assert PipeName(pipe)[|pipe.source|] == ':'; }
  }

  /** Names of sources and sinks without colons give every pair of a source and a
      sink a name of its own, so no two pipelines can be refused for their names. */
  lemma PlainNamesApart(p: Pipe, q: Pipe)
    requires ':' !in p.source && ':' !in p.sink && ':' !in q.source && ':' !in q.sink
    ensures PipeName(p) == PipeName(q) <==> p == q
  {
    NameHasColon(p);
    NameHasColon(q);
    if PipeName(p) == PipeName(q) && p.source != p.sink {
      DividedAt(p.source, p.sink, q.source, q.sink);
    }
  }

  // ---------- PipelineManager.__init__ ----------

  function SourceNames(sources: seq<Source>): (r: seq<string>)
    ensures |r| == |sources| && forall i :: 0 <= i < |r| ==> r[i] == sources[i].name
  {
    seq(|sources|, i requires 0 <= i < |sources| => sources[i].name)
  }

  function PipesOf(source: Source): (r: seq<Pipe>)
    ensures |r| == |source.sinks| && forall i :: 0 <= i < |r| ==> r[i] == Pipe(source.name, source.sinks[i])
  {
    seq(|source.sinks|, i requires 0 <= i < |source.sinks| => Pipe(source.name, source.sinks[i]))
  }

  /** One pipeline per source and sink of that source, in order. */
  function AllPipes(sources: seq<Source>): seq<Pipe> {
    if sources == [] then [] else AllPipes(sources[..|sources| - 1]) + PipesOf(sources[|sources| - 1])
  }

  /** Pipelines come source by source, and for one source sink by sink. */
  lemma {:induction false} AllPipesConcat(a: seq<Source>, source: Source, b: seq<Source>)
    ensures AllPipes(a + b) == AllPipes(a) + AllPipes(b)
    ensures AllPipes([source]) == PipesOf(source)
    decreases |b|
  {
    assert [source][..0] == [];
    if b == [] {
      assert a + b == a;
    } else {
      var init, last := b[..|b| - 1], b[|b| - 1];
      var all := a + b;
      assert all[|all| - 1] == last && all[..|all| - 1] == a + init;
      AllPipesConcat(a, source, init);
      Associative(AllPipes(a), AllPipes(init), PipesOf(last));
    }
  }

  function NamesOf(pipes: seq<Pipe>): (r: seq<string>)
    ensures |r| == |pipes| && forall i :: 0 <= i < |r| ==> r[i] == PipeName(pipes[i])
  {
    seq(|pipes|, i requires 0 <= i < |pipes| => PipeName(pipes[i]))
  }

  /** The source has sinks, and all of them are configured. */
  ghost predicate Linked(source: Source, sinks: seq<string>) {
    source.sinks != [] && forall k :: k in source.sinks ==> k in sinks
  }

  ghost predicate AllLinked(sources: seq<Source>, sinks: seq<string>) {
    forall s :: s in sources ==> Linked(s, sinks)
  }

  method AllDistinct(names: seq<string>) returns (b: bool)
    ensures b <==> Distinct(names)
  {
    var seen: set<string> := {};
    for i := 0 to |names|
      invariant Distinct(names[..i]) && forall x :: x in seen <==> x in names[..i]
    {
      assert names[..i + 1] == names[..i] + [names[i]];
      DistinctMore(names[..i], [], names[i]);
      if names[i] in seen {
        assert names == names[..i + 1] + names[i + 1..];
        DistinctMore(names[..i + 1], names[i + 1..], names[i]);
        return false;
      }
      seen := seen + {names[i]};
    }
    assert names[..|names|] == names;
    b := true;
  }

  /** Linking fails at the i-th source, all being well before it: it has no sinks,
      else one that is not configured, else a pipeline whose name is taken. */
  ghost predicate FailsAt(sources: seq<Source>, sinks: seq<string>, i: nat, error: Error)
    requires i < |sources|
  {
    && AllLinked(sources[..i], sinks) && Distinct(NamesOf(AllPipes(sources[..i])))
    && if sources[i].sinks == [] then error == NoSink
       else if !Linked(sources[i], sinks) then error == DanglingSink
       else error == DuplicatePipeline && !Distinct(NamesOf(AllPipes(sources[..i + 1])))
  }

  /** Linking succeeds exactly when sources and sinks are named apart, every source
      has sinks that all exist, and the pipelines are named apart; it then yields
      one pipeline per source and sink, in the order of the configuration. */
  method Setup(sources: seq<Source>, sinks: seq<string>) returns (r: Result<seq<Pipe>, Error>)
    ensures r.Success? <==> Distinct(SourceNames(sources)) && Distinct(sinks) && AllLinked(sources, sinks) && Distinct(NamesOf(AllPipes(sources)))
    ensures r.Success? ==> r.value == AllPipes(sources)
    ensures r == Failure(DuplicateSource) <==> !Distinct(SourceNames(sources))
    ensures r == Failure(DuplicateSink) <==> Distinct(SourceNames(sources)) && !Distinct(sinks)
    ensures r.Failure? && r.error !in {DuplicateSource, DuplicateSink} ==>
              exists i :: 0 <= i < |sources| && FailsAt(sources, sinks, i, r.error)
  {
    var unique := AllDistinct(SourceNames(sources));
    if !unique { return Failure(DuplicateSource); }
    unique := AllDistinct(sinks);
    if !unique { return Failure(DuplicateSink); }
    var pipes := [];
    for i := 0 to |sources|
      invariant pipes == AllPipes(sources[..i]) && Distinct(NamesOf(pipes)) && AllLinked(sources[..i], sinks)
    {
      var source := sources[i];
      var error := CheckSinks(source, sinks);
      if error.Some? {
        assert FailsAt(sources, sinks, i, error.value);
        return Failure(error.value);
      }
      PipesPrefix(sources, i);
      assert sources[..i + 1][..i] == sources[..i];
      var duplicate;
      pipes, duplicate := AddPipes(pipes, source);
      if duplicate {
        PrefixNotDistinct(AllPipes(sources), pipes);
        PrefixNotDistinct(AllPipes(sources[..i + 1]), pipes);
        assert FailsAt(sources, sinks, i, DuplicatePipeline);
        return Failure(DuplicatePipeline);
      }
      assert sources[..i + 1] == sources[..i] + [source];
    }
    assert sources[..|sources|] == sources;
    r := Success(pipes);
  }

  lemma NamesMore(pipes: seq<Pipe>, pipe: Pipe)
    ensures Distinct(NamesOf(pipes + [pipe])) <==> Distinct(NamesOf(pipes)) && PipeName(pipe) !in NamesOf(pipes)
  {
    hide PipeName;
    DistinctMore(NamesOf(pipes), [], PipeName(pipe));
    assert NamesOf(pipes + [pipe]) == NamesOf(pipes) + [PipeName(pipe)];
  }

  method AddPipes(pipes: seq<Pipe>, source: Source) returns (more: seq<Pipe>, duplicate: bool)
    requires Distinct(NamesOf(pipes))
    ensures more <= pipes + PipesOf(source)
    ensures if duplicate then !Distinct(NamesOf(more)) else Distinct(NamesOf(more)) && more == pipes + PipesOf(source)
  {
    hide PipeName, Distinct;
    more := pipes;
    for j := 0 to |source.sinks|
      invariant more == pipes + PipesOf(source)[..j] && Distinct(NamesOf(more))
    {
      var pipe := Pipe(source.name, source.sinks[j]);
      NamesMore(more, pipe);
      assert PipesOf(source)[..j + 1] == PipesOf(source)[..j] + [pipe];
      Associative(pipes, PipesOf(source)[..j], [pipe]);
      if PipeName(pipe) in NamesOf(more) { return more + [pipe], true; }
      more := more + [pipe];
    }
    duplicate := false;
  }

  method CheckSinks(source: Source, sinks: seq<string>) returns (r: Option<Error>)
    ensures r.None? <==> Linked(source, sinks)
    ensures r.Some? ==> r.value == if source.sinks == [] then NoSink else DanglingSink
  {
    if source.sinks == [] { return Some(NoSink); }
    for i := 0 to |source.sinks|
      invariant forall k :: k in source.sinks[..i] ==> k in sinks
    {
      if source.sinks[i] !in sinks { return Some(DanglingSink); }
    }
    assert source.sinks[..|source.sinks|] == source.sinks;
    r := None;
  }

  lemma {:induction false} PipesPrefix(sources: seq<Source>, i: nat)
    requires i < |sources|
    ensures AllPipes(sources[..i]) + PipesOf(sources[i]) <= AllPipes(sources)
    decreases |sources|
  {
    var init := sources[..|sources| - 1];
    if i == |sources| - 1 {
      assert sources[..i] == init;
    } else {
      assert init[..i] == sources[..i];
      PipesPrefix(init, i);
    }
  }

  lemma PrefixNotDistinct(all: seq<Pipe>, prefix: seq<Pipe>)
    requires prefix <= all && !Distinct(NamesOf(prefix))
    ensures !Distinct(NamesOf(all))
  {
    var i, j :| 0 <= i < j < |prefix| && NamesOf(prefix)[i] == NamesOf(prefix)[j];
    assert NamesOf(all)[i] == NamesOf(all)[j];
  }
}
