/** Translation of a parsed query, a nested list of tokens, into the dictionary
    form the alarming API understands. */
module ParsedQuery {
  import opened Wrappers

  datatype Scalar = Null | Bool(b: bool) | Number(r: real) | Str(s: string)

  /** What the parser produces: plain tokens, and groups of tokens. */
  datatype Token = Atom(scalar: Scalar) | Group(tokens: seq<Token>)

  /** Python values built by the translation; every dictionary it builds has one key. */
  datatype Value = Plain(scalar: Scalar) | Dict(key: Token, value: Value) | List(items: seq<Value>)

  /** Python's AttributeError and IndexError. */
  datatype Error = NoSuchMethod | PopFromEmpty

  const NONE := Plain(Null)

  const BINARY := {">=", "<=", "!=", ">", "<", "=", "==", "eq", "ne", "lt", "gt", "ge", "le"}
  const MULTIPLE := {"and", "or"}
  const UNARY := {"not"}

  predicate IsWord(scalar: Scalar, words: set<string>) {
    scalar.Str? && scalar.s in words
  }

  predicate IsOperator(scalar: Scalar) {
    IsWord(scalar, BINARY) || IsWord(scalar, MULTIPLE) || IsWord(scalar, UNARY)
  }

  /** Python's truth value. */
  predicate Truthy(scalar: Scalar) {
    match scalar
    case Null => false
    case Bool(b) => b
    case Number(r) => r != 0.0
    case Str(s) => s != ""
  }

  predicate TruthyValue(value: Value) {
    match value
    case Plain(scalar) => Truthy(scalar)
    case Dict(_, _) => true
    case List(items) => items != []
  }

  // ---------- Specification of _parsed_query2dict ----------

  /** list(result.values())[0].append(res) */
  function AppendTo(result: Value, res: Value): Result<Value, Error>
    requires result.Dict?
  {
    if result.value.List? then Success(Dict(result.key, List(result.value.items + [res])))
    else Failure(NoSuchMethod)
  }

  /** The loop, from the given value of its variable result. */
  function Run(tokens: seq<Token>, result: Value): Result<Value, Error>
    decreases tokens
  {
    if tokens == [] then Success(result)
    else
      var part, rest := tokens[|tokens| - 1], tokens[..|tokens| - 1];
      match part
      case Group(inner) =>
        var res := Run(inner, NONE);
        if res.Failure? then res
        else if result == NONE then Run(rest, res.value)
        else if result.Dict? then
          var appended := AppendTo(result, res.value);
          if appended.Failure? then appended else Run(rest, appended.value)
        else Run(rest, result)
      case Atom(scalar) =>
        if IsWord(scalar, BINARY) then
          if rest == [] then Failure(PopFromEmpty)
          else Run(rest[..|rest| - 1], Dict(part, Dict(rest[|rest| - 1], result)))
        else if IsWord(scalar, MULTIPLE) then
          if !result.Dict? then Failure(NoSuchMethod)
          else if result.key == part && TruthyValue(result.value) then
            if rest == [] then Failure(PopFromEmpty)
            else
              var operand := RunOperand(rest);
              if operand.Failure? then operand
              else
                var appended := AppendTo(result, operand.value);
                if appended.Failure? then appended else Run(rest[..|rest| - 1], appended.value)
          else Run(rest, Dict(part, List([result])))
        else if IsWord(scalar, UNARY) then Run(rest, Dict(part, result))
        else Run(rest, Plain(scalar))
  }

  /** _parsed_query2dict of the last token: only groups can be popped from. */
  function RunOperand(tokens: seq<Token>): Result<Value, Error>
    requires tokens != []
    decreases tokens, 0
  {
    match tokens[|tokens| - 1]
    case Group(inner) => Run(inner, NONE)
    case Atom(scalar) => if Truthy(scalar) then Failure(NoSuchMethod) else Success(NONE)
  }

  /** _parsed_query2dict: pops its input from the end, rewriting result. */
  method ParsedQueryToDict(tokens: seq<Token>) returns (r: Result<Value, Error>)
    ensures r == Run(tokens, NONE)
    decreases tokens
  {
    var result := NONE;
    var parsed := tokens;
    while parsed != []
      invariant Run(tokens, NONE) == Run(parsed, result)
      invariant parsed <= tokens
      decreases |parsed|
    {
      var part := parsed[|parsed| - 1];
      parsed := parsed[..|parsed| - 1];
      if part.Group? {
        var res := ParsedQueryToDict(part.tokens);
        if res.Failure? { return res; }
        if result == NONE {
          result := res.value;
        } else if result.Dict? {
          if !result.value.List? { return Failure(NoSuchMethod); }
          result := Dict(result.key, List(result.value.items + [res.value]));
        }
      } else if IsWord(part.scalar, BINARY) {
        if parsed == [] { return Failure(PopFromEmpty); }
        result := Dict(part, Dict(parsed[|parsed| - 1], result));
        parsed := parsed[..|parsed| - 1];
      } else if IsWord(part.scalar, MULTIPLE) {
        if !result.Dict? { return Failure(NoSuchMethod); }
        if result.key == part && TruthyValue(result.value) {
          if parsed == [] { return Failure(PopFromEmpty); }
          var popped := parsed[|parsed| - 1];
          parsed := parsed[..|parsed| - 1];
          var res := Success(NONE);
          if popped.Group? {
            res := ParsedQueryToDict(popped.tokens);
          } else if Truthy(popped.scalar) {
            res := Failure(NoSuchMethod);
          }
          if res.Failure? { return res; }
          if !result.value.List? { return Failure(NoSuchMethod); }
          result := Dict(result.key, List(result.value.items + [res.value]));
        } else {
          result := Dict(part, List([result]));
        }
      } else if IsWord(part.scalar, UNARY) {
        result := Dict(part, result);
      } else {
        result := Plain(part.scalar);
      }
    }
    r := Success(result);
  }

  // ---------- Queries and their parse trees ----------

  datatype Query =
    | Cond(field: Scalar, op: string, value: Scalar)
    | Not(query: Query)
    | Many(word: string, queries: seq<Query>)  // an and- or or-group
  {
    predicate WellFormed() {
      match this
      case Cond(_, op, _) => op in BINARY
      case Not(query) => query.WellFormed()
      case Many(word, queries) => word in MULTIPLE && |queries| >= 2 && forall q :: q in queries ==> q.WellFormed()
    }

    /** No compared value is itself an operator word. */
    predicate Clean() {
      match this
      case Cond(_, _, value) => !IsOperator(value)
      case Not(query) => query.Clean()
      case Many(_, queries) => forall q :: q in queries ==> q.Clean()
    }

    /** No compared field is an operator word. */
    predicate PlainFields() {
      match this
      case Cond(field, _, _) => !IsOperator(field)
      case Not(query) => query.PlainFields()
      case Many(_, queries) => forall q :: q in queries ==> q.PlainFields()
    }

    /** The group of tokens the parser makes of the query. */
    function Tokens(): seq<Token> {
      match this
      case Cond(field, op, value) => [Atom(field), Word(op), Atom(value)]
      case Not(query) => [Word("not"), Group(query.Tokens())]
      case Many(word, queries) => Chain(word, queries)
    }

    /** The meaning of the query in an environment that decides comparisons. */
    predicate Eval(env: (Scalar, string, Scalar) -> bool) {
      match this
      case Cond(field, op, value) => env(field, op, value)
      case Not(query) => !query.Eval(env)
      case Many(word, queries) =>
        if word == "and" then forall q :: q in queries ==> q.Eval(env)
        else exists q :: q in queries && q.Eval(env)
    }
  }

  function Word(s: string): Token {
    Atom(Str(s))
  }

  /** The operands separated by the word. */
  function Chain(word: string, queries: seq<Query>): seq<Token>
    decreases queries
  {
    if queries == [] then []
    else Led(word, queries[..|queries| - 1]) + [Group(queries[|queries| - 1].Tokens())]
  }

  /** The operands each followed by the word. */
  function Led(word: string, queries: seq<Query>): seq<Token>
    decreases queries
  {
    if queries == [] then []
    else Led(word, queries[..|queries| - 1]) + [Group(queries[|queries| - 1].Tokens()), Word(word)]
  }

  // ---------- The meaning of a translation ----------

  predicate Shaped(v: Value) {
    && v.Dict? && v.key.Atom? && v.key.scalar.Str?
    && var word := v.key.scalar.s;
       if word in MULTIPLE then v.value.List? && v.value.items != [] && forall x :: x in v.value.items ==> Shaped(x)
       else if word in UNARY then Shaped(v.value)
       else word in BINARY && v.value.Dict? && v.value.key.Atom? && v.value.value.Plain?
  }

  predicate Meaning(v: Value, env: (Scalar, string, Scalar) -> bool)
    requires Shaped(v)
  {
    var word := v.key.scalar.s;
    if word == "and" then forall x :: x in v.value.items ==> Meaning(x, env)
    else if word == "or" then exists x :: x in v.value.items && Meaning(x, env)
    else if word == "not" then !Meaning(v.value, env)
    else env(v.value.key.scalar, word, v.value.value.scalar)
  }

  /** The closed form of the translation of a query: operands come out reversed, and
      the last one is flattened when it is a group of the same word. */
  function Joined(word: string, v: Value, w: Value): Value {
    if v.Dict? && v.key == Word(word) && v.value.List? && v.value.items != [] then Dict(v.key, List(v.value.items + [w]))
    else Dict(Word(word), List([v, w]))
  }

  function Translate(q: Query): Result<Value, Error> {
    Run(q.Tokens(), NONE)
  }

  /** Joining the translations of the queries, last one first, to v. */
  function JoinAll(word: string, queries: seq<Query>, v: Value): Result<Value, Error> {
    if queries == [] then Success(v)
    else
      var w := Translate(queries[|queries| - 1]);
      if w.Failure? then w else JoinAll(word, queries[..|queries| - 1], Joined(word, v, w.value))
  }

  /** A value the loop can go on with: groups hold non-empty lists. */
  predicate Usable(v: Value) {
    v.Dict? && (v.key in {Word("and"), Word("or")} ==> v.value.List? && v.value.items != [])
  }

  // ---------- The loop on groups ----------

  lemma {:induction false} RunLed(word: string, queries: seq<Query>, v: Value)
    requires word in MULTIPLE && Usable(v)
    ensures Run(Led(word, queries), v) == JoinAll(word, queries, v)
    decreases |queries|
  {
    if queries != [] {
      var init, last := queries[..|queries| - 1], queries[|queries| - 1];
      RunPair(word, Led(word, init), last, v);
      if Translate(last).Success? { RunLed(word, init, Joined(word, v, Translate(last).value)); }
    }
  }

  /** Popping the word and the operand before it. */
  lemma RunPair(word: string, front: seq<Token>, q: Query, v: Value)
    requires word in MULTIPLE && Usable(v)
    ensures Run(front + [Group(q.Tokens()), Word(word)], v) ==
            if Translate(q).Failure? then Translate(q) else Run(front, Joined(word, v, Translate(q).value))
  {
    var g := Group(q.Tokens());
    var tokens, rest := front + [g, Word(word)], front + [g];
    assert tokens[|tokens| - 1] == Word(word) && tokens[..|tokens| - 1] == rest;
    assert rest[|rest| - 1] == g && rest[..|rest| - 1] == front;
    assert !IsWord(Str(word), BINARY);
    assert RunOperand(rest) == Translate(q);
    if !(v.key == Word(word) && TruthyValue(v.value)) {
      var begun := Dict(Word(word), List([v]));
      assert Run(tokens, v) == Run(rest, begun);
      if Translate(q).Success? {
        assert [v] + [Translate(q).value] == [v, Translate(q).value];
        assert AppendTo(begun, Translate(q).value) == Success(Joined(word, v, Translate(q).value));
      }
    }
  }

  lemma RunChain(word: string, queries: seq<Query>)
    requires word in MULTIPLE && |queries| >= 2
    ensures var q, init := queries[|queries| - 1], queries[..|queries| - 1];
            var w := Translate(q);
            Run(Chain(word, queries), NONE) ==
              if w.Failure? then w else if w.value.Plain? then Failure(NoSuchMethod)
              else if Usable(w.value) then JoinAll(word, init, w.value) else Run(Led(word, init), w.value)
  {
    var q, init := queries[|queries| - 1], queries[..|queries| - 1];
    var tokens := Chain(word, queries);
    assert tokens[|tokens| - 1] == Group(q.Tokens()) && tokens[..|tokens| - 1] == Led(word, init);
    var w := Translate(q);
    if w.Success? {
      if Usable(w.value) { RunLed(word, init, w.value); }
      var led := Led(word, init);
      assert led[|led| - 1] == Word(word) && !IsWord(Str(word), BINARY);
    }
  }

  // ---------- What the translation means ----------

  /** The truth value of a group, given that of one more operand. */
  predicate Combine(word: string, a: bool, b: bool) {
    if word == "and" then a && b else a || b
  }

  predicate EvalAll(word: string, queries: seq<Query>, env: (Scalar, string, Scalar) -> bool) {
    if word == "and" then forall q :: q in queries ==> q.Eval(env) else exists q :: q in queries && q.Eval(env)
  }

  lemma EvalSplit(word: string, queries: seq<Query>, env: (Scalar, string, Scalar) -> bool)
    requires queries != []
    ensures EvalAll(word, queries, env) ==
            Combine(word, EvalAll(word, queries[..|queries| - 1], env), queries[|queries| - 1].Eval(env))
  {
    assert queries == queries[..|queries| - 1] + [queries[|queries| - 1]];
  }

  /** Joining two values of which one may be malformed. */
  lemma JoinedShaped(word: string, v: Value, w: Value)
    requires word in MULTIPLE && Usable(v)
    ensures Usable(Joined(word, v, w))
    ensures Shaped(Joined(word, v, w)) <==> Shaped(v) && Shaped(w)
  {
    var u := Joined(word, v, w);
    assert w in u.value.items;
    if v.key == Word(word) {
      assert u.value.items == v.value.items + [w];
      if Shaped(u) {
        forall x | x in v.value.items
          ensures Shaped(x)
        {
          assert x in u.value.items;
        }
      }
    } else {
      assert v in u.value.items;
    }
  }

  lemma JoinedMeaning(word: string, v: Value, w: Value, env: (Scalar, string, Scalar) -> bool)
    requires word in MULTIPLE && Usable(v) && Shaped(v) && Shaped(w) && Shaped(Joined(word, v, w))
    ensures Meaning(Joined(word, v, w), env) == Combine(word, Meaning(v, env), Meaning(w, env))
  {
    var u := Joined(word, v, w);
    if v.key == Word(word) {
      assert u.value.items == v.value.items + [w];
    } else {
      assert u.value.items == [v, w];
    }
  }

  /** Every query whose compared values are not operator words is translated to a
      well-shaped dictionary with the same meaning in every environment. */
  lemma {:induction false} CleanKeepsMeaning(q: Query, env: (Scalar, string, Scalar) -> bool)
    requires q.WellFormed() && q.Clean()
    ensures Translate(q).Success? && Shaped(Translate(q).value)
    ensures Meaning(Translate(q).value, env) == q.Eval(env)
    decreases q
  {
    match q
    case Cond(field, op, value) =>
      RunCond(field, op, value);
    case Not(query) =>
      CleanKeepsMeaning(query, env);
      RunNot(query);
    case Many(word, queries) =>
      var init, last := queries[..|queries| - 1], queries[|queries| - 1];
      CleanKeepsMeaning(last, env);
      RunChain(word, queries);
      var w := Translate(last).value;
      forall x | x in init
        ensures x.WellFormed() && x.Clean() && x < q
      {
        assert x in queries;
      }
      CleanJoins(word, init, w, env, q);
      EvalSplit(word, queries, env);
  }

  lemma {:induction false} CleanJoins(word: string, queries: seq<Query>, v: Value, env: (Scalar, string, Scalar) -> bool, bound: Query)
    requires word in MULTIPLE && Usable(v) && Shaped(v)
    requires forall q :: q in queries ==> q.WellFormed() && q.Clean() && q < bound
    ensures var r := JoinAll(word, queries, v);
            r.Success? && Shaped(r.value) && Meaning(r.value, env) == Combine(word, EvalAll(word, queries, env), Meaning(v, env))
    decreases bound, |queries|
  {
    if queries != [] {
      var init, last := queries[..|queries| - 1], queries[|queries| - 1];
      assert last in queries;
      CleanKeepsMeaning(last, env);
      forall x | x in init
        ensures x.WellFormed() && x.Clean() && x < bound
      {
        assert x in queries;
      }
      var w := Translate(last).value;
      JoinedShaped(word, v, w);
      JoinedMeaning(word, v, w, env);
      CleanJoins(word, init, Joined(word, v, w), env, bound);
      EvalSplit(word, queries, env);
    }
  }

  lemma RunCond(field: Scalar, op: string, value: Scalar)
    requires op in BINARY
    ensures !IsOperator(value) ==> Translate(Cond(field, op, value)) == Success(Dict(Word(op), Dict(Atom(field), Plain(value))))
    ensures IsWord(value, MULTIPLE) ==> Translate(Cond(field, op, value)) == Failure(NoSuchMethod)
    ensures IsWord(value, UNARY) ==>
              Translate(Cond(field, op, value)) == Success(Dict(Word(op), Dict(Atom(field), Dict(Atom(value), NONE))))
    ensures IsWord(value, BINARY) ==>
              Translate(Cond(field, op, value)) == Run([Atom(field)], Dict(Atom(value), Dict(Word(op), NONE)))
  {
    var tokens := [Atom(field), Word(op), Atom(value)];
    assert tokens[..2] == [Atom(field), Word(op)];
    assert tokens[..2][..1] == [Atom(field)];
    assert [Atom(field)][..0] == [];
    var result := if IsWord(value, UNARY) then Dict(Atom(value), NONE) else Plain(value);
    assert Run([], Dict(Word(op), Dict(Atom(field), result))) == Success(Dict(Word(op), Dict(Atom(field), result)));
    assert Run([Atom(field), Word(op)], result) == Success(Dict(Word(op), Dict(Atom(field), result)));
  }

  lemma RunNot(q: Query)
    ensures Translate(Not(q)) == if Translate(q).Failure? then Translate(q) else Success(Dict(Word("not"), Translate(q).value))
  {
    var tokens := [Word("not"), Group(q.Tokens())];
    assert tokens[..1] == [Word("not")];
    assert [Word("not")][..0] == [];
    if Translate(q).Success? {
      var v := Translate(q).value;
      assert Run([], Dict(Word("not"), v)) == Success(Dict(Word("not"), v));
      assert Run([Word("not")], v) == Run([], Dict(Word("not"), v));
    }
  }

  // ---------- What goes wrong with operator words ----------

  /** The translation failed, or is malformed. */
  predicate Broken(r: Result<Value, Error>) {
    r.Success? ==> !Shaped(r.value) && (r.value.Plain? || Usable(r.value))
  }

  /** A compared value that is an operator word breaks the whole query. */
  lemma {:induction false} UncleanBreaks(q: Query)
    requires q.WellFormed() && q.PlainFields() && !q.Clean()
    ensures Broken(Translate(q))
    decreases q
  {
    match q
    case Cond(field, op, value) =>
      RunCond(field, op, value);
      assert [Atom(field)][..0] == [];
      assert IsWord(value, BINARY) ==> Translate(q) == Run([], Plain(field)) == Success(Plain(field));
    case Not(query) =>
      UncleanBreaks(query);
      RunNot(query);
    case Many(word, queries) =>
      var init, last := queries[..|queries| - 1], queries[|queries| - 1];
      RunChain(word, queries);
      if last.Clean() { CleanIsShaped(last); } else { UncleanBreaks(last); }
      var w := Translate(last);
      if w.Success? && !w.value.Plain? {
        assert !last.Clean() || exists x :: x in init && !x.Clean() by {
          assert queries == init + [last];
        }
        forall x | x in init
          ensures x.WellFormed() && x.PlainFields() && x < q
        {
          assert x in queries;
        }
        BrokenJoins(word, init, w.value, q);
      }
  }

  lemma CleanIsShaped(q: Query)
    requires q.WellFormed() && q.Clean()
    ensures Translate(q).Success? && Shaped(Translate(q).value)
  {
    CleanKeepsMeaning(q, (_, _, _) => true);
  }

  lemma {:induction false} BrokenJoins(word: string, queries: seq<Query>, v: Value, bound: Query)
    requires word in MULTIPLE && Usable(v)
    requires forall q :: q in queries ==> q.WellFormed() && q.PlainFields() && q < bound
    requires !Shaped(v) || exists q :: q in queries && !q.Clean()
    ensures Broken(JoinAll(word, queries, v))
    decreases bound, |queries|
  {
    if queries != [] {
      var init, last := queries[..|queries| - 1], queries[|queries| - 1];
      assert queries == init + [last] && last in queries;
      if last.Clean() { CleanIsShaped(last); } else { UncleanBreaks(last); }
      var w := Translate(last);
      if w.Success? {
        JoinedShaped(word, v, w.value);
        forall x | x in init
          ensures x.WellFormed() && x.PlainFields() && x < bound
        {
          assert x in queries;
        }
        BrokenJoins(word, init, Joined(word, v, w.value), bound);
      }
    }
  }

  /** The translation exists, is well-shaped, and means the same as the query. */
  ghost predicate Faithful(q: Query) {
    var r := Translate(q);
    r.Success? && Shaped(r.value) && forall env: (Scalar, string, Scalar) -> bool :: Meaning(r.value, env) == q.Eval(env)
  }

  /** For queries that compare plain fields: translation is faithful exactly when
      no value compared anywhere in the query is an operator word. */
  lemma FaithfulIffClean(q: Query)
    requires q.WellFormed() && q.PlainFields()
    ensures Faithful(q) <==> q.Clean()
  {
    if q.Clean() {
      CleanIsShaped(q);
      forall env: (Scalar, string, Scalar) -> bool
        ensures Meaning(Translate(q).value, env) == q.Eval(env)
      {
        CleanKeepsMeaning(q, env);
      }
    } else {
      UncleanBreaks(q);
    }
  }

  /** A single comparison, whatever its field: its value alone decides. */
  lemma FaithfulComparisonIff(field: Scalar, op: string, value: Scalar)
    requires op in BINARY
    ensures Faithful(Cond(field, op, value)) <==> !IsOperator(value)
  {
    var q := Cond(field, op, value);
    RunCond(field, op, value);
    if IsWord(value, BINARY) {
      var v := Dict(Atom(value), Dict(Word(op), NONE));
      FieldAfterWord(field, v);
      var r := Translate(q);
      if r.Success? && Shaped(r.value) {
        if IsWord(field, UNARY) {
          var always := (_: Scalar, _: string, _: Scalar) => true;
          assert Meaning(r.value, always) != q.Eval(always);
        } else {
          var same := (_: Scalar, _: string, x: Scalar) => x == value;
          assert r.value.value.items == [v];
          assert !Meaning(v, same);
          assert forall x :: x in r.value.value.items ==> x == v;
          assert v in r.value.value.items;
          assert Meaning(r.value, same) != q.Eval(same);
        }
      }
    }
  }

  /** name = and raises AttributeError; name = "=" becomes the bare string name. */
  lemma OperatorWordsFail()
    ensures Translate(Cond(Str("name"), "=", Str("and"))) == Failure(NoSuchMethod)
    ensures Translate(Cond(Str("name"), "=", Str("="))) == Success(Plain(Str("name")))
  {
    RunCond(Str("name"), "=", Str("and"));
    RunCond(Str("name"), "=", Str("="));
    FieldAfterWord(Str("name"), Dict(Atom(Str("=")), Dict(Word("="), NONE)));
  }

  /** What becomes of a field met after its operator was taken for a field. */
  lemma FieldAfterWord(field: Scalar, v: Value)
    requires v.Dict? && v.key.Atom? && IsWord(v.key.scalar, BINARY)
    ensures var r := Run([Atom(field)], v);
            if IsWord(field, BINARY) then r.Failure?
            else if IsWord(field, MULTIPLE) then r == Success(Dict(Atom(field), List([v])))
            else if IsWord(field, UNARY) then r == Success(Dict(Atom(field), v))
            else r == Success(Plain(field))
  {
    assert [Atom(field)][..0] == [];
    assert Run([], Dict(Atom(field), List([v]))) == Success(Dict(Atom(field), List([v])));
  }
}
