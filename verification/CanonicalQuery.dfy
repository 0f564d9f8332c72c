/** The dictionary a query ought to become, and when translation yields it. */
module CanonicalQuery {
  import opened Wrappers
  import opened ParsedQuery

  /** Comparisons and negations as they are; the operands of a group from the last
      to the first, the last one flattened when it is a group of the same word. */
  function Canonical(q: Query): (v: Value)
    requires q.WellFormed()
    ensures v.Dict? && (q.Many? ==> v.key == Word(q.word) && v.value.List?)
    decreases q
  {
    match q
    case Cond(field, op, value) => Dict(Word(op), Dict(Atom(field), Plain(value)))
    case Not(query) => Dict(Word("not"), Canonical(query))
    case Many(word, queries) =>
      var last := queries[|queries| - 1];
      var canonical := Canonical(last);
      var first := if last.Many? && last.word == word then canonical.value.items else [canonical];
      Dict(Word(word), List(first + Backwards(queries[..|queries| - 1])))
  }

  function Backwards(queries: seq<Query>): (r: seq<Value>)
    requires forall q :: q in queries ==> q.WellFormed()
    ensures |r| == |queries|
    decreases queries
  {
    if queries == [] then []
    else [Canonical(queries[|queries| - 1])] + Backwards(queries[..|queries| - 1])
  }

  // ---------- What joining yields ----------

  predicate AllTranslate(queries: seq<Query>) {
    forall q :: q in queries ==> Translate(q).Success?
  }

  /** The translations, last one first. */
  function Translations(queries: seq<Query>): (r: seq<Value>)
    requires AllTranslate(queries)
    ensures |r| == |queries|
  {
    if queries == [] then []
    else [Translate(queries[|queries| - 1]).value] + Translations(queries[..|queries| - 1])
  }

  lemma {:induction false} JoinAllList(word: string, queries: seq<Query>, items: seq<Value>)
    requires items != []
    ensures var r := JoinAll(word, queries, Dict(Word(word), List(items)));
            && (r.Success? <==> AllTranslate(queries))
            && (r.Success? ==> r.value == Dict(Word(word), List(items + Translations(queries))))
    decreases |queries|
  {
    hide Translate;
    if queries == [] {
      assert items + Translations(queries) == items;
    } else {
      var init, last := queries[..|queries| - 1], queries[|queries| - 1];
      assert queries == init + [last];
      var w := Translate(last);
      if w.Success? {
        JoinAllList(word, init, items + [w.value]);
        if AllTranslate(init) {
          assert items + [w.value] + Translations(init) == items + ([w.value] + Translations(init));
        }
      }
    }
  }

  /** What the value of the last operand contributes to the group. */
  function First(word: string, v: Value): seq<Value>
    requires Usable(v)
  {
    if v.key == Word(word) && v.value.List? then v.value.items else [v]
  }

  lemma JoinedFirst(word: string, v: Value, w: Value)
    requires word in MULTIPLE && Usable(v)
    ensures Joined(word, v, w) == Dict(Word(word), List(First(word, v) + [w]))
  {
    assert [v] + [w] == [v, w] && Word(word) in {Word("and"), Word("or")};
  }

  lemma JoinAllValue(word: string, queries: seq<Query>, v: Value)
    requires word in MULTIPLE && Usable(v) && queries != []
    ensures var r := JoinAll(word, queries, v);
            && (r.Success? <==> AllTranslate(queries))
            && (r.Success? ==> r.value == Dict(Word(word), List(First(word, v) + Translations(queries))))
  {
    hide Translate, Joined, First, Usable;
    var init, last := queries[..|queries| - 1], queries[|queries| - 1];
    assert queries == init + [last];
    var w := Translate(last);
    if w.Success? {
      JoinedFirst(word, v, w.value);
      var first := First(word, v) + [w.value];
      JoinAllList(word, init, first);
      if AllTranslate(init) {
        assert first + Translations(init) == First(word, v) + ([w.value] + Translations(init));
      }
    }
  }

  /** The loop never leaves anything but a plain value or a usable dictionary. */
  lemma {:induction false} RunUsable(tokens: seq<Token>, v: Value)
    requires v.Plain? || Usable(v)
    ensures Run(tokens, v).Success? ==> Run(tokens, v).value.Plain? || Usable(Run(tokens, v).value)
    decreases tokens
  {
    if tokens != [] {
      var part, rest := tokens[|tokens| - 1], tokens[..|tokens| - 1];
      match part
      case Group(inner) =>
        RunUsable(inner, NONE);
        var res := Run(inner, NONE);
        if res.Success? {
          if v == NONE {
            RunUsable(rest, res.value);
          } else if v.Dict? {
            if v.value.List? { RunUsable(rest, Dict(v.key, List(v.value.items + [res.value]))); }
          } else {
            RunUsable(rest, v);
          }
        }
      case Atom(scalar) =>
        if IsWord(scalar, BINARY) {
          if rest != [] { RunUsable(rest[..|rest| - 1], Dict(part, Dict(rest[|rest| - 1], v))); }
        } else if IsWord(scalar, MULTIPLE) {
          if v.Dict? {
            if v.key == part && TruthyValue(v.value) {
              if rest != [] {
                var operand := RunOperand(rest);
                if operand.Success? && v.value.List? {
                  RunUsable(rest[..|rest| - 1], Dict(v.key, List(v.value.items + [operand.value])));
                }
              }
            } else {
              RunUsable(rest, Dict(part, List([v])));
            }
          }
        } else if IsWord(scalar, UNARY) {
          RunUsable(rest, Dict(part, v));
        } else {
          RunUsable(rest, Plain(scalar));
        }
    }
  }

  /** A group is translated exactly when its operands are and the last one is not
      turned into a plain value. */
  lemma ManyValue(word: string, queries: seq<Query>)
    requires word in MULTIPLE && |queries| >= 2
    ensures var init, w := queries[..|queries| - 1], Translate(queries[|queries| - 1]);
            var r := Translate(Many(word, queries));
            && (r.Success? <==> w.Success? && Usable(w.value) && AllTranslate(init))
            && (r.Success? ==> r.value == Dict(Word(word), List(First(word, w.value) + Translations(init))))
  {
    hide Run, JoinAll;
    RunChain(word, queries);
    var init, last := queries[..|queries| - 1], queries[|queries| - 1];
    RunUsable(last.Tokens(), NONE);
    var w := Translate(last);
    if w.Success? && Usable(w.value) { JoinAllValue(word, init, w.value); }
  }

  // ---------- Translation is canonical exactly for clean queries ----------

  lemma CondIsCanonicalIff(field: Scalar, op: string, value: Scalar)
    requires op in BINARY
    ensures Translate(Cond(field, op, value)) == Success(Canonical(Cond(field, op, value))) <==> !IsOperator(value)
    ensures var r := Translate(Cond(field, op, value));
            r.Success? && Usable(r.value) ==>
              forall word :: word in MULTIPLE ==> First(word, r.value) == [Canonical(Cond(field, op, value))] ==> !IsOperator(value)
  {
    hide Run;
    RunCond(field, op, value);
    if IsWord(value, BINARY) { FieldAfterWord(field, Dict(Atom(value), Dict(Word(op), NONE))); }
  }

  /** What the last operand contributes to the canonical dictionary. */
  function CanonicalFirst(word: string, q: Query): seq<Value>
    requires q.WellFormed()
  {
    if q.Many? && q.word == word then Canonical(q).value.items else [Canonical(q)]
  }

  lemma FirstIffCanonical(word: string, q: Query)
    requires q.WellFormed() && word in MULTIPLE && Translate(q).Success? && Usable(Translate(q).value)
    ensures First(word, Translate(q).value) == CanonicalFirst(word, q) <==> Translate(q).value == Canonical(q)
  {
    hide Run;
    match q
    case Cond(field, op, value) =>
      CondIsCanonicalIff(field, op, value);
    case Not(query) =>
      RunNot(query);
    case Many(other, queries) =>
      ManyValue(other, queries);
  }

  /** A group is translated canonically exactly when its operands are. */
  lemma ManyIsCanonicalIff(word: string, queries: seq<Query>)
    requires Many(word, queries).WellFormed()
    ensures var init, last := queries[..|queries| - 1], queries[|queries| - 1];
            && last in queries && (forall x :: x in init ==> x in queries)
            && (Translate(Many(word, queries)) == Success(Canonical(Many(word, queries))) <==>
                  Translate(last) == Success(Canonical(last)) && AllTranslate(init) && Translations(init) == Backwards(init))
  {
    hide Run;
    var init, last := queries[..|queries| - 1], queries[|queries| - 1];
    assert queries == init + [last];
    ManyValue(word, queries);
    var w := Translate(last);
    if w.Success? && Usable(w.value) {
      FirstIffCanonical(word, last);
      if AllTranslate(init) {
        SplitsAlike(First(word, w.value), CanonicalFirst(word, last), Translations(init), Backwards(init));
      }
    }
  }

  /** Translation yields the canonical dictionary exactly when no value compared
      anywhere in the query is an operator word, whatever the fields. */
  lemma {:induction false} CanonicalIffClean(q: Query)
    requires q.WellFormed()
    ensures Translate(q) == Success(Canonical(q)) <==> q.Clean()
    decreases q
  {
    hide Run;
    match q
    case Cond(field, op, value) =>
      CondIsCanonicalIff(field, op, value);
    case Not(query) =>
      CanonicalIffClean(query);
      RunNot(query);
    case Many(word, queries) =>
      var init, last := queries[..|queries| - 1], queries[|queries| - 1];
      assert queries == init + [last];
      forall x | x in init
        ensures x.WellFormed() && x < q
      {
        assert x in queries;
      }
      CanonicalIffClean(last);
      BackwardsIffClean(init, q);
      ManyIsCanonicalIff(word, queries);
  }

  lemma SplitsAlike<T>(a: seq<T>, b: seq<T>, x: seq<T>, y: seq<T>)
    requires |x| == |y|
    ensures a + x == b + y <==> a == b && x == y
  {
    if a + x == b + y {
      assert a == (a + x)[..|a|] && b == (b + y)[..|b|];
      assert x == (a + x)[|a|..] && y == (b + y)[|b|..];
    }
  }

  lemma {:induction false} BackwardsIffClean(queries: seq<Query>, bound: Query)
    requires forall q :: q in queries ==> q.WellFormed() && q < bound
    ensures (AllTranslate(queries) && Translations(queries) == Backwards(queries)) <==> forall q :: q in queries ==> q.Clean()
    decreases bound, |queries|
  {
    hide Translate, Canonical;
    if queries != [] {
      var init, last := queries[..|queries| - 1], queries[|queries| - 1];
      assert queries == init + [last];
      assert last in queries;
      CanonicalIffClean(last);
      BackwardsIffClean(init, bound);
      if AllTranslate(queries) {
        SplitsAlike([Translate(last).value], [Canonical(last)], Translations(init), Backwards(init));
      }
    }
  }

  const PLAIN := Cond(Str("x"), "=", Str("y"))
  const ODD := Cond(Str("not"), ">", Str("="))

  /** An operator word for a field and another for a value. */
  const LUCKY := Many("or", [ODD, PLAIN, Not(PLAIN)])

  lemma LuckyValue(v: Value, w: Value)
    requires v == Canonical(PLAIN) && w == Dict(Word("not"), Dict(Word("="), Dict(Word(">"), NONE)))
    ensures Translate(LUCKY) == Success(Dict(Word("or"), List([Dict(Word("not"), v), v, w])))
  {
    hide Run;
    RunCond(Str("not"), ">", Str("="));
    FieldAfterWord(Str("not"), Dict(Word("="), Dict(Word(">"), NONE)));
    CanonicalIffClean(PLAIN);
    RunNot(PLAIN);
    var queries := [ODD, PLAIN, Not(PLAIN)];
    assert queries[..2] == [ODD, PLAIN] && [ODD, PLAIN][..1] == [ODD];
    ManyValue("or", queries);
    assert Translations([ODD, PLAIN]) == [v, w] by { assert Translations([ODD]) == [w]; }
    assert [Dict(Word("not"), v)] + [v, w] == [Dict(Word("not"), v), v, w];
  }

  /** Truth values alone do not tell when fields may be operator words: a query
      with an operator word for a value that happens to mean the same. */
  lemma FaithfulByChance()
    ensures LUCKY.WellFormed() && !LUCKY.Clean() && Faithful(LUCKY)
  {
    hide Run, Translate;
    var v, w := Canonical(PLAIN), Dict(Word("not"), Dict(Word("="), Dict(Word(">"), NONE)));
    LuckyValue(v, w);
    var items := [Dict(Word("not"), v), v, w];
    assert forall x :: x in items ==> Shaped(x);
    assert ODD in LUCKY.queries && PLAIN in LUCKY.queries && Not(PLAIN) in LUCKY.queries;
    forall env: (Scalar, string, Scalar) -> bool
      ensures Meaning(Translate(LUCKY).value, env) == LUCKY.Eval(env)
    {
      assert items[0] in items && items[1] in items;
      assert Meaning(items[0], env) == !Meaning(items[1], env);
    }
  }
}
