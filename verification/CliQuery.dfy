/** Command-line queries: "field<op>[type::]value" items separated by semicolons. */
module CliQuery {
  import opened Wrappers

  datatype Op = Ne | Ge | Le | Gt | Lt | Eq

  datatype Opt = Opt(field: string, op: Op, kind: string, value: string)

  datatype Error = MissingOperator | MissingField | MissingValue | InvalidType

  const KINDS := {"string", "integer", "float", "datetime", "boolean"}

  function Symbol(op: Op): string {
    match op
    case Ne => "!="
    case Ge => ">="
    case Le => "<="
    case Gt => ">"
    case Lt => "<"
    case Eq => "="
  }

  // ---------- Splitting ----------

  /** str.split with a one-character separator. */
  function Split(s: string, sep: char): (r: seq<string>)
    ensures r != []
  {
    if s == [] then [""]
    else
      var rest := Split(s[1..], sep);
      if s[0] == sep then [""] + rest else [[s[0]] + rest[0]] + rest[1..]
  }

  function Join(parts: seq<string>, sep: char): string {
    if parts == [] then ""
    else if |parts| == 1 then parts[0]
    else parts[0] + [sep] + Join(parts[1..], sep)
  }

  function Count(s: string, sep: char): nat {
    if s == [] then 0 else (if s[0] == sep then 1 else 0) + Count(s[1..], sep)
  }

  lemma {:induction false} SplitCounts(s: string, sep: char)
    ensures |Split(s, sep)| == Count(s, sep) + 1
    decreases |s|
  {
    if s != [] { SplitCounts(s[1..], sep); }
  }

  lemma {:induction false} CountConcat(s: string, t: string, sep: char)
    ensures Count(s + t, sep) == Count(s, sep) + Count(t, sep)
    decreases |s|
  {
    if s == [] {
      assert s + t == t;
    } else {
      assert (s + t)[1..] == s[1..] + t;
      CountConcat(s[1..], t, sep);
    }
  }

  lemma {:induction false} CountZeroIff(s: string, sep: char)
    ensures Count(s, sep) == 0 <==> sep !in s
    decreases |s|
  {
    if s != [] {
      assert s == [s[0]] + s[1..];
      CountZeroIff(s[1..], sep);
    }
  }

  function CountAll(parts: seq<string>, sep: char): nat {
    if parts == [] then 0 else Count(parts[0], sep) + CountAll(parts[1..], sep)
  }

  lemma {:induction false} JoinCounts(parts: seq<string>, sep: char)
    requires parts != []
    ensures Count(Join(parts, sep), sep) == CountAll(parts, sep) + |parts| - 1
    decreases |parts|
  {
    if |parts| > 1 {
      JoinCounts(parts[1..], sep);
      CountConcat(parts[0] + [sep], Join(parts[1..], sep), sep);
      CountConcat(parts[0], [sep], sep);
    }
  }

  lemma {:induction false} CountAllZero(parts: seq<string>, sep: char)
    requires CountAll(parts, sep) == 0
    ensures forall i :: 0 <= i < |parts| ==> sep !in parts[i]
    decreases |parts|
  {
    if parts != [] {
      CountZeroIff(parts[0], sep);
      CountAllZero(parts[1..], sep);
      assert parts == [parts[0]] + parts[1..];
    }
  }

  lemma {:induction false} SplitFirst(s: string, rest: string, sep: char)
    requires sep !in s
    ensures Split(s, sep) == [s]
    ensures Split(s + [sep] + rest, sep) == [s] + Split(rest, sep)
    decreases |s|
  {
    var whole := s + [sep] + rest;
    if s == [] {
      assert whole[1..] == rest;
    } else {
      assert whole[1..] == s[1..] + [sep] + rest;
      SplitFirst(s[1..], rest, sep);
      assert [s[0]] + s[1..] == s;
    }
  }

  lemma {:induction false} SplitJoin(parts: seq<string>, sep: char)
    requires parts != [] && forall i :: 0 <= i < |parts| ==> sep !in parts[i]
    ensures Split(Join(parts, sep), sep) == parts
    decreases |parts|
  {
    if |parts| == 1 {
      SplitFirst(parts[0], "", sep);
    } else {
      SplitFirst(parts[0], Join(parts[1..], sep), sep);
      SplitJoin(parts[1..], sep);
    }
  }

  // ---------- One item ----------

  /** The operator at position i, longest first. */
  function OpAt(q: string, i: nat): Option<Op>
    requires i < |q|
  {
    if i + 1 < |q| && q[i + 1] == '=' && q[i] == '!' then Some(Ne)
    else if i + 1 < |q| && q[i + 1] == '=' && q[i] == '>' then Some(Ge)
    else if i + 1 < |q| && q[i + 1] == '=' && q[i] == '<' then Some(Le)
    else if q[i] == '>' then Some(Gt)
    else if q[i] == '<' then Some(Lt)
    else if q[i] == '=' then Some(Eq)
    else None
  }

  /** The leftmost position from i on that holds an operator. */
  function FindOp(q: string, i: nat): (r: Option<nat>)
    requires i <= |q|
    ensures r.Some? ==> i <= r.value < |q| && OpAt(q, r.value).Some? && r.value + |Symbol(OpAt(q, r.value).value)| <= |q|
    ensures forall j :: i <= j < |q| && (r.None? || j < r.value) ==> OpAt(q, j).None?
    decreases |q| - i
  {
    if i == |q| then None
    else if OpAt(q, i).Some? then Some(i)
    else FindOp(q, i + 1)
  }

  predicate ColonsAt(s: string, i: nat) {
    i + 1 < |s| && s[i] == ':' && s[i + 1] == ':'
  }

  /** The first occurrence of "::" from i on. */
  function FindColons(s: string, i: nat): (r: Option<nat>)
    requires i <= |s|
    ensures r.Some? ==> i <= r.value && ColonsAt(s, r.value)
    ensures forall j :: i <= j && (r.None? || j < r.value) ==> !ColonsAt(s, j)
    decreases |s| - i
  {
    if i == |s| then None
    else if ColonsAt(s, i) then Some(i)
    else FindColons(s, i + 1)
  }

  /** The optional type and the value of an item. */
  function KindAndValue(typed: string): (string, string) {
    var colons := FindColons(typed, 0);
    if colons.None? then ("", typed) else (typed[..colons.value], typed[colons.value + 2..])
  }

  function ParseOne(q: string): Result<Opt, Error> {
    var at := FindOp(q, 0);
    if at.None? then Failure(MissingOperator)
    else
      var op := OpAt(q, at.value).value;
      var field, typed := q[..at.value], q[at.value + |Symbol(op)|..];
      if field == "" then Failure(MissingField)
      else if typed == "" then Failure(MissingValue)
      else
        var (kind, value) := KindAndValue(typed);
        if kind != "" && kind !in KINDS then Failure(InvalidType)
        else Success(Opt(field, op, kind, value))
  }

  /** The items in order, or the first error. */
  function ParseAll(parts: seq<string>): Result<seq<Opt>, Error> {
    if parts == [] then Success([])
    else
      var first := ParseOne(parts[0]);
      if first.Failure? then Failure(first.error)
      else
        var rest := ParseAll(parts[1..]);
        if rest.Failure? then rest else Success([first.value] + rest.value)
  }

  function After(opts: seq<Opt>, rest: Result<seq<Opt>, Error>): Result<seq<Opt>, Error> {
    if rest.Failure? then rest else Success(opts + rest.value)
  }

  lemma AfterOne(opts: seq<Opt>, opt: Opt, rest: Result<seq<Opt>, Error>)
    ensures After(opts, After([opt], rest)) == After(opts + [opt], rest)
  {
    if rest.Success? { assert opts + ([opt] + rest.value) == opts + [opt] + rest.value; }
  }

  lemma AfterNone(opts: seq<Opt>, rest: Result<seq<Opt>, Error>)
    ensures After([], rest) == rest && After(opts, Success([])) == Success(opts)
  {
    assert opts + [] == opts;
    if rest.Success? { assert [] + rest.value == rest.value; }
  }

  /** cli_to_array */
  method CliToArray(cliQuery: string) returns (r: Result<seq<Opt>, Error>)
    ensures r == ParseAll(Split(cliQuery, ';'))
  {
    hide ParseOne, Split;
    var queries := Split(cliQuery, ';');
    var opts := [];
    assert queries[0..] == queries;
    AfterNone([], ParseAll(queries));
    for i := 0 to |queries|
      invariant ParseAll(queries) == After(opts, ParseAll(queries[i..]))
    {
      var opt := ParseOne(queries[i]);
      assert queries[i..][0] == queries[i] && queries[i..][1..] == queries[i + 1..];
      if opt.Failure? { return Failure(opt.error); }
      AfterOne(opts, opt.value, ParseAll(queries[i + 1..]));
      opts := opts + [opt.value];
    }
    AfterNone(opts, Success([]));
    r := Success(opts);
  }

  // ---------- Printing, and reading back ----------

  function Print(o: Opt): string {
    o.field + Symbol(o.op) + Typed(o)
  }

  function PrintAll(opts: seq<Opt>): (r: seq<string>)
    ensures |r| == |opts| && forall i :: 0 <= i < |opts| ==> r[i] == Print(opts[i])
  {
    seq(|opts|, i requires 0 <= i < |opts| => Print(opts[i]))
  }

  /** No operator begins in the field, also not together with the operator's own "=". */
  predicate PlainField(o: Opt) {
    && o.field != ""
    && (forall c :: c in o.field ==> c != '<' && c != '>' && c != '=')
    && !(o.op == Eq && o.field[|o.field| - 1] == '!')
  }

  predicate PlainValue(o: Opt) {
    if o.kind == "" then
      && o.value != "" && FindColons(o.value, 0).None?
      && !(o.op in {Gt, Lt} && o.value[0] == '=')
    else o.kind in KINDS
  }

  lemma OpOfPrint(o: Opt)
    requires o.field != ""
    ensures var q, n := Print(o), |o.field|;
            && n < |q|
            && ((forall c :: c in o.field ==> c != '<' && c != '>' && c != '=') ==>
                  forall j :: 0 <= j < n ==> (OpAt(q, j).Some? <==> j == n - 1 && o.op == Eq && o.field[j] == '!'))
            && (OpAt(q, n) == Some(o.op) <==> !(o.op in {Gt, Lt} && n + 1 < |q| && q[n + 1] == '='))
            && OpAt(q, n).Some?
  {
    var q, n := Print(o), |o.field|;
    assert q[..n] == o.field;
    assert forall j :: 0 <= j < n ==> q[j] == o.field[j];
    assert q[n..][..|Symbol(o.op)|] == Symbol(o.op);
    assert q[n] == Symbol(o.op)[0];
    if |Symbol(o.op)| == 2 { assert q[n + 1] == Symbol(o.op)[1]; }
    forall j | 0 <= j < n
      ensures (forall c :: c in o.field ==> c != '<' && c != '>' && c != '=') ==>
                (OpAt(q, j).Some? <==> j == n - 1 && o.op == Eq && o.field[j] == '!')
    {
      assert o.field[j] in o.field;
      if j < n - 1 { assert q[j + 1] == o.field[j + 1] && o.field[j + 1] in o.field; }
    }
  }

  lemma KindHasNoColon(kind: string)
    requires kind in KINDS
    ensures ':' !in kind && ';' !in kind && kind != "" && '=' != kind[0]
  {
  }

  lemma ColonsOfTyped(kind: string, value: string)
    requires kind in KINDS
    ensures FindColons(kind + "::" + value, 0) == Some(|kind|)
    ensures var typed := kind + "::" + value; typed[..|kind|] == kind && typed[|kind| + 2..] == value
  {
    var typed := kind + "::" + value;
    KindHasNoColon(kind);
    assert ColonsAt(typed, |kind|);
    assert forall j :: 0 <= j < |kind| ==> typed[j] == kind[j] && kind[j] in kind;
  }

  function Typed(o: Opt): string {
    if o.kind == "" then o.value else o.kind + "::" + o.value
  }

  lemma TypedIff(o: Opt)
    ensures Typed(o) != "" && KindAndValue(Typed(o)) == (o.kind, o.value) && (o.kind == "" || o.kind in KINDS) <==>
            if o.kind == "" then o.value != "" && FindColons(o.value, 0).None? else o.kind in KINDS
  {
    if o.kind in KINDS {
      KindHasNoColon(o.kind);
      ColonsOfTyped(o.kind, o.value);
    }
  }

  lemma FieldIff(o: Opt)
    requires o.field != ""
    ensures var q, n := Print(o), |o.field|;
            && q[..n] == o.field && n + |Symbol(o.op)| <= |q| && q[n + |Symbol(o.op)|..] == Typed(o)
            && (FindOp(q, 0) == Some(n) && OpAt(q, n) == Some(o.op) <==>
                PlainField(o) && !(o.op in {Gt, Lt} && Typed(o) != "" && Typed(o)[0] == '='))
  {
    var q, n := Print(o), |o.field|;
    OpOfPrint(o);
    assert q == o.field + Symbol(o.op) + Typed(o);
    assert q[..n] == o.field && q[n + |Symbol(o.op)|..] == Typed(o);
    assert |Symbol(o.op)| == 1 && n + 1 < |q| ==> q[n + 1] == Typed(o)[0];
    if FindOp(q, 0) == Some(n) {
      FieldIsPlain(q, n);
      assert o.op == Eq ==> q[n] == '=';
    }
    if PlainField(o) {
      assert forall j :: 0 <= j < n ==> OpAt(q, j).None?;
      assert OpAt(q, n).Some?;
      assert FindOp(q, 0) == Some(n);
    }
  }

  /** An item that is printed and parsed comes back exactly when its field and its
      value are plain. */
  lemma RoundTripOneIff(o: Opt)
    ensures ParseOne(Print(o)) == Success(o) <==> PlainField(o) && PlainValue(o)
  {
    hide FindOp, OpAt, FindColons, KindAndValue, Print;
    TypedIff(o);
    if o.field != "" {
      FieldIff(o);
      if o.kind in KINDS { KindHasNoColon(o.kind); }
    }
  }

  /** What stands before the leftmost operator contains no operator character. */
  lemma FieldIsPlain(q: string, n: nat)
    requires FindOp(q, 0) == Some(n)
    ensures forall c :: c in q[..n] ==> c != '<' && c != '>' && c != '='
    ensures n > 0 && q[n] == '=' ==> q[n - 1] != '!'
  {
    forall c | c in q[..n]
      ensures c != '<' && c != '>' && c != '='
    {
      var j :| 0 <= j < n && q[j] == c;
      assert OpAt(q, j).None?;
    }
    if n > 0 { assert OpAt(q, n - 1).None?; }
  }

  // ---------- What any item is parsed to ----------

  predicate IsOpChar(c: char) {
    c == '<' || c == '>' || c == '='
  }

  /** The item is the field, the operator and the rest, the operator being the
      leftmost one and, where two start at one place, the longer one. */
  predicate SplitsAs(q: string, field: string, op: Op, typed: string) {
    && q == field + Symbol(op) + typed
    && (forall c :: c in field ==> !IsOpChar(c))
    && !(op == Eq && field != "" && field[|field| - 1] == '!')
    && !(op in {Gt, Lt} && typed != "" && typed[0] == '=')
  }

  /** The rest is a type and a value, divided at the first double colon. */
  predicate DividesAs(typed: string, kind: string, value: string) {
    typed == kind + "::" + value && forall j :: 0 <= j < |kind| ==> !ColonsAt(typed, j)
  }

  ghost predicate FoundAs(q: string, field: string, op: Op, typed: string) {
    var n := |field|;
    && n < |q| && FindOp(q, 0) == Some(n) && OpAt(q, n) == Some(op)
    && q[..n] == field && n + |Symbol(op)| <= |q| && q[n + |Symbol(op)|..] == typed
  }

  lemma SplitFound(q: string, field: string, op: Op, typed: string)
    requires SplitsAs(q, field, op, typed)
    ensures FoundAs(q, field, op, typed)
  {
    if field == "" {
      hide FindOp, OpAt, Symbol, FindColons;
      assert q == Symbol(op) + typed by { assert [] + Symbol(op) == Symbol(op); }
      SplitAtOnce(q, op, typed);
    } else {
      SplitLater(q, field, op, typed);
    }
  }

  lemma SplitLater(q: string, field: string, op: Op, typed: string)
    requires SplitsAs(q, field, op, typed) && field != ""
    ensures FoundAs(q, field, op, typed)
  {
    hide OpAt, FindOp, Symbol, Print, Typed, PlainField, FindColons;
    PrintedAs(q, field, op, typed);
    FieldIff(Opt(field, op, "", typed));
  }

  lemma PrintedAs(q: string, field: string, op: Op, typed: string)
    requires SplitsAs(q, field, op, typed) && field != ""
    ensures var o := Opt(field, op, "", typed);
            Print(o) == q && Typed(o) == typed && PlainField(o)
  {
    hide Symbol;
  }

  lemma SplitAtOnce(q: string, op: Op, typed: string)
    requires q == Symbol(op) + typed && !(op in {Gt, Lt} && typed != "" && typed[0] == '=')
    ensures 0 < |q| && FindOp(q, 0) == Some(0) && OpAt(q, 0) == Some(op)
    ensures |Symbol(op)| <= |q| && q[|Symbol(op)|..] == typed
  {
    assert OpAt(q, 0) == Some(op) by {
      hide FindOp;
      SymbolAtOnce(q, op, typed);
    }
    hide OpAt, Symbol;
  }

  lemma SymbolAtOnce(q: string, op: Op, typed: string)
    requires q == Symbol(op) + typed && !(op in {Gt, Lt} && typed != "" && typed[0] == '=')
    ensures 0 < |q| && OpAt(q, 0) == Some(op)
  {
    hide FindOp;
    var n := |Symbol(op)|;
    assert forall i :: 0 <= i < n ==> q[i] == Symbol(op)[i];
    assert n < |q| ==> q[n] == typed[0];
    match op
    case Ne => assert q[0] == '!' && q[1] == '=';
    case Ge => assert q[0] == '>' && q[1] == '=';
    case Le => assert q[0] == '<' && q[1] == '=';
    case Gt => assert q[0] == '>';
    case Lt => assert q[0] == '<';
    case Eq => assert q[0] == '=';
  }

  lemma DivisionFound(typed: string, kind: string, value: string)
    requires DividesAs(typed, kind, value)
    ensures KindAndValue(typed) == (kind, value)
  {
    assert ColonsAt(typed, |kind|);
    assert typed[..|kind|] == kind && typed[|kind| + 2..] == value;
    assert FindColons(typed, 0) == Some(|kind|);
  }

  /** What any item with an operator is parsed to: the empty parts and the unknown
      types are errors, everything else is read as it stands. */
  lemma ParseOneMeaning(q: string, field: string, op: Op, typed: string)
    requires SplitsAs(q, field, op, typed)
    ensures field == "" ==> ParseOne(q) == Failure(MissingField)
    ensures field != "" && typed == "" ==> ParseOne(q) == Failure(MissingValue)
    ensures field != "" && typed != "" ==>
              && ((forall j :: 0 <= j < |typed| ==> !ColonsAt(typed, j)) ==> ParseOne(q) == Success(Opt(field, op, "", typed)))
              && (forall kind, value :: DividesAs(typed, kind, value) ==>
                    ParseOne(q) == if kind == "" || kind in {"string", "integer", "float", "datetime", "boolean"}
                                   then Success(Opt(field, op, kind, value)) else Failure(InvalidType))
  {
    SplitFound(q, field, op, typed);
    forall kind, value | DividesAs(typed, kind, value)
      ensures KindAndValue(typed) == (kind, value)
    {
      DivisionFound(typed, kind, value);
    }
  }

  lemma NoOperatorIff(q: string)
    ensures FindOp(q, 0).None? <==> forall c :: c in q ==> !IsOpChar(c)
    ensures ParseOne(q) == Failure(MissingOperator) <==> FindOp(q, 0).None?
  {
    hide KindAndValue;
    var at := FindOp(q, 0);
    if at.None? {
      forall c | c in q
        ensures !IsOpChar(c)
      {
        var j :| 0 <= j < |q| && q[j] == c;
        assert OpAt(q, j).None?;
      }
    } else {
      var n := at.value;
      assert q[n] in q && q[n + |Symbol(OpAt(q, n).value)| - 1] in q;
    }
  }

  /** An item without operator characters is an error; any other one has an operator. */
  lemma OperatorMissingIff(q: string) returns (field: string, op: Op, typed: string)
    ensures ParseOne(q) == Failure(MissingOperator) <==> forall c :: c in q ==> !IsOpChar(c)
    ensures ParseOne(q) != Failure(MissingOperator) ==> SplitsAs(q, field, op, typed)
  {
    hide ParseOne;
    NoOperatorIff(q);
    var at := FindOp(q, 0);
    field, op, typed := q, Eq, "";
    if at.Some? {
      var n := at.value;
      op := OpAt(q, n).value;
      field, typed := q[..n], q[n + |Symbol(op)|..];
      assert q[n..][..|Symbol(op)|] == Symbol(op);
      assert q == field + Symbol(op) + typed;
      FieldIsPlain(q, n);
    }
  }

  // ---------- Lists ----------

  lemma {:induction false} ParseAllIff(parts: seq<string>, opts: seq<Opt>)
    ensures ParseAll(parts) == Success(opts) <==>
            |parts| == |opts| && forall i :: 0 <= i < |opts| ==> ParseOne(parts[i]) == Success(opts[i])
    decreases |parts|
  {
    hide ParseOne;
    if parts != [] && opts != [] {
      ParseAllIff(parts[1..], opts[1..]);
      assert opts == [opts[0]] + opts[1..];
      assert parts == [parts[0]] + parts[1..];
    }
  }

  predicate Printable(o: Opt) {
    PlainField(o) && PlainValue(o) && ';' !in o.field && ';' !in o.value
  }

  lemma SemicolonFree(o: Opt)
    requires o.kind == "" || o.kind in KINDS
    ensures ';' !in Print(o) <==> ';' !in o.field && ';' !in o.value
  {
    if o.kind != "" { KindHasNoColon(o.kind); }
    var typed := Typed(o);
    assert Print(o) == o.field + Symbol(o.op) + typed;
    assert forall c :: c in Print(o) <==> c in o.field || c in Symbol(o.op) || c in typed;
    assert forall c :: o.kind != "" ==> (c in typed <==> c in o.kind || c == ':' || c in o.value);
  }

  /** A list of items that is printed, joined and parsed comes back exactly when it
      is non-empty and every item in it is printable. */
  lemma RoundTripIff(opts: seq<Opt>)
    ensures ParseAll(Split(Join(PrintAll(opts), ';'), ';')) == Success(opts) <==>
            opts != [] && forall o :: o in opts ==> Printable(o)
  {
    var parts := PrintAll(opts);
    var line := Join(parts, ';');
    ParseAllIff(Split(line, ';'), opts);
    forall i | 0 <= i < |opts|
      ensures ParseOne(parts[i]) == Success(opts[i]) <==> PlainField(opts[i]) && PlainValue(opts[i])
      ensures PlainValue(opts[i]) ==> (';' !in parts[i] <==> ';' !in opts[i].field && ';' !in opts[i].value)
    {
      RoundTripOneIff(opts[i]);
      if PlainValue(opts[i]) { SemicolonFree(opts[i]); }
    }
    if opts != [] {
      SplitCounts(line, ';');
      JoinCounts(parts, ';');
      if CountAll(parts, ';') == 0 { CountAllZero(parts, ';'); }
      if forall i :: 0 <= i < |parts| ==> ';' !in parts[i] { SplitJoin(parts, ';'); }
      if forall o :: o in opts ==> Printable(o) {
        assert forall i :: 0 <= i < |opts| ==> Printable(opts[i]) by { assert forall i :: 0 <= i < |opts| ==> opts[i] in opts; }
      }
    }
  }
}
