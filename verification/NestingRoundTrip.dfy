/** Flattening a nested dictionary and restoring it gives the dictionary back,
    exactly when its keys and sub-dictionaries allow it. */
module NestingRoundTrip {
  import opened Wrappers
  import opened Sequences
  import opened Nesting

  // ---------- recursive_keypairs ----------

  /** The i-th pair is the leaf at the i-th path, under its composite key. */
  ghost predicate PairsAt<V>(t: Tree<V>, sep: string, pairs: seq<(string, V)>, paths: seq<Path>) {
    && |pairs| == |paths|
    && forall i :: 0 <= i < |pairs| ==>
         paths[i] != [] && pairs[i].0 == JoinPath(paths[i], sep) && Lookup(t, paths[i]) == Some(pairs[i].1)
  }

  function Under(name: string, paths: seq<Path>): (r: seq<Path>)
    ensures |r| == |paths| && forall i :: 0 <= i < |r| ==> r[i] == [name] + paths[i]
  {
    seq(|paths|, i requires 0 <= i < |paths| => [name] + paths[i])
  }

  /** The pairs below a key, each prefixed with the key and the separator. */
  method Prefixed<V>(name: string, sep: string, sub: seq<(string, V)>, ghost t: Tree<V>, ghost paths: seq<Path>)
    returns (pairs: seq<(string, V)>)
    requires t.Dict? && name in t.items && PairsAt(t.items[name], sep, sub, paths)
    ensures PairsAt(t, sep, pairs, Under(name, paths))
  {
    pairs := [];
    for i := 0 to |sub|
      invariant |pairs| == i
      invariant forall j :: 0 <= j < i ==> pairs[j] == (name + sep + sub[j].0, sub[j].1)
    {
      pairs := pairs + [(name + sep + sub[i].0, sub[i].1)];
    }
    forall i | 0 <= i < |pairs|
      ensures pairs[i].0 == JoinPath(Under(name, paths)[i], sep) && Lookup(t, Under(name, paths)[i]) == Some(pairs[i].1)
    {
      assert Under(name, paths)[i][1..] == paths[i];
    }
  }

  /** Every leaf once, under its composite key, whatever the order of the keys. */
  method RecursiveKeypairs<V>(d: map<string, Tree<V>>, sep: string) returns (pairs: seq<(string, V)>, ghost paths: seq<Path>)
    ensures PairsAt(Dict(d), sep, pairs, paths) && Distinct(paths)
    ensures forall p :: Lookup(Dict(d), p).Some? ==> p in paths
    decreases Dict(d)
  {
    ghost var t := Dict(d);
    pairs, paths := [], [];
    var names := d.Keys;
    while names != {}
      invariant names <= d.Keys && PairsAt(t, sep, pairs, paths) && Distinct(paths)
      invariant forall p :: p in paths ==> p != [] && p[0] in d && p[0] !in names
      invariant forall p :: Lookup(t, p).Some? ==> p[0] in names || p in paths
      decreases names
    {
      var name :| name in names;
      var more;
      ghost var below: seq<Path>;
      match d[name] {
        case Dict(items) =>
          var sub;
          sub, below := RecursiveKeypairs(items, sep);
          more := Prefixed(name, sep, sub, t, below);
        case Leaf(value) =>
          more, below := [(name, value)], [[]];
          LeafPair(t, sep, name);
      }
      Extend(t, sep, pairs, paths, name, more, below);
      pairs, paths := pairs + more, paths + Under(name, below);
      names := names - {name};
    }
  }

  lemma LeafPair<V>(t: Tree<V>, sep: string, name: string)
    requires t.Dict? && name in t.items && t.items[name].Leaf?
    ensures PairsAt(t, sep, [(name, t.items[name].value)], Under(name, [[]]))
    ensures Under(name, [[]]) == [[name]]
    ensures forall p :: Lookup(t.items[name], p).Some? ==> p in [[]]
  {
    assert [name] + [] == [name];
    assert Under(name, [[]]) == [[name]];
    assert [name][1..] == [];
    assert Lookup(t, [name]) == Some(t.items[name].value);
  }

  lemma Extend<V>(t: Tree<V>, sep: string, pairs: seq<(string, V)>, paths: seq<Path>, name: string, more: seq<(string, V)>, below: seq<Path>)
    requires t.Dict? && name in t.items && PairsAt(t, sep, pairs, paths) && Distinct(paths)
    requires PairsAt(t, sep, more, Under(name, below)) && Distinct(below)
    requires forall p :: Lookup(t.items[name], p).Some? ==> p in below
    requires forall p :: p in paths ==> p != [] && p[0] != name
    ensures PairsAt(t, sep, pairs + more, paths + Under(name, below)) && Distinct(paths + Under(name, below))
    ensures forall p :: p in paths + Under(name, below) ==> p in paths || (p != [] && p[0] == name)
    ensures forall p :: Lookup(t, p).Some? && p[0] == name ==> p in paths + Under(name, below)
  {
    hide Lookup, JoinPath, Under, Distinct, PairsAt;
    UnderIff(name, below);
    UnderDistinct(name, paths, below);
    PairsConcat(t, sep, pairs, paths, more, Under(name, below));
    forall p | LookupBelow(t, p, name)
      ensures p in paths + Under(name, below)
    {
      LookupUnder(t, p);
      assert p in Under(name, below);
    }
    assert forall p :: Lookup(t, p).Some? && p[0] == name ==> LookupBelow(t, p, name) by { LookupNonEmpty(t); }
  }

  lemma PairsConcat<V>(t: Tree<V>, sep: string, pairs: seq<(string, V)>, paths: seq<Path>, more: seq<(string, V)>, under: seq<Path>)
    requires PairsAt(t, sep, pairs, paths) && PairsAt(t, sep, more, under)
    ensures PairsAt(t, sep, pairs + more, paths + under)
  {
    hide Lookup, JoinPath;
  }

  predicate LookupBelow<V>(t: Tree<V>, p: Path, name: string) {
    p != [] && p[0] == name && Lookup(t, p).Some?
  }

  lemma LookupNonEmpty<V>(t: Tree<V>)
    requires t.Dict?
    ensures forall p :: Lookup(t, p).Some? ==> p != []
  {
  }

  lemma LookupUnder<V>(t: Tree<V>, p: Path)
    requires t.Dict? && Lookup(t, p).Some?
    ensures p[0] in t.items && Lookup(t.items[p[0]], p[1..]).Some?
  {
  }

  lemma UnderIff(name: string, below: seq<Path>)
    ensures forall p :: p in Under(name, below) <==> p != [] && p[0] == name && p[1..] in below
  {
    forall p
      ensures p in Under(name, below) <==> p != [] && p[0] == name && p[1..] in below
    {
      if p in Under(name, below) {
        var i :| 0 <= i < |below| && Under(name, below)[i] == p;
        assert p[1..] == below[i];
      }
      if p != [] && p[0] == name && p[1..] in below {
        var i :| 0 <= i < |below| && below[i] == p[1..];
        assert Under(name, below)[i] == p;
      }
    }
  }

  lemma UnderDistinct(name: string, paths: seq<Path>, below: seq<Path>)
    requires Distinct(paths) && Distinct(below)
    requires forall p :: p in paths ==> p != [] && p[0] != name
    ensures Distinct(paths + Under(name, below))
  {
    var under := Under(name, below);
    var all := paths + under;
    forall i, j | 0 <= i < j < |all|
      ensures all[i] != all[j]
    {
      if i < |paths| {
        assert all[i] == paths[i] && paths[i] in paths;
        if j >= |paths| { assert all[j] == under[j - |paths|] && under[j - |paths|][0] == name; }
      } else {
        assert under[i - |paths|][1..] == below[i - |paths|] && under[j - |paths|][1..] == below[j - |paths|];
      }
    }
  }

  // ---------- The flat dictionary ----------

  /** dict(pairs): later pairs replace earlier ones. */
  function FromPairs<V>(pairs: seq<(string, V)>): map<string, Tree<V>> {
    if pairs == [] then map[]
    else FromPairs(pairs[..|pairs| - 1])[pairs[|pairs| - 1].0 := Leaf(pairs[|pairs| - 1].1)]
  }

  lemma {:induction false} FromPairsFlat<V>(pairs: seq<(string, V)>)
    ensures forall k :: k in FromPairs(pairs) ==> FromPairs(pairs)[k].Leaf?
    ensures forall k :: k in FromPairs(pairs) ==> exists i :: 0 <= i < |pairs| && pairs[i] == (k, FromPairs(pairs)[k].value)
    decreases |pairs|
  {
    if pairs != [] {
      var init := pairs[..|pairs| - 1];
      FromPairsFlat(init);
      forall k | k in FromPairs(pairs)
        ensures FromPairs(pairs)[k].Leaf?
        ensures exists i :: 0 <= i < |pairs| && pairs[i] == (k, FromPairs(pairs)[k].value)
      {
        if k == pairs[|pairs| - 1].0 {
          assert pairs[|pairs| - 1] == (k, FromPairs(pairs)[k].value);
        } else {
          var i :| 0 <= i < |init| && init[i] == (k, FromPairs(init)[k].value);
          assert pairs[i] == (k, FromPairs(pairs)[k].value);
        }
      }
    }
  }

  lemma {:induction false} FromPairsAll<V>(pairs: seq<(string, V)>)
    ensures forall i :: 0 <= i < |pairs| ==> pairs[i].0 in FromPairs(pairs)
    decreases |pairs|
  {
    if pairs != [] {
      FromPairsAll(pairs[..|pairs| - 1]);
      assert forall i :: 0 <= i < |pairs| - 1 ==> pairs[..|pairs| - 1][i] == pairs[i];
    }
  }

  /** The flat dictionary of a tree all of whose leaf paths can be kept. */
  ghost predicate FlatOf<V>(flat: map<string, Tree<V>>, t: Tree<V>, sep: string) {
    && (forall p :: Lookup(t, p).Some? ==> Flattens(p, sep) && JoinPath(p, sep) in flat
                                           && flat[JoinPath(p, sep)] == Leaf(Lookup(t, p).value))
    && (forall k :: k in flat ==> exists p :: Lookup(t, p).Some? && Flattens(p, sep) && JoinPath(p, sep) == k)
  }

  lemma {:induction false} CleanPaths<V>(t: Tree<V>, sep: string, p: Path)
    requires Clean(t, sep) && Lookup(t, p).Some? && p != []
    ensures Flattens(p, sep)
    decreases p
  {
    if |p| > 1 { CleanPaths(t.items[p[0]], sep, p[1..]); }
  }

  lemma FlattenedIsFlat<V>(d: map<string, Tree<V>>, sep: string, pairs: seq<(string, V)>, paths: seq<Path>)
    requires sep != "" && Clean(Dict(d), sep) && PairsAt(Dict(d), sep, pairs, paths)
    requires forall p :: Lookup(Dict(d), p).Some? ==> p in paths
    ensures FlatOf(FromPairs(pairs), Dict(d), sep)
  {
    var t, flat := Dict(d), FromPairs(pairs);
    FromPairsFlat(pairs);
    FromPairsAll(pairs);
    forall k | k in flat
      ensures ComesFrom(flat, t, sep, k)
    {
      var i :| 0 <= i < |pairs| && pairs[i] == (k, flat[k].value);
      CleanPaths(t, sep, paths[i]);
      assert JoinPath(paths[i], sep) == k;
    }
    hide FromPairs, Lookup, JoinPath, Clean;
    forall p | Lookup(t, p).Some?
      ensures Flattens(p, sep) && JoinPath(p, sep) in flat && flat[JoinPath(p, sep)] == Leaf(Lookup(t, p).value)
    {
      LookupNonEmpty(t);
      CleanPaths(t, sep, p);
      var i :| 0 <= i < |paths| && paths[i] == p;
      assert pairs[i].0 == JoinPath(p, sep);
      OnlyFrom(flat, t, sep, p);
    }
  }

  /** The key was made from a leaf of the tree. */
  ghost predicate ComesFrom<V>(flat: map<string, Tree<V>>, t: Tree<V>, sep: string, k: string)
    requires k in flat
  {
    exists p :: Lookup(t, p).Some? && Flattens(p, sep) && JoinPath(p, sep) == k && flat[k] == Leaf(Lookup(t, p).value)
  }

  lemma OnlyFrom<V>(flat: map<string, Tree<V>>, t: Tree<V>, sep: string, p: Path)
    requires sep != "" && Flattens(p, sep) && Lookup(t, p).Some? && JoinPath(p, sep) in flat
    requires ComesFrom(flat, t, sep, JoinPath(p, sep))
    ensures flat[JoinPath(p, sep)] == Leaf(Lookup(t, p).value)
  {
    var k := JoinPath(p, sep);
    var q :| Lookup(t, q).Some? && Flattens(q, sep) && JoinPath(q, sep) == k && flat[k] == Leaf(Lookup(t, q).value);
    PartsOfJoin(p, sep);
    PartsOfJoin(q, sep);
  }

  /** A clean tree has pairwise distinct composite keys. */
  lemma KeysDistinct<V>(d: map<string, Tree<V>>, sep: string, pairs: seq<(string, V)>, paths: seq<Path>)
    requires sep != "" && Clean(Dict(d), sep) && PairsAt(Dict(d), sep, pairs, paths) && Distinct(paths)
    ensures forall i, j :: 0 <= i < j < |pairs| ==> pairs[i].0 != pairs[j].0
  {
    forall i, j | 0 <= i < j < |pairs|
      ensures pairs[i].0 != pairs[j].0
    {
      CleanPaths(Dict(d), sep, paths[i]);
      CleanPaths(Dict(d), sep, paths[j]);
      PartsOfJoin(paths[i], sep);
      PartsOfJoin(paths[j], sep);
    }
  }

  // ---------- Restoring ----------

  lemma {:induction false} LeavesApart<V>(t: Tree<V>, p: Path, q: Path)
    requires Lookup(t, p).Some? && Lookup(t, q).Some? && Comparable(p, q)
    ensures p == q
    decreases p
  {
    if p != [] && q != [] {
      assert p == [p[0]] + p[1..] && q == [q[0]] + q[1..];
      PrefixCons(p[0], p[1..], q[1..]);
      LeavesApart(t.items[p[0]], p[1..], q[1..]);
    }
  }

  /** The leaf has been put in place, or needs no restoring. */
  predicate Placed(p: Path, order: seq<string>, sep: string) {
    p != [] && (|p| == 1 || JoinPath(p, sep) in order)
  }

  lemma CompositeIff(p: Path, sep: string)
    requires sep != "" && Flattens(p, sep)
    ensures Free(JoinPath(p, sep), sep) <==> |p| == 1
  {
    if |p| > 1 { JoinSplits(p[0], JoinPath(p[1..], sep), sep); }
  }

  lemma PlainLookup<V>(flat: map<string, Tree<V>>, t: Tree<V>, sep: string, p: Path)
    requires sep != "" && t.Dict? && FlatOf(flat, t, sep)
    ensures Lookup(Dict(Plain(flat, sep)), p) == if |p| == 1 then Lookup(t, p) else None
    ensures NoEmpty(Dict(Plain(flat, sep)))
  {
    forall k | k in Plain(flat, sep)
      ensures flat[k].Leaf? && Lookup(t, [k]) == Some(flat[k].value)
    {
      var q :| Lookup(t, q).Some? && Flattens(q, sep) && JoinPath(q, sep) == k;
      CompositeIff(q, sep);
      assert q == [k];
    }
    if |p| == 1 {
      assert p == [p[0]];
      if Lookup(t, p).Some? { CompositeIff(p, sep); }
    }
  }

  /** After any part of the composite keys: exactly the placed leaves are there. */
  lemma {:induction false} Rebuild<V>(flat: map<string, Tree<V>>, t: Tree<V>, order: seq<string>, sep: string, p: Path)
    requires sep != "" && t.Dict? && FlatOf(flat, t, sep)
    requires forall k :: k in order ==> k in flat && !Free(k, sep)
    requires forall i, j :: 0 <= i < j < |order| ==> order[i] != order[j]
    ensures var placed := Dict(InsertAll(Plain(flat, sep), flat, order, sep));
            NoEmpty(placed) && Lookup(placed, p) == if Placed(p, order, sep) then Lookup(t, p) else None
    decreases |order|
  {
    hide Insert, Plain, Free, Parts, Lookup, Flattens, NoEmpty;
    if order == [] {
      PlainLookup(flat, t, sep, p);
    } else {
      var init, last := order[..|order| - 1], order[|order| - 1];
      assert order == init + [last] && last in order && last !in init;
      var placed := InsertAll(Plain(flat, sep), flat, init, sep);
      var path := PathOf(flat, t, sep, last);
      Rebuild(flat, t, init, sep, p);
      forall q | Lookup(Dict(placed), q).Some?
        ensures !Comparable(q, path)
      {
        Rebuild(flat, t, init, sep, q);
        if Comparable(q, path) { LeavesApart(t, q, path); }
      }
      var v := Lookup(t, path).value;
      InsertLookup(placed, last, v, sep, p);
      InsertNoEmpty(placed, last, v, sep);
      LookupNonEmpty(t);
      if Lookup(t, p).Some? && JoinPath(p, sep) == last { PartsOfJoin(p, sep); }
    }
  }

  lemma PathOf<V>(flat: map<string, Tree<V>>, t: Tree<V>, sep: string, key: string) returns (path: Path)
    requires sep != "" && FlatOf(flat, t, sep) && key in flat && !Free(key, sep)
    ensures Lookup(t, path).Some? && Flattens(path, sep) && JoinPath(path, sep) == key && Parts(key, sep) == path && |path| > 1
    ensures flat[key] == Leaf(Lookup(t, path).value)
  {
    path :| Lookup(t, path).Some? && Flattens(path, sep) && JoinPath(path, sep) == key;
    PartsOfJoin(path, sep);
    CompositeIff(path, sep);
  }

  lemma LookupCons<V>(t: Tree<V>, k: string, p: Path)
    requires t.Dict?
    ensures Lookup(t, [k] + p) == if k in t.items then Lookup(t.items[k], p) else None
  {
    assert ([k] + p)[1..] == p;
  }

  lemma LookupEmpty<V>(t: Tree<V>)
    ensures Lookup(t, []) == if t.Leaf? then Some(t.value) else None
  {
  }

  lemma {:induction false} SameLeaves<V>(t: Tree<V>, u: Tree<V>)
    requires NoEmpty(t) && NoEmpty(u) && t.Dict? == u.Dict?
    requires forall p :: Lookup(t, p) == Lookup(u, p)
    ensures t == u
    decreases t
  {
    hide Lookup;
    match t
    case Leaf(_) =>
      LookupEmpty(t);
      LookupEmpty(u);
      assert Lookup(t, []) == Lookup(u, []);
    case Dict(items) =>
      KeysKept(t, u);
      KeysKept(u, t);
      forall k | k in items
        ensures items[k] == u.items[k]
      {
        forall p
          ensures Lookup(items[k], p) == Lookup(u.items[k], p)
        {
          LookupCons(t, k, p);
          LookupCons(u, k, p);
          assert Lookup(t, [k] + p) == Lookup(u, [k] + p);
        }
        LookupEmpty(items[k]);
        LookupEmpty(u.items[k]);
        assert Lookup(items[k], []) == Lookup(u.items[k], []);
        SameLeaves(items[k], u.items[k]);
      }
  }

  lemma KeysKept<V>(t: Tree<V>, u: Tree<V>)
    requires t.Dict? && u.Dict? && NoEmpty(t) && forall p :: Lookup(t, p) == Lookup(u, p)
    ensures forall k :: k in t.items ==> k in u.items
  {
    hide Lookup, NoEmpty;
    forall k | k in t.items
      ensures k in u.items
    {
      var p := LeafUnder(t, k);
      LookupCons(u, k, p);
      assert Lookup(u, [k] + p) == Lookup(t, [k] + p);
    }
  }

  lemma LeafUnder<V>(t: Tree<V>, k: string) returns (p: Path)
    requires t.Dict? && NoEmpty(t) && k in t.items
    ensures Lookup(t, [k] + p).Some?
  {
    p := SomeLeaf(t.items[k]);
    LookupCons(t, k, p);
  }

  lemma {:induction false} CleanNoEmpty<V>(t: Tree<V>, sep: string)
    requires Clean(t, sep)
    ensures NoEmpty(t)
    decreases t
  {
    if t.Dict? {
      forall k | k in t.items
        ensures NoEmpty(t.items[k])
      {
        CleanNoEmpty(t.items[k], sep);
      }
    }
  }

  lemma {:induction false} RestoredIsClean<V>(flat: map<string, Tree<V>>, order: seq<string>, sep: string)
    requires sep != "" && (forall k :: k in flat ==> flat[k].Leaf?) && forall k :: k in order ==> k in flat
    ensures Clean(Dict(InsertAll(Plain(flat, sep), flat, order, sep)), sep)
    decreases |order|
  {
    if order != [] {
      var init, last := order[..|order| - 1], order[|order| - 1];
      assert order == init + [last] && last in order;
      RestoredIsClean(flat, init, sep);
      InsertClean(InsertAll(Plain(flat, sep), flat, init, sep), last, flat[last].value, sep);
    }
  }

  lemma RestoredEquals<V>(d: map<string, Tree<V>>, flat: map<string, Tree<V>>, order: seq<string>, sep: string)
    requires sep != "" && Clean(Dict(d), sep) && FlatOf(flat, Dict(d), sep) && IsOrder(order, flat, sep)
    ensures InsertAll(Plain(flat, sep), flat, order, sep) == d
  {
    var r := InsertAll(Plain(flat, sep), flat, order, sep);
    forall p
      ensures Lookup(Dict(r), p) == Lookup(Dict(d), p) && NoEmpty(Dict(r))
    {
      Rebuild(flat, Dict(d), order, sep, p);
      if Lookup(Dict(d), p).Some? { CompositeIff(p, sep); }
    }
    assert Lookup(Dict(r), []) == Lookup(Dict(d), []) && NoEmpty(Dict(r));
    CleanNoEmpty(Dict(d), sep);
    SameLeaves(Dict(r), Dict(d));
  }

  /** Flattening and restoring, for every order in which the keys are visited:
      the dictionary comes back exactly when it is clean. */
  method FlattenAndRestore<V(==)>(d: map<string, Tree<V>>, sep: string) returns (r: map<string, Tree<V>>)
    requires sep != ""
    ensures r == d <==> Clean(Dict(d), sep)
    ensures Clean(Dict(r), sep)
  {
    var pairs;
    ghost var paths, order;
    pairs, paths := RecursiveKeypairs(d, sep);
    var flat := FromPairs(pairs);
    FromPairsFlat(pairs);
    ghost var h := SomeHeight(Dict(flat));
    r, order := RestoreNesting(flat, sep, h);
    assert AllRestored(flat, sep);
    RestoredIsClean(flat, order, sep);
    if Clean(Dict(d), sep) {
      FlattenedIsFlat(d, sep, pairs, paths);
      RestoredEquals(d, flat, order, sep);
    }
  }
}
