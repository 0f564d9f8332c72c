/** recursive_keypairs and restore_nesting: flattening nested dictionaries into
    one with composite keys, and back. */
module Nesting {
  import opened Wrappers

  /** A nested dictionary; V stands for the scalars and lists at its leaves. */
  datatype Tree<V> = Leaf(value: V) | Dict(items: map<string, Tree<V>>)

  type Path = seq<string>

  function Lookup<V>(t: Tree<V>, path: Path): Option<V>
    decreases path
  {
    match t
    case Leaf(value) => if path == [] then Some(value) else None
    case Dict(items) => if path == [] || path[0] !in items then None else Lookup(items[path[0]], path[1..])
  }

  // ---------- Composite keys ----------

  predicate OccursAt(s: string, sep: string, i: nat) {
    i + |sep| <= |s| && s[i..i + |sep|] == sep
  }

  function Find(s: string, sep: string, from: nat): (r: Option<nat>)
    requires from <= |s|
    ensures r.Some? ==> from <= r.value && OccursAt(s, sep, r.value)
    ensures forall j :: from <= j && (r.None? || j < r.value) && j + |sep| <= |s| ==> !OccursAt(s, sep, j)
    decreases |s| - from
  {
    if OccursAt(s, sep, from) then Some(from)
    else if from == |s| then None
    else Find(s, sep, from + 1)
  }

  /** The key is left whole by the separator. */
  predicate Free(key: string, sep: string) {
    Find(key, sep, 0).None?
  }

  /** Followed by the separator, the key is what stands before its first occurrence. */
  predicate Heads(key: string, sep: string) {
    Find(key + sep, sep, 0) == Some(|key|)
  }

  function Top(key: string, sep: string): string
    requires !Free(key, sep)
  {
    key[..Find(key, sep, 0).value]
  }

  function Rem(key: string, sep: string): string
    requires !Free(key, sep)
  {
    key[Find(key, sep, 0).value + |sep|..]
  }

  function Parts(key: string, sep: string): Path
    requires sep != ""
    decreases |key|
  {
    if Free(key, sep) then [key] else [Top(key, sep)] + Parts(Rem(key, sep), sep)
  }

  function JoinPath(path: Path, sep: string): string
    requires path != []
  {
    if |path| == 1 then path[0] else path[0] + sep + JoinPath(path[1..], sep)
  }

  /** Occurrences in a prefix are occurrences in the whole. */
  lemma OccursInPrefix(s: string, t: string, sep: string)
    ensures forall j: nat :: j + |sep| <= |s| ==> (OccursAt(s, sep, j) <==> OccursAt(s + t, sep, j))
  {
    forall j: nat | j + |sep| <= |s|
      ensures OccursAt(s, sep, j) <==> OccursAt(s + t, sep, j)
    {
      assert (s + t)[j..j + |sep|] == s[j..j + |sep|];
    }
  }

  lemma TopHeads(key: string, sep: string)
    requires sep != "" && !Free(key, sep)
    ensures Heads(Top(key, sep), sep)
  {
    var i := Find(key, sep, 0).value;
    var s, t := key[..i + |sep|], key[i + |sep|..];
    assert key == s + t;
    assert s == Top(key, sep) + sep;
    OccursInPrefix(s, t, sep);
    assert OccursAt(s, sep, i);
  }

  lemma JoinSplits(name: string, rest: string, sep: string)
    requires sep != "" && Heads(name, sep)
    ensures var key := name + sep + rest;
            !Free(key, sep) && Top(key, sep) == name && Rem(key, sep) == rest
  {
    OccursInPrefix(name + sep, rest, sep);
    assert Find(name + sep + rest, sep, 0) == Some(|name|);
  }

  lemma HeadsAreFree(key: string, sep: string)
    requires sep != "" && Heads(key, sep)
    ensures Free(key, sep)
  {
    OccursInPrefix(key, sep, sep);
  }

  /** A path flattening can keep: every name but the last heads, the last is free. */
  predicate Flattens(path: Path, sep: string) {
    path != [] && if |path| == 1 then Free(path[0], sep) else Heads(path[0], sep) && Flattens(path[1..], sep)
  }

  lemma {:induction false} PartsOfJoin(path: Path, sep: string)
    requires sep != "" && Flattens(path, sep)
    ensures Parts(JoinPath(path, sep), sep) == path
    decreases |path|
  {
    if |path| > 1 {
      JoinSplits(path[0], JoinPath(path[1..], sep), sep);
      PartsOfJoin(path[1..], sep);
    }
  }

  // ---------- Inserting one composite key ----------

  /** The nested dictionary that takes the rest of a composite key. */
  function Nest<V>(r: map<string, Tree<V>>, top: string): map<string, Tree<V>> {
    if top in r && r[top].Dict? then r[top].items else map[]
  }

  /** What one round of restore_nesting makes of a dictionary and a composite key. */
  function Insert<V>(items: map<string, Tree<V>>, key: string, v: Tree<V>, sep: string): map<string, Tree<V>>
    requires sep != ""
    decreases |key|
  {
    if Free(key, sep) then items[key := v]
    else
      var top := Top(key, sep);
      items[top := Dict(Insert(Nest(items, top), Rem(key, sep), v, sep))]
  }

  /** Nested dictionaries are non-empty. */
  predicate NoEmpty<V>(t: Tree<V>) {
    t.Dict? ==> forall k :: k in t.items ==> NoEmpty(t.items[k]) && t.items[k] != Dict(map[])
  }

  /** Exactly the trees that flattening and unflattening can give back: names on
      the way to a leaf head, names of leaves are free, no dictionary but the
      outermost is empty. */
  predicate Clean<V>(t: Tree<V>, sep: string) {
    t.Dict? ==> forall k :: k in t.items ==>
      && Clean(t.items[k], sep) && t.items[k] != Dict(map[])
      && if t.items[k].Leaf? then Free(k, sep) else Heads(k, sep)
  }

  lemma {:induction false} InsertClean<V>(items: map<string, Tree<V>>, key: string, v: V, sep: string)
    requires sep != "" && Clean(Dict(items), sep)
    ensures Clean(Dict(Insert(items, key, Leaf(v), sep)), sep) && Insert(items, key, Leaf(v), sep) != map[]
    decreases |key|
  {
    if !Free(key, sep) {
      var top := Top(key, sep);
      TopHeads(key, sep);
      var nest := Nest(items, top);
      assert top in items && items[top].Dict? ==> items[top] == Dict(nest);
      InsertClean(nest, Rem(key, sep), v, sep);
    }
  }

  lemma {:induction false} InsertNoEmpty<V>(items: map<string, Tree<V>>, key: string, v: V, sep: string)
    requires sep != "" && NoEmpty(Dict(items))
    ensures NoEmpty(Dict(Insert(items, key, Leaf(v), sep))) && Insert(items, key, Leaf(v), sep) != map[]
    decreases |key|
  {
    if !Free(key, sep) {
      var top := Top(key, sep);
      var nest := Nest(items, top);
      assert top in items && items[top].Dict? ==> items[top] == Dict(nest);
      InsertNoEmpty(nest, Rem(key, sep), v, sep);
      assert top in Insert(items, key, Leaf(v), sep);
    } else {
      assert key in Insert(items, key, Leaf(v), sep);
    }
  }

  predicate Comparable(p: Path, q: Path) {
    p <= q || q <= p
  }

  /** No leaf of the tree lies above, at or below the path. */
  ghost predicate Open<V>(t: Tree<V>, path: Path) {
    forall p :: Lookup(t, p).Some? ==> !Comparable(p, path)
  }

  lemma {:induction false} SomeLeaf<V>(t: Tree<V>) returns (p: Path)
    requires NoEmpty(t) && t != Dict(map[])
    ensures Lookup(t, p).Some?
    decreases t
  {
    match t
    case Leaf(_) => p := [];
    case Dict(items) =>
      var k :| k in items;
      var rest := SomeLeaf(items[k]);
      p := [k] + rest;
      assert p[1..] == rest;
  }

  lemma OpenHead<V>(items: map<string, Tree<V>>, path: Path)
    requires path != [] && Open(Dict(items), path) && path[0] in items
    ensures items[path[0]].Dict?
  {
    assert Comparable([path[0]], path);
    assert items[path[0]].Leaf? ==> Lookup(Dict(items), [path[0]]).Some?;
  }

  /** Inserting on an open path adds that leaf and changes no other. */
  lemma {:induction false} InsertLookup<V>(items: map<string, Tree<V>>, key: string, v: V, sep: string, p: Path)
    requires sep != "" && NoEmpty(Dict(items)) && Open(Dict(items), Parts(key, sep))
    ensures Lookup(Dict(Insert(items, key, Leaf(v), sep)), p) ==
            if p == Parts(key, sep) then Some(v) else Lookup(Dict(items), p)
    decreases |key|
  {
    var path := Parts(key, sep);
    if Free(key, sep) {
      assert path == [key];
      if key in items {
        var below := SomeLeaf(items[key]);
        assert ([key] + below)[1..] == below;
        assert Lookup(Dict(items), [key] + below).Some?;
        assert path <= [key] + below;
      }
      if p != [] && p[0] == key {
        assert p == [key] + p[1..];
      }
    } else {
      var top, rem := Top(key, sep), Rem(key, sep);
      if top in items { OpenHead(items, path); }
      var nest := Nest(items, top);
      assert top in items ==> items[top] == Dict(nest);
      forall q | Lookup(Dict(nest), q).Some?
        ensures !Comparable(q, Parts(rem, sep))
      {
        assert ([top] + q)[1..] == q;
        assert Lookup(Dict(items), [top] + q).Some?;
        PrefixCons(top, q, Parts(rem, sep));
      }
      if p != [] && p[0] == top {
        assert p == [top] + p[1..];
        InsertLookup(nest, rem, v, sep, p[1..]);
      } else {
        InsertLookup(nest, rem, v, sep, p);
      }
    }
  }

  lemma PrefixCons(name: string, p: Path, q: Path)
    ensures Comparable([name] + p, [name] + q) <==> Comparable(p, q)
  {
    if p <= q { assert [name] + q == [name] + p + q[|p|..]; }
    if q <= p { assert [name] + p == [name] + q + p[|q|..]; }
    if [name] + p <= [name] + q { assert p == ([name] + p)[1..]; assert q == ([name] + q)[1..]; }
    if [name] + q <= [name] + p { assert p == ([name] + p)[1..]; assert q == ([name] + q)[1..]; }
  }

  // ---------- restore_nesting ----------

  /** The keys at every level are free, so that nothing is left to restore. */
  predicate Restored<V>(t: Tree<V>, sep: string) {
    t.Dict? ==> forall k :: k in t.items ==> Free(k, sep) && Restored(t.items[k], sep)
  }

  /** The entries that are already in place. */
  function Plain<V>(d: map<string, Tree<V>>, sep: string): map<string, Tree<V>> {
    map k | k in d && Free(k, sep) :: d[k]
  }

  /** Inserting the composite keys of d in the given order. */
  function InsertAll<V>(items: map<string, Tree<V>>, d: map<string, Tree<V>>, order: seq<string>, sep: string): map<string, Tree<V>>
    requires sep != "" && forall k :: k in order ==> k in d
  {
    if order == [] then items
    else
      var last := order[|order| - 1];
      Insert(InsertAll(items, d, order[..|order| - 1], sep), last, d[last], sep)
  }

  lemma {:induction false} InsertRestored<V>(items: map<string, Tree<V>>, key: string, v: Tree<V>, sep: string)
    requires sep != "" && Restored(Dict(items), sep) && Restored(v, sep)
    ensures Restored(Dict(Insert(items, key, v, sep)), sep)
    decreases |key|
  {
    if !Free(key, sep) {
      var top := Top(key, sep);
      TopHeads(key, sep);
      HeadsAreFree(top, sep);
      var nest := Nest(items, top);
      assert top in items && items[top].Dict? ==> items[top] == Dict(nest);
      InsertRestored(nest, Rem(key, sep), v, sep);
    }
  }

  /** Names along every path of the tree, with a separator each, fit in h. */
  predicate Fits<V>(t: Tree<V>, h: nat) {
    t.Dict? ==> forall k :: k in t.items ==> |k| < h && Fits(t.items[k], h - |k| - 1)
  }

  lemma {:induction false} FitsMore<V>(t: Tree<V>, h: nat, more: nat)
    requires Fits(t, h) && h <= more
    ensures Fits(t, more)
    decreases t
  {
    if t.Dict? {
      forall k | k in t.items
        ensures |k| < more && Fits(t.items[k], more - |k| - 1)
      {
        FitsMore(t.items[k], h - |k| - 1, more - |k| - 1);
      }
    }
  }

  /** Every tree fits in some height. */
  lemma {:induction false} SomeHeight<V>(t: Tree<V>) returns (h: nat)
    ensures Fits(t, h)
    decreases t
  {
    h := 0;
    if t.Dict? {
      var keys := t.items.Keys;
      while keys != {}
        invariant keys <= t.items.Keys
        invariant forall k :: k in t.items && k !in keys ==> |k| < h && Fits(t.items[k], h - |k| - 1)
        decreases keys
      {
        var k :| k in keys;
        keys := keys - {k};
        var below := SomeHeight(t.items[k]);
        var more := h + |k| + 1 + below;
        forall j | j in t.items && j !in keys
          ensures |j| < more && Fits(t.items[j], more - |j| - 1)
        {
          if j == k { FitsMore(t.items[k], below, more - |k| - 1); } else { FitsMore(t.items[j], h - |j| - 1, more - |j| - 1); }
        }
        h := more;
      }
    }
  }

  /** The order in which restore_nesting visited the composite keys of d. */
  ghost predicate IsOrder<V>(order: seq<string>, d: map<string, Tree<V>>, sep: string) {
    && (forall k :: k in order <==> k in d && !Free(k, sep))
    && (forall i, j :: 0 <= i < j < |order| ==> order[i] != order[j])
  }

  ghost predicate AllRestored<V>(d: map<string, Tree<V>>, sep: string) {
    forall k :: k in d ==> Restored(d[k], sep)
  }

  /** The composite keys still to be visited. */
  function Pending<V>(d: map<string, Tree<V>>, todo: set<string>, sep: string): map<string, Tree<V>> {
    map k | k in d && k in todo && !Free(k, sep) :: d[k]
  }

  lemma NestFits<V>(r: map<string, Tree<V>>, k: string, v: Tree<V>, sep: string, h: nat)
    requires sep != "" && !Free(k, sep) && Fits(Dict(r), h) && |k| < h && Fits(v, h - |k| - 1)
    ensures var top := Top(k, sep);
            |top| < h && Fits(Dict(Nest(r, top)[Rem(k, sep) := v]), h - |top| - 1)
  {
    var top, rem := Top(k, sep), Rem(k, sep);
    assert |k| == |top| + |sep| + |rem|;
    FitsMore(v, h - |k| - 1, h - |top| - 1 - |rem| - 1);
    if top in r { assert Fits(r[top], h - |top| - 1); }
    if top in r && r[top].Dict? { assert r[top] == Dict(Nest(r, top)); }
  }

  /** Restoring one composite key within an otherwise restored dictionary inserts it. */
  lemma OneComposite<V>(nest: map<string, Tree<V>>, rem: string, v: Tree<V>, order: seq<string>, sep: string)
    requires sep != "" && Restored(Dict(nest), sep) && IsOrder(order, nest[rem := v], sep)
    ensures InsertAll(Plain(nest[rem := v], sep), nest[rem := v], order, sep) == Insert(nest, rem, v, sep)
  {
    var full := nest[rem := v];
    if Free(rem, sep) {
      OrderOfNone(order);
      assert Plain(full, sep) == full;
    } else {
      OrderOfOne(order, rem);
      assert Plain(full, sep) == nest;
      assert order[..0] == [];
      assert InsertAll(nest, full, [], sep) == nest;
    }
  }

  lemma SomeMember(order: seq<string>)
    requires order != []
    ensures exists k :: k in order
  {
    assert order[0] in order;
  }

  lemma OrderOfNone(order: seq<string>)
    requires forall k :: k !in order
    ensures order == []
  {
    if order != [] {
      SomeMember(order);
      assert false;
    }
  }

  lemma OrderOfOne(order: seq<string>, key: string)
    requires forall k :: k in order <==> k == key
    requires forall i, j :: 0 <= i < j < |order| ==> order[i] != order[j]
    ensures order == [key]
  {
    assert key in order;
    assert order[0] in order && order[|order| - 1] in order;
  }

  lemma {:induction false} InsertAllRestored<V>(d: map<string, Tree<V>>, order: seq<string>, sep: string)
    requires sep != "" && AllRestored(d, sep) && forall k :: k in order ==> k in d
    ensures Restored(Dict(InsertAll(Plain(d, sep), d, order, sep)), sep)
    decreases |order|
  {
    if order != [] {
      var last := order[|order| - 1];
      assert last in order;
      InsertAllRestored(d, order[..|order| - 1], sep);
      InsertRestored(InsertAll(Plain(d, sep), d, order[..|order| - 1], sep), last, d[last], sep);
    }
  }

  ghost predicate InProgress<V>(d: map<string, Tree<V>>, r: map<string, Tree<V>>, todo: set<string>, order: seq<string>, sep: string)
    requires sep != ""
  {
    && (forall k :: k in order <==> k in d && k !in todo && !Free(k, sep))
    && (forall i, j :: 0 <= i < j < |order| ==> order[i] != order[j])
    && r == InsertAll(Plain(d, sep), d, order, sep) + Pending(d, todo, sep)
  }

  lemma VisitFree<V>(d: map<string, Tree<V>>, r: map<string, Tree<V>>, todo: set<string>, order: seq<string>, sep: string, k: string)
    requires sep != "" && InProgress(d, r, todo, order, sep) && Free(k, sep)
    ensures InProgress(d, r, todo - {k}, order, sep)
  {
    assert Pending(d, todo - {k}, sep) == Pending(d, todo, sep);
  }

  lemma VisitComposite<V>(d: map<string, Tree<V>>, r: map<string, Tree<V>>, todo: set<string>, order: seq<string>, sep: string,
                          k: string, sub: map<string, Tree<V>>, inner: seq<string>)
    requires sep != "" && AllRestored(d, sep) && InProgress(d, r, todo, order, sep) && k in todo && k in d && !Free(k, sep)
    requires var nest := Nest(r, Top(k, sep))[Rem(k, sep) := d[k]];
             AllRestored(nest, sep) ==> IsOrder(inner, nest, sep) && sub == InsertAll(Plain(nest, sep), nest, inner, sep)
    ensures InProgress(d, r[Top(k, sep) := Dict(sub)] - {k}, todo - {k}, order + [k], sep)
  {
    hide InsertAll, Top, Rem, Free, Restored, Nest, Pending, Insert, Plain, IsOrder, AllRestored;
    var top, rem := Top(k, sep), Rem(k, sep);
    var placed := InsertAll(Plain(d, sep), d, order, sep);
    InsertAllRestored(d, order, sep);
    TopHeads(k, sep);
    HeadsAreFree(top, sep);
    NestRestored(placed, top, sep);
    ValueRestored(d, k, sep);
    InsertAllMore(Plain(d, sep), d, order, k, sep);
    MoveOn(placed, d, todo, sep, k, top, Dict(sub));
    SameNest(placed, placed + Pending(d, todo, sep), top, rem, d[k], inner, sub, sep);
    assert forall x :: x in order + [k] <==> x in order || x == k;
  }

  lemma ValueRestored<V>(d: map<string, Tree<V>>, k: string, sep: string)
    requires AllRestored(d, sep) && k in d
    ensures Restored(d[k], sep)
  {
  }

  lemma SameNest<V>(placed: map<string, Tree<V>>, r: map<string, Tree<V>>, top: string, rem: string, v: Tree<V>, inner: seq<string>,
                    sub: map<string, Tree<V>>, sep: string)
    requires sep != "" && Nest(r, top) == Nest(placed, top) && Restored(Dict(Nest(placed, top)), sep) && Restored(v, sep)
    requires var nest := Nest(r, top)[rem := v];
             AllRestored(nest, sep) ==> IsOrder(inner, nest, sep) && sub == InsertAll(Plain(nest, sep), nest, inner, sep)
    ensures sub == Insert(Nest(placed, top), rem, v, sep)
  {
    hide InsertAll, Restored, Nest, Insert, Plain, IsOrder;
    OneCompositeWithin(Nest(placed, top), rem, v, inner, sub, sep);
  }

  lemma OneCompositeWithin<V>(nest: map<string, Tree<V>>, rem: string, v: Tree<V>, inner: seq<string>, sub: map<string, Tree<V>>, sep: string)
    requires sep != "" && Restored(Dict(nest), sep) && Restored(v, sep)
    requires var full := nest[rem := v];
             AllRestored(full, sep) ==> IsOrder(inner, full, sep) && sub == InsertAll(Plain(full, sep), full, inner, sep)
    ensures sub == Insert(nest, rem, v, sep)
  {
    assert AllRestored(nest[rem := v], sep);
    OneComposite(nest, rem, v, inner, sep);
  }

  lemma NestRestored<V>(placed: map<string, Tree<V>>, top: string, sep: string)
    requires Restored(Dict(placed), sep)
    ensures Restored(Dict(Nest(placed, top)), sep)
    ensures forall k :: k in placed ==> Free(k, sep)
  {
    if top in placed && placed[top].Dict? { assert placed[top] == Dict(Nest(placed, top)); }
  }

  lemma InsertAllMore<V>(items: map<string, Tree<V>>, d: map<string, Tree<V>>, order: seq<string>, k: string, sep: string)
    requires sep != "" && (forall x :: x in order ==> x in d) && k in d && !Free(k, sep)
    ensures var placed := InsertAll(items, d, order, sep);
            InsertAll(items, d, order + [k], sep) ==
            placed[Top(k, sep) := Dict(Insert(Nest(placed, Top(k, sep)), Rem(k, sep), d[k], sep))]
  {
    var more := order + [k];
    assert more[..|more| - 1] == order && more[|more| - 1] == k;
  }

  lemma MoveOn<V>(placed: map<string, Tree<V>>, d: map<string, Tree<V>>, todo: set<string>, sep: string, k: string, top: string, t: Tree<V>)
    requires k in d && k in todo && !Free(k, sep) && Free(top, sep)
    requires forall x :: x in placed ==> Free(x, sep)
    ensures var r := placed + Pending(d, todo, sep);
            Nest(r, top) == Nest(placed, top) && r[top := t] - {k} == placed[top := t] + Pending(d, todo - {k}, sep)
  {
  }

  /** restore_nesting visits the keys in any order. When the values hold no
      composite keys of their own, the result is that of inserting the composite
      keys one by one, in that order, into the entries already in place. */
  method RestoreNesting<V>(d: map<string, Tree<V>>, sep: string, ghost h: nat)
    returns (r: map<string, Tree<V>>, ghost order: seq<string>)
    requires sep != "" && Fits(Dict(d), h)
    ensures Fits(Dict(r), h)
    ensures AllRestored(d, sep) ==> IsOrder(order, d, sep) && r == InsertAll(Plain(d, sep), d, order, sep)
    decreases h
  {
    hide InsertAll, Restored, Insert, Top, Rem, Free, Nest, Pending, Plain, InProgress, IsOrder;
    r, order := d, [];
    var todo := d.Keys;
    NothingVisited(d, sep);
    while todo != {}
      invariant todo <= d.Keys && Fits(Dict(r), h)
      invariant AllRestored(d, sep) ==> InProgress(d, r, todo, order, sep)
      decreases todo
    {
      var k :| k in todo;
      if Free(k, sep) {
        if AllRestored(d, sep) { VisitFree(d, r, todo, order, sep, k); }
      } else {
        var top, rem := Top(k, sep), Rem(k, sep);
        var nest := Nest(r, top);
        nest := nest[rem := d[k]];
        NestFits(r, k, d[k], sep, h);
        var sub;
        ghost var inner;
        sub, inner := RestoreNesting(nest, sep, h - |top| - 1);
        if AllRestored(d, sep) { VisitComposite(d, r, todo, order, sep, k, sub, inner); }
        r := r[top := Dict(sub)] - {k};
        order := order + [k];
      }
      todo := todo - {k};
    }
    if AllRestored(d, sep) { AllVisited(d, r, order, sep); }
  }

  lemma NothingVisited<V>(d: map<string, Tree<V>>, sep: string)
    requires sep != ""
    ensures InProgress(d, d, d.Keys, [], sep)
  {
    assert d == Plain(d, sep) + Pending(d, d.Keys, sep);
  }

  lemma AllVisited<V>(d: map<string, Tree<V>>, r: map<string, Tree<V>>, order: seq<string>, sep: string)
    requires sep != "" && InProgress(d, r, {}, order, sep)
    ensures IsOrder(order, d, sep) && r == InsertAll(Plain(d, sep), d, order, sep)
  {
    assert Pending(d, {}, sep) == map[];
    var all := InsertAll(Plain(d, sep), d, order, sep);
    assert all + map[] == all;
  }
}
