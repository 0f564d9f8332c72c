/** update_nested: merging a nested dictionary of updates into another. */
module NestedUpdate {
  import opened Wrappers
  import opened Nesting

  /** Python's TypeError or AttributeError: a leaf cannot take items. */
  datatype Error = NotADictionary

  type Updated<V> = Result<Tree<V>, Error>

  /** d.get(key, {}) */
  function At<V>(t: Tree<V>, key: string): Tree<V>
    requires t.Dict?
  {
    if key in t.items then t.items[key] else Dict(map[])
  }

  /** The new value of one updated key. */
  function UpdateKey<V>(t: Tree<V>, u: map<string, Tree<V>>, key: string): Updated<V>
    requires t.Dict? && key in u
    decreases Dict(u), 0
  {
    match u[key]
    case Leaf(_) => Success(u[key])
    case Dict(below) => Update(At(t, key), below)
  }

  function Update<V>(t: Tree<V>, u: map<string, Tree<V>>): Updated<V>
    decreases Dict(u), 1
  {
    if u == map[] then Success(t)
    else if t.Leaf? then Failure(NotADictionary)
    else if exists k :: k in u && UpdateKey(t, u, k).Failure? then Failure(NotADictionary)
    else Success(Dict(map k | k in t.items.Keys + u.Keys :: if k in u then UpdateKey(t, u, k).value else t.items[k]))
  }

  /** update_nested, visiting the updates in any order. */
  method UpdateNested<V>(original: Tree<V>, updates: map<string, Tree<V>>) returns (r: Updated<V>)
    ensures r == Update(original, updates)
    decreases Dict(updates)
  {
    var keys := updates.Keys;
    var result := original;
    while keys != {}
      invariant keys <= updates.Keys
      invariant keys == updates.Keys ==> result == original
      invariant keys != updates.Keys ==> original.Dict? && result.Dict?
      invariant original.Dict? ==> result.Dict? && Progress(original, updates, updates.Keys - keys, result.items)
      decreases keys
    {
      var key :| key in keys;
      match updates[key] {
        case Dict(below) =>
          if result.Leaf? { return Failure(NotADictionary); }
          var sub := UpdateNested(At(result, key), below);
          if sub.Failure? { return Failure(NotADictionary); }
          result := Dict(result.items[key := sub.value]);
        case Leaf(_) =>
          if result.Leaf? { return Failure(NotADictionary); }
          result := Dict(result.items[key := updates[key]]);
      }
      keys := keys - {key};
    }
    r := Success(result);
    if updates != map[] { Finished(original, updates, result.items); }
  }

  /** The keys done so far are updated, the others as they were. */
  ghost predicate Progress<V>(t: Tree<V>, u: map<string, Tree<V>>, done: set<string>, items: map<string, Tree<V>>)
    requires t.Dict? && done <= u.Keys
  {
    && items.Keys == t.items.Keys + done
    && (forall k :: k in done ==> UpdateKey(t, u, k) == Success(items[k]))
    && (forall k :: k in t.items && k !in done ==> items[k] == t.items[k])
  }

  lemma Finished<V>(t: Tree<V>, u: map<string, Tree<V>>, items: map<string, Tree<V>>)
    requires t.Dict? && u != map[] && Progress(t, u, u.Keys, items)
    ensures Update(t, u) == Success(Dict(items))
  {
    assert items == map k | k in t.items.Keys + u.Keys :: if k in u then UpdateKey(t, u, k).value else t.items[k];
  }

  // ---------- Laws ----------

  lemma {:induction false} UpdateOfNothing<V>(u: map<string, Tree<V>>)
    ensures Update(Dict(map[]), u) == Success(Dict(u))
    decreases Dict(u)
  {
    forall k | k in u
      ensures UpdateKey(Dict(map[]), u, k) == Success(u[k])
    {
      if u[k].Dict? { UpdateOfNothing(u[k].items); }
    }
    if u != map[] { Finished(Dict(map[]), u, u); }
  }

  lemma UpdatedKeys<V>(t: Tree<V>, u: map<string, Tree<V>>)
    requires Update(t, u).Success? && u != map[]
    ensures t.Dict? && Update(t, u).value.Dict?
    ensures Progress(t, u, u.Keys, Update(t, u).value.items)
  {
  }

  /** Updating twice with the same updates changes nothing more. */
  lemma {:induction false} Idempotent<V>(t: Tree<V>, u: map<string, Tree<V>>)
    requires Update(t, u).Success?
    ensures Update(Update(t, u).value, u) == Update(t, u)
    decreases Dict(u)
  {
    if u != map[] {
      UpdatedKeys(t, u);
      var r := Update(t, u).value;
      forall k | k in u
        ensures UpdateKey(r, u, k) == Success(r.items[k])
      {
        if u[k].Dict? { Idempotent(At(t, k), u[k].items); }
      }
      Finished(r, u, r.items);
    }
  }

  /** Merging updates first and applying the result is applying them in turn,
      errors of the second application included. */
  lemma {:induction false} Associative<V>(t: Tree<V>, u: map<string, Tree<V>>, v: map<string, Tree<V>>)
    requires Update(t, u).Success? && Update(Dict(u), v).Success?
    ensures Update(Dict(u), v).value.Dict?
    ensures Update(t, Update(Dict(u), v).value.items) == Update(Update(t, u).value, v)
    decreases Dict(v)
  {
    if u == map[] {
      UpdateOfNothing(v);
    } else if v != map[] {
      UpdatedKeys(t, u);
      UpdatedKeys(Dict(u), v);
      var r, w := Update(t, u).value, Update(Dict(u), v).value.items;
      forall k | k in w
        ensures k in v ==> UpdateKey(t, w, k) == UpdateKey(r, v, k)
        ensures k !in v ==> UpdateKey(t, w, k) == Success(r.items[k])
      {
        AssociativeAt(t, u, v, k);
      }
      if Update(r, v).Success? {
        UpdatedKeys(r, v);
        Finished(t, w, Update(r, v).value.items);
      } else {
        var k :| k in v && UpdateKey(r, v, k).Failure?;
        assert UpdateKey(t, w, k).Failure?;
      }
    }
  }

  lemma {:induction false} AssociativeAt<V>(t: Tree<V>, u: map<string, Tree<V>>, v: map<string, Tree<V>>, k: string)
    requires u != map[] && v != map[] && Update(t, u).Success? && Update(Dict(u), v).Success?
    requires t.Dict? && Update(t, u).value.Dict? && Update(Dict(u), v).value.Dict?
    requires Progress(t, u, u.Keys, Update(t, u).value.items)
    requires Progress(Dict(u), v, v.Keys, Update(Dict(u), v).value.items)
    requires k in Update(Dict(u), v).value.items
    ensures var r, w := Update(t, u).value, Update(Dict(u), v).value.items;
            && (k in v ==> UpdateKey(t, w, k) == UpdateKey(r, v, k))
            && (k !in v ==> UpdateKey(t, w, k) == Success(r.items[k]))
    decreases Dict(v), 0
  {
    var r, w := Update(t, u).value, Update(Dict(u), v).value.items;
    if k in v && v[k].Dict? {
      if k !in u {
        UpdateOfNothing(v[k].items);
        assert At(r, k) == At(t, k);
      } else if u[k].Dict? {
        Associative(At(t, k), u[k].items, v[k].items);
      }
    }
  }

  // ---------- Leaves ----------

  /** A leaf of the updates lies at or above the path. */
  predicate Overwritten<V>(u: Tree<V>, path: Path)
    decreases path
  {
    u.Leaf? || (path != [] && path[0] in u.items && Overwritten(u.items[path[0]], path[1..]))
  }

  /** Every leaf of the updates is in the result, at its path; of the original
      leaves exactly those remain that no leaf of the updates overwrites. */
  lemma {:induction false} UpdatedLeaves<V>(t: Tree<V>, u: map<string, Tree<V>>, path: Path)
    requires Update(t, u).Success?
    ensures Lookup(Update(t, u).value, path) ==
            if Overwritten(Dict(u), path) then Lookup(Dict(u), path) else Lookup(t, path)
    decreases path
  {
    if u != map[] {
      UpdatedKeys(t, u);
      if path != [] && path[0] in u && u[path[0]].Dict? {
        UpdatedLeaves(At(t, path[0]), u[path[0]].items, path[1..]);
      }
    }
  }

  function Subtree<V>(t: Tree<V>, path: Path): Option<Tree<V>>
    decreases path
  {
    if path == [] then Some(t)
    else if t.Dict? && path[0] in t.items then Subtree(t.items[path[0]], path[1..])
    else None
  }

  /** The updates hold a non-empty dictionary where the tree holds a leaf. */
  ghost predicate ClashesAt<V>(t: Tree<V>, u: Tree<V>, path: Path) {
    Lookup(t, path).Some? && Subtree(u, path).Some? && Subtree(u, path).value.Dict? && Subtree(u, path).value != Dict(map[])
  }

  lemma {:induction false} ClashFails<V>(t: Tree<V>, u: map<string, Tree<V>>, path: Path)
    requires ClashesAt(t, Dict(u), path)
    ensures Update(t, u).Failure?
    decreases path
  {
    if path != [] {
      assert Subtree(u[path[0]], path[1..]) == Subtree(Dict(u), path);
      assert u[path[0]].Dict?;
      ClashFails(At(t, path[0]), u[path[0]].items, path[1..]);
      assert UpdateKey(t, u, path[0]).Failure?;
    }
  }

  lemma {:induction false} FailureClashes<V>(t: Tree<V>, u: map<string, Tree<V>>) returns (path: Path)
    requires Update(t, u).Failure?
    ensures ClashesAt(t, Dict(u), path)
    decreases Dict(u)
  {
    if t.Leaf? {
      path := [];
    } else {
      var k :| k in u && UpdateKey(t, u, k).Failure?;
      if k !in t.items { UpdateOfNothing(u[k].items); }
      var rest := FailureClashes(At(t, k), u[k].items);
      path := [k] + rest;
      assert path[1..] == rest;
    }
  }

  /** The update fails exactly when some non-empty dictionary of the updates meets
      a leaf of the original. */
  lemma FailsIffClash<V>(t: Tree<V>, u: map<string, Tree<V>>)
    ensures Update(t, u).Failure? <==> exists path :: ClashesAt(t, Dict(u), path)
  {
    if Update(t, u).Failure? { var path := FailureClashes(t, u); }
    forall path | ClashesAt(t, Dict(u), path)
      ensures Update(t, u).Failure?
    {
      ClashFails(t, u, path);
    }
  }
}
