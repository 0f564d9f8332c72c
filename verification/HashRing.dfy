/** The consistent-hash ring: what it stores and how it is searched. */
module HashRing {
  import opened Wrappers
  import opened Sequences
  import opened Decimals

  type Hash = x: int | 0 <= x < 0x1_0000_0000  // the first four bytes of an MD5 digest
  type Node = string

  function ReplicaKey(node: Node, replica: nat): string {
    node + "-" + Decimal(replica)
  }

  /** One entry written to the ring. */
  datatype Point = Point(at: Hash, node: Node)

  function NodePoints(hash: string -> Hash, node: Node, replicas: nat): (r: seq<Point>)
    ensures |r| == replicas && forall p :: p in r ==> p.node == node
  {
    seq(replicas, i requires 0 <= i < replicas => Point(hash(ReplicaKey(node, i)), node))
  }

  /** All entries, in the order in which they are written. */
  function Points(hash: string -> Hash, nodes: seq<Node>, replicas: nat): (r: seq<Point>)
    ensures forall p :: p in r ==> p.node in nodes
  {
    if nodes == [] then []
    else Points(hash, nodes[..|nodes| - 1], replicas) + NodePoints(hash, nodes[|nodes| - 1], replicas)
  }

  function Ats(points: seq<Point>): (r: seq<Hash>)
    ensures |r| == |points| && forall i :: 0 <= i < |points| ==> r[i] == points[i].at
  {
    seq(|points|, i requires 0 <= i < |points| => points[i].at)
  }

  // ---------- The simple rule ----------

  ghost predicate Occupied(points: seq<Point>, h: Hash) {
    exists i :: 0 <= i < |points| && points[i].at == h
  }

  /** h is the first occupied position strictly after k, going round. */
  ghost predicate IsNext(points: seq<Point>, k: Hash, h: Hash) {
    && Occupied(points, h)
    && if h > k then forall g: Hash :: Occupied(points, g) ==> g <= k || h <= g
       else forall g: Hash :: Occupied(points, g) ==> h <= g <= k
  }

  /** The i-th entry is the last one written at its position. */
  ghost predicate IsLastAt(points: seq<Point>, i: nat)
    requires i < |points|
  {
    forall j :: i < j < |points| ==> points[j].at != points[i].at
  }

  /** The node owning position k: the last writer of the next ring position. */
  ghost predicate Owns(points: seq<Point>, k: Hash, node: Node) {
    exists i :: 0 <= i < |points| && points[i].node == node && IsNext(points, k, points[i].at) && IsLastAt(points, i)
  }

  lemma OwnerUnique(points: seq<Point>, k: Hash, a: Node, b: Node)
    requires Owns(points, k, a) && Owns(points, k, b)
    ensures a == b
  {
    var i :| 0 <= i < |points| && points[i].node == a && IsNext(points, k, points[i].at) && IsLastAt(points, i);
    var j :| 0 <= j < |points| && points[j].node == b && IsNext(points, k, points[j].at) && IsLastAt(points, j);
    assert Occupied(points, points[i].at) && Occupied(points, points[j].at);
    assert points[i].at == points[j].at;
  }

  // ---------- HashRing ----------

  function Insert(a: seq<Hash>, p: nat, x: Hash): seq<Hash>
    requires p <= |a|
  {
    a[..p] + [x] + a[p..]
  }

  lemma InsertSorted(a: seq<Hash>, p: nat, x: Hash)
    requires IsSorted(a) && p <= |a|
    requires forall i :: 0 <= i < p ==> a[i] <= x
    requires forall i :: p <= i < |a| ==> x < a[i]
    ensures IsSorted(Insert(a, p, x)) && multiset(Insert(a, p, x)) == multiset(a) + multiset{x}
  {
    assert a == a[..p] + a[p..];
    var r := Insert(a, p, x);
    forall i, j | 0 <= i < j < |r|
      ensures r[i] <= r[j]
    {
      assert i < p ==> r[i] == a[i];
      assert j < p ==> r[j] == a[j];
      assert i > p ==> r[i] == a[i - 1];
      assert j > p ==> r[j] == a[j - 1];
    }
  }

  /** list.sort */
  method Sort(keys: seq<Hash>) returns (r: seq<Hash>)
    ensures IsSorted(r) && multiset(r) == multiset(keys)
  {
    r := [];
    for i := 0 to |keys|
      invariant IsSorted(r) && multiset(r) == multiset(keys[..i])
    {
      var p := Bisect(r, keys[i]);
      InsertSorted(r, p, keys[i]);
      assert keys[..i + 1] == keys[..i] + [keys[i]];
      r := Insert(r, p, keys[i]);
    }
    assert keys[..|keys|] == keys;
  }

  ghost predicate IsSorted(a: seq<int>) {
    forall i, j :: 0 <= i < j < |a| ==> a[i] <= a[j]
  }

  /** bisect.bisect: how many elements are at most x. */
  method Bisect(a: seq<Hash>, x: Hash) returns (p: nat)
    requires IsSorted(a)
    ensures p <= |a|
    ensures forall i :: 0 <= i < p ==> a[i] <= x
    ensures forall i :: p <= i < |a| ==> x < a[i]
  {
    var lo, hi := 0, |a|;
    while lo < hi
      invariant 0 <= lo <= hi <= |a|
      invariant forall i :: 0 <= i < lo ==> a[i] <= x
      invariant forall i :: hi <= i < |a| ==> x < a[i]
    {
      var mid := (lo + hi) / 2;
      if x < a[mid] { hi := mid; } else { lo := mid + 1; }
    }
    p := lo;
  }

  /** The dictionary after the entries were written in order. */
  ghost predicate Holds(ring: map<Hash, Node>, points: seq<Point>) {
    && (forall h :: h in ring <==> Occupied(points, h))
    && (forall i :: 0 <= i < |points| && IsLastAt(points, i) ==> points[i].at in ring && ring[points[i].at] == points[i].node)
  }

  lemma HoldsMore(ring: map<Hash, Node>, points: seq<Point>, p: Point)
    requires Holds(ring, points)
    ensures Holds(ring[p.at := p.node], points + [p])
    ensures Ats(points + [p]) == Ats(points) + [p.at]
  {
    var more := points + [p];
    forall h: Hash
      ensures Occupied(more, h) <==> Occupied(points, h) || h == p.at
    {
      if Occupied(points, h) {
        var i :| 0 <= i < |points| && points[i].at == h;
        assert more[i].at == h;
      }
      assert more[|points|].at == p.at;
    }
    forall i | 0 <= i < |more| && IsLastAt(more, i)
      ensures more[i].at in ring[p.at := p.node] && ring[p.at := p.node][more[i].at] == more[i].node
    {
      if i < |points| {
        assert more[|points|].at != more[i].at;
        assert forall j :: i < j < |points| ==> more[j] == points[j];
        assert IsLastAt(points, i);
      }
    }
  }

  class HashRing {
    const hash: string -> Hash
    ghost const points: seq<Point>  // the entries in the order they were written
    var ring: map<Hash, Node>
    var sortedKeys: seq<Hash>

    /** The dictionary holds the entries, and the positions are sorted, repeats included. */
    ghost predicate Valid()
      reads this
    {
      Holds(ring, points) && IsSorted(sortedKeys) && multiset(sortedKeys) == multiset(Ats(points))
    }

    constructor (hash: string -> Hash, nodes: seq<Node>, replicas: nat)
      ensures this.hash == hash && points == Points(hash, nodes, replicas)
      ensures Valid()
    {
      this.hash := hash;
      this.points := Points(hash, nodes, replicas);
      ring, sortedKeys := map[], [];
      new;
      for i := 0 to |nodes|
        invariant this.hash == hash
        invariant Holds(ring, Points(hash, nodes[..i], replicas)) && sortedKeys == Ats(Points(hash, nodes[..i], replicas))
      {
        assert nodes[..i + 1][..i] == nodes[..i];
        WriteNode(nodes[i], replicas, Points(hash, nodes[..i], replicas));
      }
      assert nodes[..|nodes|] == nodes;
      sortedKeys := Sort(sortedKeys);
    }

    /** The inner loop of the constructor. */
    method WriteNode(node: Node, replicas: nat, ghost written: seq<Point>)
      requires Holds(ring, written) && sortedKeys == Ats(written)
      modifies this
      ensures Holds(ring, written + NodePoints(hash, node, replicas))
      ensures sortedKeys == Ats(written + NodePoints(hash, node, replicas))
    {
      hide Holds, Ats, Decimal, ReplicaKey;
      ghost var new_ := NodePoints(hash, node, replicas);
      assert written + new_[..0] == written;
      for r := 0 to replicas
        invariant Holds(ring, written + new_[..r]) && sortedKeys == Ats(written + new_[..r])
      {
        HoldsMore(ring, written + new_[..r], new_[r]);
        TakeMore(written, new_, r);
        var hashedKey := hash(ReplicaKey(node, r));
        ring := ring[hashedKey := node];
        sortedKeys := sortedKeys + [hashedKey];
      }
      assert new_[..replicas] == new_;
    }

    /** get_node finds the owner by the simple rule; an empty ring has none. */
    method GetNode(key: string) returns (r: Option<Node>)
      requires Valid()
      ensures r.None? <==> points == []
      ensures r.Some? ==> Owns(points, hash(key), r.value)
    {
      KeysAreOccupied(points, sortedKeys);
      if points != [] { assert Occupied(points, points[0].at); }
      if ring == map[] { return None; }
      assert points != [] by { var h :| h in ring; assert Occupied(points, h); }
      var p := Position(key);
      NextPosition(points, hash(key), sortedKeys[p], ring);
      r := Some(ring[sortedKeys[p]]);
    }

    /** _get_position_on_ring: the index of the next position, going round. */
    method Position(key: string) returns (p: nat)
      requires IsSorted(sortedKeys) && sortedKeys != []
      ensures p < |sortedKeys|
      ensures if sortedKeys[p] > hash(key) then forall i :: 0 <= i < |sortedKeys| ==> sortedKeys[i] <= hash(key) || sortedKeys[p] <= sortedKeys[i]
              else forall i :: 0 <= i < |sortedKeys| ==> sortedKeys[p] <= sortedKeys[i] <= hash(key)
    {
      var hashedKey := hash(key);
      var position := Bisect(sortedKeys, hashedKey);
      p := if position < |sortedKeys| then position else 0;
    }
  }

  lemma KeysAreOccupied(points: seq<Point>, keys: seq<Hash>)
    requires multiset(keys) == multiset(Ats(points))
    ensures |keys| == |points|
    ensures forall h :: h in keys <==> Occupied(points, h)
  {
    assert |multiset(keys)| == |keys| && |multiset(Ats(points))| == |points|;
    forall h: Hash
      ensures h in keys <==> Occupied(points, h)
    {
      assert h in keys <==> h in multiset(keys);
      assert h in Ats(points) <==> h in multiset(Ats(points));
    }
  }

  lemma NextPosition(points: seq<Point>, k: Hash, h: Hash, ring: map<Hash, Node>)
    requires Holds(ring, points) && IsNext(points, k, h)
    ensures h in ring && Owns(points, k, ring[h])
  {
    var i := LastWriter(points, h);
    assert points[i].node == ring[h] && IsNext(points, k, points[i].at);
  }

  lemma LastWriter(points: seq<Point>, h: Hash) returns (i: nat)
    requires Occupied(points, h)
    ensures i < |points| && points[i].at == h && IsLastAt(points, i)
  {
    i := |points| - 1;
    while points[i].at != h
      invariant 0 <= i < |points|
      invariant forall j :: i < j < |points| ==> points[j].at != h
      decreases i
    {
      i := i - 1;
    }
  }
}
