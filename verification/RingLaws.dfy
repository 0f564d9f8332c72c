/** Laws of the consistent-hash ring: existence of an owner, minimal disruption
    when membership changes, and when the order of the nodes matters. */
module RingLaws {
  import opened Sequences
  import opened Decimals
  import opened HashRing

  // ---------- Every non-empty ring has an owner for every position ----------

  lemma OwnerExists(points: seq<Point>, k: Hash) returns (node: Node)
    requires points != []
    ensures Owns(points, k, node)
  {
    var h := NextExists(points, k);
    var i := LastWriter(points, h);
    node := points[i].node;
  }

  lemma {:induction false} NextExists(points: seq<Point>, k: Hash) returns (h: Hash)
    requires points != []
    ensures IsNext(points, k, h)
    decreases |points|
  {
    var last := points[|points| - 1].at;
    var init := points[..|points| - 1];
    OccupiedSplits(init, [points[|points| - 1]]);
    assert points == init + [points[|points| - 1]];
    if init == [] {
      h := last;
    } else {
      h := NextExists(init, k);
      if (last > k && (h <= k || last < h)) || (last <= k && h <= k && last < h) { h := last; }
    }
  }

  lemma OccupiedSplits(a: seq<Point>, b: seq<Point>)
    ensures forall h: Hash :: Occupied(a + b, h) <==> Occupied(a, h) || Occupied(b, h)
    ensures |b| == 1 ==> forall h: Hash :: Occupied(b, h) <==> b[0].at == h
  {
    forall h: Hash
      ensures Occupied(a + b, h) <==> Occupied(a, h) || Occupied(b, h)
    {
      if Occupied(a, h) {
        var i :| 0 <= i < |a| && a[i].at == h;
        assert (a + b)[i].at == h;
      }
      if Occupied(b, h) {
        var i :| 0 <= i < |b| && b[i].at == h;
        assert (a + b)[|a| + i].at == h;
      }
    }
    if |b| == 1 { assert b[0] == b[0]; }
  }

  lemma SameOccupied(a: seq<Point>, b: seq<Point>)
    requires forall p :: p in a ==> p in b
    ensures forall h: Hash :: Occupied(a, h) ==> Occupied(b, h)
  {
    forall h: Hash | Occupied(a, h)
      ensures Occupied(b, h)
    {
      var i :| 0 <= i < |a| && a[i].at == h;
      assert a[i] in b;
    }
  }

  lemma LastSplit(a: seq<Point>, p: Point, b: seq<Point>)
    ensures (a + [p] + b)[|a|] == p
    ensures IsLastAt(a + [p] + b, |a|) <==> !Occupied(b, p.at)
  {
    var points := a + [p] + b;
    assert forall j :: |a| < j < |points| ==> points[j] == b[j - |a| - 1];
    assert forall m :: 0 <= m < |b| ==> points[|a| + 1 + m] == b[m];
  }

  /** Ownership, with the deciding entry singled out. */
  lemma OwnsAt(a: seq<Point>, p: Point, b: seq<Point>, k: Hash)
    requires IsNext(a + [p] + b, k, p.at) && !Occupied(b, p.at)
    ensures Owns(a + [p] + b, k, p.node)
  {
    LastSplit(a, p, b);
  }

  lemma OwnsSplit(points: seq<Point>, k: Hash, owner: Node) returns (a: seq<Point>, p: Point, b: seq<Point>)
    requires Owns(points, k, owner)
    ensures points == a + [p] + b && p.node == owner && IsNext(points, k, p.at) && !Occupied(b, p.at)
  {
    var i :| 0 <= i < |points| && points[i].node == owner && IsNext(points, k, points[i].at) && IsLastAt(points, i);
    a, p, b := points[..i], points[i], points[i + 1..];
    assert points == a + [p] + b;
    LastSplit(a, p, b);
  }

  // ---------- Minimal disruption ----------

  function Without(nodes: seq<Node>, n: Node): seq<Node> {
    if nodes == [] then []
    else
      var last := nodes[|nodes| - 1];
      Without(nodes[..|nodes| - 1], n) + if last == n then [] else [last]
  }

  function PointsWithout(points: seq<Point>, n: Node): (r: seq<Point>)
    ensures forall p :: p in r ==> p in points
    ensures forall p :: p in points && p.node != n ==> p in r
  {
    if points == [] then []
    else
      var last := points[|points| - 1];
      assert points == points[..|points| - 1] + [last];
      PointsWithout(points[..|points| - 1], n) + if last.node == n then [] else [last]
  }

  lemma WithoutLast(init: seq<Point>, last: Point, n: Node)
    ensures PointsWithout(init + [last], n) == PointsWithout(init, n) + if last.node == n then [] else [last]
  {
    assert (init + [last])[..|init + [last]| - 1] == init;
  }

  lemma {:induction false} WithoutConcat(a: seq<Point>, b: seq<Point>, n: Node)
    ensures PointsWithout(a + b, n) == PointsWithout(a, n) + PointsWithout(b, n)
    decreases |b|
  {
    hide PointsWithout;
    if b == [] {
      assert a + b == a && PointsWithout([], n) == [] by { WithoutNothing(n); }
    } else {
      var init, last := b[..|b| - 1], b[|b| - 1];
      assert b == init + [last];
      WithoutConcat(a, init, n);
      Associative(a, init, [last]);
      WithoutLast(a + init, last, n);
      WithoutLast(init, last, n);
      Associative(PointsWithout(a, n), PointsWithout(init, n), if last.node == n then [] else [last]);
    }
  }

  lemma WithoutNothing(n: Node)
    ensures PointsWithout([], n) == []
  {
  }

  lemma {:induction false} WithoutAllOrNone(points: seq<Point>, node: Node, n: Node)
    requires forall p :: p in points ==> p.node == node
    ensures PointsWithout(points, n) == if node == n then [] else points
    decreases |points|
  {
    if points != [] {
      assert points == points[..|points| - 1] + [points[|points| - 1]];
      assert points[|points| - 1] in points;
      WithoutAllOrNone(points[..|points| - 1], node, n);
    }
  }

  /** Removing a node removes exactly its entries and keeps the order of the others. */
  lemma {:induction false} PointsOfWithout(hash: string -> Hash, nodes: seq<Node>, replicas: nat, n: Node)
    ensures Points(hash, Without(nodes, n), replicas) == PointsWithout(Points(hash, nodes, replicas), n)
    decreases |nodes|
  {
    if nodes != [] {
      var init, last := nodes[..|nodes| - 1], nodes[|nodes| - 1];
      PointsOfWithout(hash, init, replicas, n);
      WithoutConcat(Points(hash, init, replicas), NodePoints(hash, last, replicas), n);
      WithoutAllOrNone(NodePoints(hash, last, replicas), last, n);
      if last == n {
        assert Without(nodes, n) == Without(init, n);
      } else {
        assert Without(nodes, n) == Without(init, n) + [last];
        assert Without(nodes, n)[..|Without(nodes, n)| - 1] == Without(init, n);
      }
    }
  }

  lemma OwnerKept(points: seq<Point>, n: Node, k: Hash, owner: Node)
    requires Owns(points, k, owner) && owner != n
    ensures Owns(PointsWithout(points, n), k, owner)
  {
    var a, p, b := OwnsSplit(points, k, owner);
    var a', b', rest := PointsWithout(a, n), PointsWithout(b, n), PointsWithout(points, n);
    SplitWithout(a, p, b, n);
    SameOccupied(b', b);
    SameOccupied(rest, points);
    assert Occupied(rest, p.at) by { assert rest[|a'|] == p; }
    OwnsAt(a', p, b', k);
  }

  lemma SplitWithout(a: seq<Point>, p: Point, b: seq<Point>, n: Node)
    requires p.node != n
    ensures PointsWithout(a + [p] + b, n) == PointsWithout(a, n) + [p] + PointsWithout(b, n)
  {
    WithoutConcat(a + [p], b, n);
    WithoutConcat(a, [p], n);
    assert PointsWithout([p], n) == [p];
  }

  /** A position the ring does not give to n keeps its owner when n leaves. Read
      backwards: a node that joins takes positions only for itself. */
  lemma MinimalDisruption(hash: string -> Hash, nodes: seq<Node>, replicas: nat, n: Node, k: Hash, owner: Node)
    requires Owns(Points(hash, nodes, replicas), k, owner) && owner != n
    ensures Owns(Points(hash, Without(nodes, n), replicas), k, owner)
  {
    PointsOfWithout(hash, nodes, replicas, n);
    OwnerKept(Points(hash, nodes, replicas), n, k, owner);
  }

  // ---------- Where a node stands ----------

  /** Keys of different replicas, of one node or of two, are different strings. */
  lemma ReplicaKeysDiffer(a: Node, i: nat, b: Node, j: nat)
    requires ReplicaKey(a, i) == ReplicaKey(b, j)
    ensures a == b && i == j
  {
    NumberedNames(a, i, b, j);
  }

  /** The node has an entry at the hash of its name, a dash and each replica number. */
  ghost predicate StandsAt(hash: string -> Hash, node: Node, replicas: nat, h: Hash) {
    exists i: nat :: i < replicas && h == hash(node + "-" + Decimal(i))
  }

  /** Exactly the listed nodes have entries, each where its replicas are. */
  lemma EntriesIff(hash: string -> Hash, nodes: seq<Node>, replicas: nat, h: Hash, node: Node)
    ensures Point(h, node) in Points(hash, nodes, replicas) <==> node in nodes && StandsAt(hash, node, replicas, h)
  {
    PointsIff(hash, nodes, replicas, Point(h, node));
    var own := NodePoints(hash, node, replicas);
    if Point(h, node) in own {
      var i :| 0 <= i < |own| && own[i] == Point(h, node);
      assert own[i] == Point(hash(ReplicaKey(node, i)), node);
      assert ReplicaKey(node, i) == node + "-" + Decimal(i);
    }
    if StandsAt(hash, node, replicas, h) {
      var i: nat :| i < replicas && h == hash(node + "-" + Decimal(i));
      assert ReplicaKey(node, i) == node + "-" + Decimal(i);
      assert own[i] == Point(hash(ReplicaKey(node, i)), node);
    }
  }

  lemma OneMoreTimes(n: nat, m: nat)
    requires n > 0
    ensures n * m == (n - 1) * m + m
  {
  }

  lemma {:induction false} EntryCount(hash: string -> Hash, nodes: seq<Node>, replicas: nat)
    ensures |Points(hash, nodes, replicas)| == |nodes| * replicas
    decreases |nodes|
  {
    hide NodePoints;
    if nodes != [] {
      EntryCount(hash, nodes[..|nodes| - 1], replicas);
      OneMoreTimes(|nodes|, replicas);
    }
  }

  /** The hash tells the replica keys of the nodes apart. */
  ghost predicate KeysApart(hash: string -> Hash, nodes: seq<Node>, replicas: nat) {
    forall a, b, i: nat, j: nat ::
      (a in nodes && b in nodes && i < replicas && j < replicas && hash(ReplicaKey(a, i)) == hash(ReplicaKey(b, j)))
      ==> ReplicaKey(a, i) == ReplicaKey(b, j)
  }

  /** If so, no two nodes share a position, and each node has as many positions as
      it has replicas. */
  lemma KeysApartSuffices(hash: string -> Hash, nodes: seq<Node>, replicas: nat)
    requires KeysApart(hash, nodes, replicas)
    ensures CollisionFree(hash, nodes, replicas)
    ensures forall node :: node in nodes ==>
              var own := Ats(NodePoints(hash, node, replicas));
              |own| == replicas && Distinct(own)
  {
    forall a, b, h: Hash
      ensures !Collide(hash, nodes, replicas, a, b, h)
    {
      if Collide(hash, nodes, replicas, a, b, h) {
        EntriesIff(hash, nodes, replicas, h, a);
        EntriesIff(hash, nodes, replicas, h, b);
        var i: nat :| i < replicas && h == hash(a + "-" + Decimal(i));
        var j: nat :| j < replicas && h == hash(b + "-" + Decimal(j));
        assert ReplicaKey(a, i) == ReplicaKey(b, j);
        ReplicaKeysDiffer(a, i, b, j);
        assert false;
      }
    }
    forall node | node in nodes
      ensures Distinct(Ats(NodePoints(hash, node, replicas)))
    {
      var own := Ats(NodePoints(hash, node, replicas));
      forall i, j | 0 <= i < j < |own|
        ensures own[i] != own[j]
      {
        if own[i] == own[j] {
          assert hash(ReplicaKey(node, i)) == hash(ReplicaKey(node, j));
          ReplicaKeysDiffer(node, i, node, j);
        }
      }
    }
  }

  /** Where nodes do collide, the one listed last has the position. */
  lemma LastListedWins(hash: string -> Hash, nodes: seq<Node>, replicas: nat, last: Node, h: Hash, k: Hash)
    requires StandsAt(hash, last, replicas, h) && IsNext(Points(hash, nodes + [last], replicas), k, h)
    ensures Owns(Points(hash, nodes + [last], replicas), k, last)
  {
    EntriesIff(hash, [last], replicas, h, last);
    assert (nodes + [last])[..|nodes|] == nodes && [last][..0] == [];
    var own := NodePoints(hash, last, replicas);
    assert Points(hash, [last], replicas) == own;
    var i :| 0 <= i < |own| && own[i] == Point(h, last);
    assert Occupied(own, h);
    TailOwns(Points(hash, nodes, replicas), own, last, k, h);
  }

  // ---------- When the order of the nodes matters ----------

  ghost predicate Collide(hash: string -> Hash, nodes: seq<Node>, replicas: nat, a: Node, b: Node, h: Hash) {
    && a in nodes && b in nodes && a != b
    && Point(h, a) in Points(hash, nodes, replicas) && Point(h, b) in Points(hash, nodes, replicas)
  }

  ghost predicate CollisionFree(hash: string -> Hash, nodes: seq<Node>, replicas: nat) {
    forall a, b, h: Hash :: !Collide(hash, nodes, replicas, a, b, h)
  }

  ghost predicate OrderIndependent(hash: string -> Hash, nodes: seq<Node>, replicas: nat) {
    forall other: seq<Node>, k: Hash, owner ::
      multiset(other) == multiset(nodes) && Owns(Points(hash, nodes, replicas), k, owner)
      ==> Owns(Points(hash, other, replicas), k, owner)
  }

  lemma {:induction false} PointsIff(hash: string -> Hash, nodes: seq<Node>, replicas: nat, p: Point)
    ensures p in Points(hash, nodes, replicas) <==> p.node in nodes && p in NodePoints(hash, p.node, replicas)
    decreases |nodes|
  {
    if nodes != [] {
      var init, last := nodes[..|nodes| - 1], nodes[|nodes| - 1];
      assert nodes == init + [last];
      PointsIff(hash, init, replicas, p);
    }
  }

  lemma SameEntries(hash: string -> Hash, nodes: seq<Node>, other: seq<Node>, replicas: nat)
    requires multiset(nodes) == multiset(other)
    ensures forall p :: p in Points(hash, nodes, replicas) <==> p in Points(hash, other, replicas)
  {
    forall p
      ensures p in Points(hash, nodes, replicas) <==> p in Points(hash, other, replicas)
    {
      PointsIff(hash, nodes, replicas, p);
      PointsIff(hash, other, replicas, p);
      assert p.node in nodes <==> p.node in multiset(nodes);
      assert p.node in other <==> p.node in multiset(other);
    }
  }

  lemma CollisionFreeSuffices(hash: string -> Hash, nodes: seq<Node>, other: seq<Node>, replicas: nat, k: Hash, owner: Node)
    requires CollisionFree(hash, nodes, replicas) && multiset(other) == multiset(nodes)
    requires Owns(Points(hash, nodes, replicas), k, owner)
    ensures Owns(Points(hash, other, replicas), k, owner)
  {
    var ours, theirs := Points(hash, nodes, replicas), Points(hash, other, replicas);
    SameEntries(hash, nodes, other, replicas);
    SameOccupied(ours, theirs);
    SameOccupied(theirs, ours);
    var i :| 0 <= i < |ours| && ours[i].node == owner && IsNext(ours, k, ours[i].at) && IsLastAt(ours, i);
    var h := ours[i].at;
    assert IsNext(theirs, k, h);
    var j := LastWriter(theirs, h);
    assert theirs[j] in theirs && ours[i] in ours;
    assert !Collide(hash, nodes, replicas, owner, theirs[j].node, h);
    assert Point(h, theirs[j].node) == theirs[j] && Point(h, owner) == ours[i];
  }

  /** Entries written last decide the positions they occupy. */
  lemma TailOwns(front: seq<Point>, own: seq<Point>, node: Node, k: Hash, h: Hash)
    requires forall p :: p in own ==> p.node == node
    requires Occupied(own, h) && IsNext(front + own, k, h)
    ensures Owns(front + own, k, node)
  {
    var j := LastWriter(own, h);
    var a, b := own[..j], own[j + 1..];
    assert own == a + [own[j]] + b;
    LastSplit(a, own[j], b);
    assert front + own == (front + a) + [own[j]] + b;
    assert own[j] in own;
    OwnsAt(front + a, own[j], b, k);
  }

  lemma MoveToEnd(nodes: seq<Node>, a: Node) returns (init: seq<Node>)
    requires a in nodes
    ensures multiset(init + [a]) == multiset(nodes)
  {
    var i :| 0 <= i < |nodes| && nodes[i] == a;
    init := nodes[..i] + nodes[i + 1..];
    assert nodes == nodes[..i] + [a] + nodes[i + 1..];
  }

  /** A node moved to the end of the list owns every position it can collide on. */
  lemma LastNodeWins(hash: string -> Hash, nodes: seq<Node>, replicas: nat, a: Node, h: Hash, k: Hash)
    returns (other: seq<Node>)
    requires Point(h, a) in Points(hash, nodes, replicas)
    requires IsNext(Points(hash, nodes, replicas), k, h)
    ensures multiset(other) == multiset(nodes) && Owns(Points(hash, other, replicas), k, a)
  {
    PointsIff(hash, nodes, replicas, Point(h, a));
    var init := MoveToEnd(nodes, a);
    other := init + [a];
    assert other[..|other| - 1] == init;
    var own := NodePoints(hash, a, replicas);
    SameEntries(hash, nodes, other, replicas);
    SameOccupied(Points(hash, nodes, replicas), Points(hash, other, replicas));
    SameOccupied(Points(hash, other, replicas), Points(hash, nodes, replicas));
    var m :| 0 <= m < |own| && own[m] == Point(h, a);
    assert Occupied(own, h);
    TailOwns(Points(hash, init, replicas), own, a, k, h);
  }

  /** The owner of every position is the same for every order of the nodes exactly
      when no two distinct nodes share a ring position. */
  lemma OrderIndependentIff(hash: string -> Hash, nodes: seq<Node>, replicas: nat)
    ensures OrderIndependent(hash, nodes, replicas) <==> CollisionFree(hash, nodes, replicas)
  {
    if CollisionFree(hash, nodes, replicas) {
      forall other: seq<Node>, k: Hash, owner |
        multiset(other) == multiset(nodes) && Owns(Points(hash, nodes, replicas), k, owner)
        ensures Owns(Points(hash, other, replicas), k, owner)
      {
        CollisionFreeSuffices(hash, nodes, other, replicas, k, owner);
      }
    } else if OrderIndependent(hash, nodes, replicas) {
      var a, b, h: Hash :| Collide(hash, nodes, replicas, a, b, h);
      var points := Points(hash, nodes, replicas);
      var k: Hash := if h > 0 then h - 1 else 0xFFFF_FFFF;
      var i :| 0 <= i < |points| && points[i] == Point(h, a);
      assert Occupied(points, h);
      assert IsNext(points, k, h);
      var forA := LastNodeWins(hash, nodes, replicas, a, h, k);
      var forB := LastNodeWins(hash, nodes, replicas, b, h, k);
      var owner := OwnerExists(points, k);
      OwnerUnique(Points(hash, forA, replicas), k, a, owner);
      OwnerUnique(Points(hash, forB, replicas), k, b, owner);
    }
  }
}
