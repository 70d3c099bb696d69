/** The consistent-hash ring of hvac_hashing.h as a value: a finite map from hash positions to node
    names, and the meaning of its operations. The hash is any function from strings to 64-bit
    positions; nothing below assumes it is free of collisions unless a lemma says so. */
module Ring {
  import opened Decimal
  import opened Labels
  import opened Posix
  import opened Text

  const SIZE: int := 0x1_0000_0000_0000_0000

  /** `size_t`. */
  type Position = p: int | 0 <= p < SIZE

  type Hash = string -> Position

  type NodeMap = map<Position, string>

  /** The positions of the virtual nodes first..replicas-1 of a node. */
  function PositionsFrom(hash: Hash, node: string, first: nat, replicas: nat): set<Position> {
    set r | first <= r < replicas :: hash(ReplicaLabel(node, r))
  }

  function NodePositions(hash: Hash, node: string, replicas: nat): set<Position> {
    PositionsFrom(hash, node, 0, replicas)
  }

  function Assigned(ring: NodeMap, ps: set<Position>, node: string): NodeMap {
    map p | p in ring.Keys + ps :: if p in ps then node else ring[p]
  }

  function WithNode(ring: NodeMap, hash: Hash, node: string, replicas: nat): NodeMap {
    Assigned(ring, NodePositions(hash, node, replicas), node)
  }

  function WithoutNode(ring: NodeMap, hash: Hash, node: string, replicas: nat): NodeMap {
    ring - NodePositions(hash, node, replicas)
  }

  /** How far clockwise `to` lies from `from` on the circle of 2^64 positions. */
  function Distance(from: Position, to: Position): nat {
    if from <= to then to - from else to - from + SIZE
  }

  /** The meaning of consistent hashing: position p owns the point h when it is the ring position
      met first going clockwise from h. */
  ghost predicate Owns(ring: NodeMap, h: Position, p: Position) {
    p in ring && forall q | q in ring :: Distance(h, p) <= Distance(h, q)
  }

  lemma {:induction false} HasOwner(ring: NodeMap, h: Position)
    requires ring != map[]
    ensures exists p :: Owns(ring, h, p)
    decreases |ring|
  {
    var x :| x in ring;
    var rest := ring - {x};
    if rest == map[] {
      assert ring.Keys == rest.Keys + {x};
      assert Owns(ring, h, x);
    } else {
      HasOwner(rest, h);
      var p :| Owns(rest, h, p);
      var best := if Distance(h, x) < Distance(h, p) then x else p;
      forall q | q in ring ensures Distance(h, best) <= Distance(h, q) {
        if q != x {
          assert q in rest;
        }
      }
      assert Owns(ring, h, best);
    }
  }

  ghost function OwnerPosition(ring: NodeMap, h: Position): (p: Position)
    requires ring != map[]
    ensures Owns(ring, h, p)
  {
    HasOwner(ring, h);
    var p :| Owns(ring, h, p);
    p
  }

  lemma OwnerUnique(ring: NodeMap, h: Position, p: Position)
    requires Owns(ring, h, p)
    ensures ring != map[] && OwnerPosition(ring, h) == p
  {
    var q := OwnerPosition(ring, h);
    assert Distance(h, p) == Distance(h, q);
  }

  /** The node a key is routed to. */
  ghost function Route(ring: NodeMap, h: Position): string
    requires ring != map[]
  {
    ring[OwnerPosition(ring, h)]
  }

  /** `lower_bound` with wrap-around: the least position at or after h, or, when there is none, the
      least position overall. */
  ghost predicate IsLowerBound(ring: NodeMap, h: Position, p: Position) {
    && p in ring
    && if exists q :: q in ring && h <= q
       then h <= p && forall q | q in ring && h <= q :: p <= q
       else forall q | q in ring :: p <= q
  }

  /** The ordered-map lookup finds the clockwise-nearest position, and nothing else is found. */
  lemma LowerBoundIsNearest(ring: NodeMap, h: Position, p: Position)
    ensures IsLowerBound(ring, h, p) <==> Owns(ring, h, p)
  {
    if IsLowerBound(ring, h, p) {
      forall q | q in ring ensures Distance(h, p) <= Distance(h, q) {
      }
    }
    if Owns(ring, h, p) {
      if q :| q in ring && h <= q {
        assert Distance(h, p) <= Distance(h, q);
        forall q' | q' in ring && h <= q' ensures p <= q' {
          assert Distance(h, p) <= Distance(h, q');
        }
      } else {
        forall q' | q' in ring ensures p <= q' {
          assert Distance(h, p) <= Distance(h, q');
        }
      }
    }
  }

  // ---------------------------------------------------------------------------------------------
  // Remapping
  // ---------------------------------------------------------------------------------------------

  lemma OwnerAfterErasing(ring: NodeMap, ps: set<Position>, h: Position)
    requires ring - ps != map[]
    ensures ring != map[]
    ensures OwnerPosition(ring - ps, h) == OwnerPosition(ring, h) <==> OwnerPosition(ring, h) !in ps
  {
    var p' := OwnerPosition(ring - ps, h);
    assert p' in ring;
    var p := OwnerPosition(ring, h);
    if p !in ps {
      assert Owns(ring - ps, h, p);
      OwnerUnique(ring - ps, h, p);
    }
  }

  /** Removing a node moves a key exactly when the position that owned it was one of the node's. */
  lemma RemovalMovesOnlyItsKeys(ring: NodeMap, hash: Hash, node: string, replicas: nat, key: string)
    requires WithoutNode(ring, hash, node, replicas) != map[]
    ensures ring != map[]
    ensures
      var after := WithoutNode(ring, hash, node, replicas);
      var owner := OwnerPosition(ring, hash(key));
      && (OwnerPosition(after, hash(key)) == owner <==> owner !in NodePositions(hash, node, replicas))
      && (owner !in NodePositions(hash, node, replicas) ==> Route(after, hash(key)) == Route(ring, hash(key)))
  {
    OwnerAfterErasing(ring, NodePositions(hash, node, replicas), hash(key));
  }

  /** Adding a node moves a key to that node or nowhere: the key goes to the node exactly when one
      of the node's positions now owns it, and otherwise even the owning position is unchanged. */
  lemma AdditionMovesOnlyToNode(ring: NodeMap, hash: Hash, node: string, replicas: nat, key: string)
    requires ring != map[]
    ensures WithNode(ring, hash, node, replicas) != map[]
    ensures
      var after := WithNode(ring, hash, node, replicas);
      var owner := OwnerPosition(after, hash(key));
      if owner in NodePositions(hash, node, replicas)
      then Route(after, hash(key)) == node
      else owner == OwnerPosition(ring, hash(key)) && Route(after, hash(key)) == Route(ring, hash(key))
  {
    var after := WithNode(ring, hash, node, replicas);
    var x :| x in ring;
    assert x in after;
    var owner := OwnerPosition(after, hash(key));
    if owner !in NodePositions(hash, node, replicas) {
      forall q | q in ring ensures Distance(hash(key), owner) <= Distance(hash(key), q) {
        assert q in after;
      }
      assert Owns(ring, hash(key), owner);
      OwnerUnique(ring, hash(key), owner);
    }
  }

  /** Removing a node that was just added gives the ring back exactly when none of its positions was
      taken before. */
  lemma RemoveUndoesAdd(ring: NodeMap, hash: Hash, node: string, replicas: nat)
    ensures WithoutNode(WithNode(ring, hash, node, replicas), hash, node, replicas) == ring
       <==> ring.Keys !! NodePositions(hash, node, replicas)
  {
    var ps := NodePositions(hash, node, replicas);
    var back := WithoutNode(WithNode(ring, hash, node, replicas), hash, node, replicas);
    assert back.Keys == ring.Keys - ps;
    if back == ring {
      assert ring.Keys == ring.Keys - ps;
    }
  }

  // ---------------------------------------------------------------------------------------------
  // Removing many nodes
  // ---------------------------------------------------------------------------------------------

  function RemoveAll(ring: NodeMap, hash: Hash, nodes: seq<string>, replicas: nat): NodeMap {
    if nodes == [] then ring
    else RemoveAll(WithoutNode(ring, hash, nodes[0], replicas), hash, nodes[1..], replicas)
  }

  function PositionsOfAll(hash: Hash, nodes: set<string>, replicas: nat): set<Position> {
    set node, p | node in nodes && p in NodePositions(hash, node, replicas) :: p
  }

  function NodeSet(nodes: seq<string>): set<string> {
    set node | node in nodes
  }

  lemma {:induction false} RemoveAllErases(ring: NodeMap, hash: Hash, nodes: seq<string>, replicas: nat)
    ensures RemoveAll(ring, hash, nodes, replicas) == ring - PositionsOfAll(hash, NodeSet(nodes), replicas)
  {
    if nodes == [] {
      assert PositionsOfAll(hash, NodeSet(nodes), replicas) == {};
    } else {
      var first := WithoutNode(ring, hash, nodes[0], replicas);
      RemoveAllErases(first, hash, nodes[1..], replicas);
      assert NodeSet(nodes) == {nodes[0]} + NodeSet(nodes[1..]);
      assert PositionsOfAll(hash, NodeSet(nodes), replicas)
          == NodePositions(hash, nodes[0], replicas) + PositionsOfAll(hash, NodeSet(nodes[1..]), replicas);
    }
  }

  /** Two clients that have removed the same servers, in whatever order and however often, hold the
      same ring, whether or not positions collide. */
  lemma RemovalOrderIrrelevant(ring: NodeMap, hash: Hash, xs: seq<string>, ys: seq<string>, replicas: nat)
    requires NodeSet(xs) == NodeSet(ys)
    ensures RemoveAll(ring, hash, xs, replicas) == RemoveAll(ring, hash, ys, replicas)
  {
    RemoveAllErases(ring, hash, xs, replicas);
    RemoveAllErases(ring, hash, ys, replicas);
  }

  // ---------------------------------------------------------------------------------------------
  // The initial ring of servers 1..servers
  // ---------------------------------------------------------------------------------------------

  function BuildRing(hash: Hash, servers: nat, replicas: nat): NodeMap {
    if servers == 0 then map[]
    else WithNode(BuildRing(hash, servers - 1, replicas), hash, ServerName(servers), replicas)
  }

  /** Hosts count from 0, server names from 1. */
  function HostPositions(hash: Hash, host: nat, replicas: nat): set<Position> {
    NodePositions(hash, ServerName(host + 1), replicas)
  }

  lemma {:induction false} BuildCovers(hash: Hash, servers: nat, replicas: nat, host: nat)
    requires host < servers
    ensures HostPositions(hash, host, replicas) <= BuildRing(hash, servers, replicas).Keys
  {
    if host + 1 < servers {
      BuildCovers(hash, servers - 1, replicas, host);
    }
  }

  /** Every entry of the initial ring belongs to the server whose name it carries. */
  lemma {:induction false} BuildOwner(hash: Hash, servers: nat, replicas: nat, p: Position)
    requires p in BuildRing(hash, servers, replicas)
    ensures exists host: nat ::
      && host < servers
      && BuildRing(hash, servers, replicas)[p] == ServerName(host + 1)
      && p in HostPositions(hash, host, replicas)
  {
    var last := servers - 1;
    if p in HostPositions(hash, last, replicas) {
      assert BuildRing(hash, servers, replicas)[p] == ServerName(last + 1);
    } else {
      BuildOwner(hash, last, replicas, p);
      var host: nat :| host < last && BuildRing(hash, last, replicas)[p] == ServerName(host + 1)
        && p in HostPositions(hash, host, replicas);
      assert BuildRing(hash, servers, replicas)[p] == ServerName(host + 1);
    }
  }

  ghost predicate CollisionFree(hash: Hash, servers: nat, replicas: nat) {
    forall i: nat, j: nat | i < servers && j < servers && i != j ::
      HostPositions(hash, i, replicas) !! HostPositions(hash, j, replicas)
  }

  /** Different label strings of servers 1..servers get different positions. */
  ghost predicate SeparatesLabels(hash: Hash, servers: nat, replicas: nat) {
    forall i, j, r, s ::
      1 <= i <= servers && 1 <= j <= servers && 0 <= r < replicas && 0 <= s < replicas &&
      hash(ReplicaLabel(ServerName(i), r)) == hash(ReplicaLabel(ServerName(j), s)) ==>
        ReplicaLabel(ServerName(i), r) == ReplicaLabel(ServerName(j), s)
  }

  /** Even a perfect hash keeps the servers' positions apart exactly up to ten servers or ten
      replicas; with more of both, the label code itself makes them collide. */
  lemma CollisionFreeExactly(hash: Hash, servers: nat, replicas: nat)
    requires SeparatesLabels(hash, servers, replicas)
    ensures CollisionFree(hash, servers, replicas) <==> servers <= 10 || replicas <= 10
  {
    LabelsDistinctExactly(servers, replicas);
    if servers <= 10 || replicas <= 10 {
      forall i: nat, j: nat, p | i < servers && j < servers
        && p in HostPositions(hash, i, replicas) && p in HostPositions(hash, j, replicas)
        ensures i == j
      {
        var r :| 0 <= r < replicas && p == hash(ReplicaLabel(ServerName(i + 1), r));
        var s :| 0 <= s < replicas && p == hash(ReplicaLabel(ServerName(j + 1), s));
      }
    } else {
      ElevenCollides();
      var p := hash(ReplicaLabel(ServerName(1), 10));
      assert p in HostPositions(hash, 0, replicas);
      assert p == hash(ReplicaLabel(ServerName(11), 0)) && p in HostPositions(hash, 10, replicas);
    }
  }

  // ---------------------------------------------------------------------------------------------
  // Host numbers
  // ---------------------------------------------------------------------------------------------

  datatype Error = EmptyRing | InvalidNodeName | NotANumber | OutOfRange

  datatype Result<+T> = Ok(value: T) | Err(error: Error)

  predicate StandsAt(s: string, part: string, k: nat) {
    k + |part| <= |s| && s[k..k + |part|] == part
  }

  predicate Contains(s: string, part: string) {
    exists k: nat | k <= |s| :: StandsAt(s, part, k)
  }

  /** `std::stoi`: it ignores what follows the number. */
  function StoI(s: string): Result<int> {
    match ParseInt(s)
    case None => Err(NotANumber)
    case Some(p) => if FitsInt32(p.value) then Ok(p.value) else Err(OutOfRange)
  }

  /** `ConvertHostToNumber`: "server" may stand anywhere, but the number is read from index 6. */
  function ConvertHostToNumber(node: string): Result<int> {
    if Contains(node, PREFIX) then
      match StoI(node[|PREFIX|..])
      case Ok(v) => Ok(v - 1)
      case Err(e) => Err(e)
    else
      Err(InvalidNodeName)
  }

  /** Only a name without "server" in it is refused as such, wherever "server" stands; the number is what
      follows the sixth character, counted from 1, and it must fit 32 bits. */
  lemma ConversionExactly(node: string)
    ensures ConvertHostToNumber(node) == Err(InvalidNodeName) <==>
      forall k | 0 <= k <= |node| - 6 :: node[..k] + "server" + node[k + 6..] != node
    ensures ConvertHostToNumber(node).Ok? ==>
      var host := ConvertHostToNumber(node).value;
      ParseInt(node[6..]).Some? && ParseInt(node[6..]).value.value - host == 1 && FitsInt32(host + 1)
  {
    forall k | 0 <= k <= |node| - 6
      ensures StandsAt(node, PREFIX, k) <==> node[..k] + "server" + node[k + 6..] == node
    {
      assert node == node[..k] + node[k..k + 6] + node[k + 6..];
      assert (node[..k] + "server" + node[k + 6..])[k..k + 6] == "server";
    }
  }

  lemma HostNumberOfServer(host: nat)
    requires host < INT32_MAX
    ensures ConvertHostToNumber(ServerName(host + 1)) == Ok(host as int)
  {
    var node := ServerName(host + 1);
    assert StandsAt(node, PREFIX, 0);
    assert node[|PREFIX|..] == IntToString(host + 1) + [];
    ParseIntPrinted(host + 1, []);
  }
}
