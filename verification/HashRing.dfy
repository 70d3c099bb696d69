/** The `HashRing` class of hvac_hashing.h. Its `std::map` is kept as a sequence of entries in
    position order; `ring` is the map those entries denote, and every method is specified on it. */
module HashRings {
  import opened Labels
  import opened Ring

  datatype Entry = Entry(position: Position, node: string)

  ghost predicate Sorted(es: seq<Entry>) {
    forall i, j | 0 <= i < j < |es| :: es[i].position < es[j].position
  }

  ghost predicate Listed(es: seq<Entry>, p: Position, node: string) {
    Entry(p, node) in es
  }

  /** The entries, in order, are exactly the pairs of the map. */
  ghost predicate Represents(es: seq<Entry>, ring: NodeMap) {
    && Sorted(es)
    && (forall e | e in es :: e.position in ring && ring[e.position] == e.node)
    && (forall p | p in ring :: Listed(es, p, ring[p]))
  }

  /** k is where `lower_bound` would stop. */
  ghost predicate SplitsAt(es: seq<Entry>, h: Position, k: nat) {
    && k <= |es|
    && (forall i | 0 <= i < k :: es[i].position < h)
    && (forall i | k <= i < |es| :: h <= es[i].position)
  }

  lemma PositionKnown(es: seq<Entry>, ring: NodeMap, p: Position, k: nat)
    requires Represents(es, ring) && SplitsAt(es, p, k)
    ensures p in ring <==> k < |es| && es[k].position == p
  {
    if p in ring {
      assert Listed(es, p, ring[p]);
      var i :| 0 <= i < |es| && es[i] == Entry(p, ring[p]);
      assert k <= i;
    } else if k < |es| {
      assert es[k] in es;
    }
  }

  lemma Replaced(es: seq<Entry>, ring: NodeMap, p: Position, node: string, k: nat)
    requires Represents(es, ring) && k < |es| && es[k].position == p
    ensures Represents(es[k := Entry(p, node)], ring[p := node])
  {
    var es', ring' := es[k := Entry(p, node)], ring[p := node];
    assert es[k] in es;
    forall e | e in es' ensures e.position in ring' && ring'[e.position] == e.node {
      var i :| 0 <= i < |es'| && es'[i] == e;
      if i != k {
        assert es[i] in es && es[i].position != p;
      }
    }
    forall q | q in ring' ensures Listed(es', q, ring'[q]) {
      if q == p {
        assert es'[k] in es';
      } else {
        assert Listed(es, q, ring[q]);
        var i :| 0 <= i < |es| && es[i] == Entry(q, ring[q]);
        assert es'[i] in es';
      }
    }
  }

  function Spliced(es: seq<Entry>, k: nat, e: Entry): (r: seq<Entry>)
    requires k <= |es|
    ensures |r| == |es| + 1 && r[k] == e
    ensures forall i | 0 <= i < k :: r[i] == es[i]
    ensures forall i | k <= i < |es| :: r[i + 1] == es[i]
  {
    es[..k] + [e] + es[k..]
  }

  lemma SplicedMembers(es: seq<Entry>, k: nat, e: Entry, x: Entry)
    requires k <= |es|
    ensures x in Spliced(es, k, e) <==> x in es || x == e
  {
    assert es == es[..k] + es[k..];
  }

  lemma SplicedSorted(es: seq<Entry>, k: nat, e: Entry)
    requires Sorted(es) && SplitsAt(es, e.position, k)
    requires k < |es| ==> es[k].position != e.position
    ensures Sorted(Spliced(es, k, e))
  {
    var r := Spliced(es, k, e);
    forall i, j | 0 <= i < j < |r| ensures r[i].position < r[j].position {
      assert i < k ==> r[i] == es[i];
      assert k < i ==> r[i] == es[i - 1];
      assert j < k ==> r[j] == es[j];
      assert k < j ==> r[j] == es[j - 1] && es[k].position <= es[j - 1].position;
    }
  }

  lemma InsertedListed(es: seq<Entry>, ring: NodeMap, e: Entry, k: nat, q: Position)
    requires Represents(es, ring) && k <= |es| && q in ring
    ensures Listed(Spliced(es, k, e), q, ring[q])
  {
    assert Listed(es, q, ring[q]);
    SplicedMembers(es, k, e, Entry(q, ring[q]));
  }

  lemma Inserted(es: seq<Entry>, ring: NodeMap, e: Entry, k: nat)
    requires Represents(es, ring) && SplitsAt(es, e.position, k) && e.position !in ring
    ensures Represents(Spliced(es, k, e), ring[e.position := e.node])
  {
    PositionKnown(es, ring, e.position, k);
    SplicedSorted(es, k, e);
    forall x | x in Spliced(es, k, e) ensures x == e || (x in es && x.position != e.position) {
      SplicedMembers(es, k, e, x);
    }
    SplicedMembers(es, k, e, e);
    forall q | q in ring ensures Listed(Spliced(es, k, e), q, ring[q]) {
      InsertedListed(es, ring, e, k, q);
    }
  }

  function Dropped(es: seq<Entry>, k: nat): (r: seq<Entry>)
    requires k < |es|
    ensures |r| == |es| - 1
    ensures forall i | 0 <= i < k :: r[i] == es[i]
    ensures forall i | k <= i < |r| :: r[i] == es[i + 1]
  {
    es[..k] + es[k + 1..]
  }

  lemma DroppedMembers(es: seq<Entry>, k: nat, e: Entry)
    requires k < |es| && Sorted(es)
    ensures e in Dropped(es, k) <==> e in es && e.position != es[k].position
  {
    if e in Dropped(es, k) {
      var i :| 0 <= i < |Dropped(es, k)| && Dropped(es, k)[i] == e;
      assert es[if i < k then i else i + 1] == e;
    }
    if e in es && e.position != es[k].position {
      var i :| 0 <= i < |es| && es[i] == e;
      assert Dropped(es, k)[if i < k then i else i - 1] == e;
    }
  }

  lemma DroppedSorted(es: seq<Entry>, k: nat)
    requires k < |es| && Sorted(es)
    ensures Sorted(Dropped(es, k))
  {
  }

  lemma ErasedListed(es: seq<Entry>, ring: NodeMap, p: Position, k: nat, q: Position)
    requires Represents(es, ring) && k < |es| && es[k].position == p && q in ring && q != p
    ensures Listed(Dropped(es, k), q, ring[q])
  {
    assert Listed(es, q, ring[q]);
    DroppedMembers(es, k, Entry(q, ring[q]));
  }

  lemma ErasedKnown(es: seq<Entry>, ring: NodeMap, p: Position, k: nat, e: Entry)
    requires Represents(es, ring) && k < |es| && es[k].position == p && e in Dropped(es, k)
    ensures e.position != p && e.position in ring && ring[e.position] == e.node
  {
    DroppedMembers(es, k, e);
  }

  lemma Erased(es: seq<Entry>, ring: NodeMap, p: Position, k: nat)
    requires Represents(es, ring) && k < |es| && es[k].position == p
    ensures Represents(Dropped(es, k), ring - {p})
  {
    DroppedSorted(es, k);
    forall e | e in Dropped(es, k) ensures e.position != p && e.position in ring && ring[e.position] == e.node {
      ErasedKnown(es, ring, p, k, e);
    }
    forall q | q in ring && q != p ensures Listed(Dropped(es, k), q, ring[q]) {
      ErasedListed(es, ring, p, k, q);
    }
  }

  /** Where the lookup lands: the split point, or the first entry when every entry lies below. */
  lemma FoundOwner(es: seq<Entry>, ring: NodeMap, h: Position, k: nat)
    requires Represents(es, ring) && k < |es|
    requires SplitsAt(es, h, k) || (k == 0 && SplitsAt(es, h, |es|))
    ensures ring != map[] && es[k].node == Route(ring, h)
  {
    var p := es[k].position;
    assert es[k] in es;
    forall q | q in ring ensures exists i :: 0 <= i < |es| && es[i].position == q {
      assert Listed(es, q, ring[q]);
    }
    if SplitsAt(es, h, k) {
      assert p in ring && h <= p;
    }
    assert IsLowerBound(ring, h, p);
    LowerBoundIsNearest(ring, h, p);
    OwnerUnique(ring, h, p);
  }

  lemma AssignedOneMore(ring: NodeMap, hash: Hash, node: string, r: nat)
    ensures Assigned(ring, PositionsFrom(hash, node, 0, r), node)[hash(ReplicaLabel(node, r)) := node]
         == Assigned(ring, PositionsFrom(hash, node, 0, r + 1), node)
  {
    PositionsGrow(hash, node, r);
  }

  lemma PositionsGrow(hash: Hash, node: string, r: nat)
    ensures PositionsFrom(hash, node, 0, r + 1)
         == PositionsFrom(hash, node, 0, r) + {hash(ReplicaLabel(node, r))}
  {
  }

  class HashRing {
    const replicas: nat
    const hash: Hash
    var entries: seq<Entry>
    ghost var ring: NodeMap

    ghost predicate Valid()
      reads this
    {
      Represents(entries, ring)
    }

    constructor (replicas: nat, hash: Hash)
      ensures Valid() && ring == map[]
      ensures this.replicas == replicas && this.hash == hash
    {
      this.replicas := replicas;
      this.hash := hash;
      entries := [];
      ring := map[];
    }

    /** The index of the first entry at or after h, by binary search. */
    method LowerBound(h: Position) returns (k: nat)
      requires Valid()
      ensures SplitsAt(entries, h, k)
    {
      k := 0;
      var end := |entries|;
      while k < end
        invariant 0 <= k <= end <= |entries|
        invariant forall i | 0 <= i < k :: entries[i].position < h
        invariant forall i | end <= i < |entries| :: h <= entries[i].position
      {
        var mid := (k + end) / 2;
        if entries[mid].position < h {
          k := mid + 1;
        } else {
          end := mid;
        }
      }
    }

    /** `ring_[p] = node`. */
    method Assign(p: Position, node: string)
      requires Valid()
      modifies this
      ensures Valid() && ring == old(ring)[p := node]
    {
      var k := LowerBound(p);
      PositionKnown(entries, ring, p, k);
      if k < |entries| && entries[k].position == p {
        Replaced(entries, ring, p, node, k);
        entries := entries[k := Entry(p, node)];
      } else {
        Inserted(entries, ring, Entry(p, node), k);
        entries := Spliced(entries, k, Entry(p, node));
      }
      ring := ring[p := node];
    }

    /** `ring_.erase(p)`. */
    method Erase(p: Position)
      requires Valid()
      modifies this
      ensures Valid() && ring == old(ring) - {p}
    {
      var k := LowerBound(p);
      PositionKnown(entries, ring, p, k);
      if k < |entries| && entries[k].position == p {
        Erased(entries, ring, p, k);
        entries := Dropped(entries, k);
        ring := ring - {p};
      } else {
        assert ring == ring - {p};
      }
    }

    /** Gives back the position of the last virtual node; with no replicas that value is
        indeterminate. */
    method AddNode(node: string) returns (last: Position)
      requires Valid()
      modifies this
      ensures Valid() && ring == WithNode(old(ring), hash, node, replicas)
      ensures 0 < replicas ==> last == hash(ReplicaLabel(node, replicas - 1))
    {
      last := *;
      for r := 0 to replicas
        invariant Valid()
        invariant ring == Assigned(old(ring), PositionsFrom(hash, node, 0, r), node)
        invariant 0 < r ==> last == hash(ReplicaLabel(node, r - 1))
      {
        AssignedOneMore(old(ring), hash, node, r);
        last := hash(ReplicaLabel(node, r));
        Assign(last, node);
      }
    }

    method RemoveNode(node: string)
      requires Valid()
      modifies this
      ensures Valid() && ring == WithoutNode(old(ring), hash, node, replicas)
    {
      for r := 0 to replicas
        invariant Valid()
        invariant ring == old(ring) - PositionsFrom(hash, node, 0, r)
      {
        PositionsGrow(hash, node, r);
        Erase(hash(ReplicaLabel(node, r)));
      }
    }

    /** The node met first clockwise from the key's position; an empty ring is an error. */
    method GetNode(data: string) returns (r: Result<string>)
      requires Valid()
      ensures r == if ring == map[] then Err(EmptyRing) else Ok(Route(ring, hash(data)))
    {
      if |entries| == 0 {
        assert forall p | p in ring :: Listed(entries, p, ring[p]);
        return Err(EmptyRing);
      }
      var h := hash(data);
      var k := LowerBound(h);
      if k == |entries| {
        k := 0;
      }
      r := Ok(entries[k].node);
      FoundOwner(entries, ring, h, k);
    }
  }
}
