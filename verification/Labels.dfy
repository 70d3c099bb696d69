/** The strings the hash ring is built on (hvac_hashing.h): a node name, "server" followed by a
    number, and one replica label per virtual node, the name followed directly by the replica
    number. There is no separator, so two labels of different servers can be the same string; the
    main result says exactly when none are. */
module Labels {
  import opened Decimal

  const PREFIX: string := "server"

  function ServerName(i: nat): string {
    PREFIX + ToString(i)
  }

  function ReplicaLabel(node: string, r: nat): string {
    node + ToString(r)
  }

  /** All labels of servers 1..servers with replicas 0..replicas-1 are different strings. */
  ghost predicate LabelsDistinct(servers: nat, replicas: nat) {
    forall i, j, r, s ::
      1 <= i <= servers && 1 <= j <= servers && 0 <= r < replicas && 0 <= s < replicas &&
      ReplicaLabel(ServerName(i), r) == ReplicaLabel(ServerName(j), s) ==>
        i == j && r == s
  }

  lemma TenPrinted()
    ensures ToString(1) == "1" && ToString(0) == "0"
    ensures ToString(10) == "10" && ToString(11) == "11"
    ensures ToString(2) + ToString(3) + ToString(4) + ToString(5) == "2345"
    ensures ToString(6) + ToString(7) + ToString(8) + ToString(9) == "6789"
  {
    assert ToString(10) == ToString(1) + ToString(0);
    assert ToString(11) == ToString(1) + ToString(1);
  }

  lemma LongIsSolid(r: nat)
    requires 2 <= |ToString(r)|
    ensures 10 <= r && ToString(r)[0] != '0'
  {
    LongFromTen(r);
    NoLeadingZero(r);
  }

  lemma LongerAndSolid(j: nat, m: nat)
    requires 1 <= m < |ToString(j)| && ToString(j)[m] != '0'
    ensures 11 <= j
  {
    LongFromTen(j);
    if j == 10 {
      TenPrinted();
    }
  }

  lemma Overlap(a: string, b: string, c: string, d: string)
    requires a + b == c + d && |a| < |c| && 1 <= |d|
    ensures 2 <= |b| && b[0] == c[|a|]
  {
    assert |a| + |b| == |c| + |d|;
    assert (a + b)[|a|] == b[0];
    assert (c + d)[|a|] == c[|a|];
  }

  /** Two equal labels of different servers force the shorter-numbered one to carry a replica
      number of at least ten, and the other a server number of at least eleven. */
  lemma CollisionShape(i: nat, r: nat, j: nat, s: nat)
    requires 1 <= i && 1 <= j
    requires ToString(i) + ToString(r) == ToString(j) + ToString(s)
    requires |ToString(i)| < |ToString(j)|
    ensures 10 <= r && 11 <= j
  {
    Overlap(ToString(i), ToString(r), ToString(j), ToString(s));
    LongIsSolid(r);
    LongerAndSolid(j, |ToString(i)|);
  }

  lemma EqualLabels(i: nat, r: nat, j: nat, s: nat)
    requires 1 <= i && 1 <= j
    requires ReplicaLabel(ServerName(i), r) == ReplicaLabel(ServerName(j), s)
    ensures (i == j && r == s) || (10 <= r && 11 <= j) || (10 <= s && 11 <= i)
  {
    var a, b := ReplicaLabel(ServerName(i), r), ReplicaLabel(ServerName(j), s);
    var x, y := ToString(i) + ToString(r), ToString(j) + ToString(s);
    assert a[|PREFIX|..] == x && b[|PREFIX|..] == y;
    if |ToString(i)| < |ToString(j)| {
      CollisionShape(i, r, j, s);
    } else if |ToString(j)| < |ToString(i)| {
      CollisionShape(j, s, i, r);
    } else {
      assert x[..|ToString(i)|] == ToString(i) && y[..|ToString(j)|] == ToString(j);
      assert x[|ToString(i)|..] == ToString(r) && y[|ToString(j)|..] == ToString(s);
      ToStringInjective(i, j);
      ToStringInjective(r, s);
    }
  }

  /** "server1" + "10" is "server11" + "0". */
  lemma ElevenCollides()
    ensures ReplicaLabel(ServerName(1), 10) == ReplicaLabel(ServerName(11), 0) == "server110"
  {
    TenPrinted();
    assert PREFIX + "1" + "10" == PREFIX + "11" + "0";
  }

  /** Labels are pairwise distinct exactly up to ten servers or up to ten replicas. */
  lemma LabelsDistinctExactly(servers: nat, replicas: nat)
    ensures LabelsDistinct(servers, replicas) <==> servers <= 10 || replicas <= 10
  {
    if servers <= 10 || replicas <= 10 {
      forall i, j, r, s |
        1 <= i <= servers && 1 <= j <= servers && 0 <= r < replicas && 0 <= s < replicas &&
        ReplicaLabel(ServerName(i), r) == ReplicaLabel(ServerName(j), s)
        ensures i == j && r == s
      {
        EqualLabels(i, r, j, s);
      }
    } else {
      ElevenCollides();
      assert ReplicaLabel(ServerName(1), 10) == ReplicaLabel(ServerName(11), 0);
    }
  }
}
