/** The shard map: which nodes exist and which of them host each shard. */
module ShardMap {

  /** The 64-bit int in which the source numbers shards. */
  type GoInt = x: int | -0x8000_0000_0000_0000 <= x < 0x8000_0000_0000_0000

  datatype NodeInfo = NodeInfo(address: string, port: int)

  datatype State = State(nodes: map<string, NodeInfo>, shards: map<GoInt, seq<string>>, numShards: GoInt)

  predicate Distinct<T(==)>(s: seq<T>) {
    forall i, j | 0 <= i < j < |s| :: s[i] != s[j]
  }

  /** A host list names existing nodes, none twice. */
  predicate HostsOk(nodes: map<string, NodeInfo>, hosts: seq<string>) {
    (forall i | 0 <= i < |hosts| :: hosts[i] in nodes) && Distinct(hosts)
  }

  /** Shards are numbered 1..numShards and have proper host lists. */
  predicate WellFormed(s: State) {
    forall sh | sh in s.shards :: 1 <= sh <= s.numShards && HostsOk(s.nodes, s.shards[sh])
  }

  /** The hosts of a shard; none if the map does not mention it. */
  function NodesForShard(s: State, shard: GoInt): seq<string> {
    if shard in s.shards then s.shards[shard] else []
  }

  predicate Hosts(s: State, node: string, shard: GoInt) {
    node in NodesForShard(s, shard)
  }

  /** The shards the map assigns to a node. */
  function Mine(s: State, node: string): set<GoInt> {
    set sh | sh in s.shards && node in s.shards[sh]
  }

  /** At most n distinct numbers lie in 1..n. */
  lemma {:induction false} RangeSize(a: set<GoInt>, n: GoInt)
    requires n >= 0
    requires forall x | x in a :: 1 <= x <= n
    ensures |a| <= n
    decreases n
  {
    if n == 0 {
      assert a == {};
    } else {
      RangeSize(a - {n}, n - 1);
      assert a <= (a - {n}) + {n};
    }
  }

  /** A well-formed map has no more shards than its count, so for a count that is not
    negative the test on the number of shards decides nothing the range test would not. */
  lemma SizeTestIsRedundant(s: State)
    requires WellFormed(s) && s.numShards >= 0
    ensures |s.shards| <= s.numShards
  {
    RangeSize(s.shards.Keys, s.numShards);
  }

  /** The validity test. A negative shard count fails it even for an empty map. */
  method IsValid(s: State) returns (ok: bool)
    ensures ok <==> s.numShards >= 0 && WellFormed(s)
  {
    if |s.shards| > s.numShards {
      if WellFormed(s) && s.numShards >= 0 {
        SizeTestIsRedundant(s);
      }
      return false;
    }
    var left := s.shards.Keys;
    while |left| > 0
      invariant left <= s.shards.Keys
      invariant forall sh | sh in s.shards && sh !in left :: 1 <= sh <= s.numShards && HostsOk(s.nodes, s.shards[sh])
    {
      var shard :| shard in left;
      if shard < 1 || shard > s.numShards {
        return false;
      }
      var fine := CheckHosts(s.nodes, s.shards[shard]);
      if !fine {
        return false;
      }
      left := left - {shard};
    }
    return true;
  }

  /** The inner loop of the validity test: membership and a set of names seen so far. */
  method CheckHosts(nodes: map<string, NodeInfo>, hosts: seq<string>) returns (ok: bool)
    ensures ok <==> HostsOk(nodes, hosts)
  {
    var nodeSet: set<string> := {};
    for i := 0 to |hosts|
      invariant nodeSet == set x | x in hosts[..i]
      invariant HostsOk(nodes, hosts[..i])
    {
      assert hosts[..i + 1] == hosts[..i] + [hosts[i]];
      if hosts[i] !in nodes {
        return false;
      }
      if hosts[i] in nodeSet {
        return false;
      }
      nodeSet := nodeSet + {hosts[i]};
    }
    assert hosts[..|hosts|] == hosts;
    return true;
  }

  /** Every shard the node hosts, as often as it is listed for it. */
  method ShardsForNode(s: State, nodeName: string) returns (shards: seq<GoInt>)
    ensures forall sh: GoInt :: multiset(shards)[sh] == multiset(NodesForShard(s, sh))[nodeName]
    ensures WellFormed(s) ==> Distinct(shards)
    ensures forall sh: GoInt :: sh in shards <==> Hosts(s, nodeName, sh)
  {
    shards := [];
    var left := s.shards.Keys;
    while |left| > 0
      invariant left <= s.shards.Keys
      invariant forall sh: GoInt ::
                  multiset(shards)[sh] == if sh in left then 0 else multiset(NodesForShard(s, sh))[nodeName]
    {
      var shard :| shard in left;
      assert multiset(shards)[shard] == 0;
      shards := AppendHosted(shards, shard, s.shards[shard], nodeName);
      left := left - {shard};
    }
    forall sh: GoInt ensures sh in shards <==> Hosts(s, nodeName, sh) {
      assert sh in shards <==> sh in multiset(shards);
    }
    if WellFormed(s) {
      OncePerShard(s, nodeName, shards);
    }
  }

  /** The inner loop: append the shard once for each time the node is listed. */
  method AppendHosted(
    before: seq<GoInt>, shard: GoInt, nodes: seq<string>, nodeName: string) returns (shards: seq<GoInt>)
    requires shard !in before
    ensures forall sh: GoInt :: multiset(shards)[sh] ==
                                if sh == shard then multiset(nodes)[nodeName] else multiset(before)[sh]
  {
    shards := before;
    for i := 0 to |nodes|
      invariant forall sh: GoInt :: multiset(shards)[sh] ==
                                    if sh == shard then multiset(nodes[..i])[nodeName] else multiset(before)[sh]
    {
      assert nodes[..i + 1] == nodes[..i] + [nodes[i]];
      if nodes[i] == nodeName {
        shards := shards + [shard];
      }
    }
    assert nodes[..|nodes|] == nodes;
  }

  lemma DistinctCount<T>(s: seq<T>, x: T)
    requires Distinct(s)
    ensures multiset(s)[x] <= 1
  {
    if multiset(s)[x] >= 1 {
      var i :| 0 <= i < |s| && s[i] == x;
      assert s == s[..i] + [x] + s[i + 1..];
      assert x !in s[..i] && x !in s[i + 1..];
    }
  }

  lemma CountDistinct<T>(s: seq<T>)
    requires forall x :: multiset(s)[x] <= 1
    ensures Distinct(s)
  {
    forall i, j | 0 <= i < j < |s| ensures s[i] != s[j] {
      assert s == s[..j] + [s[j]] + s[j + 1..];
      assert s[..j][i] == s[i] && multiset(s)[s[j]] == multiset(s[..j])[s[j]] + 1 + multiset(s[j + 1..])[s[j]];
    }
  }

  lemma OncePerShard(s: State, nodeName: string, shards: seq<GoInt>)
    requires WellFormed(s)
    requires forall sh: GoInt :: multiset(shards)[sh] == multiset(NodesForShard(s, sh))[nodeName]
    ensures Distinct(shards)
  {
    forall sh: GoInt ensures multiset(shards)[sh] <= 1 {
      DistinctCount(NodesForShard(s, sh), nodeName);
    }
    CountDistinct(shards);
  }

  // --- trying a list once round from a random start ------------------------

  /** Element i of the list read as a ring that begins at `start`. */
  function RingAt<T>(s: seq<T>, start: nat, i: nat): T
    requires |s| > 0
  {
    s[(start + i) % |s|]
  }

  lemma Wrap(a: nat, n: nat)
    requires 0 < n && a < n + n
    ensures a % n == if a < n then a else a - n
  {
  }

  /** Going once round the ring meets every element. */
  lemma RingCovers<T>(s: seq<T>, start: nat, x: nat) returns (i: nat)
    requires start < |s| && x < |s|
    ensures i < |s| && RingAt(s, start, i) == s[x]
  {
    i := if x >= start then x - start else x + |s| - start;
    Wrap(start + i, |s|);
  }

  /** And no position twice. */
  lemma RingOnce<T>(s: seq<T>, start: nat, i: nat, j: nat)
    requires start < |s| && i < j < |s| && Distinct(s)
    ensures RingAt(s, start, i) != RingAt(s, start, j)
  {
    Wrap(start + i, |s|);
    Wrap(start + j, |s|);
  }
}
