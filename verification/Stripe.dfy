/** The striped shard map of the generator script: replicas are dealt to the nodes in
  turn, shard after shard. */
module Stripe {
  import opened Common
  import opened ShardMap

  // --- node names ----------------------------------------------------------

  function Digits(n: nat): string {
    var last := ('0' as int + n % 10) as char;
    if n < 10 then [last] else Digits(n / 10) + [last]
  }

  lemma {:induction false} DigitsInjective(a: nat, b: nat)
    requires Digits(a) == Digits(b)
    ensures a == b
    decreases a
  {
    var s, t := Digits(a), Digits(b);
    assert |s| >= 1 && (a >= 10 ==> |s| >= 2 && s[..|s| - 1] == Digits(a / 10));
    assert |t| >= 1 && (b >= 10 ==> |t| >= 2 && t[..|t| - 1] == Digits(b / 10));
    assert s[|s| - 1] == ('0' as int + a % 10) as char && t[|t| - 1] == ('0' as int + b % 10) as char;
    if a >= 10 && b >= 10 {
      DigitsInjective(a / 10, b / 10);
    }
  }

  /** The number a decimal text stands for. */
  function NumberOf(s: string): int {
    if s == [] then 0 else 10 * NumberOf(s[..|s| - 1]) + (s[|s| - 1] as int - '0' as int)
  }

  /** The digits spell the number, without leading zeros. */
  lemma {:induction false} DigitsSpell(n: nat)
    ensures var s := Digits(n);
            && NumberOf(s) == n && s != [] && (n > 0 ==> s[0] != '0')
            && forall i | 0 <= i < |s| :: '0' <= s[i] <= '9'
  {
    var s := Digits(n);
    assert n < 10 ==> s[..|s| - 1] == [];
    if n >= 10 {
      DigitsSpell(n / 10);
      assert s[..|s| - 1] == Digits(n / 10);
    }
  }

  /** Node i, counted from 0, is called n1, n2, and so on. */
  function Name(i: nat): string {
    "n" + Digits(i + 1)
  }

  lemma NameInjective(i: nat, j: nat)
    requires Name(i) == Name(j)
    ensures i == j
  {
    assert Name(i)[1..] == Digits(i + 1) && Name(j)[1..] == Digits(j + 1);
    DigitsInjective(i + 1, j + 1);
  }

  // --- arithmetic of dealing in turn ---------------------------------------

  /** Fewer than n cards apart, two cards go to different nodes; n cards apart, to the same. */
  lemma CardsApart(c: nat, d: nat, n: nat)
    requires 0 < d <= n
    ensures (c + d) % n == c % n <==> d == n
  {
    var q, r := c / n, c % n;
    assert c == n * q + r;
    if r + d < n {
      DivModUnique(c + d, q, r + d, n);
    } else {
      assert c + d == (q + 1) * n + (r + d - n);
      DivModUnique(c + d, q + 1, r + d - n, n);
    }
  }

  /** How many of the first t cards node j gets. */
  function Dealt(t: nat, n: nat, j: nat): nat
    requires n > 0
  {
    if t == 0 then 0 else Dealt(t - 1, n, j) + if (t - 1) % n == j then 1 else 0
  }

  /** Every node gets one card a round, and the first ones one more. */
  lemma {:induction false} DealtEvenly(t: nat, n: nat, j: nat)
    requires n > 0 && j < n
    ensures Dealt(t, n, j) == t / n + if j < t % n then 1 else 0
  {
    if t == 0 {
      DivModUnique(0, 0, 0, n);
    } else {
      DealtEvenly(t - 1, n, j);
      NextDivMod(t - 1, n);
    }
  }

  // --- the generated map ---------------------------------------------------

  /** The hosts of a shard with r replicas when c replicas have been dealt before. */
  function Row(c: nat, r: nat, n: nat): seq<string>
    requires n > 0
  {
    seq(r, i requires 0 <= i < r => Name((c + i) % n))
  }

  /** A row names nobody twice exactly when it is no longer than the table of nodes. */
  lemma RowDistinct(c: nat, r: nat, n: nat)
    requires n > 0
    ensures Distinct(Row(c, r, n)) <==> r <= n
  {
    var row := Row(c, r, n);
    if r <= n {
      forall i, j | 0 <= i < j < r ensures row[i] != row[j] {
        CardsApart(c + i, j - i, n);
        if row[i] == row[j] {
          NameInjective((c + i) % n, (c + j) % n);
        }
      }
    } else {
      CardsApart(c, n, n);
      assert row[0] == row[n];
    }
  }

  lemma {:induction false} RowCount(c: nat, r: nat, n: nat, j: nat)
    requires n > 0 && j < n
    ensures multiset(Row(c, r, n))[Name(j)] == Dealt(c + r, n, j) - Dealt(c, n, j)
    decreases r
  {
    if r > 0 {
      RowCount(c, r - 1, n, j);
      assert Row(c, r, n) == Row(c, r - 1, n) + [Name((c + r - 1) % n)];
      if Name((c + r - 1) % n) == Name(j) {
        NameInjective((c + r - 1) % n, j);
      }
    }
  }

  /** Replicas of a node over shards 1..k. */
  function Load(s: State, node: string, k: nat): nat
    requires k < 0x8000_0000_0000_0000
  {
    if k == 0 then 0 else Load(s, node, k - 1) + multiset(NodesForShard(s, k))[node]
  }

  function Total(replicas: seq<nat>): nat {
    if replicas == [] then 0 else Total(replicas[..|replicas| - 1]) + replicas[|replicas| - 1]
  }

  lemma TotalNext(replicas: seq<nat>, i: nat)
    requires i < |replicas|
    ensures Total(replicas[..i + 1]) == Total(replicas[..i]) + replicas[i]
  {
    assert replicas[..i + 1][..i] == replicas[..i];
  }

  /** Shard i + 1 has its row. */
  ghost predicate RowOk(s: State, n: nat, replicas: seq<nat>, i: nat)
    requires n > 0 && i < |replicas| < 0x8000_0000_0000_0000
  {
    i + 1 in s.shards && s.shards[i + 1] == Row(Total(replicas[..i]), replicas[i], n)
  }

  ghost predicate AllRows(s: State, n: nat, replicas: seq<nat>)
    requires n > 0 && |replicas| < 0x8000_0000_0000_0000
  {
    forall i: nat {:trigger RowOk(s, n, replicas, i)} | i < |replicas| :: RowOk(s, n, replicas, i)
  }

  /** What MakeStriped leaves. */
  ghost predicate IsStriped(s: State, n: nat, replicas: seq<nat>)
    requires n > 0 && |replicas| < 0x8000_0000_0000_0000
  {
    && s.numShards == |replicas| && s.nodes.Keys == (set i: nat | i < n :: Name(i))
    && (forall sh | sh in s.shards :: 1 <= sh <= |replicas|)
    && AllRows(s, n, replicas)
  }

  method NameNodes(numNodes: nat, address: string, basePort: int) returns (nodes: map<string, NodeInfo>)
    ensures nodes.Keys == set i: nat | i < numNodes :: Name(i)
    ensures forall i: nat | i < numNodes :: nodes[Name(i)] == NodeInfo(address, basePort + i)
  {
    nodes := map[];
    for i := 0 to numNodes
      invariant nodes.Keys == set j: nat | j < i :: Name(j)
      invariant forall j: nat | j < i :: nodes[Name(j)] == NodeInfo(address, basePort + j)
    {
      forall j: nat | j < i ensures Name(j) != Name(i) {
        if Name(j) == Name(i) { NameInjective(j, i); }
      }
      nodes := nodes[Name(i) := NodeInfo(address, basePort + i)];
    }
  }

  /** The remainder by no nodes at all is an error, at the first replica. */
  method DealRow(counter: nat, replicas: nat, numNodes: nat) returns (failed: bool, row: seq<string>, next: nat)
    ensures failed <==> numNodes == 0 && replicas > 0
    ensures !failed ==>
              && next == counter + replicas
              && row == if numNodes == 0 then [] else Row(counter, replicas, numNodes)
  {
    failed, row, next := false, [], counter;
    for r := 0 to replicas
      invariant !failed && next == counter + r && (numNodes == 0 ==> r == 0)
      invariant row == if numNodes == 0 then [] else Row(counter, r, numNodes)
    {
      if numNodes == 0 {
        return true, [], next;
      }
      row := row + [Name(next % numNodes)];
      next := next + 1;
    }
  }

  /** Deal `replicas[i]` hosts to shard i + 1, for each shard in turn; one counter runs
    through all of them. */
  method MakeStriped(numNodes: nat, replicas: seq<nat>, address: string, basePort: int) returns (failed: bool, s: State)
    requires |replicas| < 0x8000_0000_0000_0000
    ensures failed <==> numNodes == 0 && exists i :: 0 <= i < |replicas| && replicas[i] > 0
    ensures !failed ==> if numNodes == 0 then IsBare(s, |replicas|) else IsStriped(s, numNodes, replicas)
    ensures !failed ==>
              forall i: nat | i < numNodes :: Name(i) in s.nodes && s.nodes[Name(i)] == NodeInfo(address, basePort + i)
  {
    var nodes := NameNodes(numNodes, address, basePort);
    failed, s := false, State(nodes, map[], |replicas|);
    var counter := 0;
    for i := 0 to |replicas|
      invariant !failed && s.nodes == nodes && s.numShards == |replicas|
      invariant counter == Total(replicas[..i])
      invariant forall sh | sh in s.shards :: 1 <= sh <= i
      invariant numNodes == 0 ==> forall k | 0 <= k < i :: replicas[k] == 0
      invariant numNodes == 0 ==> forall sh: GoInt | 1 <= sh <= i :: sh in s.shards && s.shards[sh] == []
      invariant numNodes > 0 ==>
                  forall k: nat {:trigger RowOk(s, numNodes, replicas, k)} | k < i :: RowOk(s, numNodes, replicas, k)
    {
      var row;
      TotalNext(replicas, i);
      ghost var before := s;
      failed, row, counter := DealRow(counter, replicas[i], numNodes);
      if failed {
        return;
      }
      s := s.(shards := s.shards[i + 1 := row]);
      if numNodes > 0 {
        forall k: nat | k < i + 1 ensures RowOk(s, numNodes, replicas, k) {
          assert k < i ==> RowOk(before, numNodes, replicas, k);
        }
      }
    }
  }

  /** All replicas of all shards, counted in order, go to the nodes in turn: number t goes to
    node t modulo the number of nodes. */
  lemma ReplicaGoesTo(s: State, n: nat, replicas: seq<nat>, i: nat, x: nat)
    requires n > 0 && i < |replicas| < 0x8000_0000_0000_0000 && x < replicas[i] && IsStriped(s, n, replicas)
    ensures var t := Total(replicas[..i]) + x;
            && i + 1 in s.shards && |s.shards[i + 1]| == replicas[i]
            && s.shards[i + 1][x] == "n" + Digits(t % n + 1)
  {
    assert RowOk(s, n, replicas, i);
  }

  /** A map without nodes in which every shard is listed without hosts. */
  predicate IsBare(s: State, n: nat)
    requires n < 0x8000_0000_0000_0000
  {
    && s.numShards == n && s.nodes == map[]
    && (forall sh | sh in s.shards :: 1 <= sh <= n)
    && (forall sh: GoInt | 1 <= sh <= n :: sh in s.shards && s.shards[sh] == [])
  }

  /** The generated map is valid exactly when no shard asks for more replicas than there
    are nodes. */
  lemma StripedValid(s: State, n: nat, replicas: seq<nat>)
    requires n > 0 && |replicas| < 0x8000_0000_0000_0000 && IsStriped(s, n, replicas)
    ensures WellFormed(s) <==> forall i | 0 <= i < |replicas| :: replicas[i] <= n
  {
    forall i: nat | i < |replicas|
      ensures i + 1 in s.shards && (HostsOk(s.nodes, s.shards[i + 1]) <==> replicas[i] <= n)
    {
      var c := Total(replicas[..i]);
      RowDistinct(c, replicas[i], n);
      assert RowOk(s, n, replicas, i);
      forall x | 0 <= x < replicas[i] ensures Row(c, replicas[i], n)[x] in s.nodes {
        assert (c + x) % n < n;
        assert Name((c + x) % n) in s.nodes.Keys;
      }
    }
    if WellFormed(s) {
      forall i | 0 <= i < |replicas| ensures replicas[i] <= n {
        assert RowOk(s, n, replicas, i);
      }
    } else {
      var sh :| sh in s.shards && !(1 <= sh <= s.numShards && HostsOk(s.nodes, s.shards[sh]));
      assert replicas[sh - 1] > n;
    }
  }

  /** Row i gives the node what `share` grows by. */
  ghost predicate RowGives(s: State, replicas: seq<nat>, node: string, share: nat -> nat, i: nat)
    requires i < |replicas| < 0x8000_0000_0000_0000
  {
    share(Total(replicas[..i])) + multiset(NodesForShard(s, i + 1))[node] == share(Total(replicas[..i + 1]))
  }

  lemma {:induction false} LoadIsShare(s: State, replicas: seq<nat>, k: nat, node: string, share: nat -> nat)
    requires k <= |replicas| < 0x8000_0000_0000_0000
    requires share(0) == 0 && forall i: nat | i < k :: RowGives(s, replicas, node, share, i)
    ensures Load(s, node, k) == share(Total(replicas[..k]))
  {
    if k > 0 {
      LoadIsShare(s, replicas, k - 1, node, share);
      assert RowGives(s, replicas, node, share, k - 1);
    }
  }

  /** The load of a node is its part of the deal. */
  lemma StripedLoad(s: State, n: nat, replicas: seq<nat>, j: nat)
    requires n > 0 && |replicas| < 0x8000_0000_0000_0000 && AllRows(s, n, replicas) && j < n
    ensures Load(s, Name(j), |replicas|) == Dealt(Total(replicas), n, j)
  {
    var share := (t: nat) => Dealt(t, n, j);
    forall i: nat | i < |replicas| ensures RowGives(s, replicas, Name(j), share, i) {
      assert RowOk(s, n, replicas, i);
      RowCount(Total(replicas[..i]), replicas[i], n, j);
      TotalNext(replicas, i);
    }
    LoadIsShare(s, replicas, |replicas|, Name(j), share);
    assert replicas[..|replicas|] == replicas;
  }

  /** Balance: whatever the replica counts, the loads of any two nodes differ by at most
    one; together they are all the replicas. */
  lemma StripedBalanced(s: State, n: nat, replicas: seq<nat>, i: nat, j: nat)
    requires n > 0 && |replicas| < 0x8000_0000_0000_0000 && IsStriped(s, n, replicas) && i < n && j < n
    ensures -1 <= Load(s, Name(i), |replicas|) - Load(s, Name(j), |replicas|) <= 1
    ensures Load(s, Name(i), |replicas|) == Total(replicas) / n + if i < Total(replicas) % n then 1 else 0
  {
    StripedLoad(s, n, replicas, i);
    StripedLoad(s, n, replicas, j);
    DealtEvenly(Total(replicas), n, i);
    DealtEvenly(Total(replicas), n, j);
  }
}
