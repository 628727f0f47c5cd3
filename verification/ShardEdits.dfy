/** The workflows that edit a shard map: add or drop replicas of a shard, move a shard,
  drain a node. A draft is edited in place and then published. Random choices appear as
  arbitrary picks. */
module ShardEdits {
  import opened Common
  import opened ShardMap

  function ToSet(s: seq<string>): set<string> {
    set x | x in s
  }

  /** The new host list keeps the old one and the requested nodes in front, and has `num`
    more hosts than before. */
  predicate Added(nodes: map<string, NodeInfo>, hosts: seq<string>, dst: seq<string>, num: nat, result: seq<string>) {
    hosts + dst <= result && |result| == |hosts| + num && HostsOk(nodes, result)
  }

  /** The new host list is `num` shorter, has only old hosts and none of those to drop. */
  predicate Dropped(hosts: seq<string>, src: seq<string>, num: nat, result: seq<string>) {
    && |result| + num == |hosts| && Distinct(result)
    && forall x | x in result :: x in hosts && x !in src
  }

  lemma {:induction false} DistinctSize(s: seq<string>)
    ensures |ToSet(s)| <= |s|
    ensures Distinct(s) ==> |ToSet(s)| == |s|
  {
    if s == [] {
      assert ToSet(s) == {};
    } else {
      var last := s[|s| - 1];
      var init := s[..|s| - 1];
      DistinctSize(init);
      assert ToSet(s) == ToSet(init) + {last};
    }
  }

  /** Counting: enough nodes are left to pick from. */
  lemma EnoughLeft(nodes: map<string, NodeInfo>, hosts: seq<string>)
    requires HostsOk(nodes, hosts)
    ensures |nodes.Keys - ToSet(hosts)| == |nodes| - |hosts|
  {
    DistinctSize(hosts);
    assert ToSet(hosts) <= nodes.Keys;
  }

  lemma SnocOk(nodes: map<string, NodeInfo>, hosts: seq<string>, x: string)
    requires HostsOk(nodes, hosts) && x in nodes && x !in hosts
    ensures HostsOk(nodes, hosts + [x])
  {
  }

  lemma SubHostsOk(nodes: map<string, NodeInfo>, hosts: seq<string>, result: seq<string>)
    requires HostsOk(nodes, hosts) && Distinct(result) && forall x | x in result :: x in hosts
    ensures HostsOk(nodes, result)
  {
    forall i | 0 <= i < |result| ensures result[i] in nodes {
      assert result[i] in result;
    }
  }

  /** Giving one shard a proper host list keeps the map well formed just when the shard
    number is in range. */
  lemma SetHosts(s: State, shard: GoInt, hosts: seq<string>)
    requires WellFormed(s) && HostsOk(s.nodes, hosts)
    ensures WellFormed(s.(shards := s.shards[shard := hosts])) <==> 1 <= shard <= s.numShards
  {
    assert s.shards[shard := hosts][shard] == hosts;
  }

  /** Extend a host list by the requested nodes, unless one is on it already. */
  method AppendNamed(
    nodes: map<string, NodeInfo>, hosts: seq<string>, dst: seq<string>) returns (ok: bool, result: seq<string>)
    requires HostsOk(nodes, hosts) && forall x | x in dst :: x in nodes
    ensures ok <==> Distinct(hosts + dst)
    ensures ok ==> result == hosts + dst && HostsOk(nodes, result)
  {
    result := hosts;
    for i := 0 to |dst|
      invariant result == hosts + dst[..i] && HostsOk(nodes, result)
    {
      var all := hosts + dst;
      assert all[|hosts| + i] == dst[i] && dst[i] in dst;
      if dst[i] in result {
        var j :| 0 <= j < |result| && result[j] == dst[i];
        assert all[j] == result[j];
        return false, result;
      }
      SnocOk(nodes, result, dst[i]);
      result := result + [dst[i]];
      assert result == hosts + dst[..i + 1];
    }
    assert dst[..|dst|] == dst;
    return true, result;
  }

  /** Extend a host list by k further nodes, picked arbitrarily. */
  method AppendPicked(nodes: map<string, NodeInfo>, hosts: seq<string>, k: nat) returns (result: seq<string>)
    requires HostsOk(nodes, hosts) && |hosts| + k <= |nodes|
    ensures hosts <= result && |result| == |hosts| + k && HostsOk(nodes, result)
  {
    result := hosts;
    EnoughLeft(nodes, result);
    var options := nodes.Keys - ToSet(result);
    for i := 0 to k
      invariant hosts <= result && |result| == |hosts| + i && HostsOk(nodes, result)
      invariant options == nodes.Keys - ToSet(result) && |options| == |nodes| - |result|
    {
      var pick :| pick in options;
      SnocOk(nodes, result, pick);
      assert ToSet(result + [pick]) == ToSet(result) + {pick};
      result := result + [pick];
      options := options - {pick};
    }
  }

  /** The hosts not to be dropped, and the names that are no hosts at all. */
  method Partition(hosts: seq<string>, src: seq<string>) returns (candidates: set<string>, missing: set<string>)
    requires Distinct(hosts)
    ensures candidates == ToSet(hosts) - ToSet(src) && missing == ToSet(src) - ToSet(hosts)
    ensures missing == {} <==> forall x | x in src :: x in hosts
    ensures missing == {} ==> |candidates| >= |hosts| - |src|
  {
    candidates, missing := {}, ToSet(src);
    for i := 0 to |hosts|
      invariant candidates == ToSet(hosts[..i]) - ToSet(src) && missing == ToSet(src) - ToSet(hosts[..i])
    {
      assert ToSet(hosts[..i + 1]) == ToSet(hosts[..i]) + {hosts[i]};
      if hosts[i] !in missing {
        assert hosts[i] !in hosts[..i];
        candidates := candidates + {hosts[i]};
      } else {
        missing := missing - {hosts[i]};
      }
    }
    assert hosts[..|hosts|] == hosts;
    DistinctSize(hosts);
    DistinctSize(src);
    forall x ensures x in missing <==> x in src && x !in hosts {
      assert x in src <==> x in ToSet(src);
    }
  }

  /** k different candidates in arbitrary order. */
  method Pick(candidates: set<string>, k: nat) returns (result: seq<string>)
    requires k <= |candidates|
    ensures |result| == k && Distinct(result) && forall x | x in result :: x in candidates
  {
    result := [];
    var left := candidates;
    for i := 0 to k
      invariant |result| == i && Distinct(result) && left == candidates - ToSet(result) && |left| == |candidates| - i
      invariant forall x | x in result :: x in candidates
    {
      var pick :| pick in left;
      assert ToSet(result + [pick]) == ToSet(result) + {pick};
      result := result + [pick];
      left := left - {pick};
    }
  }

  /** May the requested hosts be added? */
  predicate CanAdd(s: State, shard: GoInt, num: nat, dst: seq<string>) {
    |NodesForShard(s, shard)| + num <= |s.nodes| && Distinct(NodesForShard(s, shard) + dst)
  }

  /** May the requested hosts be dropped? */
  predicate CanDrop(s: State, shard: GoInt, num: nat, src: seq<string>) {
    num <= |NodesForShard(s, shard)| && |src| <= num && forall x | x in src :: x in NodesForShard(s, shard)
  }

  /** t is s with another host list for one shard. */
  predicate OnlyShard(s: State, t: State, shard: GoInt) {
    t == s.(shards := s.shards[shard := NodesForShard(t, shard)])
  }

  /** A shard map being edited in place. */
  class Draft {
    const nodes: map<string, NodeInfo>
    const numShards: GoInt
    var shards: map<GoInt, seq<string>>

    function Value(): State
      reads this
    {
      State(nodes, shards, numShards)
    }

    constructor (s: State)
      ensures Value() == s
    {
      nodes, numShards, shards := s.nodes, s.numShards, s.shards;
    }

    /** Add `num` hosts to a shard, the given ones first. */
    method AddReplicas(shard: GoInt, num: nat, dst: seq<string>) returns (ok: bool)
      requires WellFormed(Value()) && |dst| <= num && (forall x | x in dst :: x in nodes)
      modifies this
      ensures ok <==> old(CanAdd(Value(), shard, num, dst))
      ensures !ok ==> Value() == old(Value())
      ensures ok ==>
                && OnlyShard(old(Value()), Value(), shard)
                && Added(nodes, old(NodesForShard(Value(), shard)), dst, num, NodesForShard(Value(), shard))
                && (WellFormed(Value()) <==> 1 <= shard <= numShards)
    {
      var hosts := NodesForShard(Value(), shard);
      if |hosts| + num > |nodes| {
        return false;
      }
      var result;
      ok, result := AppendNamed(nodes, hosts, dst);
      if ok {
        result := AppendPicked(nodes, result, num - |dst|);
        SetHosts(Value(), shard, result);
        shards := shards[shard := result];
      }
    }

    /** Take `num` hosts from a shard, the given ones first. */
    method DropReplicas(shard: GoInt, num: nat, src: seq<string>) returns (ok: bool)
      requires WellFormed(Value())
      modifies this
      ensures ok <==> old(CanDrop(Value(), shard, num, src))
      ensures !ok ==> Value() == old(Value())
      ensures ok ==>
                && OnlyShard(old(Value()), Value(), shard)
                && Dropped(old(NodesForShard(Value(), shard)), src, num, NodesForShard(Value(), shard))
                && (WellFormed(Value()) <==> 1 <= shard <= numShards)
    {
      var hosts := NodesForShard(Value(), shard);
      if |hosts| < num || |src| > num {
        return false;
      }
      var candidates, missing := Partition(hosts, src);
      if missing != {} {
        return false;
      }
      var result := Pick(candidates, |hosts| - num);
      assert forall x | x in result :: x in candidates && x in hosts && x !in src;
      SubHostsOk(nodes, hosts, result);
      SetHosts(Value(), shard, result);
      shards := shards[shard := result];
      return true;
    }
  }

  // --- workflows -----------------------------------------------------------

  /** One publication is graceful: no shard gains two hosts at once, and a hosted shard keeps
    some host it had. */
  ghost predicate Graceful(s: State, t: State) {
    && t.nodes == s.nodes && t.numShards == s.numShards
    && forall sh: GoInt :: GracefulAt(s, t, sh)
  }

  predicate Stays(s: State, t: State, sh: GoInt, p: string) {
    Hosts(s, p, sh) && Hosts(t, p, sh)
  }

  ghost predicate GracefulAt(s: State, t: State, sh: GoInt) {
    && (forall x, y | Hosts(t, x, sh) && !Hosts(s, x, sh) && Hosts(t, y, sh) && !Hosts(s, y, sh) :: x == y)
    && (NodesForShard(s, sh) != [] ==> exists p :: Stays(s, t, sh, p))
  }

  /** Keeping all hosts and gaining at most one is graceful. */
  lemma GrownAtGraceful(s: State, t: State, sh: GoInt)
    requires forall p | Hosts(s, p, sh) :: Hosts(t, p, sh)
    requires forall x, y | Hosts(t, x, sh) && !Hosts(s, x, sh) && Hosts(t, y, sh) && !Hosts(s, y, sh) :: x == y
    ensures GracefulAt(s, t, sh)
  {
    if NodesForShard(s, sh) != [] {
      assert Hosts(s, NodesForShard(s, sh)[0], sh);
      assert Stays(s, t, sh, NodesForShard(s, sh)[0]);
    }
  }

  /** Losing hosts, but not all, is graceful. */
  lemma ShrunkAtGraceful(s: State, t: State, sh: GoInt)
    requires forall p | Hosts(t, p, sh) :: Hosts(s, p, sh)
    requires NodesForShard(s, sh) != [] ==> NodesForShard(t, sh) != []
    ensures GracefulAt(s, t, sh)
  {
    if NodesForShard(s, sh) != [] {
      assert Hosts(t, NodesForShard(t, sh)[0], sh);
      assert Stays(s, t, sh, NodesForShard(t, sh)[0]);
    }
  }

  lemma GracefulAgain(t: State)
    ensures Graceful(t, t)
  {
    forall sh: GoInt ensures GracefulAt(t, t, sh) {
      GrownAtGraceful(t, t, sh);
    }
  }

  /** Every publication of the list is well formed, and graceful after the one before it. */
  ghost predicate GracefulFrom(s: State, updates: seq<State>) {
    forall i: nat | i < |updates| :: GracefulNth(s, updates, i)
  }

  ghost predicate GracefulNth(s: State, updates: seq<State>, i: nat)
    requires i < |updates|
  {
    WellFormed(updates[i]) && Graceful(if i == 0 then s else updates[i - 1], updates[i])
  }

  /** Every state of the list is published twice in a row. */
  predicate Doubled(updates: seq<State>) {
    |updates| % 2 == 0 && forall i | 0 <= i < |updates| && i % 2 == 0 :: updates[i + 1] == updates[i]
  }

  lemma OnePublished(s: State, t: State)
    requires WellFormed(t) && Graceful(s, t)
    ensures Doubled([t, t]) && GracefulFrom(s, [t, t])
  {
    GracefulAgain(t);
  }

  lemma TwoPublished(s: State, t: State, u: State)
    requires WellFormed(t) && WellFormed(u) && Graceful(s, t)
    ensures Doubled([t, t, u, u]) && (Graceful(t, u) ==> GracefulFrom(s, [t, t, u, u]))
  {
    GracefulAgain(t);
    GracefulAgain(u);
  }

  /** The shard's hosts are the old ones without `src` and with `dst`. */
  ghost predicate Moved(s: State, t: State, shard: GoInt, src: string, dst: string) {
    && OnlyShard(s, t, shard) && WellFormed(t)
    && ToSet(NodesForShard(t, shard)) == ToSet(NodesForShard(s, shard)) - {src} + {dst}
  }

  lemma MoveDone(s0: State, s1: State, s2: State, shard: GoInt, src: string, dst: string)
    requires OnlyShard(s0, s1, shard) && OnlyShard(s1, s2, shard) && WellFormed(s2) && src != dst
             && Hosts(s1, src, shard)
    requires NodesForShard(s1, shard) == NodesForShard(s0, shard) + [dst]
    requires ToSet(NodesForShard(s2, shard)) == ToSet(NodesForShard(s1, shard)) - {src}
    ensures Moved(s0, s2, shard, src, dst) && Hosts(s0, src, shard) && |NodesForShard(s1, shard)| >= 2
  {
    assert ToSet(NodesForShard(s1, shard)) == ToSet(NodesForShard(s0, shard)) + {dst};
  }

  lemma AddedGraceful(s: State, t: State, shard: GoInt, dst: seq<string>)
    requires OnlyShard(s, t, shard) && |dst| <= 1
    requires Added(s.nodes, NodesForShard(s, shard), dst, 1, NodesForShard(t, shard))
    ensures Graceful(s, t)
  {
    var before, after := NodesForShard(s, shard), NodesForShard(t, shard);
    forall sh: GoInt ensures GracefulAt(s, t, sh) {
      if sh == shard {
        assert after == before + [after[|before|]] by {
          assert before + dst == after[..|before| + |dst|];
          assert after[..|before|] == before;
        }
      }
      GrownAtGraceful(s, t, sh);
    }
  }

  lemma DroppedGraceful(s: State, t: State, shard: GoInt, src: seq<string>)
    requires OnlyShard(s, t, shard) && |NodesForShard(s, shard)| >= 2
    requires Dropped(NodesForShard(s, shard), src, 1, NodesForShard(t, shard))
    ensures Graceful(s, t)
  {
    forall sh: GoInt ensures GracefulAt(s, t, sh) {
      ShrunkAtGraceful(s, t, sh);
    }
  }

  /** Dropping one named host leaves exactly the others. */
  lemma DroppedOne(hosts: seq<string>, x: string, result: seq<string>)
    requires Distinct(hosts) && x in hosts && Dropped(hosts, [x], 1, result)
    ensures ToSet(result) == ToSet(hosts) - {x}
  {
    DistinctSize(hosts);
    DistinctSize(result);
    assert x in [x];
    assert ToSet(result) <= ToSet(hosts) - {x};
    assert |ToSet(result)| == |ToSet(hosts) - {x}|;
    SubsetEqual(ToSet(result), ToSet(hosts) - {x});
  }

  lemma SubsetEqual(a: set<string>, b: set<string>)
    requires a <= b && |a| == |b|
    ensures a == b
  {
    assert b == a + (b - a);
  }

  /** While draining: one more host where there is a node to spare, or no change. */
  predicate GrownAt(s: State, t: State, sh: GoInt) {
    var hosts, result := NodesForShard(s, sh), NodesForShard(t, sh);
    && hosts <= result && HostsOk(s.nodes, result)
    && |result| == if |hosts| < |s.nodes| then |hosts| + 1 else |hosts|
  }

  /** After draining: the node is gone, every other host stays, and only a shard that was
    on all nodes has one host fewer. */
  predicate DrainedAt(s: State, t: State, sh: GoInt, node: string) {
    var hosts, result := NodesForShard(s, sh), NodesForShard(t, sh);
    if node !in hosts then result == hosts
    else
      && node !in result && ToSet(hosts) - {node} <= ToSet(result)
      && |result| == if |hosts| < |s.nodes| then |hosts| else |hosts| - 1
  }

  lemma GrownGraceful(s: State, t: State)
    requires t.nodes == s.nodes && t.numShards == s.numShards
    requires forall sh: GoInt :: NodesForShard(t, sh) == NodesForShard(s, sh) || GrownAt(s, t, sh)
    ensures Graceful(s, t)
  {
    forall sh: GoInt ensures GracefulAt(s, t, sh) {
      GrownAtGraceful(s, t, sh);
    }
  }

  lemma ShrunkGraceful(s: State, t: State)
    requires t.nodes == s.nodes && t.numShards == s.numShards
    requires forall sh: GoInt, x | Hosts(t, x, sh) :: Hosts(s, x, sh)
    requires forall sh: GoInt | NodesForShard(s, sh) != [] :: NodesForShard(t, sh) != []
    ensures Graceful(s, t)
  {
    forall sh: GoInt ensures GracefulAt(s, t, sh) {
      ShrunkAtGraceful(s, t, sh);
    }
  }

  lemma GrowThenDrop(s: State, t: State, u: State, sh: GoInt, node: string)
    requires node in NodesForShard(s, sh) && GrownAt(s, t, sh)
    requires Dropped(NodesForShard(t, sh), [node], 1, NodesForShard(u, sh))
    ensures DrainedAt(s, u, sh, node)
  {
    DroppedOne(NodesForShard(t, sh), node, NodesForShard(u, sh));
    assert node in [node];
    assert ToSet(NodesForShard(s, sh)) <= ToSet(NodesForShard(t, sh));
  }

  /** A drained cluster of two or more nodes leaves no shard without a host; a cluster of
    one node does so exactly when the node hosted nothing. */
  lemma DrainLeavesHosts(s: State, t: State, node: string)
    requires WellFormed(s) && node in s.nodes && forall sh: GoInt :: DrainedAt(s, t, sh, node)
    ensures (forall sh: GoInt | NodesForShard(s, sh) != [] :: NodesForShard(t, sh) != [])
            <==> |s.nodes| >= 2 || forall sh: GoInt :: !Hosts(s, node, sh)
  {
    assert |s.nodes| >= 1 by { assert node in s.nodes.Keys; }
    forall sh: GoInt | NodesForShard(s, sh) != []
      ensures NodesForShard(t, sh) != [] <==> |s.nodes| >= 2 || !Hosts(s, node, sh)
    {
      assert DrainedAt(s, t, sh, node);
      DistinctSize(NodesForShard(s, sh));
      assert ToSet(NodesForShard(s, sh)) <= s.nodes.Keys;
      SubsetSize(ToSet(NodesForShard(s, sh)), s.nodes.Keys);
    }
  }

  /** The published shard map, with the list of all publications. */
  class Workflows {
    var published: State
    var updates: seq<State>

    constructor (s: State)
      ensures published == s && updates == []
    {
      published, updates := s, [];
    }

    /** Publish a new mapping; the second notification only waits for the first. */
    method UpdateShardMapping(shards: map<GoInt, seq<string>>)
      modifies this
      ensures published == old(published).(shards := shards)
      ensures updates == old(updates) + [published, published]
    {
      published := State(published.nodes, shards, published.numShards);
      updates := updates + [published];
      updates := updates + [published];
    }

    /** Edit a copy, adding `dst` to the shard's hosts, and publish it. */
    method PublishAdded(shard: GoInt, dst: string) returns (ok: bool)
      requires WellFormed(published) && 1 <= shard <= published.numShards && dst in published.nodes
      modifies this
      ensures ok <==> old(CanAdd(published, shard, 1, [dst]))
      ensures !ok ==> published == old(published) && updates == old(updates)
      ensures ok ==>
                && OnlyShard(old(published), published, shard) && WellFormed(published)
                && NodesForShard(published, shard) == NodesForShard(old(published), shard) + [dst]
                && Graceful(old(published), published) && updates == old(updates) + [published, published]
    {
      ghost var s := published;
      var draft := new Draft(published);
      ok := draft.AddReplicas(shard, 1, [dst]);
      if ok {
        AddedGraceful(s, draft.Value(), shard, [dst]);
        UpdateShardMapping(draft.shards);
      }
    }

    /** Edit a copy, taking `src` from the shard's hosts, and publish it. */
    method PublishDropped(shard: GoInt, src: string) returns (ok: bool)
      requires WellFormed(published) && 1 <= shard <= published.numShards
      modifies this
      ensures ok <==> Hosts(old(published), src, shard)
      ensures !ok ==> published == old(published) && updates == old(updates)
      ensures ok ==>
                && OnlyShard(old(published), published, shard) && WellFormed(published)
                && ToSet(NodesForShard(published, shard)) == ToSet(NodesForShard(old(published), shard)) - {src}
                && (|NodesForShard(old(published), shard)| >= 2 ==> Graceful(old(published), published))
                && updates == old(updates) + [published, published]
    {
      ghost var s := published;
      var draft := new Draft(published);
      ok := draft.DropReplicas(shard, 1, [src]);
      if ok {
        assert src in [src];
        if |NodesForShard(s, shard)| >= 2 {
          DroppedGraceful(s, draft.Value(), shard, [src]);
        }
        DroppedOne(NodesForShard(s, shard), src, NodesForShard(draft.Value(), shard));
        UpdateShardMapping(draft.shards);
      }
    }

    /** Copy a shard to `dst`, publish, then remove it from `src`, publish. If `src` turns
      out not to host the shard, the copy stays. */
    method MoveShard(shard: GoInt, src: string, dst: string) returns (ok: bool)
      requires WellFormed(published) && 1 <= shard <= published.numShards && dst in published.nodes
      modifies this
      ensures WellFormed(published)
      ensures ok <==> src == dst || (old(CanAdd(published, shard, 1, [dst])) && Hosts(old(published), src, shard))
      ensures ok && src != dst ==> Moved(old(published), published, shard, src, dst)
      ensures src == dst || !old(CanAdd(published, shard, 1, [dst])) ==>
                published == old(published) && updates == old(updates)
      ensures !ok && old(CanAdd(published, shard, 1, [dst])) ==>
                && OnlyShard(old(published), published, shard)
                && NodesForShard(published, shard) == NodesForShard(old(published), shard) + [dst]
      ensures |updates| >= |old(updates)| && updates[..|old(updates)|] == old(updates)
      ensures GracefulFrom(old(published), updates[|old(updates)|..]) && Doubled(updates[|old(updates)|..])
    {
      if src == dst {
        return true;
      }
      ghost var s0 := published;
      ok := PublishAdded(shard, dst);
      if !ok {
        return;
      }
      ghost var s1 := published;
      assert Hosts(s1, src, shard) <==> Hosts(s0, src, shard);
      ok := PublishDropped(shard, src);
      if !ok {
        assert updates[|old(updates)|..] == [s1, s1];
        OnePublished(s0, s1);
        return;
      }
      MoveDone(s0, s1, published, shard, src, dst);
      assert updates[|old(updates)|..] == [s1, s1, published, published];
      TwoPublished(s0, s1, published);
    }

    /** Give every shard of the node another host where one is to be had. */
    method GrowAll(shards: seq<GoInt>) returns (draft: Draft)
      requires WellFormed(published) && Distinct(shards) && forall sh | sh in shards :: sh in published.shards
      ensures fresh(draft) && WellFormed(draft.Value())
      ensures draft.nodes == published.nodes && draft.numShards == published.numShards
      ensures forall sh: GoInt :: if sh in shards then GrownAt(published, draft.Value(), sh)
                                  else NodesForShard(draft.Value(), sh) == NodesForShard(published, sh)
    {
      draft := new Draft(published);
      for i := 0 to |shards|
        invariant fresh(draft) && WellFormed(draft.Value())
        invariant draft.nodes == published.nodes && draft.numShards == published.numShards
        invariant forall sh: GoInt :: if sh in shards[..i] then GrownAt(published, draft.Value(), sh)
                                      else NodesForShard(draft.Value(), sh) == NodesForShard(published, sh)
      {
        var sh := shards[i];
        ghost var before := draft.Value();
        assert sh in shards && sh !in shards[..i];
        assert shards[..i + 1] == shards[..i] + [sh];
        if |NodesForShard(draft.Value(), sh)| < |published.nodes| {
          assert NodesForShard(before, sh) + [] == NodesForShard(before, sh);
          var ok := draft.AddReplicas(sh, 1, []);
          assert ok;
        }
        assert forall x: GoInt | x != sh :: NodesForShard(draft.Value(), x) == NodesForShard(before, x);
        assert GrownAt(published, draft.Value(), sh) by {
          GrownHere(published, before, draft.Value(), sh);
        }
      }
      assert shards[..|shards|] == shards;
    }

    /** Take the node from every one of its shards. */
    method ShrinkAll(shards: seq<GoInt>, node: string) returns (draft: Draft)
      requires WellFormed(published) && Distinct(shards)
      requires forall sh | sh in shards :: sh in published.shards && Hosts(published, node, sh)
      ensures fresh(draft) && WellFormed(draft.Value())
      ensures draft.nodes == published.nodes && draft.numShards == published.numShards
      ensures forall sh: GoInt ::
                if sh in shards
                then Dropped(NodesForShard(published, sh), [node], 1, NodesForShard(draft.Value(), sh))
                else NodesForShard(draft.Value(), sh) == NodesForShard(published, sh)
    {
      draft := new Draft(published);
      for i := 0 to |shards|
        invariant fresh(draft) && WellFormed(draft.Value())
        invariant draft.nodes == published.nodes && draft.numShards == published.numShards
        invariant forall sh: GoInt ::
                    if sh in shards[..i]
                    then Dropped(NodesForShard(published, sh), [node], 1, NodesForShard(draft.Value(), sh))
                    else NodesForShard(draft.Value(), sh) == NodesForShard(published, sh)
      {
        var sh := shards[i];
        ghost var before := draft.Value();
        assert sh in shards && sh !in shards[..i];
        assert shards[..i + 1] == shards[..i] + [sh];
        assert Hosts(published, node, sh);
        var ok := draft.DropReplicas(sh, 1, [node]);
        assert ok;
        assert forall x: GoInt | x != sh :: NodesForShard(draft.Value(), x) == NodesForShard(before, x);
      }
      assert shards[..|shards|] == shards;
    }

    /** Move every shard off the node: first add hosts and publish, then drop the node
      from each of its shards and publish. It never fails. */
    method DrainNode(node: string)
      requires WellFormed(published)
      modifies this
      ensures WellFormed(published) && published.nodes == old(published.nodes)
              && published.numShards == old(published.numShards)
      ensures forall sh: GoInt :: DrainedAt(old(published), published, sh, node)
      ensures |updates| >= |old(updates)| && updates[..|old(updates)|] == old(updates)
      ensures Doubled(updates[|old(updates)|..])
      ensures |published.nodes| >= 2 ==> GracefulFrom(old(published), updates[|old(updates)|..])
    {
      var shards := ShardsForNode(published, node);
      ghost var s0 := published;
      HostedIsListed(s0, node);
      var draft := GrowAll(shards);
      GrownGraceful(s0, draft.Value());
      UpdateShardMapping(draft.shards);
      ghost var s1 := published;
      GrownStillHosts(s0, s1, shards, node);
      draft := ShrinkAll(shards, node);
      UpdateShardMapping(draft.shards);
      ghost var s2 := published;
      DrainDone(s0, s1, s2, shards, node);
      assert updates[|old(updates)|..] == [s1, s1, s2, s2];
      TwoPublished(s0, s1, s2);
    }
  }

  lemma HostedIsListed(s: State, node: string)
    ensures forall sh: GoInt | Hosts(s, node, sh) :: sh in s.shards
  {
  }

  lemma GrownStillHosts(s: State, t: State, shards: seq<GoInt>, node: string)
    requires forall sh: GoInt | sh in shards :: Hosts(s, node, sh) && GrownAt(s, t, sh)
    ensures forall sh | sh in shards :: sh in t.shards && Hosts(t, node, sh)
  {
  }

  lemma DrainDone(s: State, t: State, u: State, shards: seq<GoInt>, node: string)
    requires t.nodes == u.nodes && t.numShards == u.numShards
    requires forall sh: GoInt :: sh in shards <==> Hosts(s, node, sh)
    requires forall sh: GoInt ::
               if sh in shards then GrownAt(s, t, sh) else NodesForShard(t, sh) == NodesForShard(s, sh)
    requires forall sh: GoInt :: if sh in shards then Dropped(NodesForShard(t, sh), [node], 1, NodesForShard(u, sh))
                                 else NodesForShard(u, sh) == NodesForShard(t, sh)
    ensures |s.nodes| >= 2 ==> Graceful(t, u)
    ensures forall sh: GoInt :: DrainedAt(s, u, sh, node)
  {
    if |s.nodes| >= 2 {
      ShrunkGraceful(t, u);
    }
    forall sh: GoInt ensures DrainedAt(s, u, sh, node) {
      if sh in shards {
        GrowThenDrop(s, t, u, sh, node);
      }
    }
  }

  lemma GrownHere(s: State, before: State, t: State, sh: GoInt)
    requires WellFormed(s) && t.nodes == s.nodes && NodesForShard(before, sh) == NodesForShard(s, sh)
    requires if |NodesForShard(s, sh)| < |s.nodes|
             then Added(s.nodes, NodesForShard(s, sh), [], 1, NodesForShard(t, sh))
             else NodesForShard(t, sh) == NodesForShard(s, sh)
    ensures GrownAt(s, t, sh)
  {
  }
}
