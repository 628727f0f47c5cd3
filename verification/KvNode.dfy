/** The cache node as the object it is: its table of hosted shards is changed in place by
  client calls, by the sweep and by shard map updates, one at a time under its locks. */
module KvNode {
  import opened Common
  import opened ShardMap
  import opened KvServer

  datatype ShardValue = ShardValue(key: string, value: string, ttlMs: int)

  /** The list names each entry of the map once. */
  ghost predicate Lists(values: seq<ShardValue>, contents: map<string, Copied>) {
    && (forall i | 0 <= i < |values| ::
          values[i].key in contents && contents[values[i].key] == Copied(values[i].value, values[i].ttlMs))
    && (forall i, j | 0 <= i < j < |values| :: values[i].key != values[j].key)
    && (forall k | k in contents :: exists i :: 0 <= i < |values| && values[i].key == k)
  }

  /** Store one fetched value under the shard its key hashes to. */
  function Store(shardOf: string -> GoInt, s: Shards, v: ShardValue, now: int): Shards
    requires shardOf(v.key) in s
  {
    s[shardOf(v.key) := s[shardOf(v.key)][v.key := Item(v.value, v.ttlMs, now)]]
  }

  /** The shard with the first i values stored over it. */
  ghost function MergedTo(base: Shard, values: seq<ShardValue>, i: nat, clock: map<string, int>): Shard
    requires i <= |values| && forall j | 0 <= j < i :: values[j].key in clock
  {
    if i == 0 then base
    else
      var v := values[i - 1];
      MergedTo(base, values, i - 1, clock)[v.key := Item(v.value, v.ttlMs, clock[v.key])]
  }

  lemma {:induction false} MergedToHas(base: Shard, values: seq<ShardValue>, i: nat, clock: map<string, int>)
    requires i <= |values| && forall j | 0 <= j < i :: values[j].key in clock
    requires forall x, y | 0 <= x < y < |values| :: values[x].key != values[y].key
    ensures var a := MergedTo(base, values, i, clock);
            && (forall j | 0 <= j < i ::
                  && values[j].key in a
                  && a[values[j].key] == Item(values[j].value, values[j].ttlMs, clock[values[j].key]))
            && (forall k | k in base :: k in a)
            && (forall k | k in a :: (k in base && a[k] == base[k]) || exists j :: 0 <= j < i && values[j].key == k)
  {
    if i > 0 {
      MergedToHas(base, values, i - 1, clock);
      assert values[i - 1].key == values[i - 1].key;
    }
  }

  lemma MergedAt(
    base: Shard, values: seq<ShardValue>, contents: map<string, Copied>, clock: map<string, int>, k: string)
    requires Lists(values, contents) && contents.Keys <= clock.Keys
    ensures var a, b := MergedTo(base, values, |values|, clock), base + Filled(contents, clock);
            (k in a <==> k in b) && (k in a ==> a[k] == b[k])
  {
    MergedToHas(base, values, |values|, clock);
    if k in contents {
      var j :| 0 <= j < |values| && values[j].key == k;
    }
  }

  lemma MergedWhole(base: Shard, values: seq<ShardValue>, contents: map<string, Copied>, clock: map<string, int>)
    requires Lists(values, contents) && contents.Keys <= clock.Keys
    ensures MergedTo(base, values, |values|, clock) == base + Filled(contents, clock)
  {
    var a, b := MergedTo(base, values, |values|, clock), base + Filled(contents, clock);
    forall k ensures (k in a <==> k in b) && (k in a ==> a[k] == b[k]) {
      MergedAt(base, values, contents, clock, k);
    }
  }

  class KvServerImpl {
    const nodeName: string
    const shardOf: string -> GoInt
    var availableShards: Shards

    constructor (name: string, shardOf: string -> GoInt)
      ensures availableShards == map[] && this.shardOf == shardOf && nodeName == name
    {
      nodeName, this.shardOf, availableShards := name, shardOf, map[];
    }

    method Get(key: string, now: int) returns (reply: GetReply)
      ensures reply == KvServer.Get(shardOf, availableShards, key, now)
    {
      if key == "" {
        return GetInvalid;
      }
      var shardID := shardOf(key);
      if shardID !in availableShards {
        return GetNoShard;
      }
      var shard := availableShards[shardID];
      if key !in shard {
        return Missing;
      }
      var item := shard[key];
      if ElapsedMs(item, now) >= item.ttlMs {
        return Missing;
      }
      return Found(item.value);
    }

    method Set(key: string, value: string, ttlMs: int, now: int) returns (status: Status)
      modifies this
      ensures availableShards == KvServer.Set(shardOf, old(availableShards), key, value, ttlMs, now)
      ensures status == StatusOf(shardOf, old(availableShards), key)
    {
      if key == "" {
        return Invalid;
      }
      var shardID := shardOf(key);
      if shardID !in availableShards {
        return NoShard;
      }
      availableShards := availableShards[shardID := availableShards[shardID][key := Item(value, ttlMs, now)]];
      return Done;
    }

    method Delete(key: string) returns (status: Status)
      modifies this
      ensures availableShards == KvServer.Delete(shardOf, old(availableShards), key)
      ensures status == StatusOf(shardOf, old(availableShards), key)
    {
      if key == "" {
        return Invalid;
      }
      var shardID := shardOf(key);
      if shardID !in availableShards {
        return NoShard;
      }
      availableShards := availableShards[shardID := availableShards[shardID] - {key}];
      return Done;
    }

    /** The live values of a shard, in any order, with their remaining time. The lock of the
      shard is taken before the test whether there is one, so a missing shard is a panic. */
    method GetShardContents(shard: GoInt, now: int) returns (panicked: bool, values: seq<ShardValue>)
      ensures panicked <==> shard !in availableShards
      ensures !panicked ==> Lists(values, Contents(availableShards[shard], now))
    {
      if shard !in availableShards {
        return true, [];
      }
      panicked := false;
      var data := availableShards[shard];
      ghost var all := Contents(data, now);
      values := [];
      var left := data.Keys;
      while left != {}
        invariant left <= data.Keys
        invariant forall i | 0 <= i < |values| ::
                    values[i].key in all && values[i].key !in left
                      && all[values[i].key] == Copied(values[i].value, values[i].ttlMs)
        invariant forall i, j | 0 <= i < j < |values| :: values[i].key != values[j].key
        invariant forall k | k in all && k !in left :: exists i :: 0 <= i < |values| && values[i].key == k
      {
        var key :| key in left;
        var item := data[key];
        ghost var before := values;
        if ElapsedMs(item, now) < item.ttlMs {
          values := values + [ShardValue(key, item.value, item.ttlMs - ElapsedMs(item, now))];
          assert values[|before|].key == key;
        }
        left := left - {key};
        forall k | k in all && k !in left ensures exists i :: 0 <= i < |values| && values[i].key == k {
          if k != key {
            var i :| 0 <= i < |before| && before[i].key == k;
            assert values[i].key == k;
          }
        }
      }
    }

    /** One tick of a shard's sweep: delete what has expired. */
    method SweepShard(shard: GoInt, now: int)
      requires shard in availableShards
      modifies this
      ensures availableShards == old(availableShards)[shard := Swept(old(availableShards)[shard], now)]
      ensures availableShards.Keys == old(availableShards).Keys
      ensures forall sh | sh in availableShards && sh != shard :: availableShards[sh] == old(availableShards)[sh]
      ensures SweptOf(old(availableShards)[shard], now, availableShards[shard])
    {
      SweptMeets(availableShards[shard], now);
      var data := availableShards[shard];
      var kept := data;
      var left := data.Keys;
      while left != {}
        invariant left <= data.Keys
        invariant forall k :: k in kept <==> k in data && (k in left || !Dead(data[k], now))
        invariant forall k | k in kept :: kept[k] == data[k]
      {
        var key :| key in left;
        if ElapsedMs(data[key], now) >= data[key].ttlMs {
          kept := kept - {key};
        }
        left := left - {key};
      }
      assert kept == Swept(data, now);
      availableShards := availableShards[shard := kept];
    }

    // --- shard map updates -------------------------------------------------

    /** The assigned shards the node does not have. */
    method NewShards(mine: seq<GoInt>) returns (added: set<GoInt>)
      ensures added == (set sh | sh in mine) - availableShards.Keys
    {
      added := {};
      for i := 0 to |mine|
        invariant added == (set sh | sh in mine[..i] && sh !in availableShards)
      {
        assert mine[..i + 1] == mine[..i] + [mine[i]];
        if mine[i] !in availableShards {
          added := added + {mine[i]};
        }
      }
      assert mine[..|mine|] == mine;
    }

    /** The shards the node has and is not assigned. */
    method LostShards(mine: seq<GoInt>) returns (removed: set<GoInt>)
      ensures removed == availableShards.Keys - set sh | sh in mine
    {
      removed := {};
      var left := availableShards.Keys;
      while left != {}
        invariant left <= availableShards.Keys
        invariant removed == (set sh | sh in availableShards && sh !in left && sh !in mine)
      {
        var shard :| shard in left;
        if shard !in mine {
          removed := removed + {shard};
        }
        left := left - {shard};
      }
    }

    /** Each new shard starts empty. */
    method AddEmpty(added: set<GoInt>)
      requires added !! availableShards.Keys
      modifies this
      ensures availableShards == Begun(old(availableShards), added)
    {
      ghost var before := availableShards;
      var left := added;
      while left != {}
        invariant left <= added
        invariant availableShards == Begun(before, added - left)
      {
        var shard :| shard in left;
        availableShards := availableShards[shard := map[]];
        left := left - {shard};
      }
      assert added - left == added;
    }

    /** First half of an update: which shards come and go; the new ones start empty. The
      lock is then let go while their contents are fetched. */
    method BeginUpdate(mine: seq<GoInt>) returns (added: set<GoInt>, removed: set<GoInt>)
      modifies this
      ensures var hosted := set sh | sh in mine;
              && added == hosted - old(availableShards).Keys && removed == old(availableShards).Keys - hosted
              && availableShards == Begun(old(availableShards), hosted)
              && BegunOf(old(availableShards), hosted, availableShards)
    {
      ghost var before, hosted := availableShards, set sh | sh in mine;
      added := NewShards(mine);
      removed := LostShards(mine);
      AddEmpty(added);
      assert Begun(before, added) == Begun(before, hosted);
      BegunMeets(before, hosted);
    }

    /** Merge one peer's answer: each value goes where its key hashes to, which is the shard
      that was asked for, over whatever is there. */
    method MergeResponse(
      shard: GoInt, values: seq<ShardValue>, ghost contents: map<string, Copied>, clock: map<string, int>)
      requires shard in availableShards && Lists(values, contents) && contents.Keys <= clock.Keys
      requires forall k | k in contents :: shardOf(k) == shard
      modifies this
      ensures availableShards == old(availableShards)[shard := old(availableShards)[shard] + Filled(contents, clock)]
      ensures MergedOver(old(availableShards)[shard], contents, clock, availableShards[shard])
    {
      ghost var before := availableShards;
      for i := 0 to |values|
        invariant availableShards == before[shard := MergedTo(before[shard], values, i, clock)]
      {
        availableShards := Store(shardOf, availableShards, values[i], clock[values[i].key]);
      }
      MergedWhole(before[shard], values, contents, clock);
    }

    /** Merge every answer, in any order. */
    method MergeAll(
      responses: map<GoInt, seq<ShardValue>>, ghost fetched: map<GoInt, map<string, Copied>>, clock: map<string, int>)
      requires responses.Keys == fetched.Keys <= availableShards.Keys && Stamped(fetched, clock)
      requires forall sh | sh in fetched :: ResponseOk(shardOf, sh, responses[sh], fetched[sh])
      modifies this
      ensures availableShards.Keys == old(availableShards).Keys
      ensures forall sh | sh in availableShards :: availableShards[sh] ==
                if sh in fetched then old(availableShards)[sh] + Filled(fetched[sh], clock)
                else old(availableShards)[sh]
    {
      ghost var before := availableShards;
      var left := responses.Keys;
      while left != {}
        invariant left <= responses.Keys && availableShards.Keys == before.Keys
        invariant forall sh | sh in before :: availableShards[sh] ==
                    if sh in fetched && sh !in left then before[sh] + Filled(fetched[sh], clock) else before[sh]
      {
        var sh :| sh in left;
        assert ResponseOk(shardOf, sh, responses[sh], fetched[sh]);
        MergeResponse(sh, responses[sh], fetched[sh], clock);
        left := left - {sh};
      }
    }

    /** Second half, under the lock again: merge every answer, then let go of the shards that
      are no longer assigned. */
    method FinishUpdate(responses: map<GoInt, seq<ShardValue>>, ghost fetched: map<GoInt, map<string, Copied>>,
                        removed: set<GoInt>, clock: map<string, int>)
      requires responses.Keys == fetched.Keys <= availableShards.Keys && Stamped(fetched, clock)
      requires forall sh | sh in fetched :: ResponseOk(shardOf, sh, responses[sh], fetched[sh])
      modifies this
      ensures availableShards == Finished(old(availableShards), removed, fetched, clock)
      ensures FinishedOf(old(availableShards), removed, fetched, clock, availableShards)
    {
      FinishedMeets(availableShards, removed, fetched, clock);
      MergeAll(responses, fetched, clock);
      availableShards := availableShards - removed;
    }

    /** Ask for every new shard in turn. */
    method RetrieveAll(
      smap: State, added: set<GoInt>, answers: map<GoInt, map<string, seq<ShardValue>>>,
      ghost contents: map<GoInt, map<string, map<string, Copied>>>, starts: map<GoInt, nat>, clock: map<string, int>)
      returns (responses: map<GoInt, seq<ShardValue>>, ghost fetched: map<GoInt, map<string, Copied>>)
      requires forall sh {:trigger CanAsk(shardOf, smap, sh, answers, contents, starts, clock)} | sh in added ::
                 CanAsk(shardOf, smap, sh, answers, contents, starts, clock)
      ensures responses.Keys == fetched.Keys == added && Stamped(fetched, clock)
      ensures forall sh | sh in fetched ::
                && ResponseOk(shardOf, sh, responses[sh], fetched[sh])
                && sh in contents && FromSomeHost(NodesForShard(smap, sh), nodeName, contents[sh], fetched[sh])
    {
      responses, fetched := map[], map[];
      var left := added;
      while left != {}
        invariant left <= added && responses.Keys == fetched.Keys == added - left && Stamped(fetched, clock)
        invariant forall sh | sh in fetched ::
                    && ResponseOk(shardOf, sh, responses[sh], fetched[sh])
                    && sh in contents && FromSomeHost(NodesForShard(smap, sh), nodeName, contents[sh], fetched[sh])
      {
        var sh :| sh in left;
        assert CanAsk(shardOf, smap, sh, answers, contents, starts, clock);
        var values, from := RetrieveShardData(NodesForShard(smap, sh), nodeName, answers[sh], starts[sh]);
        responses := responses[sh := values];
        fetched := fetched[sh := if from.Some? then contents[sh][from.value] else map[]];
        left := left - {sh};
      }
    }

    /** The whole handler, with nothing in between its halves: the node then hosts exactly
      its assigned shards, those it already had untouched, each new one filled with the
      answer of another host, or left empty if no other host answered. `answers` says what
      each host would answer for each shard, `starts` where each search begins. */
    method HandleShardMapUpdate(
      smap: State, answers: map<GoInt, map<string, seq<ShardValue>>>,
      ghost contents: map<GoInt, map<string, map<string, Copied>>>,
      starts: map<GoInt, nat>, clock: map<string, int>) returns (ghost fetched: map<GoInt, map<string, Copied>>)
      requires forall sh {:trigger CanAsk(shardOf, smap, sh, answers, contents, starts, clock)} |
                 sh in Mine(smap, nodeName) ::
                 CanAsk(shardOf, smap, sh, answers, contents, starts, clock)
      modifies this
      ensures fetched.Keys == Mine(smap, nodeName) - old(availableShards).Keys && Stamped(fetched, clock)
      ensures forall sh | sh in fetched ::
                sh in contents && FromSomeHost(NodesForShard(smap, sh), nodeName, contents[sh], fetched[sh])
      ensures availableShards == Updated(old(availableShards), Mine(smap, nodeName), fetched, clock)
      ensures UpdatedOf(old(availableShards), Mine(smap, nodeName), fetched, clock, availableShards)
    {
      ghost var before := availableShards;
      var mine := ShardsForNode(smap, nodeName);
      ghost var hosted := Mine(smap, nodeName);
      assert (set sh | sh in mine) == hosted;
      var added, removed := BeginUpdate(mine);
      assert availableShards == Begun(before, hosted) && removed == before.Keys - hosted;
      var responses;
      responses, fetched := RetrieveAll(smap, added, answers, contents, starts, clock);
      assert added == hosted - before.Keys && fetched.Keys == added;
      FinishedBegun(before, hosted, fetched, clock);
      FinishUpdate(responses, fetched, removed, clock);
      UpdatedMeets(before, hosted, fetched, clock);
    }
  }

  /** The shard after a sweep: of the entries stored by now, exactly those before their expiry
    are left, as they were. */
  predicate SweptOf(before: Shard, now: int, after: Shard) {
    && (forall k | k in after :: k in before && after[k] == before[k])
    && (forall k | k in before && before[k].at <= now :: k in after <==> now < Expiry(before[k]))
  }

  lemma SweptMeets(shard: Shard, now: int)
    ensures SweptOf(shard, now, Swept(shard, now))
  {
    forall k | k in shard && shard[k].at <= now ensures k in Swept(shard, now) <==> now < Expiry(shard[k]) {
      DeadFromExpiry(shard[k], now);
    }
  }

  /** The answer laid over the shard: its keys as answered, each from its instant on, and all
    other keys as before. */
  predicate MergedOver(before: Shard, contents: map<string, Copied>, clock: map<string, int>, after: Shard) {
    && contents.Keys <= clock.Keys && after.Keys == before.Keys + contents.Keys
    && forall k | k in after ::
         if k in contents
         then after[k].value == contents[k].value && after[k].ttlMs == contents[k].ttlMs && after[k].at == clock[k]
         else after[k] == before[k]
  }

  /** The node with all shards it had as they were, and each new one empty. */
  predicate BegunOf(before: Shards, mine: set<GoInt>, after: Shards) {
    && after.Keys == before.Keys + mine
    && forall sh | sh in after :: after[sh] == if sh in before then before[sh] else map[]
  }

  lemma BegunMeets(s: Shards, mine: set<GoInt>)
    ensures BegunOf(s, mine, Begun(s, mine))
  {
  }

  /** The node without the shards to let go, with each answer laid over its shard. */
  predicate FinishedOf(
    before: Shards, removed: set<GoInt>, fetched: map<GoInt, map<string, Copied>>, clock: map<string, int>,
    after: Shards)
  {
    && after.Keys == before.Keys - removed
    && forall sh | sh in after ::
         if sh in fetched then MergedOver(before[sh], fetched[sh], clock, after[sh]) else after[sh] == before[sh]
  }

  lemma FinishedMeets(
    s: Shards, removed: set<GoInt>, fetched: map<GoInt, map<string, Copied>>, clock: map<string, int>)
    requires Stamped(fetched, clock)
    ensures FinishedOf(s, removed, fetched, clock, Finished(s, removed, fetched, clock))
  {
  }

  /** The node with exactly the assigned shards: those it had as they were, and each new one
    with what was fetched for it and nothing else. */
  predicate UpdatedOf(
    before: Shards, mine: set<GoInt>, fetched: map<GoInt, map<string, Copied>>, clock: map<string, int>, after: Shards)
  {
    && after.Keys == mine
    && forall sh | sh in after ::
         if sh in before then after[sh] == before[sh]
         else sh in fetched && MergedOver(map[], fetched[sh], clock, after[sh])
  }

  lemma UpdatedMeets(s: Shards, mine: set<GoInt>, fetched: map<GoInt, map<string, Copied>>, clock: map<string, int>)
    requires mine - s.Keys <= fetched.Keys && Stamped(fetched, clock)
    ensures UpdatedOf(s, mine, fetched, clock, Updated(s, mine, fetched, clock))
  {
  }

  /** The list holds the contents of the shard. */
  ghost predicate ResponseOk(
    shardOf: string -> GoInt, shard: GoInt, values: seq<ShardValue>, contents: map<string, Copied>) {
    Lists(values, contents) && forall k | k in contents :: shardOf(k) == shard
  }

  /** The hosts of the shard may be asked: what each would answer belongs to the shard. */
  ghost predicate CanAsk(
    shardOf: string -> GoInt, smap: State, shard: GoInt, answers: map<GoInt, map<string, seq<ShardValue>>>,
    contents: map<GoInt, map<string, map<string, Copied>>>, starts: map<GoInt, nat>, clock: map<string, int>)
  {
    && shard in answers && shard in contents && answers[shard].Keys == contents[shard].Keys
    && shard in starts && starts[shard] < |NodesForShard(smap, shard)|
    && forall n | n in answers[shard] ::
         ResponseOk(shardOf, shard, answers[shard][n], contents[shard][n]) && contents[shard][n].Keys <= clock.Keys
  }

  /** The contents some other host answered with; nothing only if none answers. */
  ghost predicate FromSomeHost(
    hosts: seq<string>, me: string, contents: map<string, map<string, Copied>>, got: map<string, Copied>)
  {
    || (exists n :: n in hosts && n != me && n in contents && contents[n] == got)
    || (got == map[] && forall n | n in hosts && n != me :: n !in contents)
  }

  /** The host at place i of the ring from `start` is the first other one that answers. */
  ghost predicate FirstFrom(
    hosts: seq<string>, me: string, answering: set<string>, start: nat, i: nat, host: string)
    requires i < |hosts|
  {
    && host == hosts[(start + i) % |hosts|] && host != me && host in answering
    && forall j {:trigger RingAt(hosts, start, j)} | 0 <= j < i ::
         RingAt(hosts, start, j) == me || RingAt(hosts, start, j) !in answering
  }

  /** Ask the other hosts of a shard in turn, from a random start, for its contents; the
    first answer counts. If no host answers, the contents are taken to be empty. */
  method RetrieveShardData(hosts: seq<string>, me: string, answers: map<string, seq<ShardValue>>, start: nat)
    returns (values: seq<ShardValue>, from: Option<string>)
    requires |hosts| > 0 && start < |hosts|
    ensures from.None? <==> forall n | n in hosts && n != me :: n !in answers
    ensures from.None? ==> values == []
    ensures from.Some? ==>
              && from.value in hosts && from.value != me && from.value in answers
              && values == answers[from.value]
              && exists i: nat :: i < |hosts| && FirstFrom(hosts, me, answers.Keys, start, i, from.value)
  {
    for i := 0 to |hosts|
      invariant forall j {:trigger RingAt(hosts, start, j)} | 0 <= j < i ::
                  RingAt(hosts, start, j) == me || RingAt(hosts, start, j) !in answers
    {
      var node := RingAt(hosts, start, i);
      if node != me && node in answers {
        assert FirstFrom(hosts, me, answers.Keys, start, i, node);
        return answers[node], Some(node);
      }
    }
    forall x | 0 <= x < |hosts| ensures hosts[x] == me || hosts[x] !in answers {
      var j := RingCovers(hosts, start, x);
    }
    return [], None;
  }
}
