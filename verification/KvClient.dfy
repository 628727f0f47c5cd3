/** The client on a fixed shard map: a Get tries the shard's hosts one after the other, a
  Set goes to all of them. Every call to a node may fail, and a Set that failed may still
  have been carried out. Clients run one operation at a time. */
module KvClient {
  import opened Common
  import opened ShardMap
  import opened KvServer

  /** What one call to a node came to: the client got no connection or an error, or the
    node's own answer. */
  datatype GetOutcome = Failed(error: int) | Replied(reply: GetReply)

  /** Does the call count as answered? A node's refusal is an error to the client. */
  predicate Answered(o: GetOutcome) {
    o.Replied? && (o.reply.Missing? || o.reply.Found?)
  }

  datatype ClientGet = NoNodes | AllFailed | Value(value: string) | NotFound

  function Answer(o: GetOutcome): ClientGet
    requires Answered(o)
  {
    if o.reply.Found? then Value(o.reply.value) else NotFound
  }

  /** The failover loop. `contacted` lists the nodes tried, in order. */
  method GetLoop(
    nodes: seq<string>, start: nat, outcomes: map<string, GetOutcome>) returns (r: ClientGet, contacted: seq<string>)
    requires Distinct(nodes) && (nodes != [] ==> start < |nodes|) && forall n | n in nodes :: n in outcomes
    ensures Distinct(contacted) && forall n | n in contacted :: n in nodes
    ensures |contacted| <= |nodes| && forall j | 0 <= j < |contacted| :: contacted[j] == nodes[(start + j) % |nodes|]
    ensures r.NoNodes? <==> nodes == []
    ensures r.AllFailed? <==> nodes != [] && forall n | n in nodes :: !Answered(outcomes[n])
    ensures r.AllFailed? ==> |contacted| == |nodes|
    ensures r.Value? || r.NotFound? ==>
              && contacted != [] && Answered(outcomes[contacted[|contacted| - 1]])
              && r == Answer(outcomes[contacted[|contacted| - 1]])
              && forall i | 0 <= i < |contacted| - 1 :: !Answered(outcomes[contacted[i]])
  {
    contacted := [];
    if |nodes| == 0 {
      return NoNodes, contacted;
    }
    for i := 0 to |nodes|
      invariant |contacted| == i
      invariant forall j {:trigger contacted[j]} | 0 <= j < i ::
                  contacted[j] == RingAt(nodes, start, j) && contacted[j] in nodes && !Answered(outcomes[contacted[j]])
      invariant forall n | n in contacted :: n in nodes
      invariant Distinct(contacted)
    {
      var node := RingAt(nodes, start, i);
      forall j | 0 <= j < i ensures contacted[j] != node {
        RingOnce(nodes, start, j, i);
      }
      contacted := contacted + [node];
      var outcome := outcomes[node];
      if Answered(outcome) {
        return Answer(outcome), contacted;
      }
    }
    forall x | 0 <= x < |nodes| ensures !Answered(outcomes[nodes[x]]) {
      var j := RingCovers(nodes, start, x);
      assert contacted[j] == nodes[x];
    }
    return AllFailed, contacted;
  }

  /** The fan-out of a Set or Delete: every host is called, whatever the others say, and it is
    an error if there is no host or any call failed. */
  method FanOut(nodes: seq<string>, failed: set<string>) returns (ok: bool, contacted: seq<string>)
    ensures ok <==> nodes != [] && forall n | n in nodes :: n !in failed
    ensures contacted == nodes
  {
    contacted := [];
    if |nodes| == 0 {
      return false, contacted;
    }
    var errors := 0;
    for i := 0 to |nodes|
      invariant contacted == nodes[..i]
      invariant errors >= 0 && (errors == 0 <==> forall j | 0 <= j < i :: nodes[j] !in failed)
    {
      contacted := contacted + [nodes[i]];
      if nodes[i] in failed {
        errors := errors + 1;
      }
    }
    return errors == 0, contacted;
  }

  // --- read after write ----------------------------------------------------

  /** What became of the Set on one node: carried out or not, reported well or not. */
  datatype SetFate = SetFate(carriedOut: bool, at: int, reportedOk: bool)

  datatype Store = Store(smap: State, servers: map<string, Shards>, now: int)

  datatype Step =
    | Tick(d: nat)
    | Sweep(node: string, shard: GoInt)
    | ClientSet(key: string, value: string, ttlMs: int, fates: map<string, SetFate>, end: int)
    | ClientDelete(key: string, reached: set<string>)

  /** A node reports success only if it carried the Set out. */
  predicate FateOk(shardOf: string -> GoInt, x: Store, key: string, n: string, f: SetFate, end: int) {
    && x.now <= f.at <= end
    && (f.reportedOk ==> f.carriedOut && n in x.servers && StatusOf(shardOf, x.servers[n], key) == Done)
  }

  predicate Enabled(shardOf: string -> GoInt, x: Store, s: Step) {
    match s
    case Tick(_) => true
    case Sweep(node, sh) => node in x.servers && sh in x.servers[node]
    case ClientSet(key, _, _, fates, end) =>
      && x.now <= end
      && forall n | n in NodesForShard(x.smap, shardOf(key)) :: n in fates && FateOk(shardOf, x, key, n, fates[n], end)
    case ClientDelete(_, _) => true
  }

  function SetReached(
    shardOf: string -> GoInt, x: Store, key: string, value: string, ttl: int, fates: map<string, SetFate>,
      n: string): Shards
    requires n in x.servers
  {
    if n in NodesForShard(x.smap, shardOf(key)) && n in fates && fates[n].carriedOut
    then Set(shardOf, x.servers[n], key, value, ttl, fates[n].at)
    else x.servers[n]
  }

  function Apply(shardOf: string -> GoInt, x: Store, s: Step): Store
    requires Enabled(shardOf, x, s)
  {
    match s
    case Tick(d) => x.(now := x.now + d)
    case Sweep(node, sh) => x.(servers := x.servers[node := SweptAt(x.servers[node], sh, x.now)])
    case ClientSet(key, value, ttl, fates, end) =>
      x.(servers := map n | n in x.servers :: SetReached(shardOf, x, key, value, ttl, fates, n), now := end)
    case ClientDelete(key, reached) =>
      x.(servers := map n | n in x.servers ::
           if n in reached && n in NodesForShard(x.smap, shardOf(key))
           then Delete(shardOf, x.servers[n], key) else x.servers[n])
  }

  function SweptAt(s: Shards, sh: GoInt, now: int): Shards
    requires sh in s
  {
    s[sh := Swept(s[sh], now)]
  }

  /** Does the client get no error back from this Set? */
  predicate SetSucceeds(shardOf: string -> GoInt, x: Store, key: string, fates: map<string, SetFate>) {
    var nodes := NodesForShard(x.smap, shardOf(key));
    nodes != [] && forall n | n in nodes :: n in fates && fates[n].reportedOk
  }

  /** Is the key written or removed by this step? */
  predicate Touches(s: Step, key: string) {
    (s.ClientSet? || s.ClientDelete?) && s.key == key
  }

  /** Every host holds the value, alive until at least `until`, stored no later than now. */
  predicate HeldBy(shardOf: string -> GoInt, x: Store, key: string, value: string, until: int, n: string) {
    && n in x.servers && shardOf(key) in x.servers[n]
    && key in x.servers[n][shardOf(key)]
    && var it := x.servers[n][shardOf(key)][key];
       it.value == value && it.at <= x.now && until <= Expiry(it)
  }

  ghost predicate HeldEverywhere(shardOf: string -> GoInt, x: Store, key: string, value: string, until: int) {
    x.now < until ==>
      forall n {:trigger HeldBy(shardOf, x, key, value, until, n)} | n in NodesForShard(x.smap, shardOf(key)) ::
        HeldBy(shardOf, x, key, value, until, n)
  }

  lemma SetLands(
    shardOf: string -> GoInt, x: Store, key: string, value: string, ttl: int, fates: map<string, SetFate>, end: int)
    requires Enabled(shardOf, x, ClientSet(key, value, ttl, fates, end)) && SetSucceeds(shardOf, x, key, fates)
    ensures HeldEverywhere(shardOf, Apply(shardOf, x, ClientSet(key, value, ttl, fates, end)), key, value,
            x.now + ttl * NANOS_PER_MS)
  {
  }

  lemma HeldStep(shardOf: string -> GoInt, x: Store, s: Step, key: string, value: string, until: int)
    requires Enabled(shardOf, x, s) && !Touches(s, key) && HeldEverywhere(shardOf, x, key, value, until)
    ensures HeldEverywhere(shardOf, Apply(shardOf, x, s), key, value, until)
  {
    var y := Apply(shardOf, x, s);
    if y.now < until {
      forall n | n in NodesForShard(y.smap, shardOf(key)) ensures HeldBy(shardOf, y, key, value, until, n) {
        assert HeldBy(shardOf, x, key, value, until, n);
        if s.Sweep? {
          DeadFromExpiry(x.servers[n][shardOf(key)][key], x.now);
        }
      }
    }
  }

  /** The store after the steps, if each was possible. */
  function Exec(shardOf: string -> GoInt, x: Store, steps: seq<Step>): Option<Store>
    decreases |steps|
  {
    if steps == [] then Some(x)
    else if Enabled(shardOf, x, steps[0]) then Exec(shardOf, Apply(shardOf, x, steps[0]), steps[1..])
    else None
  }

  lemma {:induction false} HeldAlong(
    shardOf: string -> GoInt, x: Store, steps: seq<Step>, key: string, value: string, until: int)
    requires Exec(shardOf, x, steps).Some? && HeldEverywhere(shardOf, x, key, value, until)
    requires forall i | 0 <= i < |steps| :: !Touches(steps[i], key)
    ensures HeldEverywhere(shardOf, Exec(shardOf, x, steps).value, key, value, until)
    ensures Exec(shardOf, x, steps).value.smap == x.smap
    decreases |steps|
  {
    if steps != [] {
      HeldStep(shardOf, x, steps[0], key, value, until);
      HeldAlong(shardOf, Apply(shardOf, x, steps[0]), steps[1..], key, value, until);
    }
  }

  /** Each host's outcome is a failure or its own reply at this instant. */
  predicate Honest(shardOf: string -> GoInt, x: Store, key: string, outcomes: map<string, GetOutcome>) {
    forall n | n in outcomes && outcomes[n].Replied? ::
      n in x.servers && outcomes[n].reply == Get(shardOf, x.servers[n], key, x.now)
  }

  /** Read after write: once a Set has returned without error, and until its time to live
    has passed since it began, whatever else happens to other keys, every Get of the key
    that does not fail returns the value, whichever host answers. */
  method ReadAfterWrite(shardOf: string -> GoInt, x: Store, key: string, value: string, ttl: int,
                        fates: map<string, SetFate>, end: int, steps: seq<Step>,
                        start: nat, outcomes: map<string, GetOutcome>) returns (r: ClientGet)
    requires key != "" && WellFormed(x.smap)
    requires Enabled(shardOf, x, ClientSet(key, value, ttl, fates, end)) && SetSucceeds(shardOf, x, key, fates)
    requires forall i | 0 <= i < |steps| :: !Touches(steps[i], key)
    requires Exec(shardOf, Apply(shardOf, x, ClientSet(key, value, ttl, fates, end)), steps).Some?
    requires var y := Exec(shardOf, Apply(shardOf, x, ClientSet(key, value, ttl, fates, end)), steps).value;
             y.now < x.now + ttl * NANOS_PER_MS && Honest(shardOf, y, key, outcomes)
    requires start < |NodesForShard(x.smap, shardOf(key))|
    requires forall n | n in NodesForShard(x.smap, shardOf(key)) :: n in outcomes
    ensures r == Value(value) || r == AllFailed
    ensures r == AllFailed <==> forall n | n in NodesForShard(x.smap, shardOf(key)) :: outcomes[n].Failed?
  {
    ghost var y0 := Apply(shardOf, x, ClientSet(key, value, ttl, fates, end));
    ghost var y := Exec(shardOf, y0, steps).value;
    SetLands(shardOf, x, key, value, ttl, fates, end);
    HeldAlong(shardOf, y0, steps, key, value, x.now + ttl * NANOS_PER_MS);
    forall n | n in NodesForShard(x.smap, shardOf(key)) && outcomes[n].Replied?
      ensures Answered(outcomes[n]) && Answer(outcomes[n]) == Value(value)
    {
      assert HeldBy(shardOf, y, key, value, x.now + ttl * NANOS_PER_MS, n);
      DeadFromExpiry(y.servers[n][shardOf(key)][key], y.now);
    }
    ghost var contacted;
    var nodes := NodesForShard(x.smap, shardOf(key));
    r, contacted := GetLoop(nodes, start, outcomes);
    if r != AllFailed {
      assert contacted[|contacted| - 1] in contacted;
    }
  }
}
