/** Whole runs of the cache under graceful shard moves: nothing that is promised and still to
  live is lost, and exactly when a host that the map names cannot answer yet. */
module KvRuns {
  import opened Common
  import opened ShardMap
  import opened ShardEdits
  import opened KvServer
  import opened KvCluster

  /** A settled cluster whose nodes hold nothing yet. */
  ghost predicate Start(c: Cluster) {
    && WellFormed(c.smap) && c.prev == c.smap && c.twice && c.pending == {} && c.promises == map[]
    && c.nodes.Keys == c.smap.nodes.Keys
    && forall n | n in c.nodes :: c.nodes[n] == Node(map sh | sh in Mine(c.smap, n) :: map[], Idle)
  }

  ghost predicate StepAt(shardOf: string -> GoInt, states: seq<Cluster>, steps: seq<Step>, k: nat)
    requires k < |steps| < |states|
  {
    Enabled(shardOf, states[k], steps[k]) && states[k + 1] == Apply(shardOf, states[k], steps[k])
  }

  /** Any run, whatever is published. */
  ghost predicate IsRun(shardOf: string -> GoInt, states: seq<Cluster>, steps: seq<Step>) {
    && |states| == |steps| + 1 && Start(states[0])
    && forall k {:trigger StepAt(shardOf, states, steps, k)} | 0 <= k < |steps| :: StepAt(shardOf, states, steps, k)
  }

  /** A run whose first k steps are kind: what is published is graceful, and a fetch fails
    only if there is nobody else to ask. */
  ghost predicate KindRun(shardOf: string -> GoInt, states: seq<Cluster>, steps: seq<Step>, k: nat) {
    && IsRun(shardOf, states, steps) && k <= |steps|
    && forall j {:trigger StepAt(shardOf, states, steps, j)} | 0 <= j < k ::
         StepAt(shardOf, states, steps, j) && Kind(states[j], steps[j])
  }

  lemma StartInv(shardOf: string -> GoInt, c: Cluster)
    requires Start(c)
    ensures Inv(shardOf, c)
  {
    forall n | n in c.nodes ensures NodeOk(c, n) && StoreOk(shardOf, c.nodes[n], c.now) {
      assert c.nodes[n] == Node(map sh | sh in Mine(c.smap, n) :: map[], Idle);
    }
    forall key, n ensures PromiseOk(shardOf, c, key, n) {
    }
    GracefulAgain(c.smap);
  }

  lemma {:induction false} RunInv(shardOf: string -> GoInt, states: seq<Cluster>, steps: seq<Step>, k: nat)
    requires KindRun(shardOf, states, steps, k)
    ensures Inv(shardOf, states[k])
  {
    if k == 0 {
      StartInv(shardOf, states[0]);
    } else {
      RunInv(shardOf, states, steps, k - 1);
      assert StepAt(shardOf, states, steps, k - 1) && Kind(states[k - 1], steps[k - 1]);
      StepInv(shardOf, states[k - 1], steps[k - 1]);
    }
  }

  // --- sweeping, and where values come from --------------------------------

  /** Nothing is stored later than now. */
  predicate Dated(nd: Node, now: int) {
    forall sh | sh in nd.shards :: forall k | k in nd.shards[sh] :: nd.shards[sh][k].at <= now
  }

  lemma DatedStep(shardOf: string -> GoInt, c: Cluster, s: Step, n: string)
    requires Enabled(shardOf, c, s) && n in c.nodes && Dated(c.nodes[n], c.now)
    ensures n in Apply(shardOf, c, s).nodes && Dated(Apply(shardOf, c, s).nodes[n], Apply(shardOf, c, s).now)
  {
    if s.Finish? && s.node == n {
      assert StampsFit(c.nodes[n].phase.got, s.stamps, c.now);
    }
  }

  lemma {:induction false} RunDated(shardOf: string -> GoInt, states: seq<Cluster>, steps: seq<Step>, k: nat, n: string)
    requires IsRun(shardOf, states, steps) && k < |states| && n in states[0].nodes
    ensures n in states[k].nodes && Dated(states[k].nodes[n], states[k].now)
  {
    if k > 0 {
      RunDated(shardOf, states, steps, k - 1, n);
      assert StepAt(shardOf, states, steps, k - 1);
      DatedStep(shardOf, states[k - 1], steps[k - 1], n);
    }
  }

  lemma {:induction false} SameNodes(shardOf: string -> GoInt, states: seq<Cluster>, steps: seq<Step>, k: nat)
    requires IsRun(shardOf, states, steps) && k < |states|
    ensures states[k].nodes.Keys == states[0].nodes.Keys
  {
    if k > 0 {
      SameNodes(shardOf, states, steps, k - 1);
      assert StepAt(shardOf, states, steps, k - 1);
    }
  }

  /** In every run a sweep deletes exactly what has expired: of the swept shard an entry is
    left if and only if it is before its expiry, and nothing else changes on any node. */
  lemma SweepOutcome(
    shardOf: string -> GoInt, states: seq<Cluster>, steps: seq<Step>, k: nat, n: string, sh: GoInt, key: string)
    requires IsRun(shardOf, states, steps) && k < |steps| && steps[k] == Call(n, OpSweep(sh))
    ensures n in states[k].nodes && sh in states[k].nodes[n].shards
    ensures n in states[k + 1].nodes && sh in states[k + 1].nodes[n].shards
    ensures var a, b := states[k].nodes[n].shards[sh], states[k + 1].nodes[n].shards[sh];
            && (key in b <==> key in a && states[k].now < Expiry(a[key]))
            && (key in b ==> b[key] == a[key])
            && states[k + 1].nodes == states[k].nodes[n := states[k + 1].nodes[n]]
            && states[k + 1].nodes[n].shards == states[k].nodes[n].shards[sh := b]
            && states[k + 1].now == states[k].now
  {
    assert StepAt(shardOf, states, steps, k);
    SameNodes(shardOf, states, steps, k);
    RunDated(shardOf, states, steps, k, n);
    var a := states[k].nodes[n].shards[sh];
    if key in a {
      DeadFromExpiry(a[key], states[k].now);
    }
  }

  /** Some call before step k has set the key to the value. */
  ghost predicate WasSet(steps: seq<Step>, k: nat, key: string, value: string)
    requires k <= |steps|
  {
    exists j :: 0 <= j < k && SetsAt(steps[j], key, value)
  }

  predicate SetsAt(s: Step, key: string, value: string) {
    s.Call? && s.op.OpSet? && s.op.key == key && s.op.value == value
  }

  /** Whatever the node holds or has been sent was set. */
  ghost predicate FromCalls(nd: Node, steps: seq<Step>, k: nat)
    requires k <= |steps|
  {
    && (forall sh | sh in nd.shards :: ShardFromCalls(nd.shards[sh], steps, k))
    && (nd.phase.Copying? ==>
          forall sh | sh in nd.phase.got :: AnswerFromCalls(nd.phase.got[sh].contents, steps, k))
  }

  ghost predicate ShardFromCalls(shard: Shard, steps: seq<Step>, k: nat)
    requires k <= |steps|
  {
    forall key | key in shard :: WasSet(steps, k, key, shard[key].value)
  }

  ghost predicate AnswerFromCalls(contents: map<string, Copied>, steps: seq<Step>, k: nat)
    requires k <= |steps|
  {
    forall key | key in contents :: WasSet(steps, k, key, contents[key].value)
  }

  lemma SetStays(steps: seq<Step>, k: nat, key: string, value: string)
    requires k < |steps|
    ensures WasSet(steps, k, key, value) ==> WasSet(steps, k + 1, key, value)
    ensures SetsAt(steps[k], key, value) ==> WasSet(steps, k + 1, key, value)
  {
  }

  lemma FromCallsLater(nd: Node, steps: seq<Step>, k: nat)
    requires k < |steps| && FromCalls(nd, steps, k)
    ensures FromCalls(nd, steps, k + 1)
  {
    forall key, value ensures WasSet(steps, k, key, value) ==> WasSet(steps, k + 1, key, value) {
      SetStays(steps, k, key, value);
    }
  }

  lemma FromCallsCall(shardOf: string -> GoInt, nd: Node, op: Op, now: int, steps: seq<Step>, k: nat)
    requires k < |steps| && FromCalls(nd, steps, k + 1) && Allowed(nd.shards, op) && steps[k].Call? && steps[k].op == op
    ensures FromCalls(nd.(shards := Serve(shardOf, nd.shards, Event(op, now)).0), steps, k + 1)
  {
    if op.OpSet? {
      SetStays(steps, k, op.key, op.value);
    }
  }

  lemma FromCallsStep(shardOf: string -> GoInt, c: Cluster, steps: seq<Step>, k: nat, n: string)
    requires k < |steps| && Enabled(shardOf, c, steps[k]) && n in c.nodes
    requires forall m | m in c.nodes :: FromCalls(c.nodes[m], steps, k)
    ensures n in Apply(shardOf, c, steps[k]).nodes && FromCalls(Apply(shardOf, c, steps[k]).nodes[n], steps, k + 1)
  {
    var s, nd := steps[k], c.nodes[n];
    FromCallsLater(nd, steps, k);
    if s.Call? && s.node == n {
      FromCallsCall(shardOf, nd, s.op, c.now, steps, k);
    } else if s.Fetch? && s.node == n && s.peer.Some? {
      FromCallsLater(c.nodes[s.peer.value], steps, k);
      assert ShardFromCalls(c.nodes[s.peer.value].shards[s.shard], steps, k + 1);
    } else if s.Finish? && s.node == n {
      FromCallsFinish(nd, s.stamps, steps, k + 1);
    }
  }

  lemma FromCallsFinish(nd: Node, stamps: map<string, int>, steps: seq<Step>, k: nat)
    requires k <= |steps| && FromCalls(nd, steps, k) && nd.phase.Copying? && Stamped(Fetched(nd.phase.got), stamps)
    ensures FromCalls(Node(Finished(nd.shards, nd.phase.removed, Fetched(nd.phase.got), stamps), Idle), steps, k)
  {
    var after := Finished(nd.shards, nd.phase.removed, Fetched(nd.phase.got), stamps);
    forall sh | sh in after ensures ShardFromCalls(after[sh], steps, k) {
      assert ShardFromCalls(nd.shards[sh], steps, k);
      assert sh in nd.phase.got ==> AnswerFromCalls(nd.phase.got[sh].contents, steps, k);
    }
  }

  /** In every run, whatever is published and however nodes copy from each other, a value
    that some node holds for a key was set for that key by an earlier call. */
  lemma {:induction false} ValueWasSet(
    shardOf: string -> GoInt, states: seq<Cluster>, steps: seq<Step>, k: nat, n: string)
    requires IsRun(shardOf, states, steps) && k < |states| && n in states[k].nodes
    ensures FromCalls(states[k].nodes[n], steps, k)
  {
    if k > 0 {
      var j := k - 1;
      var c := states[j];
      SameNodes(shardOf, states, steps, k);
      SameNodes(shardOf, states, steps, j);
      forall m | m in c.nodes ensures FromCalls(c.nodes[m], steps, j) {
        ValueWasSet(shardOf, states, steps, j, m);
      }
      assert StepAt(shardOf, states, steps, j);
      FromCallsStep(shardOf, c, steps, j, n);
    }
  }

  // --- conservation --------------------------------------------------------

  /** The key is promised in this state and still to live. */
  predicate Promised(c: Cluster, key: string) {
    key != "" && key in c.promises && c.now < c.promises[key].expiry
  }

  /** What a host named by the map answers for a promised key, exactly: it refuses as long as
    it has not begun its update, it says that there is no such key from the beginning to the
    end of its copy, and it answers with the value in all other cases. */
  lemma HostAnswers(shardOf: string -> GoInt, states: seq<Cluster>, steps: seq<Step>, k: nat, key: string, n: string)
    requires KindRun(shardOf, states, steps, k) && Promised(states[k], key)
    requires n in states[k].nodes && Hosts(states[k].smap, n, shardOf(key))
    ensures var nd, sh := states[k].nodes[n], shardOf(key);
            var reply := Get(shardOf, nd.shards, key, states[k].now);
            && (reply == GetNoShard <==> sh !in nd.shards)
            && (reply == Missing <==> sh in nd.shards && CopyingAt(nd, sh))
            && (reply == Found(states[k].promises[key].value) <==> sh in nd.shards && !CopyingAt(nd, sh))
  {
    var c := states[k];
    RunInv(shardOf, states, steps, k);
    assert PromiseOk(shardOf, c, key, n) && StoreOk(shardOf, c.nodes[n], c.now);
    if Ready(c, n, shardOf(key)) {
      DeadFromExpiry(c.nodes[n].shards[shardOf(key)][key], c.now);
    }
  }

  /** Conservation: in every run with graceful publications, whatever the interleaving of
    calls, sweeps, fetches and merges, a host of a key's shard answers with the promised
    value, if it hosted the shard before the last publication or has finished its update. */
  lemma Conservation(shardOf: string -> GoInt, states: seq<Cluster>, steps: seq<Step>, k: nat, key: string, n: string)
    requires KindRun(shardOf, states, steps, k) && Promised(states[k], key)
    requires n in states[k].nodes && Hosts(states[k].smap, n, shardOf(key))
    requires Hosts(states[k].prev, n, shardOf(key)) || (states[k].nodes[n].phase.Idle? && Told(states[k], n))
    ensures Get(shardOf, states[k].nodes[n].shards, key, states[k].now) == Found(states[k].promises[key].value)
  {
    var c, sh := states[k], shardOf(key);
    RunInv(shardOf, states, steps, k);
    assert NodeOk(c, n);
    assert sh in Mine(c.smap, n) && (Hosts(c.prev, n, sh) ==> sh in Mine(c.prev, n));
    HostAnswers(shardOf, states, steps, k, key, n);
  }

  /** Some host can always answer: wherever a client's failover loop starts, going round the
    hosts meets one that has the value. */
  lemma SomeHostAnswers(shardOf: string -> GoInt, states: seq<Cluster>, steps: seq<Step>, k: nat, key: string)
    returns (n: string)
    requires KindRun(shardOf, states, steps, k) && Promised(states[k], key)
    ensures n in states[k].nodes && Hosts(states[k].smap, n, shardOf(key))
    ensures Get(shardOf, states[k].nodes[n].shards, key, states[k].now) == Found(states[k].promises[key].value)
  {
    RunInv(shardOf, states, steps, k);
    assert Anchored(states[k], shardOf(key));
    n :| Ready(states[k], n, shardOf(key));
    HostAnswers(shardOf, states, steps, k, key, n);
  }

  /** A node that begins its update with a new shard answers from then on that the shard's
    promised keys do not exist. */
  lemma BeginHidesKeys(shardOf: string -> GoInt, states: seq<Cluster>, steps: seq<Step>, k: nat, key: string, n: string)
    requires k < |steps| && KindRun(shardOf, states, steps, k + 1) && steps[k] == Begin(n)
             && Promised(states[k + 1], key)
    requires n in states[k].nodes && Hosts(states[k].smap, n, shardOf(key))
             && shardOf(key) !in states[k].nodes[n].shards
    ensures n in states[k + 1].nodes && Get(shardOf, states[k + 1].nodes[n].shards, key, states[k + 1].now) == Missing
  {
    assert StepAt(shardOf, states, steps, k);
    assert shardOf(key) in Mine(states[k].smap, n);
    HostAnswers(shardOf, states, steps, k + 1, key, n);
  }

  // --- such a moment is reached --------------------------------------------

  const NODE_A := "a"
  const NODE_B := "b"
  const KEY := "k"

  /** Two nodes and one shard, on the given hosts. */
  function TinyMap(sh: GoInt, hosts: seq<string>): State {
    State(map[NODE_A := NodeInfo("", 0), NODE_B := NodeInfo("", 1)], map[sh := hosts], sh)
  }

  function TinyStart(sh: GoInt): Cluster {
    var m := TinyMap(sh, [NODE_A]);
    Cluster(m, {}, map[NODE_A := Node(map[sh := map[]], Idle), NODE_B := Node(map[], Idle)], 0, m, true, map[])
  }

  ghost predicate RunTo(shardOf: string -> GoInt, states: seq<Cluster>, steps: seq<Step>, c: Cluster) {
    KindRun(shardOf, states, steps, |steps|) && states[|steps|] == c
  }

  ghost predicate Reached(shardOf: string -> GoInt, c: Cluster) {
    exists states, steps :: RunTo(shardOf, states, steps, c)
  }

  lemma OneStep(shardOf: string -> GoInt, c: Cluster, s: Step) returns (d: Cluster)
    requires Reached(shardOf, c) && Enabled(shardOf, c, s) && Kind(c, s)
    ensures d == Apply(shardOf, c, s) && Reached(shardOf, d)
  {
    d := Apply(shardOf, c, s);
    var states, steps :| RunTo(shardOf, states, steps, c);
    var states', steps' := states + [d], steps + [s];
    forall k | 0 <= k < |steps'| ensures StepAt(shardOf, states', steps', k) && Kind(states'[k], steps'[k]) {
      assert k < |steps| ==> StepAt(shardOf, states, steps, k) && Kind(states[k], steps[k]);
    }
    assert RunTo(shardOf, states', steps', d);
  }

  lemma TinyReached(shardOf: string -> GoInt, sh: GoInt)
    requires sh >= 1
    ensures Reached(shardOf, TinyStart(sh))
  {
    var c := TinyStart(sh);
    assert Mine(c.smap, NODE_A) == {sh} && Mine(c.smap, NODE_B) == {};
    assert RunTo(shardOf, [c], [], c);
  }

  /** A value is written and promised on its only host. */
  lemma Written(shardOf: string -> GoInt) returns (c: Cluster)
    requires shardOf(KEY) >= 1
    ensures var sh := shardOf(KEY);
            && Reached(shardOf, c) && c.smap == TinyMap(sh, [NODE_A]) && c.pending == {} && c.twice && c.now == 0
            && c.nodes.Keys == {NODE_A, NODE_B} && c.nodes[NODE_B] == Node(map[], Idle)
            && c.nodes[NODE_A] == Node(map[sh := map[KEY := Item("v", 1, 0)]], Idle)
            && c.promises == map[KEY := Timed("v", NANOS_PER_MS)]
  {
    var sh := shardOf(KEY);
    TinyReached(shardOf, sh);
    var c1 := OneStep(shardOf, TinyStart(sh), Call(NODE_A, OpSet(KEY, "v", 1)));
    assert c1.nodes[NODE_A].shards == map[sh := map[KEY := Item("v", 1, 0)]];
    assert c1.nodes.Keys == {NODE_A, NODE_B} && c1.promises == map[];
    c := OneStep(shardOf, c1, Confirm(KEY, "v", NANOS_PER_MS));
  }

  lemma TinyGraceful(sh: GoInt)
    requires sh >= 1
    ensures WellFormed(TinyMap(sh, [NODE_A, NODE_B])) && Graceful(TinyMap(sh, [NODE_A]), TinyMap(sh, [NODE_A, NODE_B]))
  {
    var s, t := TinyMap(sh, [NODE_A]), TinyMap(sh, [NODE_A, NODE_B]);
    forall x: GoInt ensures GracefulAt(s, t, x) {
      if x == sh {
        assert NodesForShard(s, x) == [NODE_A] && NodesForShard(t, x) == [NODE_A, NODE_B];
        assert forall n :: Hosts(s, n, x) <==> n == NODE_A;
        assert forall n :: Hosts(t, n, x) <==> n == NODE_A || n == NODE_B;
      }
      GrownAtGraceful(s, t, x);
    }
  }

  /** A run in which a host named by the map says of a live promised key that there is none,
    while another host has it. */
  lemma WindowRun(shardOf: string -> GoInt) returns (states: seq<Cluster>, steps: seq<Step>)
    requires shardOf(KEY) >= 1
    ensures KindRun(shardOf, states, steps, |steps|) && Promised(states[|steps|], KEY)
    ensures var c := states[|steps|];
            && NODE_A in c.nodes && Hosts(c.smap, NODE_A, shardOf(KEY)) && NODE_B in c.nodes
               && Hosts(c.smap, NODE_B, shardOf(KEY))
            && Get(shardOf, c.nodes[NODE_A].shards, KEY, c.now) == Found("v")
            && Get(shardOf, c.nodes[NODE_B].shards, KEY, c.now) == Missing
  {
    var sh := shardOf(KEY);
    var c := Written(shardOf);
    var m := TinyMap(sh, [NODE_A, NODE_B]);
    TinyGraceful(sh);
    var c1 := OneStep(shardOf, c, Publish(m));
    var c2 := OneStep(shardOf, c1, Notify(NODE_B));
    var c3 := OneStep(shardOf, c2, Begin(NODE_B));
    assert sh in Mine(m, NODE_B);
    states, steps :| RunTo(shardOf, states, steps, c3);
  }

  /** While a node copies a shard, whomever it asks has the shard. */
  lemma FetchFindsShard(
    shardOf: string -> GoInt, states: seq<Cluster>, steps: seq<Step>, k: nat, n: string, sh: GoInt, p: string)
    requires KindRun(shardOf, states, steps, k) && n in states[k].nodes && CopyingAt(states[k].nodes[n], sh)
    requires p != n && Hosts(states[k].smap, p, sh)
    ensures p in states[k].nodes && sh in states[k].nodes[p].shards && !CopyingAt(states[k].nodes[p], sh)
  {
    RunInv(shardOf, states, steps, k);
    PeerReady(shardOf, states[k], n, sh, p);
  }

  // --- a write is confirmed ------------------------------------------------

  /** The node has the shard and is not copying it. */
  predicate Serving(c: Cluster, n: string, sh: GoInt) {
    n in c.nodes && sh in c.nodes[n].shards && !CopyingAt(c.nodes[n], sh)
  }

  /** A step leaves a value where it is, unless it writes the key there or the value dies. */
  lemma HeldStep(shardOf: string -> GoInt, c: Cluster, s: Step, n: string, key: string, t: Timed)
    requires Inv(shardOf, c) && Enabled(shardOf, c, s) && Serving(c, n, shardOf(key))
    requires Serving(Apply(shardOf, c, s), n, shardOf(key))
    requires Keeps(c.nodes[n].shards[shardOf(key)], key, t) && c.now < t.expiry
    requires !(s.Call? && s.node == n && Writes(s.op, key))
    ensures Keeps(Apply(shardOf, c, s).nodes[n].shards[shardOf(key)], key, t)
  {
    assert NodeOk(c, n) && StoreOk(shardOf, c.nodes[n], c.now);
    if s.Call? && s.node == n {
      ServeLeaves(shardOf, c.nodes[n].shards, s.op, c.now, key);
      DeadFromExpiry(c.nodes[n].shards[shardOf(key)][key], c.now);
    }
  }

  /** Step x stores the value at the node, and until state k the node serves the shard and
    the key is not written there again. */
  ghost predicate Landed(
    shardOf: string -> GoInt, states: seq<Cluster>, steps: seq<Step>, x: nat, k: nat, n: string, key: string,
      value: string, ttl: int)
    requires |states| == |steps| + 1
  {
    && x < k <= |steps| && steps[x] == Call(n, OpSet(key, value, ttl)) && key != ""
    && (forall i | x <= i <= k :: Serving(states[i], n, shardOf(key)))
    && (forall i | x < i < k :: !(steps[i].Call? && steps[i].node == n && Writes(steps[i].op, key)))
  }

  lemma ClockOnward(shardOf: string -> GoInt, states: seq<Cluster>, steps: seq<Step>, j: nat, k: nat)
    requires IsRun(shardOf, states, steps) && j <= k <= |steps|
    ensures states[j].now <= states[k].now
    decreases k
  {
    if j < k {
      ClockOnward(shardOf, states, steps, j, k - 1);
      assert StepAt(shardOf, states, steps, k - 1);
    }
  }

  lemma HeldNext(
    shardOf: string -> GoInt, states: seq<Cluster>, steps: seq<Step>, k: nat, n: string, key: string, t: Timed)
    requires KindRun(shardOf, states, steps, k) && k < |steps|
    requires Serving(states[k], n, shardOf(key)) && Serving(states[k + 1], n, shardOf(key))
    requires Keeps(states[k].nodes[n].shards[shardOf(key)], key, t) && states[k].now < t.expiry
    requires !(steps[k].Call? && steps[k].node == n && Writes(steps[k].op, key))
    ensures Keeps(states[k + 1].nodes[n].shards[shardOf(key)], key, t)
  {
    RunInv(shardOf, states, steps, k);
    assert StepAt(shardOf, states, steps, k);
    HeldStep(shardOf, states[k], steps[k], n, key, t);
  }

  lemma {:induction false} LandedHeld(
    shardOf: string -> GoInt, states: seq<Cluster>, steps: seq<Step>, x: nat, k: nat, n: string, key: string,
      value: string, ttl: int)
    requires KindRun(shardOf, states, steps, k) && Landed(shardOf, states, steps, x, k, n, key, value, ttl)
    requires states[k].now < states[x].now + ttl * NANOS_PER_MS
    ensures Keeps(states[k].nodes[n].shards[shardOf(key)], key, Timed(value, states[x].now + ttl * NANOS_PER_MS))
    decreases k
  {
    if x + 1 == k {
      assert StepAt(shardOf, states, steps, x);
    } else {
      ClockOnward(shardOf, states, steps, k - 1, k);
      LandedHeld(shardOf, states, steps, x, k - 1, n, key, value, ttl);
      HeldNext(shardOf, states, steps, k - 1, n, key, Timed(value, states[x].now + ttl * NANOS_PER_MS));
    }
  }

  /** A client's Set: begun at state j, carried out at every host of the shard at some later
    moment, whatever else happened in between, as long as no host was copying the shard. By
    state k it may be confirmed, for its time to live since it began. */
  lemma WriteConfirms(
    shardOf: string -> GoInt, states: seq<Cluster>, steps: seq<Step>, j: nat, k: nat,
    landed: map<string, nat>, key: string, value: string, ttl: int)
    requires KindRun(shardOf, states, steps, k) && j <= k && NodesForShard(states[k].smap, shardOf(key)) != []
    requires forall n | Hosts(states[k].smap, n, shardOf(key)) ::
               n in landed && j <= landed[n] && Landed(shardOf, states, steps, landed[n], k, n, key, value, ttl)
    requires states[k].now < states[j].now + ttl * NANOS_PER_MS
    ensures Confirmable(shardOf, states[k], key, value, states[j].now + ttl * NANOS_PER_MS)
  {
    assert Hosts(states[k].smap, NodesForShard(states[k].smap, shardOf(key))[0], shardOf(key));
    forall n | n in NodesForShard(states[k].smap, shardOf(key))
      ensures Ready(states[k], n, shardOf(key))
      ensures Keeps(states[k].nodes[n].shards[shardOf(key)], key, Timed(value, states[j].now + ttl * NANOS_PER_MS))
    {
      assert Hosts(states[k].smap, n, shardOf(key));
      ClockOnward(shardOf, states, steps, j, landed[n]);
      LandedHeld(shardOf, states, steps, landed[n], k, n, key, value, ttl);
    }
  }

  // --- placement -----------------------------------------------------------

  /** Placement: a node that has finished its update hosts exactly the shards of the current
    map; before, those of the map before, and in between both. At every moment every key it
    stores lies under the shard it hashes to, and so does every value it is about to merge. */
  lemma Placement(shardOf: string -> GoInt, states: seq<Cluster>, steps: seq<Step>, k: nat, n: string)
    requires KindRun(shardOf, states, steps, k) && n in states[k].nodes
    ensures var c, nd := states[k], states[k].nodes[n];
            && (nd.phase.Idle? && Told(c, n) ==> nd.shards.Keys == Mine(c.smap, n))
            && nd.shards.Keys in {Mine(c.prev, n), Mine(c.smap, n), Mine(c.prev, n) + Mine(c.smap, n)}
            && (forall sh, key | sh in nd.shards && key in nd.shards[sh] :: shardOf(key) == sh)
            && (nd.phase.Copying? ==> forall sh, key | sh in nd.phase.got && key in nd.phase.got[sh].contents ::
                  shardOf(key) == sh && sh in nd.shards)
  {
    RunInv(shardOf, states, steps, k);
    assert NodeOk(states[k], n) && StoreOk(shardOf, states[k].nodes[n], states[k].now);
  }

  // --- workflows -----------------------------------------------------------

  /** The maps published by the steps, in order. */
  function Published(steps: seq<Step>): seq<State> {
    if steps == [] then []
    else
      var before, last := Published(steps[..|steps| - 1]), steps[|steps| - 1];
      if last.Publish? then before + [last.smap] else before
  }

  lemma PublishedNext(steps: seq<Step>, j: nat, k: nat)
    requires j <= k < |steps|
    ensures Published(steps[j..k + 1]) ==
            if steps[k].Publish? then Published(steps[j..k]) + [steps[k].smap] else Published(steps[j..k])
  {
    assert steps[j..k + 1][..k - j] == steps[j..k];
  }

  /** The first maps published are the first ones of the list. */
  lemma {:induction false} PublishedPrefix(steps: seq<Step>, j: nat, k: nat)
    requires j <= k <= |steps|
    ensures Published(steps[j..k]) <= Published(steps[j..])
    decreases |steps| - k
  {
    if k == |steps| {
      assert steps[j..k] == steps[j..];
    } else {
      PublishedNext(steps, j, k);
      PublishedPrefix(steps, j, k + 1);
    }
  }

  /** A fetch fails only if the map names nobody else to ask. */
  ghost predicate FetchesSucceed(states: seq<Cluster>, steps: seq<Step>)
    requires |states| == |steps| + 1
  {
    forall k {:trigger steps[k]} | 0 <= k < |steps| && steps[k].Fetch? :: Kind(states[k], steps[k])
  }

  lemma KindNext(shardOf: string -> GoInt, states: seq<Cluster>, steps: seq<Step>, k: nat)
    requires KindRun(shardOf, states, steps, k) && k < |steps| && Kind(states[k], steps[k])
    ensures KindRun(shardOf, states, steps, k + 1)
  {
    forall j | 0 <= j < k + 1 ensures StepAt(shardOf, states, steps, j) && Kind(states[j], steps[j]) {
      assert StepAt(shardOf, states, steps, j);
    }
  }

  /** After the first `done` publications of the list the map is the last of them, and has
    been published twice if their number is even. */
  predicate Through(c: Cluster, before: State, updates: seq<State>, done: nat) {
    && done <= |updates|
    && c.smap == (if done == 0 then before else updates[done - 1])
    && (done % 2 == 0 ==> c.twice)
  }

  lemma NextIsKind(c: Cluster, before: State, updates: seq<State>, done: nat)
    requires GracefulFrom(before, updates) && Doubled(updates) && Through(c, before, updates, done) && done < |updates|
    ensures Kind(c, Publish(updates[done])) && Through(AfterPublish(c, updates[done]), before, updates, done + 1)
  {
    assert GracefulNth(before, updates, done);
    if done % 2 == 1 {
      var i := done - 1;
      assert i % 2 == 0 && updates[i + 1] == updates[i];
    }
  }

  /** From a settled state on, what is published is exactly the list of a workflow: then
    every step is kind. */
  lemma {:induction false} WorkflowIsKind(
    shardOf: string -> GoInt, states: seq<Cluster>, steps: seq<Step>, j: nat, k: nat, updates: seq<State>)
    requires KindRun(shardOf, states, steps, j) && j <= k <= |steps| && FetchesSucceed(states, steps)
    requires states[j].twice && Published(steps[j..]) == updates
    requires GracefulFrom(states[j].smap, updates) && Doubled(updates)
    ensures KindRun(shardOf, states, steps, k)
    ensures Through(states[k], states[j].smap, updates, |Published(steps[j..k])|)
    decreases k
  {
    if j < k {
      var i := k - 1;
      WorkflowIsKind(shardOf, states, steps, j, i, updates);
      PublishedNext(steps, j, i);
      PublishedPrefix(steps, j, k);
      assert StepAt(shardOf, states, steps, i);
      if steps[i].Publish? {
        NextIsKind(states[i], states[j].smap, updates, |Published(steps[j..i])|);
      }
      KindNext(shardOf, states, steps, i);
    } else {
      assert steps[j..j] == [];
    }
  }

  /** A step that is no write to the key and no confirmation of one leaves its promise. */
  predicate Leaves(s: Step, key: string) {
    !(s.Call? && Writes(s.op, key)) && !(s.Confirm? && s.key == key)
  }

  lemma {:induction false} PromiseStays(
    shardOf: string -> GoInt, states: seq<Cluster>, steps: seq<Step>, j: nat, k: nat, key: string)
    requires IsRun(shardOf, states, steps) && j <= k <= |steps| && key in states[j].promises
    requires forall i | j <= i < k :: Leaves(steps[i], key)
    ensures key in states[k].promises && states[k].promises[key] == states[j].promises[key]
    decreases k
  {
    if j < k {
      PromiseStays(shardOf, states, steps, j, k - 1, key);
      assert StepAt(shardOf, states, steps, k - 1);
    }
  }

  /** Workflows keep the data: take any run up to a settled state, and let it go on with any
    calls, sweeps, fetches and merges in any order while exactly the maps that MoveShard or
    DrainNode publishes are published. When the last of them has been taken by all nodes,
    every host of every shard answers with every value that was promised before the workflow,
    was not written since and is still to live. */
  lemma WorkflowKeepsData(
    shardOf: string -> GoInt, states: seq<Cluster>, steps: seq<Step>, j: nat, updates: seq<State>, key: string,
      n: string)
    requires KindRun(shardOf, states, steps, j) && states[j].twice && FetchesSucceed(states, steps)
    requires Published(steps[j..]) == updates && GracefulFrom(states[j].smap, updates) && Doubled(updates)
    requires states[|steps|].pending == {}
    requires Promised(states[j], key) && states[|steps|].now < states[j].promises[key].expiry
    requires forall i | j <= i < |steps| :: Leaves(steps[i], key)
    requires n in states[|steps|].nodes && Hosts(states[|steps|].smap, n, shardOf(key))
    ensures states[|steps|].smap == if updates == [] then states[j].smap else updates[|updates| - 1]
    ensures var last := states[|steps|];
            Get(shardOf, last.nodes[n].shards, key, last.now) == Found(states[j].promises[key].value)
  {
    var last := |steps|;
    assert steps[j..last] == steps[j..];
    WorkflowIsKind(shardOf, states, steps, j, last, updates);
    PromiseStays(shardOf, states, steps, j, last, key);
    RunInv(shardOf, states, steps, last);
    AllSettled(shardOf, states[last], n);
    assert shardOf(key) in Mine(states[last].smap, n);
    HostAnswers(shardOf, states, steps, last, key, n);
  }
}
