/** All nodes of the cache under a changing shard map, as a step machine in which every step
  is one action of one node or of the publisher.

  Publishing swaps the map at once and then notifies the nodes one by one; a node takes a
  notification only when it has no update under way, and the next publication comes only
  when all have taken theirs. A notified node begins its update, which makes its new shards
  visible and empty; it fetches each new shard from another host; it finishes, which merges
  the answers and drops the shards it lost. Client calls, sweeps and the clock come in
  between at any moment, on any node. */
module KvCluster {
  import opened Common
  import opened ShardMap
  import opened ShardEdits
  import opened KvServer

  /** A peer's answer for one shard, and when it was made. */
  datatype Answer = Answer(contents: map<string, Copied>, sent: int)

  datatype Phase =
    | Idle
    | Notified
    | Copying(added: set<GoInt>, removed: set<GoInt>, got: map<GoInt, Answer>)

  datatype Node = Node(shards: Shards, phase: Phase)

  /** `pending` are the nodes the publisher has still to notify. The last three fields are
    history that no node reads: the map before the current one, whether the current one has
    been published again, and for each promised key the value that every host must keep and
    the instant up to which it must. */
  datatype Cluster = Cluster(
    smap: State, pending: set<string>, nodes: map<string, Node>, now: int,
    prev: State, twice: bool, promises: map<string, Timed>)

  datatype Step =
    | Tick(d: nat)
    | Call(node: string, op: Op)
    | Confirm(key: string, value: string, until: int)
    | Publish(smap: State)
    | Notify(node: string)
    | Begin(node: string)
    | Fetch(node: string, shard: GoInt, peer: Option<string>)
    | Finish(node: string, stamps: map<string, int>)

  /** The node's copy of the shard is there but not filled yet. */
  predicate CopyingAt(nd: Node, sh: GoInt) {
    nd.phase.Copying? && sh in nd.phase.added
  }

  /** A host named by the map that has the shard and is not copying it. */
  predicate Ready(c: Cluster, n: string, sh: GoInt) {
    n in c.nodes && Hosts(c.smap, n, sh) && sh in c.nodes[n].shards && !CopyingAt(c.nodes[n], sh)
  }

  /** The shard holds the key's value, alive at least as long as it must be. */
  predicate Keeps(shard: Shard, key: string, t: Timed) {
    key in shard && shard[key].value == t.value && t.expiry <= Expiry(shard[key])
  }

  /** Each fetched value is stored after it was sent, and not later than now. */
  predicate StampsFit(got: map<GoInt, Answer>, stamps: map<string, int>, now: int) {
    forall sh | sh in got :: forall k | k in got[sh].contents :: k in stamps && got[sh].sent <= stamps[k] <= now
  }

  function Fetched(got: map<GoInt, Answer>): map<GoInt, map<string, Copied>> {
    map sh | sh in got :: got[sh].contents
  }

  predicate Enabled(shardOf: string -> GoInt, c: Cluster, s: Step) {
    match s
    case Tick(_) => true
    case Call(n, op) => n in c.nodes && Allowed(c.nodes[n].shards, op)
    case Confirm(key, value, until) => Confirmable(shardOf, c, key, value, until)
    case Publish(_) => c.pending == {}
    case Notify(n) => n in c.pending && n in c.nodes && c.nodes[n].phase.Idle?
    case Begin(n) => n in c.nodes && c.nodes[n].phase.Notified?
    case Fetch(n, sh, peer) =>
      && n in c.nodes && CopyingAt(c.nodes[n], sh) && sh !in c.nodes[n].phase.got
      && (peer.Some? ==> CanAnswer(c, n, sh, peer.value))
    case Finish(n, stamps) =>
      && n in c.nodes && c.nodes[n].phase.Copying? && c.nodes[n].phase.got.Keys == c.nodes[n].phase.added
      && StampsFit(c.nodes[n].phase.got, stamps, c.now)
  }

  /** A write has gone through: every host has the shard and keeps the value. */
  predicate Confirmable(shardOf: string -> GoInt, c: Cluster, key: string, value: string, until: int) {
    && key != "" && NodesForShard(c.smap, shardOf(key)) != []
    && forall n | n in NodesForShard(c.smap, shardOf(key)) ::
         Ready(c, n, shardOf(key)) && Keeps(c.nodes[n].shards[shardOf(key)], key, Timed(value, until))
  }

  /** Another host named by the map, which has the shard; one that has not would panic. */
  predicate CanAnswer(c: Cluster, n: string, sh: GoInt, peer: string) {
    peer != n && Hosts(c.smap, peer, sh) && peer in c.nodes && sh in c.nodes[peer].shards
  }

  predicate Writes(op: Op, key: string) {
    (op.OpSet? || op.OpDelete?) && op.key == key
  }

  // --- what each step does -------------------------------------------------

  /** A write or removal at any node ends what was promised of the key. */
  function AfterCall(shardOf: string -> GoInt, c: Cluster, n: string, op: Op): Cluster
    requires n in c.nodes && Allowed(c.nodes[n].shards, op)
  {
    var nd := c.nodes[n];
    c.(nodes := c.nodes[n := nd.(shards := Serve(shardOf, nd.shards, Event(op, c.now)).0)],
       promises := map k | k in c.promises && !Writes(op, k) :: c.promises[k])
  }

  function AfterPublish(c: Cluster, m: State): Cluster {
    var d := c.(pending := c.nodes.Keys);
    if m == c.smap then d.(twice := true) else d.(smap := m, prev := c.smap, twice := false)
  }

  function AfterBegin(c: Cluster, n: string): Cluster
    requires n in c.nodes
  {
    var s, mine := c.nodes[n].shards, Mine(c.smap, n);
    c.(nodes := c.nodes[n := Node(Begun(s, mine), Copying(mine - s.Keys, s.Keys - mine, map[]))])
  }

  function AfterFetch(c: Cluster, n: string, sh: GoInt, peer: Option<string>): Cluster
    requires n in c.nodes && c.nodes[n].phase.Copying?
    requires peer.Some? ==> peer.value in c.nodes && sh in c.nodes[peer.value].shards
  {
    var nd := c.nodes[n];
    var contents := if peer.Some? then Contents(c.nodes[peer.value].shards[sh], c.now) else map[];
    c.(nodes := c.nodes[n := nd.(phase := nd.phase.(got := nd.phase.got[sh := Answer(contents, c.now)]))])
  }

  function AfterFinish(c: Cluster, n: string, stamps: map<string, int>): Cluster
    requires n in c.nodes && c.nodes[n].phase.Copying? && StampsFit(c.nodes[n].phase.got, stamps, c.now)
  {
    var nd := c.nodes[n];
    c.(nodes := c.nodes[n := Node(Finished(nd.shards, nd.phase.removed, Fetched(nd.phase.got), stamps), Idle)])
  }

  function Apply(shardOf: string -> GoInt, c: Cluster, s: Step): Cluster
    requires Enabled(shardOf, c, s)
  {
    match s
    case Tick(d) => c.(now := c.now + d)
    case Call(n, op) => AfterCall(shardOf, c, n, op)
    case Confirm(key, value, until) => c.(promises := c.promises[key := Timed(value, until)])
    case Publish(m) => AfterPublish(c, m)
    case Notify(n) => c.(pending := c.pending - {n}, nodes := c.nodes[n := c.nodes[n].(phase := Notified)])
    case Begin(n) => AfterBegin(c, n)
    case Fetch(n, sh, peer) => AfterFetch(c, n, sh, peer)
    case Finish(n, stamps) => AfterFinish(c, n, stamps)
  }

  /** What is asked of the publisher and the network: another map is published only after the
    current one was published twice, and gracefully; a fetch comes back empty only if the
    map names no other host. */
  ghost predicate Kind(c: Cluster, s: Step) {
    match s
    case Publish(m) => m == c.smap || (c.twice && WellFormed(m) && Graceful(c.smap, m))
    case Fetch(n, sh, peer) => peer.None? ==> forall p | Hosts(c.smap, p, sh) :: p == n
    case _ => true
  }

  // --- the invariant -------------------------------------------------------

  ghost predicate MapsOk(c: Cluster) {
    && WellFormed(c.smap) && WellFormed(c.prev) && Graceful(c.prev, c.smap)
    && c.nodes.Keys == c.smap.nodes.Keys && c.pending <= c.nodes.Keys
  }

  /** The node has been notified since the current map came. */
  predicate Told(c: Cluster, n: string) {
    n !in c.pending || c.twice
  }

  /** The node has been notified since the current map was published again. */
  predicate ToldTwice(c: Cluster, n: string) {
    n !in c.pending && c.twice
  }

  predicate NodeOk(c: Cluster, n: string)
    requires n in c.nodes
  {
    PhaseOk(c.nodes[n], Mine(c.prev, n), Mine(c.smap, n), Told(c, n), ToldTwice(c, n))
  }

  /** A node hosts the shards it had, or those of the current map, or while it copies both;
    and those of the current map once it is idle after a notification. */
  predicate PhaseOk(nd: Node, had: set<GoInt>, has: set<GoInt>, told: bool, toldTwice: bool) {
    var hosted := nd.shards.Keys;
    && (match nd.phase
        case Idle => hosted == has || (hosted == had && !told)
        case Notified => hosted == has || hosted == had
        case Copying(added, removed, got) =>
          && got.Keys <= added
          && (|| (added == {} == removed && (hosted == has || (hosted == had && !told)))
              || (hosted == had + has && added == has - had && removed == had - has)))
    && (toldTwice ==> hosted == has && (nd.phase.Copying? ==> nd.phase.added == {} == nd.phase.removed))
  }

  /** Every key lies under its shard, and no instant is yet to come. */
  predicate StoreOk(shardOf: string -> GoInt, nd: Node, now: int) {
    && Placed(shardOf, nd.shards)
    && (forall sh | sh in nd.shards :: forall k | k in nd.shards[sh] :: nd.shards[sh][k].at <= now)
    && (nd.phase.Copying? ==> forall sh | sh in nd.phase.got ::
          nd.phase.got[sh].sent <= now && forall k | k in nd.phase.got[sh].contents :: shardOf(k) == sh)
  }

  /** The answer will keep the key for as long as promised. */
  predicate AnswerKeeps(a: Answer, key: string, t: Timed) {
    && key in a.contents && a.contents[key].value == t.value
    && t.expiry <= a.sent + a.contents[key].ttlMs * NANOS_PER_MS
  }

  /** A host that has the shard keeps the key; one that copies it has not got the key yet,
    but once it has an answer, the answer keeps it. */
  predicate KeptBy(nd: Node, sh: GoInt, key: string, t: Timed, now: int)
    requires sh in nd.shards
  {
    if CopyingAt(nd, sh) then
      key !in nd.shards[sh] && (sh in nd.phase.got && now < t.expiry ==> AnswerKeeps(nd.phase.got[sh], key, t))
    else
      now < t.expiry ==> Keeps(nd.shards[sh], key, t)
  }

  predicate PromiseOk(shardOf: string -> GoInt, c: Cluster, key: string, n: string) {
    key in c.promises && n in c.nodes && Hosts(c.smap, n, shardOf(key)) && shardOf(key) in c.nodes[n].shards ==>
      KeptBy(c.nodes[n], shardOf(key), key, c.promises[key], c.now)
  }

  /** Some host of the shard is ready. */
  ghost predicate Anchored(c: Cluster, sh: GoInt) {
    exists n :: Ready(c, n, sh)
  }

  ghost predicate Inv(shardOf: string -> GoInt, c: Cluster) {
    && MapsOk(c)
    && (forall n {:trigger NodeOk(c, n)} | n in c.nodes :: NodeOk(c, n))
    && (forall n {:trigger StoreOk(shardOf, c.nodes[n], c.now)} | n in c.nodes :: StoreOk(shardOf, c.nodes[n], c.now))
    && (forall key, n {:trigger PromiseOk(shardOf, c, key, n)} :: PromiseOk(shardOf, c, key, n))
    && (forall key {:trigger Anchored(c, shardOf(key))} | key in c.promises :: Anchored(c, shardOf(key)))
  }

  // --- the clock, client calls and sweeps ----------------------------------

  lemma TickInv(shardOf: string -> GoInt, c: Cluster, d: nat)
    requires Inv(shardOf, c)
    ensures Inv(shardOf, c.(now := c.now + d))
  {
    var e := c.(now := c.now + d);
    forall n | n in e.nodes ensures NodeOk(e, n) && StoreOk(shardOf, e.nodes[n], e.now) {
      assert NodeOk(c, n) && StoreOk(shardOf, c.nodes[n], c.now);
    }
    forall key, n ensures PromiseOk(shardOf, e, key, n) {
      assert PromiseOk(shardOf, c, key, n);
    }
    forall key | key in e.promises ensures Anchored(e, shardOf(key)) {
      AnchorStays(c, e, shardOf(key));
    }
  }

  /** A ready host stays ready where map, hosting and phase are as before. */
  lemma AnchorStays(c: Cluster, e: Cluster, sh: GoInt)
    requires Anchored(c, sh) && forall n | Ready(c, n, sh) :: Ready(e, n, sh)
    ensures Anchored(e, sh)
  {
    var n :| Ready(c, n, sh);
    assert Ready(e, n, sh);
  }

  /** What a call other than a write to the key leaves of the key. */
  lemma ServeLeaves(shardOf: string -> GoInt, s: Shards, op: Op, now: int, key: string)
    requires Allowed(s, op) && !Writes(op, key)
    ensures var t := Serve(shardOf, s, Event(op, now)).0;
            && t.Keys == s.Keys
            && (shardOf(key) in s ==>
                  && (key in t[shardOf(key)] ==> key in s[shardOf(key)] && t[shardOf(key)][key] == s[shardOf(key)][key])
                  && (key in s[shardOf(key)] && !Dead(s[shardOf(key)][key], now) ==> key in t[shardOf(key)]))
  {
  }

  lemma CallKept(shardOf: string -> GoInt, nd: Node, op: Op, now: int, key: string, t: Timed)
    requires Allowed(nd.shards, op) && !Writes(op, key) && StoreOk(shardOf, nd, now)
    requires shardOf(key) in nd.shards && KeptBy(nd, shardOf(key), key, t, now)
    ensures var e := nd.(shards := Serve(shardOf, nd.shards, Event(op, now)).0);
            shardOf(key) in e.shards && KeptBy(e, shardOf(key), key, t, now)
  {
    ServeLeaves(shardOf, nd.shards, op, now, key);
    if key in nd.shards[shardOf(key)] {
      DeadFromExpiry(nd.shards[shardOf(key)][key], now);
    }
  }

  lemma CallStore(shardOf: string -> GoInt, nd: Node, op: Op, now: int)
    requires Allowed(nd.shards, op) && StoreOk(shardOf, nd, now)
    ensures var e := nd.(shards := Serve(shardOf, nd.shards, Event(op, now)).0);
            e.shards.Keys == nd.shards.Keys && StoreOk(shardOf, e, now)
  {
    PlacedStable(shardOf, nd.shards, Event(op, now));
  }

  lemma CallPromise(shardOf: string -> GoInt, c: Cluster, n: string, op: Op, key: string, m: string)
    requires Inv(shardOf, c) && n in c.nodes && Allowed(c.nodes[n].shards, op)
    ensures PromiseOk(shardOf, AfterCall(shardOf, c, n, op), key, m)
  {
    var e := AfterCall(shardOf, c, n, op);
    assert PromiseOk(shardOf, c, key, m) && StoreOk(shardOf, c.nodes[n], c.now);
    CallStore(shardOf, c.nodes[n], op, c.now);
    if m == n && key in e.promises && shardOf(key) in c.nodes[n].shards && Hosts(c.smap, n, shardOf(key)) {
      CallKept(shardOf, c.nodes[n], op, c.now, key, c.promises[key]);
    }
  }

  lemma CallNodes(shardOf: string -> GoInt, c: Cluster, n: string, op: Op, m: string)
    requires Inv(shardOf, c) && n in c.nodes && Allowed(c.nodes[n].shards, op) && m in c.nodes
    ensures var e := AfterCall(shardOf, c, n, op);
            && NodeOk(e, m) && StoreOk(shardOf, e.nodes[m], e.now)
            && e.nodes[m].shards.Keys == c.nodes[m].shards.Keys && e.nodes[m].phase == c.nodes[m].phase
  {
    assert NodeOk(c, m) && StoreOk(shardOf, c.nodes[m], c.now);
    if m == n {
      CallStore(shardOf, c.nodes[n], op, c.now);
    }
  }

  lemma CallInv(shardOf: string -> GoInt, c: Cluster, n: string, op: Op)
    requires Inv(shardOf, c) && n in c.nodes && Allowed(c.nodes[n].shards, op)
    ensures Inv(shardOf, AfterCall(shardOf, c, n, op))
  {
    var e := AfterCall(shardOf, c, n, op);
    forall m | m in e.nodes
      ensures NodeOk(e, m) && StoreOk(shardOf, e.nodes[m], e.now)
      ensures e.nodes[m].shards.Keys == c.nodes[m].shards.Keys && e.nodes[m].phase == c.nodes[m].phase
    {
      CallNodes(shardOf, c, n, op, m);
    }
    forall key, m ensures PromiseOk(shardOf, e, key, m) {
      CallPromise(shardOf, c, n, op, key, m);
    }
    forall key | key in e.promises ensures Anchored(e, shardOf(key)) {
      AnchorStays(c, e, shardOf(key));
    }
  }

  lemma ConfirmInv(shardOf: string -> GoInt, c: Cluster, key: string, value: string, until: int)
    requires Inv(shardOf, c) && Confirmable(shardOf, c, key, value, until)
    ensures Inv(shardOf, c.(promises := c.promises[key := Timed(value, until)]))
  {
    var e := c.(promises := c.promises[key := Timed(value, until)]);
    forall m | m in e.nodes ensures NodeOk(e, m) && StoreOk(shardOf, e.nodes[m], e.now) {
      assert NodeOk(c, m) && StoreOk(shardOf, c.nodes[m], c.now);
    }
    forall k, m ensures PromiseOk(shardOf, e, k, m) {
      assert PromiseOk(shardOf, c, k, m);
    }
    forall k | k in e.promises ensures Anchored(e, shardOf(k)) {
      if k == key {
        assert Ready(e, NodesForShard(c.smap, shardOf(key))[0], shardOf(key));
      } else {
        AnchorStays(c, e, shardOf(k));
      }
    }
  }

  // --- publications --------------------------------------------------------

  lemma RepublishInv(shardOf: string -> GoInt, c: Cluster)
    requires Inv(shardOf, c) && c.pending == {}
    ensures Inv(shardOf, AfterPublish(c, c.smap))
  {
    var e := AfterPublish(c, c.smap);
    forall m | m in e.nodes ensures NodeOk(e, m) && StoreOk(shardOf, e.nodes[m], e.now) {
      assert NodeOk(c, m) && StoreOk(shardOf, c.nodes[m], c.now);
    }
    forall key, m ensures PromiseOk(shardOf, e, key, m) {
      assert PromiseOk(shardOf, c, key, m);
    }
    forall key | key in e.promises ensures Anchored(e, shardOf(key)) {
      AnchorStays(c, e, shardOf(key));
    }
  }

  /** Once the map has been published twice and all have taken the second notification, every
    node hosts exactly its shards. */
  lemma AllSettled(shardOf: string -> GoInt, c: Cluster, n: string)
    requires Inv(shardOf, c) && c.pending == {} && c.twice && n in c.nodes
    ensures c.nodes[n].shards.Keys == Mine(c.smap, n)
    ensures forall sh :: !CopyingAt(c.nodes[n], sh)
  {
    assert NodeOk(c, n);
  }

  /** A hosted shard of a settled cluster has, after a graceful publication, still a ready
    host: one that it keeps. */
  lemma PublishAnchor(shardOf: string -> GoInt, c: Cluster, m: State, sh: GoInt)
    requires Inv(shardOf, c) && c.pending == {} && c.twice && WellFormed(m) && Graceful(c.smap, m) && m != c.smap
    requires Anchored(c, sh)
    ensures Anchored(AfterPublish(c, m), sh)
  {
    var e := AfterPublish(c, m);
    var n :| Ready(c, n, sh);
    assert GracefulAt(c.smap, m, sh) && n in NodesForShard(c.smap, sh);
    var p :| Stays(c.smap, m, sh, p);
    assert p in NodesForShard(c.smap, sh) && p in c.nodes;
    AllSettled(shardOf, c, p);
    assert Ready(e, p, sh);
  }

  lemma PublishInv(shardOf: string -> GoInt, c: Cluster, m: State)
    requires Inv(shardOf, c) && c.pending == {} && c.twice && WellFormed(m) && Graceful(c.smap, m) && m != c.smap
    ensures Inv(shardOf, AfterPublish(c, m))
  {
    var e := AfterPublish(c, m);
    forall n | n in e.nodes ensures NodeOk(e, n) && StoreOk(shardOf, e.nodes[n], e.now) {
      assert NodeOk(c, n) && StoreOk(shardOf, c.nodes[n], c.now);
    }
    forall key, n ensures PromiseOk(shardOf, e, key, n) {
      assert PromiseOk(shardOf, c, key, n);
      if n in c.nodes {
        AllSettled(shardOf, c, n);
      }
    }
    forall key | key in e.promises ensures Anchored(e, shardOf(key)) {
      assert Anchored(c, shardOf(key));
      PublishAnchor(shardOf, c, m, shardOf(key));
    }
  }

  lemma NotifyInv(shardOf: string -> GoInt, c: Cluster, n: string)
    requires Inv(shardOf, c) && Enabled(shardOf, c, Notify(n))
    ensures Inv(shardOf, Apply(shardOf, c, Notify(n)))
  {
    var e := Apply(shardOf, c, Notify(n));
    forall m | m in e.nodes ensures NodeOk(e, m) && StoreOk(shardOf, e.nodes[m], e.now) {
      assert NodeOk(c, m) && StoreOk(shardOf, c.nodes[m], c.now);
    }
    forall key, m ensures PromiseOk(shardOf, e, key, m) {
      assert PromiseOk(shardOf, c, key, m);
    }
    forall key | key in e.promises ensures Anchored(e, shardOf(key)) {
      AnchorStays(c, e, shardOf(key));
    }
  }

  // --- a node's update -----------------------------------------------------

  lemma BeginNode(
    shardOf: string -> GoInt, nd: Node, had: set<GoInt>, has: set<GoInt>, told: bool, toldTwice: bool, now: int)
    requires nd.phase.Notified? && PhaseOk(nd, had, has, told, toldTwice) && StoreOk(shardOf, nd, now)
    ensures var e := Node(Begun(nd.shards, has), Copying(has - nd.shards.Keys, nd.shards.Keys - has, map[]));
            PhaseOk(e, had, has, told, toldTwice) && StoreOk(shardOf, e, now)
  {
    PlacedBegun(shardOf, nd.shards, has);
  }

  lemma BeginPromise(shardOf: string -> GoInt, c: Cluster, n: string, key: string, m: string)
    requires Inv(shardOf, c) && n in c.nodes && c.nodes[n].phase.Notified?
    ensures PromiseOk(shardOf, AfterBegin(c, n), key, m)
  {
    assert PromiseOk(shardOf, c, key, m);
  }

  lemma BeginInv(shardOf: string -> GoInt, c: Cluster, n: string)
    requires Inv(shardOf, c) && n in c.nodes && c.nodes[n].phase.Notified?
    ensures Inv(shardOf, AfterBegin(c, n))
  {
    var e := AfterBegin(c, n);
    forall m | m in e.nodes ensures NodeOk(e, m) && StoreOk(shardOf, e.nodes[m], e.now) {
      assert NodeOk(c, m) && StoreOk(shardOf, c.nodes[m], c.now);
      if m == n {
        BeginNode(shardOf, c.nodes[n], Mine(c.prev, n), Mine(c.smap, n), Told(c, n), ToldTwice(c, n), c.now);
      }
    }
    forall key, m ensures PromiseOk(shardOf, e, key, m) {
      BeginPromise(shardOf, c, n, key, m);
    }
    forall key | key in e.promises ensures Anchored(e, shardOf(key)) {
      AnchorStays(c, e, shardOf(key));
    }
  }

  /** While a node copies a shard, every other host that the map names had it before, still
    has it, and is not copying it: a fetch never meets a node without the shard. */
  lemma PeerReady(shardOf: string -> GoInt, c: Cluster, n: string, sh: GoInt, p: string)
    requires Inv(shardOf, c) && n in c.nodes && CopyingAt(c.nodes[n], sh)
    requires p != n && Hosts(c.smap, p, sh)
    ensures Ready(c, p, sh) && Hosts(c.prev, p, sh)
  {
    assert GracefulAt(c.prev, c.smap, sh) && p in NodesForShard(c.smap, sh);
    assert NodeOk(c, n) && NodeOk(c, p);
    assert sh in Mine(c.smap, n) && sh !in Mine(c.prev, n);
    assert Hosts(c.smap, n, sh) && !Hosts(c.prev, n, sh);
    assert sh in Mine(c.prev, p) && sh in Mine(c.smap, p);
  }

  /** A live value is in the answer, with time enough. */
  lemma AnswerHas(shard: Shard, key: string, t: Timed, now: int)
    requires Keeps(shard, key, t) && shard[key].at <= now < t.expiry
    ensures AnswerKeeps(Answer(Contents(shard, now), now), key, t)
  {
    DeadFromExpiry(shard[key], now);
    CopyDrift(shard[key], now, now);
  }

  lemma FetchKept(shardOf: string -> GoInt, c: Cluster, n: string, sh: GoInt, peer: Option<string>, key: string)
    requires Inv(shardOf, c) && Enabled(shardOf, c, Fetch(n, sh, peer)) && Kind(c, Fetch(n, sh, peer))
    requires key in c.promises && shardOf(key) == sh && c.now < c.promises[key].expiry
    ensures AnswerKeeps(AfterFetch(c, n, sh, peer).nodes[n].phase.got[sh], key, c.promises[key])
  {
    assert Anchored(c, sh);
    var a :| Ready(c, a, sh);
    if peer.Some? {
      PeerReady(shardOf, c, n, sh, peer.value);
      assert PromiseOk(shardOf, c, key, peer.value) && StoreOk(shardOf, c.nodes[peer.value], c.now);
      AnswerHas(c.nodes[peer.value].shards[sh], key, c.promises[key], c.now);
    } else {
      assert false;
    }
  }

  lemma FetchPromise(
    shardOf: string -> GoInt, c: Cluster, n: string, sh: GoInt, peer: Option<string>, key: string, m: string)
    requires Inv(shardOf, c) && Enabled(shardOf, c, Fetch(n, sh, peer)) && Kind(c, Fetch(n, sh, peer))
    ensures PromiseOk(shardOf, AfterFetch(c, n, sh, peer), key, m)
  {
    assert PromiseOk(shardOf, c, key, m);
    if m == n && key in c.promises && shardOf(key) == sh && c.now < c.promises[key].expiry {
      FetchKept(shardOf, c, n, sh, peer, key);
    }
  }

  lemma FetchStore(shardOf: string -> GoInt, c: Cluster, n: string, sh: GoInt, peer: Option<string>)
    requires Inv(shardOf, c) && Enabled(shardOf, c, Fetch(n, sh, peer))
    ensures StoreOk(shardOf, AfterFetch(c, n, sh, peer).nodes[n], c.now)
  {
    assert StoreOk(shardOf, c.nodes[n], c.now);
    if peer.Some? {
      assert StoreOk(shardOf, c.nodes[peer.value], c.now);
    }
  }

  lemma FetchInv(shardOf: string -> GoInt, c: Cluster, n: string, sh: GoInt, peer: Option<string>)
    requires Inv(shardOf, c) && Enabled(shardOf, c, Fetch(n, sh, peer)) && Kind(c, Fetch(n, sh, peer))
    ensures Inv(shardOf, AfterFetch(c, n, sh, peer))
  {
    var e := AfterFetch(c, n, sh, peer);
    FetchStore(shardOf, c, n, sh, peer);
    forall m | m in e.nodes ensures NodeOk(e, m) && StoreOk(shardOf, e.nodes[m], e.now) {
      assert NodeOk(c, m) && StoreOk(shardOf, c.nodes[m], c.now);
    }
    forall key, m ensures PromiseOk(shardOf, e, key, m) {
      FetchPromise(shardOf, c, n, sh, peer, key, m);
    }
    forall key | key in e.promises ensures Anchored(e, shardOf(key)) {
      AnchorStays(c, e, shardOf(key));
    }
  }

  lemma FinishStore(shardOf: string -> GoInt, nd: Node, stamps: map<string, int>, now: int)
    requires StoreOk(shardOf, nd, now) && nd.phase.Copying? && StampsFit(nd.phase.got, stamps, now)
    ensures StoreOk(shardOf, Node(Finished(nd.shards, nd.phase.removed, Fetched(nd.phase.got), stamps), Idle), now)
  {
    PlacedFinished(shardOf, nd.shards, nd.phase.removed, Fetched(nd.phase.got), stamps);
  }

  lemma FinishKept(nd: Node, stamps: map<string, int>, sh: GoInt, key: string, t: Timed, now: int)
    requires nd.phase.Copying? && nd.phase.got.Keys == nd.phase.added && StampsFit(nd.phase.got, stamps, now)
    requires sh in nd.shards && sh !in nd.phase.removed && KeptBy(nd, sh, key, t, now) && now < t.expiry
    ensures Keeps(Finished(nd.shards, nd.phase.removed, Fetched(nd.phase.got), stamps)[sh], key, t)
  {
  }

  lemma FinishPromise(shardOf: string -> GoInt, c: Cluster, n: string, stamps: map<string, int>, key: string, m: string)
    requires Inv(shardOf, c) && Enabled(shardOf, c, Finish(n, stamps))
    ensures PromiseOk(shardOf, AfterFinish(c, n, stamps), key, m)
  {
    var e := AfterFinish(c, n, stamps);
    assert PromiseOk(shardOf, c, key, m);
    if m == n && key in c.promises && Hosts(c.smap, n, shardOf(key)) && shardOf(key) in e.nodes[n].shards
       && c.now < c.promises[key].expiry {
      FinishKept(c.nodes[n], stamps, shardOf(key), key, c.promises[key], c.now);
    }
  }

  lemma FinishInv(shardOf: string -> GoInt, c: Cluster, n: string, stamps: map<string, int>)
    requires Inv(shardOf, c) && Enabled(shardOf, c, Finish(n, stamps))
    ensures Inv(shardOf, AfterFinish(c, n, stamps))
  {
    var e := AfterFinish(c, n, stamps);
    assert StoreOk(shardOf, c.nodes[n], c.now) && NodeOk(c, n);
    FinishStore(shardOf, c.nodes[n], stamps, c.now);
    forall m | m in e.nodes ensures NodeOk(e, m) && StoreOk(shardOf, e.nodes[m], e.now) {
      assert NodeOk(c, m) && StoreOk(shardOf, c.nodes[m], c.now);
    }
    forall key, m ensures PromiseOk(shardOf, e, key, m) {
      FinishPromise(shardOf, c, n, stamps, key, m);
    }
    forall key | key in e.promises ensures Anchored(e, shardOf(key)) {
      assert shardOf(key) in Mine(c.smap, n) <==> Hosts(c.smap, n, shardOf(key));
      AnchorStays(c, e, shardOf(key));
    }
  }

  lemma StepInv(shardOf: string -> GoInt, c: Cluster, s: Step)
    requires Inv(shardOf, c) && Enabled(shardOf, c, s) && Kind(c, s)
    ensures Inv(shardOf, Apply(shardOf, c, s))
  {
    match s
    case Tick(d) => TickInv(shardOf, c, d);
    case Call(n, op) => CallInv(shardOf, c, n, op);
    case Confirm(key, value, until) => ConfirmInv(shardOf, c, key, value, until);
    case Publish(m) =>
      if m == c.smap {
        RepublishInv(shardOf, c);
      } else {
        PublishInv(shardOf, c, m);
      }
    case Notify(n) => NotifyInv(shardOf, c, n);
    case Begin(n) => BeginInv(shardOf, c, n);
    case Fetch(n, sh, peer) => FetchInv(shardOf, c, n, sh, peer);
    case Finish(n, stamps) => FinishInv(shardOf, c, n, stamps);
  }
}
