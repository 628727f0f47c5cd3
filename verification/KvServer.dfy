/** One node of the cache: the shards it hosts, each a table of values with a time to live
  in milliseconds, counted from the instant they were stored. Instants are nanoseconds of
  a clock that does not run backwards. */
module KvServer {
  import opened Common
  import opened ShardMap

  const NANOS_PER_MS: int := 1_000_000

  datatype Item = Item(value: string, ttlMs: int, at: int)

  type Shard = map<string, Item>

  type Shards = map<GoInt, Shard>

  /** What a node tells a peer about one value: the value and its remaining milliseconds. */
  datatype Copied = Copied(value: string, ttlMs: int)

  /** The shard of a key, for whatever hash: always one of 1..numShards. */
  function GetShardForKey(hash: string -> nat, key: string, numShards: GoInt): (shard: GoInt)
    requires numShards > 0
    ensures 1 <= shard <= numShards
  {
    hash(key) % numShards + 1
  }

  /** Keys share a shard exactly if their hashes leave the same remainder, so shards are dealt
    in turn: numShards hashes in a row meet every shard once. */
  lemma ShardsInTurn(hash: string -> nat, key: string, other: string, numShards: GoInt)
    requires numShards > 0
    ensures GetShardForKey(hash, key, numShards) == GetShardForKey(hash, other, numShards) <==>
            hash(key) % numShards == hash(other) % numShards
    ensures hash(other) == hash(key) + 1 ==>
              GetShardForKey(hash, other, numShards) ==
              if GetShardForKey(hash, key, numShards) == numShards then 1 else GetShardForKey(hash, key, numShards) + 1
    ensures hash(key) < numShards ==> GetShardForKey(hash, key, numShards) == hash(key) + 1
  {
    NextDivMod(hash(key), numShards);
    if hash(key) < numShards {
      DivModUnique(hash(key), 0, hash(key), numShards);
    }
  }

  /** Whole milliseconds since the item was stored. */
  function ElapsedMs(it: Item, now: int): int {
    if now >= it.at then (now - it.at) / NANOS_PER_MS else -((it.at - now) / NANOS_PER_MS)
  }

  predicate Dead(it: Item, now: int) {
    ElapsedMs(it, now) >= it.ttlMs
  }

  /** The instant from which on the item is dead. */
  function Expiry(it: Item): int {
    it.at + it.ttlMs * NANOS_PER_MS
  }

  /** Counting whole milliseconds loses nothing: an item dies exactly at its expiry. */
  lemma DeadFromExpiry(it: Item, now: int)
    requires it.at <= now
    ensures Dead(it, now) <==> Expiry(it) <= now
  {
  }

  datatype GetReply = GetInvalid | GetNoShard | Missing | Found(value: string)

  datatype Status = Done | Invalid | NoShard

  function Get(shardOf: string -> GoInt, s: Shards, key: string, now: int): GetReply {
    if key == "" then GetInvalid
    else if shardOf(key) !in s then GetNoShard
    else
      var shard := s[shardOf(key)];
      if key !in shard || Dead(shard[key], now) then Missing else Found(shard[key].value)
  }

  function StatusOf(shardOf: string -> GoInt, s: Shards, key: string): Status {
    if key == "" then Invalid else if shardOf(key) !in s then NoShard else Done
  }

  function Set(shardOf: string -> GoInt, s: Shards, key: string, value: string, ttlMs: int, now: int): Shards {
    if StatusOf(shardOf, s, key) != Done then s
    else s[shardOf(key) := s[shardOf(key)][key := Item(value, ttlMs, now)]]
  }

  function Delete(shardOf: string -> GoInt, s: Shards, key: string): Shards {
    if StatusOf(shardOf, s, key) != Done then s
    else s[shardOf(key) := s[shardOf(key)] - {key}]
  }

  /** What GetShardContents answers: the live values with what is left of their time. */
  function Contents(shard: Shard, now: int): map<string, Copied> {
    map k | k in shard && !Dead(shard[k], now) :: Copied(shard[k].value, shard[k].ttlMs - ElapsedMs(shard[k], now))
  }

  /** One round of the sweep. */
  function Swept(shard: Shard, now: int): Shard {
    map k | k in shard && !Dead(shard[k], now) :: shard[k]
  }

  /** A peer's answer as it is stored, each value at its own instant. */
  function Filled(contents: map<string, Copied>, stamps: map<string, int>): Shard
    requires contents.Keys <= stamps.Keys
  {
    map k | k in contents :: Item(contents[k].value, contents[k].ttlMs, stamps[k])
  }

  /** Every value of every answer has an instant. */
  predicate Stamped(fetched: map<GoInt, map<string, Copied>>, stamps: map<string, int>) {
    forall sh | sh in fetched :: fetched[sh].Keys <= stamps.Keys
  }

  /** The node after the first half of a shard map update: the new shards are there, empty,
    and the old ones are all still there. */
  function Begun(s: Shards, mine: set<GoInt>): Shards {
    map sh | sh in s.Keys + mine :: if sh in s then s[sh] else map[]
  }

  /** The node after the second half: the answers are merged over what the new shards hold
    by then, and the shards to let go are gone. */
  function Finished(
    s: Shards, removed: set<GoInt>, fetched: map<GoInt, map<string, Copied>>, stamps: map<string, int>): Shards
    requires Stamped(fetched, stamps)
  {
    map sh | sh in s && sh !in removed :: if sh in fetched then s[sh] + Filled(fetched[sh], stamps) else s[sh]
  }

  /** The node after a shard map update with nothing in between: exactly the shards now
    assigned to it, the old ones untouched, the new ones filled from peers. */
  function Updated(
    s: Shards, mine: set<GoInt>, fetched: map<GoInt, map<string, Copied>>, stamps: map<string, int>): Shards
    requires mine - s.Keys <= fetched.Keys && Stamped(fetched, stamps)
  {
    map sh | sh in mine :: if sh in s then s[sh] else Filled(fetched[sh], stamps)
  }

  /** Without anything in between, the two halves make the whole. */
  lemma FinishedBegun(s: Shards, mine: set<GoInt>, fetched: map<GoInt, map<string, Copied>>, stamps: map<string, int>)
    requires fetched.Keys == mine - s.Keys && Stamped(fetched, stamps)
    ensures Finished(Begun(s, mine), s.Keys - mine, fetched, stamps) == Updated(s, mine, fetched, stamps)
  {
    forall sh | sh in fetched ensures map[] + Filled(fetched[sh], stamps) == Filled(fetched[sh], stamps) {
    }
  }

  /** Every key is filed under its own shard. */
  predicate Placed(shardOf: string -> GoInt, s: Shards) {
    forall sh | sh in s :: forall k | k in s[sh] :: shardOf(k) == sh
  }

  // --- a plain table with expiry instants ----------------------------------

  datatype Timed = Timed(value: string, expiry: int)

  type Table = map<GoInt, map<string, Timed>>

  /** Milliseconds until the expiry, rounded up. */
  function LeftMs(expiry: int, now: int): int
    requires now < expiry
  {
    (expiry - now + NANOS_PER_MS - 1) / NANOS_PER_MS
  }

  datatype Op =
    | OpSet(key: string, value: string, ttlMs: int)
    | OpDelete(key: string)
    | OpGet(key: string)
    | OpContents(shard: GoInt)
    | OpSweep(shard: GoInt)

  datatype Event = Event(op: Op, at: int)

  datatype Reply =
    | RStatus(status: Status)
    | RGet(reply: GetReply)
    | RContents(contents: map<string, Copied>)
    | RSilent

  /** GetShardContents is asked only for hosted shards. */
  predicate Allowed<T>(s: map<GoInt, T>, op: Op) {
    (op.OpContents? || op.OpSweep?) ==> op.shard in s
  }

  /** The server's step. */
  function Serve(shardOf: string -> GoInt, s: Shards, e: Event): (Shards, Reply)
    requires Allowed(s, e.op)
  {
    match e.op
    case OpSet(key, value, ttl) => (Set(shardOf, s, key, value, ttl, e.at), RStatus(StatusOf(shardOf, s, key)))
    case OpDelete(key) => (Delete(shardOf, s, key), RStatus(StatusOf(shardOf, s, key)))
    case OpGet(key) => (s, RGet(Get(shardOf, s, key, e.at)))
    case OpContents(sh) => (s, RContents(Contents(s[sh], e.at)))
    case OpSweep(sh) => (s[sh := Swept(s[sh], e.at)], RSilent)
  }

  /** The same step on the table: nothing is ever swept, an entry is seen before its
    expiry and not from then on. */
  function ServeTable(shardOf: string -> GoInt, t: Table, e: Event): (Table, Reply)
    requires Allowed(t, e.op)
  {
    match e.op
    case OpSet(key, value, ttl) =>
      if key == "" then (t, RStatus(Invalid))
      else if shardOf(key) !in t then (t, RStatus(NoShard))
      else (t[shardOf(key) := t[shardOf(key)][key := Timed(value, e.at + ttl * NANOS_PER_MS)]], RStatus(Done))
    case OpDelete(key) =>
      if key == "" then (t, RStatus(Invalid))
      else if shardOf(key) !in t then (t, RStatus(NoShard))
      else (t[shardOf(key) := t[shardOf(key)] - {key}], RStatus(Done))
    case OpGet(key) =>
      (t, RGet(if key == "" then GetInvalid
               else if shardOf(key) !in t then GetNoShard
               else if key in t[shardOf(key)] && e.at < t[shardOf(key)][key].expiry
               then Found(t[shardOf(key)][key].value)
               else Missing))
    case OpContents(sh) =>
      (t, RContents(map k | k in t[sh] && e.at < t[sh][k].expiry ::
                      Copied(t[sh][k].value, LeftMs(t[sh][k].expiry, e.at))))
    case OpSweep(sh) => (t, RSilent)
  }

  /** The two hold the same at and after an instant. */
  ghost predicate SameFrom(s: Shards, t: Table, now: int) {
    s.Keys == t.Keys && forall sh {:trigger SameShard(s[sh], t[sh], now)} | sh in s :: SameShard(s[sh], t[sh], now)
  }

  ghost predicate SameShard(a: Shard, b: map<string, Timed>, now: int) {
    && (forall k | k in a :: a[k].at <= now)
    && (forall k | k in a && now < Expiry(a[k]) :: k in b && b[k] == Timed(a[k].value, Expiry(a[k])))
    && (forall k | k in b && now < b[k].expiry :: k in a && b[k] == Timed(a[k].value, Expiry(a[k])))
  }

  lemma SameContents(a: Shard, b: map<string, Timed>, now: int)
    requires SameShard(a, b, now)
    ensures Contents(a, now) == map k | k in b && now < b[k].expiry :: Copied(b[k].value, LeftMs(b[k].expiry, now))
  {
  }

  lemma SameLater(a: Shard, b: map<string, Timed>, now: int, later: int)
    requires SameShard(a, b, now) && now <= later
    ensures SameShard(a, b, later)
  {
  }

  lemma SameFromLater(s: Shards, t: Table, now: int, later: int)
    requires SameFrom(s, t, now) && now <= later
    ensures SameFrom(s, t, later)
  {
    forall sh | sh in s ensures SameShard(s[sh], t[sh], later) {
      assert SameShard(s[sh], t[sh], now);
      SameLater(s[sh], t[sh], now, later);
    }
  }

  lemma SameSwept(a: Shard, b: map<string, Timed>, now: int)
    requires SameShard(a, b, now)
    ensures SameShard(Swept(a, now), b, now)
  {
  }

  lemma SameSet(a: Shard, b: map<string, Timed>, now: int, key: string, value: string, ttl: int)
    requires SameShard(a, b, now)
    ensures SameShard(a[key := Item(value, ttl, now)], b[key := Timed(value, now + ttl * NANOS_PER_MS)], now)
  {
  }

  lemma SameDelete(a: Shard, b: map<string, Timed>, now: int, key: string)
    requires SameShard(a, b, now)
    ensures SameShard(a - {key}, b - {key}, now)
  {
  }

  lemma SameUpdate(s: Shards, t: Table, now: int, sh: GoInt, a: Shard, b: map<string, Timed>)
    requires SameFrom(s, t, now) && sh in s && SameShard(a, b, now)
    ensures SameFrom(s[sh := a], t[sh := b], now)
  {
  }

  lemma GetRefines(shardOf: string -> GoInt, s: Shards, t: Table, key: string, now: int)
    requires SameFrom(s, t, now)
    ensures Serve(shardOf, s, Event(OpGet(key), now)).1 == ServeTable(shardOf, t, Event(OpGet(key), now)).1
  {
    if key != "" && shardOf(key) in s {
      assert SameShard(s[shardOf(key)], t[shardOf(key)], now);
      if key in s[shardOf(key)] {
        DeadFromExpiry(s[shardOf(key)][key], now);
      }
    }
  }

  /** One event: same reply, and the two still hold the same. */
  lemma ServeRefines(shardOf: string -> GoInt, s: Shards, t: Table, e: Event)
    requires SameFrom(s, t, e.at) && Allowed(s, e.op)
    ensures Serve(shardOf, s, e).1 == ServeTable(shardOf, t, e).1
    ensures SameFrom(Serve(shardOf, s, e).0, ServeTable(shardOf, t, e).0, e.at)
  {
    var now := e.at;
    match e.op
    case OpSet(key, value, ttl) =>
      if StatusOf(shardOf, s, key) == Done {
        var sh := shardOf(key);
        assert SameShard(s[sh], t[sh], now);
        SameSet(s[sh], t[sh], now, key, value, ttl);
        var a, b := s[sh][key := Item(value, ttl, now)], t[sh][key := Timed(value, now + ttl * NANOS_PER_MS)];
        SameUpdate(s, t, now, sh, a, b);
      }
    case OpDelete(key) =>
      if StatusOf(shardOf, s, key) == Done {
        var sh := shardOf(key);
        assert SameShard(s[sh], t[sh], now);
        SameDelete(s[sh], t[sh], now, key);
        SameUpdate(s, t, now, sh, s[sh] - {key}, t[sh] - {key});
      }
    case OpGet(key) => GetRefines(shardOf, s, t, key, now);
    case OpContents(sh) =>
      assert SameShard(s[sh], t[sh], now);
      SameContents(s[sh], t[sh], now);
    case OpSweep(sh) =>
      assert SameShard(s[sh], t[sh], now);
      SameSwept(s[sh], t[sh], now);
      SameUpdate(s, t, now, sh, Swept(s[sh], now), t[sh]);
      assert t[sh := t[sh]] == t;
  }

  /** Instants never fall, and contents are asked only of hosted shards. */
  predicate Timely(shards: set<GoInt>, events: seq<Event>, from: int) {
    && (forall i | 0 <= i < |events| ::
          && from <= events[i].at
          && (events[i].op.OpContents? || events[i].op.OpSweep? ==> events[i].op.shard in shards))
    && (forall i, j | 0 <= i < j < |events| :: events[i].at <= events[j].at)
  }

  function Replies(shardOf: string -> GoInt, s: Shards, events: seq<Event>, from: int): seq<Reply>
    requires Timely(s.Keys, events, from)
    decreases |events|
  {
    if events == [] then []
    else
      var (s1, r) := Serve(shardOf, s, events[0]);
      assert s1.Keys == s.Keys;
      [r] + Replies(shardOf, s1, events[1..], events[0].at)
  }

  function TableReplies(shardOf: string -> GoInt, t: Table, events: seq<Event>, from: int): seq<Reply>
    requires Timely(t.Keys, events, from)
    decreases |events|
  {
    if events == [] then []
    else
      var (t1, r) := ServeTable(shardOf, t, events[0]);
      assert t1.Keys == t.Keys;
      [r] + TableReplies(shardOf, t1, events[1..], events[0].at)
  }

  /** The server with its background sweep refines the plain table: for every sequence of
    events at non-falling instants, with sweeps at any moments among them, all replies
    are those of the table, which never sweeps. */
  lemma {:induction false} SweepIsInvisible(
    shardOf: string -> GoInt, s: Shards, t: Table, events: seq<Event>, from: int)
    requires SameFrom(s, t, from) && Timely(s.Keys, events, from)
    ensures Replies(shardOf, s, events, from) == TableReplies(shardOf, t, events, from)
    decreases |events|
  {
    if events != [] {
      var e := events[0];
      SameFromLater(s, t, from, e.at);
      ServeRefines(shardOf, s, t, e);
      var s1, t1 := Serve(shardOf, s, e).0, ServeTable(shardOf, t, e).0;
      assert s1.Keys == s.Keys && t1.Keys == t.Keys;
      SweepIsInvisible(shardOf, s1, t1, events[1..], e.at);
    }
  }

  // --- placement -----------------------------------------------------------

  /** Every operation keeps every key under its own shard. */
  lemma PlacedStable(shardOf: string -> GoInt, s: Shards, e: Event)
    requires Placed(shardOf, s) && Allowed(s, e.op)
    ensures Placed(shardOf, Serve(shardOf, s, e).0)
  {
  }

  lemma PlacedBegun(shardOf: string -> GoInt, s: Shards, mine: set<GoInt>)
    requires Placed(shardOf, s)
    ensures Placed(shardOf, Begun(s, mine))
  {
  }

  /** So does a merge, if what was fetched for a shard belongs to it. */
  lemma PlacedFinished(
    shardOf: string -> GoInt, s: Shards, removed: set<GoInt>, fetched: map<GoInt, map<string, Copied>>,
      stamps: map<string, int>)
    requires Placed(shardOf, s) && Stamped(fetched, stamps)
    requires forall sh | sh in fetched :: forall k | k in fetched[sh] :: shardOf(k) == sh
    ensures Placed(shardOf, Finished(s, removed, fetched, stamps))
  {
  }

  // --- copies and their expiry ---------------------------------------------

  /** The item a peer stores at `stored` from an answer made at `sent`. */
  function CopyOf(it: Item, sent: int, stored: int): Item {
    Item(it.value, it.ttlMs - ElapsedMs(it, sent), stored)
  }

  /** One copy never expires before its source, and later by the transfer delay plus less
    than a millisecond. */
  lemma CopyDrift(it: Item, sent: int, stored: int)
    requires it.at <= sent <= stored
    ensures var due := Expiry(it) + (stored - sent);
            due <= Expiry(CopyOf(it, sent, stored)) < due + NANOS_PER_MS
  {
  }

  datatype Hop = Hop(sent: int, stored: int)

  /** The item after a chain of copies from node to node. */
  function CopyChain(it: Item, hops: seq<Hop>): Item
    decreases |hops|
  {
    if hops == [] then it else CopyChain(CopyOf(it, hops[0].sent, hops[0].stored), hops[1..])
  }

  function TotalDelay(hops: seq<Hop>): int
    decreases |hops|
  {
    if hops == [] then 0 else hops[0].stored - hops[0].sent + TotalDelay(hops[1..])
  }

  /** Each hop leaves after the item arrived and arrives after it left. */
  predicate InTime(at: int, hops: seq<Hop>)
    decreases |hops|
  {
    hops == [] || (at <= hops[0].sent <= hops[0].stored && InTime(hops[0].stored, hops[1..]))
  }

  /** After k copies an entry never expires before the original, and later by at least the
    total transfer delay and less than that plus k milliseconds. */
  lemma {:induction false} TtlDrift(it: Item, hops: seq<Hop>)
    requires InTime(it.at, hops)
    ensures CopyChain(it, hops).value == it.value && TotalDelay(hops) >= 0
    ensures Expiry(it) + TotalDelay(hops) <= Expiry(CopyChain(it, hops))
    ensures hops != [] ==> Expiry(CopyChain(it, hops)) < Expiry(it) + TotalDelay(hops) + |hops| * NANOS_PER_MS
    decreases |hops|
  {
    if hops != [] {
      var copy := CopyOf(it, hops[0].sent, hops[0].stored);
      CopyDrift(it, hops[0].sent, hops[0].stored);
      TtlDrift(copy, hops[1..]);
    }
  }
}
