/** The checker at work on one key of a replicated store, over all interleavings of
  writes, reads and the clock.

  What is assumed of the store: a write that succeeds reaches every replica between the start
  and the return of its call; one that fails reaches any replicas, if any, at any moments up
  to its CompleteWrite, and also later, as long as no other write is in flight and its value
  has not been retired. A replica keeps the last value that reached it and answers with it
  until its time to live is over, or up to the checker's slack longer. While no write is in
  flight, a replica may also be refilled from another one, as a shard is when it moves, and
  the copy may live longer within the same slack. Values are never reused, as the checker
  demands, so a write is known by its value. Each call of the checker is one step, since it
  holds the checker's lock throughout. */
module CheckerRuns {
  import opened Common
  import opened Checker
  import KvServer

  /** A value held by a replica: `due` to expire when its time to live is over, found by
    reads until `expiry`. */
  datatype Stored = Stored(value: string, due: int, expiry: int)

  datatype Outcome = Outcome(failed: bool, end: int)

  /** A write between BeginWrite and CompleteWrite. */
  datatype Write = Write(start: int, initialVersion: nat, reached: set<nat>, outcome: Option<Outcome>)

  datatype Answer = Answer(result: Option<string>, at: int)

  /** A read between BeginRead and CheckReadCorrect. */
  datatype Read = Read(start: int, initialVersion: nat, pending: bool, answer: Option<Answer>)

  datatype World = World(
    ttl: nat,
    now: int,
    replicas: seq<Option<Stored>>,
    writes: map<string, Write>,
    used: set<string>,
    queries: map<nat, Read>,
    key: KeyState)

  datatype Step =
    | Tick(d: nat)
    | BeginW(value: string, start: int)
    | Reach(value: string, r: nat, late: nat)
    | Straggle(value: string, r: nat, late: nat)
    | Refill(r: nat, from: nat, longer: nat)
    | Return(value: string, failed: bool)
    | Complete(value: string)
    | BeginR(id: nat, start: int)
    | Sample(id: nat, r: nat)
    | Check(id: nat)

  function Init(ttl: nat, now: int, n: nat): World {
    World(ttl, now, seq(n, _ => None), map[], {}, map[], NEW_KEY)
  }

  predicate Everywhere(x: World, reached: set<nat>) {
    forall r | 0 <= r < |x.replicas| :: r in reached
  }

  /** The value lives at least as long as it must, and at most the slack longer. */
  predicate InSlack(e: Stored) {
    e.due <= e.expiry <= e.due + TTL_CHECK_BUFFER
  }

  function Longer(e: Stored, extra: nat): Stored {
    e.(expiry := e.expiry + extra)
  }

  predicate Enabled(x: World, s: Step) {
    match s
    case Tick(_) => true
    case BeginW(v, start) => v !in x.used && start <= x.now
    case Reach(v, r, late) =>
      && v in x.writes && (x.writes[v].outcome.Some? ==> x.writes[v].outcome.value.failed)
      && r < |x.replicas| && late <= TTL_CHECK_BUFFER
    case Straggle(v, r, late) =>
      && x.writes == map[] && v in x.key.values && x.key.values[v].failed
      && r < |x.replicas| && late <= TTL_CHECK_BUFFER
    case Refill(r, from, longer) =>
      && x.writes == map[] && r < |x.replicas| && from < |x.replicas|
      && (x.replicas[from].Some? ==> InSlack(Longer(x.replicas[from].value, longer)))
    case Return(v, failed) =>
      v in x.writes && x.writes[v].outcome.None? && (!failed ==> Everywhere(x, x.writes[v].reached))
    case Complete(v) => v in x.writes && x.writes[v].outcome.Some?
    case BeginR(id, start) => id !in x.queries && start <= x.now
    case Sample(id, r) => id in x.queries && x.queries[id].answer.None? && r < |x.replicas|
    case Check(id) => id in x.queries && x.queries[id].answer.Some?
  }

  /** What a replica answers at an instant. */
  function Lookup(held: Option<Stored>, now: int): Option<string> {
    if held.Some? && now < held.value.expiry then Some(held.value.value) else None
  }

  /** The record CompleteWrite makes of a write: bounds from its start and its return. */
  function Recorded(x: World, v: string): StateValue
    requires v in x.writes && x.writes[v].outcome.Some?
  {
    var w := x.writes[v];
    StateValue(v, x.now, w.start + x.ttl, w.outcome.value.end + x.ttl + TTL_CHECK_BUFFER, w.outcome.value.failed)
  }

  /** The value of a write lands on a replica now. */
  function Landed(x: World, v: string, r: nat, late: nat): World
    requires r < |x.replicas|
  {
    x.(replicas := x.replicas[r := Some(Stored(v, x.now + x.ttl, x.now + x.ttl + late))])
  }

  function Apply(x: World, s: Step): World
    requires Enabled(x, s)
  {
    match s
    case Tick(d) => x.(now := x.now + d)
    case BeginW(v, start) =>
      x.(writes := x.writes[v := Write(start, x.key.version, {}, None)], used := x.used + {v}, key := BeginWrite(x.key))
    case Reach(v, r, late) =>
      Landed(x, v, r, late).(writes := x.writes[v := x.writes[v].(reached := x.writes[v].reached + {r})])
    case Straggle(v, r, late) => Landed(x, v, r, late)
    case Refill(r, from, longer) =>
      var e := x.replicas[from];
      x.(replicas := x.replicas[r := if e.Some? then Some(Longer(e.value, longer)) else None])
    case Return(v, failed) =>
      x.(writes := x.writes[v := x.writes[v].(outcome := Some(Outcome(failed, x.now)))])
    case Complete(v) =>
      x.(writes := x.writes - {v}, key := CompleteWrite(x.key, Recorded(x, v), x.writes[v].initialVersion))
    case BeginR(id, start) =>
      x.(queries := x.queries[id := Read(start, x.key.version, x.key.rc != 0, None)])
    case Sample(id, r) =>
      x.(queries := x.queries[id := x.queries[id].(answer := Some(Answer(Lookup(x.replicas[r], x.now), x.now)))])
    case Check(id) =>
      x.(queries := x.queries - {id})
  }

  /** The checker's verdict on a read that has its answer. */
  function Judge(x: World, id: nat): Verdict
    requires id in x.queries && x.queries[id].answer.Some?
  {
    var read := x.queries[id];
    var result := read.answer.value.result;
    CheckRead(x.key, if result.Some? then result.value else "", result.Some?, read.start,
              read.initialVersion, read.pending, x.now)
  }

  /** The world after the steps, if each was possible. */
  function Exec(x: World, steps: seq<Step>): Option<World>
    decreases |steps|
  {
    if steps == [] then Some(x)
    else if Enabled(x, steps[0]) then Exec(Apply(x, steps[0]), steps[1..])
    else None
  }

  // --- the invariant -------------------------------------------------------

  predicate WriteOk(x: World, v: string)
    requires v in x.writes
  {
    var w := x.writes[v];
    && v in x.used && !Duplicate(x.key, v)
    && w.start <= x.now && w.initialVersion <= x.key.version
    && (w.outcome.Some? ==> w.outcome.value.end <= x.now)
    && (w.outcome.Some? && !w.outcome.value.failed ==> Everywhere(x, w.reached))
  }

  /** The value is of a write in flight, within its bounds so far; a failed write has only
    the lower one. */
  predicate InFlight(x: World, e: Stored) {
    && e.value in x.writes
    && var w := x.writes[e.value];
    && w.start + x.ttl <= e.due
    && (w.outcome.None? ==> e.due <= x.now + x.ttl)
    && (w.outcome.Some? && !w.outcome.value.failed ==> e.due <= w.outcome.value.end + x.ttl)
  }

  /** The value is one the checker takes for possible, within its recorded bounds. */
  predicate Possible(x: World, e: Stored) {
    && e.value in x.key.values
    && var v := x.key.values[e.value];
    && v.maybeExpiredBy <= e.due
    && (!v.failed ==> e.due + TTL_CHECK_BUFFER <= v.definitelyExpiredBy)
  }

  predicate Known(x: World, e: Stored) {
    InSlack(e) && (InFlight(x, e) || Possible(x, e))
  }

  predicate ReplicaOk(x: World, r: nat)
    requires r < |x.replicas|
  {
    x.replicas[r].Some? ==> Known(x, x.replicas[r].value)
  }

  /** A replica that write v reached holds something and, as long as no write has completed
    since v began, something of a write in flight. */
  predicate Reached(x: World, v: string, r: nat)
    requires v in x.writes && r < |x.replicas|
  {
    r in x.writes[v].reached ==>
      && x.replicas[r].Some?
      && (x.writes[v].initialVersion == x.key.version ==> x.replicas[r].value.value in x.writes)
  }

  /** The read found this value before it expired. */
  predicate Finds(read: Read, e: Stored) {
    && read.answer.Some? && read.answer.value.result == Some(e.value) && read.start < e.expiry
  }

  /** The read missed this value because it had expired. */
  predicate Misses(read: Read, e: Stored) {
    read.answer.Some? && read.answer.value.result == None && e.expiry <= read.answer.value.at
  }

  /** Some recorded write of the key succeeded. */
  ghost predicate HasSuccess(s: KeyState) {
    exists v :: v in s.values && !s.values[v].failed
  }

  /** As long as no write has completed since the read began, what it found or missed is
    known: for a miss, once some write has succeeded. */
  ghost predicate ReadOk(x: World, id: nat)
    requires id in x.queries
  {
    var read := x.queries[id];
    && read.start <= x.now && read.initialVersion <= x.key.version
    && (read.answer.Some? && read.initialVersion == x.key.version ==>
          && (read.answer.value.result.Some? ==> exists e: Stored :: Finds(read, e) && Known(x, e))
          && (read.answer.value.result.None? && HasSuccess(x.key) ==>
                exists e: Stored :: Misses(read, e) && Known(x, e)))
  }

  ghost predicate Inv(x: World) {
    && x.key.rc == |x.writes|
    && (forall v | v in x.key.values || v in x.key.overwritten :: v in x.used)
    && (forall v | v in x.key.values :: x.key.values[v].maybeExpiredBy <= x.now + x.ttl)
    && (forall v {:trigger WriteOk(x, v)} | v in x.writes :: WriteOk(x, v))
    && (forall r {:trigger ReplicaOk(x, r)} | 0 <= r < |x.replicas| :: ReplicaOk(x, r))
    && (forall v, r {:trigger Reached(x, v, r)} | v in x.writes && 0 <= r < |x.replicas| :: Reached(x, v, r))
    && (HasSuccess(x.key) ==> forall r | 0 <= r < |x.replicas| :: x.replicas[r].Some?)
    && (forall id {:trigger ReadOk(x, id)} | id in x.queries :: ReadOk(x, id))
  }

  /** A step that completes no write keeps whatever was known. */
  lemma KnownStable(x: World, s: Step, e: Stored)
    requires Inv(x) && Enabled(x, s) && !s.Complete? && Known(x, e)
    ensures Known(Apply(x, s), e)
  {
    if InFlight(x, e) {
      assert WriteOk(x, e.value);
    }
  }

  /** A completed write's value becomes possible; the others in flight stay so; and
    unless the write was alone, so do the possible ones. */
  lemma KnownAfterComplete(x: World, v: string, e: Stored)
    requires Inv(x) && Enabled(x, Complete(v)) && Known(x, e)
    requires e.value in x.writes || !Alone(x.key, x.writes[v].outcome.value.failed, x.writes[v].initialVersion)
    ensures Known(Apply(x, Complete(v)), e)
  {
    assert WriteOk(x, v);
    if e.value in x.writes {
      assert WriteOk(x, e.value);
    }
  }

  /** When a write was alone, every replica holds its value. */
  lemma AloneEverywhere(x: World, v: string, r: nat)
    requires Inv(x) && Enabled(x, Complete(v)) && r < |x.replicas|
    requires Alone(x.key, x.writes[v].outcome.value.failed, x.writes[v].initialVersion)
    ensures x.replicas[r].Some? && x.replicas[r].value.value == v
  {
    assert WriteOk(x, v) && Reached(x, v, r);
    var u := x.replicas[r].value.value;
    if u != v {
      assert {u, v} <= x.writes.Keys;
      assert |{u, v}| == 2;
      SubsetSize({u, v}, x.writes.Keys);
      assert false;
    }
  }

  lemma CompleteReplica(x: World, v: string, r: nat)
    requires Inv(x) && Enabled(x, Complete(v)) && r < |x.replicas|
    ensures ReplicaOk(Apply(x, Complete(v)), r)
  {
    if x.replicas[r].Some? {
      assert ReplicaOk(x, r);
      if Alone(x.key, x.writes[v].outcome.value.failed, x.writes[v].initialVersion) {
        AloneEverywhere(x, v, r);
      }
      KnownAfterComplete(x, v, x.replicas[r].value);
    }
  }

  /** After a success every replica holds something. */
  lemma CompleteFills(x: World, v: string, r: nat)
    requires Inv(x) && Enabled(x, Complete(v)) && r < |x.replicas| && HasSuccess(Apply(x, Complete(v)).key)
    ensures x.replicas[r].Some?
  {
    assert WriteOk(x, v) && Reached(x, v, r);
    if x.writes[v].outcome.value.failed {
      assert HasSuccess(x.key);
    }
  }

  lemma AddSize(m: map<string, Write>, v: string, w: Write)
    ensures |m[v := w]| == if v in m then |m| else |m| + 1
  {
    assert m[v := w].Keys == m.Keys + {v};
  }

  lemma RemoveSize(m: map<string, Write>, v: string)
    requires v in m
    ensures |m - {v}| == |m| - 1
  {
    assert (m - {v}).Keys == m.Keys - {v};
  }

  lemma FlyingIsUsed(x: World, v: string)
    requires Inv(x)
    ensures v in x.writes ==> v in x.used
  {
    if v in x.writes {
      assert WriteOk(x, v);
    }
  }

  /** The reference count is the number of writes in flight. */
  lemma CountStable(x: World, s: Step)
    requires Inv(x) && Enabled(x, s)
    ensures Apply(x, s).key.rc == |Apply(x, s).writes|
  {
    var y := Apply(x, s);
    match s
    case BeginW(v, _) =>
      FlyingIsUsed(x, v);
      AddSize(x.writes, v, y.writes[v]);
    case Complete(v) => RemoveSize(x.writes, v);
    case Reach(v, _, _) => AddSize(x.writes, v, y.writes[v]);
    case Return(v, _) => AddSize(x.writes, v, y.writes[v]);
    case _ =>
  }

  lemma WriteStable(x: World, s: Step, v: string)
    requires Inv(x) && Enabled(x, s) && v in Apply(x, s).writes
    ensures WriteOk(Apply(x, s), v)
  {
    if v in x.writes {
      assert WriteOk(x, v);
    }
  }

  lemma ReplicaStable(x: World, s: Step, r: nat)
    requires Inv(x) && Enabled(x, s) && r < |x.replicas|
    ensures ReplicaOk(Apply(x, s), r)
  {
    assert ReplicaOk(x, r);
    if s.Complete? {
      CompleteReplica(x, s.value, r);
    } else if s.Reach? && s.r == r {
      assert WriteOk(x, s.value);
    } else if s.Refill? && s.r == r {
      assert ReplicaOk(x, s.from);
    } else if x.replicas[r].Some? {
      KnownStable(x, s, x.replicas[r].value);
    }
  }

  lemma ReachedStable(x: World, s: Step, v: string, r: nat)
    requires Inv(x) && Enabled(x, s) && v in Apply(x, s).writes && r < |x.replicas|
    ensures Reached(Apply(x, s), v, r)
  {
    if v in x.writes {
      assert Reached(x, v, r) && WriteOk(x, v);
    }
  }

  lemma FilledStable(x: World, s: Step)
    requires Inv(x) && Enabled(x, s) && HasSuccess(Apply(x, s).key)
    ensures forall r | 0 <= r < |x.replicas| :: Apply(x, s).replicas[r].Some?
  {
    if s.Complete? {
      forall r | 0 <= r < |x.replicas| ensures x.replicas[r].Some? {
        CompleteFills(x, s.value, r);
      }
    }
  }

  lemma StepInv(x: World, s: Step)
    requires Inv(x) && Enabled(x, s)
    ensures Inv(Apply(x, s))
  {
    var y := Apply(x, s);
    CountStable(x, s);
    forall v | v in y.writes ensures WriteOk(y, v) {
      WriteStable(x, s, v);
    }
    forall r | 0 <= r < |y.replicas| ensures ReplicaOk(y, r) {
      ReplicaStable(x, s, r);
    }
    forall v, r | v in y.writes && 0 <= r < |y.replicas| ensures Reached(y, v, r) {
      ReachedStable(x, s, v, r);
    }
    if HasSuccess(y.key) {
      FilledStable(x, s);
    }
    forall id | id in y.queries ensures ReadOk(y, id) {
      ReadStable(x, s, id);
    }
    UsedStable(x, s);
  }

  lemma UsedStable(x: World, s: Step)
    requires Inv(x) && Enabled(x, s)
    ensures forall v | v in Apply(x, s).key.values || v in Apply(x, s).key.overwritten :: v in Apply(x, s).used
    ensures var y := Apply(x, s);
            forall v | v in y.key.values :: y.key.values[v].maybeExpiredBy <= y.now + y.ttl
  {
    if s.Complete? {
      assert WriteOk(x, s.value);
    }
  }

  lemma ReadStable(x: World, s: Step, id: nat)
    requires Inv(x) && Enabled(x, s) && id in Apply(x, s).queries
    ensures ReadOk(Apply(x, s), id)
  {
    var y := Apply(x, s);
    if id in x.queries {
      var read := x.queries[id];
      assert ReadOk(x, id);
      if s.Sample? && s.id == id {
        assert ReplicaOk(x, s.r);
        if x.replicas[s.r].Some? {
          var e := x.replicas[s.r].value;
          KnownStable(x, s, e);
          assert Finds(y.queries[id], e) || Misses(y.queries[id], e);
        }
      } else if !s.Complete? && read.answer.Some? && read.initialVersion == x.key.version {
        if read.answer.value.result.Some? {
          var e :| Finds(read, e) && Known(x, e);
          KnownStable(x, s, e);
        } else if HasSuccess(x.key) {
          var e :| Misses(read, e) && Known(x, e);
          KnownStable(x, s, e);
        }
      }
    }
  }

  lemma InitInv(ttl: nat, now: int, n: nat)
    ensures Inv(Init(ttl, now, n))
  {
  }

  lemma {:induction false} ExecInv(x: World, steps: seq<Step>)
    requires Inv(x) && Exec(x, steps).Some?
    ensures Inv(Exec(x, steps).value) && |Exec(x, steps).value.replicas| == |x.replicas|
    decreases |steps|
  {
    if steps != [] {
      StepInv(x, steps[0]);
      ExecInv(Apply(x, steps[0]), steps[1..]);
    }
  }

  // --- what the checker reports --------------------------------------------

  /** Soundness for found values: in every run, a value that a read really found is never
    reported, whether as overwritten, as never written or as expired. */
  lemma FoundNeverReported(ttl: nat, now: int, n: nat, steps: seq<Step>, id: nat)
    requires Exec(Init(ttl, now, n), steps).Some?
    requires var x := Exec(Init(ttl, now, n), steps).value;
             id in x.queries && x.queries[id].answer.Some? && x.queries[id].answer.value.result.Some?
    ensures !Judge(Exec(Init(ttl, now, n), steps).value, id).Alarm()
  {
    var x := Exec(Init(ttl, now, n), steps).value;
    InitInv(ttl, now, n);
    ExecInv(Init(ttl, now, n), steps);
    assert ReadOk(x, id);
    var read := x.queries[id];
    if Judged(x.key, read.initialVersion, read.pending) {
      assert x.writes == map[];
      var e :| Finds(read, e) && Known(x, e);
    }
  }

  /** No call of CompleteWrite meets a value it already has, so it never panics. */
  lemma NoDuplicatePanic(ttl: nat, now: int, n: nat, steps: seq<Step>, v: string)
    requires Exec(Init(ttl, now, n), steps).Some? && Enabled(Exec(Init(ttl, now, n), steps).value, Complete(v))
    ensures !Duplicate(Exec(Init(ttl, now, n), steps).value.key, v)
  {
    InitInv(ttl, now, n);
    ExecInv(Init(ttl, now, n), steps);
    assert WriteOk(Exec(Init(ttl, now, n), steps).value, v);
  }

  /** Soundness for missing values, once some recorded write has succeeded: a read that
    really found nothing is never reported, provided the clock has moved since. */
  lemma MissingNotReported(ttl: nat, now: int, n: nat, steps: seq<Step>, id: nat)
    requires Exec(Init(ttl, now, n), steps).Some?
    requires var x := Exec(Init(ttl, now, n), steps).value;
             && id in x.queries && x.queries[id].answer.Some? && x.queries[id].answer.value.result.None?
             && x.queries[id].answer.value.at < x.now
             && (x.key.values == map[] || HasSuccess(x.key))
    ensures !Judge(Exec(Init(ttl, now, n), steps).value, id).Alarm()
  {
    var x := Exec(Init(ttl, now, n), steps).value;
    InitInv(ttl, now, n);
    ExecInv(Init(ttl, now, n), steps);
    assert ReadOk(x, id);
    var read := x.queries[id];
    if Judged(x.key, read.initialVersion, read.pending) && x.key.values != map[] {
      assert x.writes == map[];
      var e :| Misses(read, e) && Known(x, e);
      assert e.value in x.key.values && x.key.values[e.value].maybeExpiredBy < x.now;
    }
  }

  // --- exactly when a missing value is misreported -------------------------

  /** A write has succeeded, recorded or about to be. */
  ghost predicate Succeeded(x: World) {
    || HasSuccess(x.key)
    || exists v :: v in x.writes && x.writes[v].outcome.Some? && !x.writes[v].outcome.value.failed
  }

  lemma SucceededStable(x: World, s: Step)
    requires Inv(x) && Enabled(x, s) && Succeeded(x)
    ensures Succeeded(Apply(x, s))
  {
    var y := Apply(x, s);
    if HasSuccess(x.key) {
      var u :| u in x.key.values && !x.key.values[u].failed;
      if s.Complete? {
        assert WriteOk(x, s.value);
        var w := x.writes[s.value];
        var kept := if Alone(x.key, w.outcome.value.failed, w.initialVersion) then s.value else u;
        assert kept in y.key.values && !y.key.values[kept].failed;
      } else {
        assert u in y.key.values && !y.key.values[u].failed;
      }
    } else {
      var v :| v in x.writes && x.writes[v].outcome.Some? && !x.writes[v].outcome.value.failed;
      FlyingIsUsed(x, v);
      if s.Complete? && s.value == v {
        assert v in y.key.values && !y.key.values[v].failed;
      } else {
        assert v in y.writes && y.writes[v].outcome.Some? && !y.writes[v].outcome.value.failed;
      }
    }
  }

  /** The same world had nothing ever reached a replica and no read been made. */
  function Strip(x: World): World {
    x.(replicas := seq(|x.replicas|, _ => None),
       writes := map v | v in x.writes :: x.writes[v].(reached := {}),
       queries := map[])
  }

  predicate Quiet(s: Step) {
    s.Tick? || s.BeginW? || s.Return? || s.Complete?
  }

  function QuietSteps(steps: seq<Step>): seq<Step> {
    if steps == [] then []
    else if Quiet(steps[0]) then [steps[0]] + QuietSteps(steps[1..])
    else QuietSteps(steps[1..])
  }

  lemma ReturnSucceeds(x: World, v: string)
    ensures Enabled(x, Return(v, false)) ==> Succeeded(Apply(x, Return(v, false)))
  {
    if Enabled(x, Return(v, false)) {
      assert Apply(x, Return(v, false)).writes[v].outcome == Some(Outcome(false, x.now));
    }
  }

  lemma StripBegin(x: World, v: string, start: int)
    requires Enabled(x, BeginW(v, start))
    ensures Enabled(Strip(x), BeginW(v, start))
    ensures Apply(Strip(x), BeginW(v, start)) == Strip(Apply(x, BeginW(v, start)))
  {
    assert Apply(Strip(x), BeginW(v, start)).writes == Strip(Apply(x, BeginW(v, start))).writes;
  }

  lemma StripReturn(x: World, v: string, failed: bool)
    requires Enabled(x, Return(v, failed)) && !Succeeded(Apply(x, Return(v, failed)))
    ensures Enabled(Strip(x), Return(v, failed))
    ensures Apply(Strip(x), Return(v, failed)) == Strip(Apply(x, Return(v, failed)))
  {
    ReturnSucceeds(x, v);
    assert Apply(Strip(x), Return(v, failed)).writes == Strip(Apply(x, Return(v, failed))).writes;
  }

  lemma StripComplete(x: World, v: string)
    requires Enabled(x, Complete(v))
    ensures Enabled(Strip(x), Complete(v)) && Apply(Strip(x), Complete(v)) == Strip(Apply(x, Complete(v)))
  {
    assert Apply(Strip(x), Complete(v)).writes == Strip(Apply(x, Complete(v))).writes;
  }

  /** Failed writes need not reach anyone: the quiet steps do the same to the checker. */
  lemma StripStep(x: World, s: Step)
    requires Inv(x) && Enabled(x, s) && !Succeeded(Apply(x, s))
    ensures Quiet(s) ==> Enabled(Strip(x), s) && Apply(Strip(x), s) == Strip(Apply(x, s))
    ensures !Quiet(s) ==> Strip(Apply(x, s)) == Strip(x)
  {
    match s
    case BeginW(v, start) => StripBegin(x, v, start);
    case Return(v, failed) => StripReturn(x, v, failed);
    case Complete(v) => StripComplete(x, v);
    case Reach(v, _, _) => assert Strip(Apply(x, s)).writes == Strip(x).writes;
    case _ =>
  }

  lemma {:induction false} StripExec(x: World, steps: seq<Step>)
    requires Inv(x) && Exec(x, steps).Some? && !Succeeded(Exec(x, steps).value)
    ensures Exec(Strip(x), QuietSteps(steps)) == Some(Strip(Exec(x, steps).value))
    decreases |steps|
  {
    if steps != [] {
      var y := Apply(x, steps[0]);
      StepInv(x, steps[0]);
      NeverSucceeded(y, steps[1..]);
      StripStep(x, steps[0]);
      StripExec(y, steps[1..]);
      if Quiet(steps[0]) {
        assert QuietSteps(steps)[1..] == QuietSteps(steps[1..]);
      }
    }
  }

  lemma {:induction false} NeverSucceeded(x: World, steps: seq<Step>)
    requires Inv(x) && Exec(x, steps).Some? && !Succeeded(Exec(x, steps).value)
    ensures !Succeeded(x)
    decreases |steps|
  {
    if steps != [] {
      StepInv(x, steps[0]);
      NeverSucceeded(Apply(x, steps[0]), steps[1..]);
      if Succeeded(x) {
        SucceededStable(x, steps[0]);
      }
    }
  }

  lemma {:induction false} ExecAppend(x: World, a: seq<Step>, b: seq<Step>)
    requires Exec(x, a).Some?
    ensures Exec(x, a + b) == Exec(Exec(x, a).value, b)
    decreases |a|
  {
    if a == [] {
      assert a + b == b;
    } else {
      ExecAppend(Apply(x, a[0]), a[1..], b);
      assert (a + b)[1..] == a[1..] + b;
    }
  }

  /** Some run brings the checker to state k and then makes it report a read that really
    found nothing, although the clock has moved since. */
  ghost predicate Misreports(ttl: nat, now: int, n: nat, k: KeyState) {
    exists steps: seq<Step>, id: nat :: MisreportsBy(ttl, now, n, k, steps, id)
  }

  predicate MisreportsBy(ttl: nat, now: int, n: nat, k: KeyState, steps: seq<Step>, id: nat) {
    && Exec(Init(ttl, now, n), steps).Some?
    && var x := Exec(Init(ttl, now, n), steps).value;
    && x.key == k && id in x.queries && x.queries[id].answer.Some?
    && x.queries[id].answer.value.result.None? && x.queries[id].answer.value.at < x.now
    && Judge(x, id).Alarm()
  }

  /** A checker at rest, holding only values whose earliest expiry is still to come, can
    misreport a miss if and only if none of its recorded writes succeeded. */
  lemma MissingExact(ttl: nat, now: int, n: nat, steps: seq<Step>)
    requires n > 0 && Exec(Init(ttl, now, n), steps).Some?
    requires var x := Exec(Init(ttl, now, n), steps).value;
             x.writes == map[] && !SomeExpired(x.key, x.now + 1)
    ensures var k := Exec(Init(ttl, now, n), steps).value.key;
            Misreports(ttl, now, n, k) <==> !HasSuccess(k)
  {
    var x := Exec(Init(ttl, now, n), steps).value;
    if HasSuccess(x.key) {
      if Misreports(ttl, now, n, x.key) {
        var other, id :| MisreportsBy(ttl, now, n, x.key, other, id);
        MissingNotReported(ttl, now, n, other, id);
        assert false;
      }
    } else {
      MissingMisreported(ttl, now, n, steps);
    }
  }

  /** If no write has succeeded, the checker gets to the same state with empty replicas. */
  lemma QuietRun(ttl: nat, now: int, n: nat, steps: seq<Step>)
    requires Exec(Init(ttl, now, n), steps).Some?
    requires var x := Exec(Init(ttl, now, n), steps).value;
             x.writes == map[] && !HasSuccess(x.key)
    ensures var x := Exec(Init(ttl, now, n), steps).value;
            && Exec(Init(ttl, now, n), QuietSteps(steps)) == Some(Strip(x))
            && |x.replicas| == n && x.key.rc == 0
  {
    InitInv(ttl, now, n);
    ExecInv(Init(ttl, now, n), steps);
    StripExec(Init(ttl, now, n), steps);
    assert Strip(Init(ttl, now, n)) == Init(ttl, now, n);
  }

  lemma MissingMisreported(ttl: nat, now: int, n: nat, steps: seq<Step>)
    requires n > 0 && Exec(Init(ttl, now, n), steps).Some?
    requires var x := Exec(Init(ttl, now, n), steps).value;
             x.writes == map[] && !HasSuccess(x.key) && !SomeExpired(x.key, x.now + 1)
    ensures Misreports(ttl, now, n, Exec(Init(ttl, now, n), steps).value.key)
  {
    var x := Exec(Init(ttl, now, n), steps).value;
    var look := [BeginR(0, x.now), Sample(0, 0), Tick(1)];
    QuietRun(ttl, now, n, steps);
    LookOnce(Strip(x));
    ExecAppend(Init(ttl, now, n), QuietSteps(steps), look);
    assert MisreportsBy(ttl, now, n, x.key, QuietSteps(steps) + look, 0);
  }

  /** A read of an empty replica. */
  lemma LookOnce(y: World)
    requires y.queries == map[] && |y.replicas| > 0 && y.replicas[0] == None && y.key.rc == 0
    ensures var e := Exec(y, [BeginR(0, y.now), Sample(0, 0), Tick(1)]);
            && e.Some? && e.value.key == y.key && e.value.now == y.now + 1
            && e.value.queries == map[0 := Read(y.now, y.key.version, false, Some(Answer(None, y.now)))]
  {
    var y1 := Apply(y, BeginR(0, y.now));
    var y2 := Apply(y1, Sample(0, 0));
    var y3 := Apply(y2, Tick(1));
    ExecOne(y2, Tick(1), []);
    ExecOne(y1, Sample(0, 0), [Tick(1)]);
    ExecOne(y, BeginR(0, y.now), [Sample(0, 0), Tick(1)]);
  }

  lemma ExecOne(x: World, s: Step, rest: seq<Step>)
    requires Enabled(x, s)
    ensures Exec(x, [s] + rest) == Exec(Apply(x, s), rest)
  {
    assert ([s] + rest)[1..] == rest;
  }

  // --- what is reported ----------------------------------------------------

  /** After a write that was alone has completed, and as long as no further write begins,
    the verdicts are exact: a found value is reported if and only if it is another one or
    the read began after the last instant at which this one may live, with the slack; a
    miss is reported if and only if the first instant at which it may be gone has not passed. */
  lemma VerdictAfterAlone(x: World, v: string, post: seq<Step>, u: string, start: int)
    requires Inv(x) && Enabled(x, Complete(v))
    requires Alone(x.key, x.writes[v].outcome.value.failed, x.writes[v].initialVersion)
    requires (forall i | 0 <= i < |post| :: !post[i].BeginW?) && Exec(Apply(x, Complete(v)), post).Some?
    ensures var y, w := Exec(Apply(x, Complete(v)), post).value, x.writes[v];
            && (CheckRead(y.key, u, true, start, y.key.version, false, y.now).Alarm() <==>
                u != v || w.outcome.value.end + x.ttl + TTL_CHECK_BUFFER < start)
            && (CheckRead(y.key, u, false, start, y.key.version, false, y.now).Alarm() <==>
                y.now <= w.start + x.ttl)
  {
    var d := Apply(x, Complete(v));
    CountStable(x, Complete(v));
    StillIdle(d, post);
    assert v in d.key.values;
  }

  lemma {:induction false} StillIdle(x: World, post: seq<Step>)
    requires x.writes == map[] && (forall i | 0 <= i < |post| :: !post[i].BeginW?) && Exec(x, post).Some?
    ensures Exec(x, post).value.key == x.key
    decreases |post|
  {
    if post != [] {
      StillIdle(Apply(x, post[0]), post[1..]);
    }
  }

  // --- values that land too late -------------------------------------------

  /** With no write in flight, a value that lands late and is then read is reported exactly
    when the checker has retired it, or never heard of it. */
  lemma StragglerExact(x: World, v: string, r: nat, late: nat, id: nat)
    requires Inv(x) && x.writes == map[] && x.ttl > 0 && r < |x.replicas| && id !in x.queries
    requires v in x.key.values ==> x.key.values[v].failed
    ensures var e := Exec(Landed(x, v, r, late), [BeginR(id, x.now), Sample(id, r)]);
            && e.Some? && id in e.value.queries && e.value.queries[id].answer == Some(Answer(Some(v), x.now))
            && (Judge(e.value, id).Alarm() <==> v !in x.key.values)
  {
    var y := Landed(x, v, r, late);
    var y1 := Apply(y, BeginR(id, x.now));
    var y2 := Apply(y1, Sample(id, r));
    ExecOne(y1, Sample(id, r), []);
    ExecOne(y, BeginR(id, x.now), [Sample(id, r)]);
    assert Exec(y2, []) == Some(y2);
  }

  const FIRST_WRITE := [BeginW("u", 0), Return("u", true), Complete("u")]
  const SECOND_WRITE := [BeginW("w", 0), Reach("w", 0, 0), Return("w", false)]

  /** One write fails and is recorded. */
  lemma FirstFails(ttl: nat) returns (x: World)
    ensures Exec(Init(ttl, 0, 1), FIRST_WRITE) == Some(x)
    ensures x.now == 0 && x.ttl == ttl && x.queries == map[] && |x.replicas| == 1
    ensures x.writes == map[] && x.used == {"u"}
    ensures x.key.version == 1 && x.key.rc == 0 && x.key.values.Keys == {"u"} && x.key.overwritten == map[]
  {
    var x0 := Init(ttl, 0, 1);
    var x1 := Apply(x0, BeginW("u", 0));
    var x2 := Apply(x1, Return("u", true));
    x := Apply(x2, Complete("u"));
    ExecOne(x2, Complete("u"), []);
    ExecOne(x1, Return("u", true), [Complete("u")]);
    ExecOne(x0, BeginW("u", 0), [Return("u", true), Complete("u")]);
  }

  /** A second one reaches the replica and returns. */
  lemma SecondReturns(ttl: nat) returns (x: World)
    ensures Exec(Init(ttl, 0, 1), FIRST_WRITE + SECOND_WRITE) == Some(x)
    ensures x.now == 0 && x.ttl == ttl && x.queries == map[] && |x.replicas| == 1
    ensures x.writes == map["w" := Write(0, 1, {0}, Some(Outcome(false, 0)))]
    ensures x.key.version == 1 && x.key.rc == 1 && x.key.values.Keys == {"u"} && x.key.overwritten == map[]
  {
    var x0 := FirstFails(ttl);
    var x1 := Apply(x0, BeginW("w", 0));
    var x2 := Apply(x1, Reach("w", 0, 0));
    assert x2.writes["w"].reached == {0};
    x := Apply(x2, Return("w", false));
    ExecOne(x2, Return("w", false), []);
    ExecOne(x1, Reach("w", 0, 0), [Return("w", false)]);
    ExecOne(x0, BeginW("w", 0), [Reach("w", 0, 0), Return("w", false)]);
    ExecAppend(Init(ttl, 0, 1), FIRST_WRITE, SECOND_WRITE);
  }

  /** A value that lands while another write is in flight may be reported, although a read
    really finds it: the first write fails, the second succeeds, the first one's value lands
    before the second is recorded, and the checker takes it for overwritten. */
  lemma StragglerMisreported(ttl: nat) returns (x: World, y: World)
    requires ttl > 0
    ensures Exec(Init(ttl, 0, 1), FIRST_WRITE + SECOND_WRITE) == Some(x) && |x.replicas| == 1
    ensures Exec(Landed(x, "u", 0, 0), [Complete("w"), BeginR(0, 0), Sample(0, 0)]) == Some(y)
    ensures 0 in y.queries && y.queries[0].answer == Some(Answer(Some("u"), 0)) && Judge(y, 0) == WasOverwritten
  {
    x := SecondReturns(ttl);
    var x0 := Landed(x, "u", 0, 0);
    var x1 := Apply(x0, Complete("w"));
    assert x1.key.values.Keys == {"w"} && x1.key.overwritten.Keys == {"u"} && x1.key.rc == 0;
    var x2 := Apply(x1, BeginR(0, 0));
    y := Apply(x2, Sample(0, 0));
    assert Exec(y, []) == Some(y);
    ExecOne(x2, Sample(0, 0), []);
    ExecOne(x1, BeginR(0, 0), [Sample(0, 0)]);
    ExecOne(x0, Complete("w"), [BeginR(0, 0), Sample(0, 0)]);
  }

  // --- copied shards stay within the slack ---------------------------------

  /** How long the copies of an item may take in all, for the slack to cover them. */
  predicate QuickEnough(hops: seq<KvServer.Hop>) {
    KvServer.TotalDelay(hops) + |hops| * KvServer.NANOS_PER_MS <= TTL_CHECK_BUFFER
  }

  /** What a replica holds of an item after a chain of copies. */
  function Held(it: KvServer.Item, hops: seq<KvServer.Hop>): Stored {
    Stored(it.value, KvServer.Expiry(it), KvServer.Expiry(KvServer.CopyChain(it, hops)))
  }

  lemma {:induction false} LastHop(it: KvServer.Item, hops: seq<KvServer.Hop>, h: KvServer.Hop)
    requires KvServer.InTime(it.at, hops + [h])
    ensures KvServer.InTime(it.at, hops) && KvServer.CopyChain(it, hops).at <= h.sent <= h.stored
    ensures KvServer.CopyChain(it, hops + [h]) == KvServer.CopyOf(KvServer.CopyChain(it, hops), h.sent, h.stored)
    ensures KvServer.TotalDelay(hops + [h]) == KvServer.TotalDelay(hops) + h.stored - h.sent
    decreases |hops|
  {
    if hops == [] {
      assert [h][1..] == [];
    } else {
      assert (hops + [h])[1..] == hops[1..] + [h];
      LastHop(KvServer.CopyOf(it, hops[0].sent, hops[0].stored), hops[1..], h);
    }
  }

  /** A replica refilled by one more copy of a shard is a refill as above, so the soundness
    theorem covers it, as long as all copies together are quick enough: their delays and a
    millisecond for each come to no more than the slack. */
  lemma CopyIsRefill(it: KvServer.Item, hops: seq<KvServer.Hop>, h: KvServer.Hop) returns (longer: nat)
    requires KvServer.InTime(it.at, hops + [h]) && QuickEnough(hops + [h])
    ensures Held(it, hops + [h]) == Longer(Held(it, hops), longer)
    ensures InSlack(Held(it, hops)) && InSlack(Held(it, hops + [h]))
  {
    LastHop(it, hops, h);
    KvServer.TtlDrift(it, hops);
    KvServer.TtlDrift(it, hops + [h]);
    KvServer.CopyDrift(KvServer.CopyChain(it, hops), h.sent, h.stored);
    longer := Held(it, hops + [h]).expiry - Held(it, hops).expiry;
  }
}
