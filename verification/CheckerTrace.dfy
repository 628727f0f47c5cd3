/** What the checker has on record after any run, and what it says of any read, told by the
  run itself: which writes overlapped, which succeeded, and which came after which. */
module CheckerTrace {
  import opened Common
  import opened Checker
  import opened CheckerRuns

  /** Each world follows from the one before by one step. */
  ghost predicate Trace(xs: seq<World>, steps: seq<Step>) {
    && |xs| == |steps| + 1
    && (exists ttl: nat, now: int, n: nat :: xs[0] == Init(ttl, now, n))
    && forall k {:trigger NextAt(xs, steps, k)} | 0 <= k < |steps| :: NextAt(xs, steps, k)
  }

  ghost predicate NextAt(xs: seq<World>, steps: seq<Step>, k: nat)
    requires k < |steps| < |xs|
  {
    Enabled(xs[k], steps[k]) && xs[k + 1] == Apply(xs[k], steps[k])
  }

  lemma {:induction false} TraceInv(xs: seq<World>, steps: seq<Step>, k: nat)
    requires Trace(xs, steps) && k < |xs|
    ensures Inv(xs[k]) && xs[k].ttl == xs[0].ttl
  {
    if k == 0 {
      var ttl: nat, now: int, n: nat :| xs[0] == Init(ttl, now, n);
      InitInv(ttl, now, n);
    } else {
      TraceInv(xs, steps, k - 1);
      assert NextAt(xs, steps, k - 1);
      StepInv(xs[k - 1], steps[k - 1]);
    }
  }

  /** The worlds of a run. */
  function Worlds(x: World, steps: seq<Step>): seq<World>
    requires Exec(x, steps).Some?
    decreases |steps|
  {
    if steps == [] then [x] else [x] + Worlds(Apply(x, steps[0]), steps[1..])
  }

  lemma {:induction false} WorldsFollow(x: World, steps: seq<Step>, k: nat)
    requires Exec(x, steps).Some? && k < |steps|
    ensures |Worlds(x, steps)| == |steps| + 1 && NextAt(Worlds(x, steps), steps, k)
    decreases |steps|
  {
    WorldsEnd(x, steps);
    WorldsEnd(Apply(x, steps[0]), steps[1..]);
    if k > 0 {
      WorldsFollow(Apply(x, steps[0]), steps[1..], k - 1);
      assert NextAt(Worlds(Apply(x, steps[0]), steps[1..]), steps[1..], k - 1);
    }
  }

  lemma {:induction false} WorldsEnd(x: World, steps: seq<Step>)
    requires Exec(x, steps).Some?
    ensures |Worlds(x, steps)| == |steps| + 1 && Worlds(x, steps)[0] == x
    ensures Worlds(x, steps)[|steps|] == Exec(x, steps).value
    decreases |steps|
  {
    if steps != [] {
      WorldsEnd(Apply(x, steps[0]), steps[1..]);
    }
  }

  /** Every run is a trace that ends where the run ends. */
  lemma RunIsTrace(ttl: nat, now: int, n: nat, steps: seq<Step>)
    requires Exec(Init(ttl, now, n), steps).Some?
    ensures var xs := Worlds(Init(ttl, now, n), steps);
            Trace(xs, steps) && xs[|steps|] == Exec(Init(ttl, now, n), steps).value
  {
    WorldsEnd(Init(ttl, now, n), steps);
    forall k | 0 <= k < |steps| ensures NextAt(Worlds(Init(ttl, now, n), steps), steps, k) {
      WorldsFollow(Init(ttl, now, n), steps, k);
    }
  }

  // --- writes in flight ----------------------------------------------------

  /** The version counts completed writes. */
  lemma {:induction false} VersionCounts(xs: seq<World>, steps: seq<Step>, j: nat, k: nat)
    requires Trace(xs, steps) && j <= k < |xs|
    ensures xs[j].key.version <= xs[k].key.version
    ensures xs[j].key.version == xs[k].key.version <==> forall i | j <= i < k :: !steps[i].Complete?
    decreases k
  {
    if j < k {
      VersionCounts(xs, steps, j, k - 1);
      assert NextAt(xs, steps, k - 1);
    }
  }

  /** A write stays in flight until it completes. */
  lemma {:induction false} StaysInFlight(xs: seq<World>, steps: seq<Step>, j: nat, k: nat, v: string)
    requires Trace(xs, steps) && j <= k < |xs| && v in xs[j].writes
    requires forall i | j <= i < k :: steps[i] != Complete(v)
    ensures v in xs[k].writes
    decreases k
  {
    if j < k {
      StaysInFlight(xs, steps, j, k - 1, v);
      assert NextAt(xs, steps, k - 1);
    }
  }

  /** A write in flight began at some step and has not completed since. */
  lemma {:induction false} FlightBegan(xs: seq<World>, steps: seq<Step>, k: nat, v: string) returns (b: nat)
    requires Trace(xs, steps) && k < |xs| && v in xs[k].writes
    ensures b < k && steps[b].BeginW? && steps[b].value == v && (forall i | b <= i < k :: steps[i] != Complete(v))
    ensures xs[k].writes[v].initialVersion == xs[b].key.version && xs[k].writes[v].start == steps[b].start
    ensures xs[k].writes[v].outcome.Some? ==>
              exists i :: b < i < k && steps[i] == Return(v, xs[k].writes[v].outcome.value.failed)
                          && xs[k].writes[v].outcome.value.end == xs[i].now
  {
    assert k > 0;
    assert NextAt(xs, steps, k - 1);
    if steps[k - 1].BeginW? && steps[k - 1].value == v {
      b := k - 1;
    } else {
      b := FlightBegan(xs, steps, k - 1, v);
    }
  }

  /** The write begun at step b completes at step d, successfully, and is alone: none was in
    flight when it began and none began before it completed. */
  ghost predicate Solo(xs: seq<World>, steps: seq<Step>, b: nat, d: nat)
    requires |xs| == |steps| + 1
  {
    && b < d < |steps| && steps[b].BeginW? && steps[d] == Complete(steps[b].value)
    && xs[b].writes == map[] && (forall i | b < i < d :: !steps[i].BeginW?)
    && exists i :: b < i < d && steps[i] == Return(steps[b].value, false)
  }

  /** What a write has returned stays so. */
  lemma {:induction false} OutcomeStays(xs: seq<World>, steps: seq<Step>, j: nat, k: nat, v: string)
    requires Trace(xs, steps) && j <= k < |xs| && v in xs[j].writes && xs[j].writes[v].outcome.Some?
    requires forall i | j <= i < k :: steps[i] != Complete(v)
    ensures v in xs[k].writes && xs[k].writes[v].outcome == xs[j].writes[v].outcome
    decreases k
  {
    if j < k {
      OutcomeStays(xs, steps, j, k - 1, v);
      TraceInv(xs, steps, k - 1);
      FlyingIsUsed(xs[k - 1], v);
      assert NextAt(xs, steps, k - 1);
    }
  }

  /** While a write that began alone is in flight and none begins, it is the only one. */
  lemma {:induction false} OnlyFlight(xs: seq<World>, steps: seq<Step>, b: nat, k: nat)
    requires Trace(xs, steps) && b < k < |xs| && steps[b].BeginW? && xs[b].writes == map[]
    requires forall i | b < i < k :: !steps[i].BeginW? && steps[i] != Complete(steps[b].value)
    ensures xs[k].writes.Keys == {steps[b].value} && forall i | b <= i < k :: !steps[i].Complete?
    decreases k
  {
    assert NextAt(xs, steps, k - 1);
    if b < k - 1 {
      OnlyFlight(xs, steps, b, k - 1);
    }
  }

  lemma TwoInFlight(x: World, v: string, w: string)
    requires Inv(x) && v in x.writes && w in x.writes && v != w
    ensures x.key.rc >= 2
  {
    assert {v, w} <= x.writes.Keys && |{v, w}| == 2;
    SubsetSize({v, w}, x.writes.Keys);
  }

  /** A write that was in flight or began meanwhile, and has not completed, still is. */
  lemma OverlapIsCounted(xs: seq<World>, steps: seq<Step>, b: nat, d: nat, v: string, i: nat, w: string)
    requires Trace(xs, steps) && b <= i <= d < |steps| && steps[b].BeginW? && steps[b].value == v && v in xs[d].writes
    requires if i == b then w in xs[b].writes else i < d && steps[i].BeginW? && steps[i].value == w
    requires forall x | b <= x < d :: !steps[x].Complete?
    ensures xs[d].key.rc >= 2
  {
    assert NextAt(xs, steps, b) && NextAt(xs, steps, i);
    TraceInv(xs, steps, b);
    TraceInv(xs, steps, d);
    FlyingIsUsed(xs[b], w);
    if i == b {
      StaysInFlight(xs, steps, b, d, w);
    } else {
      StaysInFlight(xs, steps, b + 1, i, v);
      TraceInv(xs, steps, i);
      FlyingIsUsed(xs[i], v);
      StaysInFlight(xs, steps, i + 1, d, w);
    }
    TwoInFlight(xs[d], v, w);
  }

  /** The checker's test on versions and counts finds out exactly the writes that were alone. */
  lemma AloneIsSolo(xs: seq<World>, steps: seq<Step>, b: nat, d: nat, v: string)
    requires Trace(xs, steps) && b < d < |steps| && steps[d] == Complete(v) && v in xs[d].writes
    requires steps[b].BeginW? && steps[b].value == v && (forall i | b <= i < d :: steps[i] != Complete(v))
    requires xs[d].writes[v].outcome.Some? && xs[d].writes[v].initialVersion == xs[b].key.version
    requires exists i :: b < i < d && steps[i] == Return(v, xs[d].writes[v].outcome.value.failed)
    ensures Alone(xs[d].key, xs[d].writes[v].outcome.value.failed, xs[d].writes[v].initialVersion)
            <==> Solo(xs, steps, b, d)
  {
    TraceInv(xs, steps, d);
    VersionCounts(xs, steps, b, d);
    if Solo(xs, steps, b, d) {
      OnlyFlight(xs, steps, b, d);
      var i :| b < i < d && steps[i] == Return(v, false);
      assert NextAt(xs, steps, i);
      OutcomeStays(xs, steps, i + 1, d, v);
      assert |xs[d].writes.Keys| == 1;
    } else if Alone(xs[d].key, xs[d].writes[v].outcome.value.failed, xs[d].writes[v].initialVersion) {
      if xs[b].writes != map[] {
        var w :| w in xs[b].writes;
        OverlapIsCounted(xs, steps, b, d, v, b, w);
      } else {
        var i :| b < i < d && steps[i].BeginW?;
        OverlapIsCounted(xs, steps, b, d, v, i, steps[i].value);
      }
      assert false;
    }
  }

  // --- the record ----------------------------------------------------------

  /** Between step c and step k a write that was alone has completed. */
  ghost predicate Superseded(xs: seq<World>, steps: seq<Step>, c: nat, k: nat)
    requires |xs| == |steps| + 1
  {
    exists b, d :: c < d < k && 0 <= b && Solo(xs, steps, b, d)
  }

  /** The write of u has completed, and no write that was alone has since. */
  ghost predicate OnRecord(xs: seq<World>, steps: seq<Step>, k: nat, u: string)
    requires |xs| == |steps| + 1 && k <= |steps|
  {
    exists c :: CompletesAt(steps, c, k, u) && !Superseded(xs, steps, c, k)
  }

  /** The write of u has completed, and some write that was alone has since. */
  ghost predicate OffRecord(xs: seq<World>, steps: seq<Step>, k: nat, u: string)
    requires |xs| == |steps| + 1 && k <= |steps|
  {
    exists c :: CompletesAt(steps, c, k, u) && Superseded(xs, steps, c, k)
  }

  predicate CompletesAt(steps: seq<Step>, c: int, k: nat, u: string)
    requires k <= |steps|
  {
    0 <= c < k && steps[c] == Complete(u)
  }

  ghost predicate SoloEnds(xs: seq<World>, steps: seq<Step>, d: nat)
    requires |xs| == |steps| + 1
  {
    exists b :: 0 <= b && Solo(xs, steps, b, d)
  }

  lemma SupersededNext(xs: seq<World>, steps: seq<Step>, c: nat, k: nat)
    requires |xs| == |steps| + 1 && 0 < k <= |steps|
    ensures Superseded(xs, steps, c, k) <==>
            Superseded(xs, steps, c, k - 1) || (c < k - 1 && SoloEnds(xs, steps, k - 1))
  {
    if c < k - 1 && SoloEnds(xs, steps, k - 1) {
      var b :| 0 <= b && Solo(xs, steps, b, k - 1);
    }
    if Superseded(xs, steps, c, k) {
      var b, d :| c < d < k && 0 <= b && Solo(xs, steps, b, d);
    }
  }

  /** A value that has been used stays so. */
  lemma {:induction false} StaysUsed(xs: seq<World>, steps: seq<Step>, j: nat, k: nat, v: string)
    requires Trace(xs, steps) && j <= k < |xs| && v in xs[j].used
    ensures v in xs[k].used
    decreases k
  {
    if j < k {
      StaysUsed(xs, steps, j, k - 1, v);
      assert NextAt(xs, steps, k - 1);
    }
  }

  lemma BeginsOnce(xs: seq<World>, steps: seq<Step>, j: nat, k: nat, v: string)
    requires Trace(xs, steps) && j <= k < |steps|
    requires steps[j].BeginW? && steps[j].value == v && steps[k].BeginW? && steps[k].value == v
    ensures j == k
  {
    if j < k {
      assert NextAt(xs, steps, j) && NextAt(xs, steps, k);
      StaysUsed(xs, steps, j + 1, k, v);
    }
  }

  /** The completion at step d retires the others exactly if the write was alone. */
  lemma CompletionRetires(xs: seq<World>, steps: seq<Step>, d: nat, v: string)
    requires Trace(xs, steps) && d < |steps| && steps[d] == Complete(v)
    ensures v in xs[d].writes && xs[d].writes[v].outcome.Some?
    ensures var before, after, r := xs[d].key, xs[d + 1].key, Recorded(xs[d], v);
            if SoloEnds(xs, steps, d)
            then after.values == map[v := r] && after.overwritten == before.overwritten + before.values
            else after.values == before.values[v := r] && after.overwritten == before.overwritten
  {
    assert NextAt(xs, steps, d);
    var b := FlightBegan(xs, steps, d, v);
    AloneIsSolo(xs, steps, b, d, v);
    if SoloEnds(xs, steps, d) {
      var a :| 0 <= a && Solo(xs, steps, a, d);
      BeginsOnce(xs, steps, if a < b then a else b, if a < b then b else a, v);
    }
  }

  lemma OtherStepsRecordNothing(xs: seq<World>, steps: seq<Step>, k: nat)
    requires Trace(xs, steps) && k < |steps| && !steps[k].Complete?
    ensures xs[k + 1].key.values == xs[k].key.values && xs[k + 1].key.overwritten == xs[k].key.overwritten
    ensures !SoloEnds(xs, steps, k)
  {
    assert NextAt(xs, steps, k);
  }

  lemma OnRecordNext(xs: seq<World>, steps: seq<Step>, k: nat, u: string)
    requires |xs| == |steps| + 1 && 0 < k <= |steps|
    ensures OnRecord(xs, steps, k, u) <==>
            steps[k - 1] == Complete(u) || (!SoloEnds(xs, steps, k - 1) && OnRecord(xs, steps, k - 1, u))
  {
    if steps[k - 1] == Complete(u) {
      SupersededNext(xs, steps, k - 1, k);
      assert CompletesAt(steps, k - 1, k, u);
    }
    if OnRecord(xs, steps, k, u) {
      var c :| CompletesAt(steps, c, k, u) && !Superseded(xs, steps, c, k);
      SupersededNext(xs, steps, c, k);
      assert c < k - 1 ==> CompletesAt(steps, c, k - 1, u);
    }
    if OnRecord(xs, steps, k - 1, u) {
      var c :| CompletesAt(steps, c, k - 1, u) && !Superseded(xs, steps, c, k - 1);
      SupersededNext(xs, steps, c, k);
      assert CompletesAt(steps, c, k, u);
    }
  }

  lemma OffRecordNext(xs: seq<World>, steps: seq<Step>, k: nat, u: string)
    requires |xs| == |steps| + 1 && 0 < k <= |steps|
    ensures OffRecord(xs, steps, k, u) <==>
            OffRecord(xs, steps, k - 1, u) || (SoloEnds(xs, steps, k - 1) && OnRecord(xs, steps, k - 1, u))
  {
    if OffRecord(xs, steps, k, u) {
      var c :| CompletesAt(steps, c, k, u) && Superseded(xs, steps, c, k);
      SupersededNext(xs, steps, c, k);
      assert CompletesAt(steps, c, k - 1, u);
    }
    if OffRecord(xs, steps, k - 1, u) {
      var c :| CompletesAt(steps, c, k - 1, u) && Superseded(xs, steps, c, k - 1);
      SupersededNext(xs, steps, c, k);
      assert CompletesAt(steps, c, k, u);
    }
    if SoloEnds(xs, steps, k - 1) && OnRecord(xs, steps, k - 1, u) {
      var c :| CompletesAt(steps, c, k - 1, u) && !Superseded(xs, steps, c, k - 1);
      SupersededNext(xs, steps, c, k);
      assert CompletesAt(steps, c, k, u);
    }
  }

  /** The record, exactly: a value is possible from the completion of its write until the
    next completion of a write that was alone, and retired from then on. Overlapping and
    failed writes retire nothing. */
  lemma {:induction false} RecordExact(xs: seq<World>, steps: seq<Step>, k: nat, u: string)
    requires Trace(xs, steps) && k < |xs|
    ensures u in xs[k].key.values <==> OnRecord(xs, steps, k, u)
    ensures u in xs[k].key.overwritten <==> OffRecord(xs, steps, k, u)
  {
    if k > 0 {
      RecordExact(xs, steps, k - 1, u);
      OnRecordNext(xs, steps, k, u);
      OffRecordNext(xs, steps, k, u);
      if steps[k - 1].Complete? {
        CompletionRetires(xs, steps, k - 1, steps[k - 1].value);
      } else {
        OtherStepsRecordNothing(xs, steps, k - 1);
      }
    }
  }

  /** What is recorded of a value: bounds from the start and the return of its write. */
  lemma {:induction false} RecordedAs(xs: seq<World>, steps: seq<Step>, k: nat, u: string)
    returns (b: nat, r: nat, c: nat)
    requires Trace(xs, steps) && k < |xs| && u in xs[k].key.values
    ensures b < r < c < k && steps[b].BeginW? && steps[b].value == u && steps[c] == Complete(u)
    ensures var e := xs[k].key.values[u];
            && steps[r] == Return(u, e.failed) && e.value == u
            && e.maybeExpiredBy == steps[b].start + xs[0].ttl
            && e.definitelyExpiredBy == xs[r].now + xs[0].ttl + TTL_CHECK_BUFFER
  {
    assert k > 0;
    assert NextAt(xs, steps, k - 1);
    if steps[k - 1] == Complete(u) {
      c := k - 1;
      CompletionRetires(xs, steps, c, u);
      TraceInv(xs, steps, c);
      b := FlightBegan(xs, steps, c, u);
      var w := xs[c].writes[u].outcome.value;
      r :| b < r < c && steps[r] == Return(u, w.failed) && w.end == xs[r].now;
    } else {
      if steps[k - 1].Complete? {
        CompletionRetires(xs, steps, k - 1, steps[k - 1].value);
      }
      b, r, c := RecordedAs(xs, steps, k - 1, u);
    }
  }

  // --- verdicts ------------------------------------------------------------

  /** A read that has not been checked yet began at some step. */
  lemma {:induction false} ReadBegan(xs: seq<World>, steps: seq<Step>, k: nat, id: nat) returns (i: nat)
    requires Trace(xs, steps) && k < |xs| && id in xs[k].queries
    ensures i < k && steps[i] == BeginR(id, xs[k].queries[id].start)
    ensures xs[k].queries[id].initialVersion == xs[i].key.version
    ensures xs[k].queries[id].pending <==> xs[i].writes != map[]
  {
    assert k > 0;
    assert NextAt(xs, steps, k - 1);
    if steps[k - 1].BeginR? && steps[k - 1].id == id {
      i := k - 1;
      TraceInv(xs, steps, i);
    } else {
      i := ReadBegan(xs, steps, k - 1, id);
    }
  }

  /** From step i to step k no write is in flight. */
  ghost predicate Undisturbed(xs: seq<World>, steps: seq<Step>, i: nat, k: nat)
    requires i <= k <= |steps| < |xs|
  {
    xs[i].writes == map[] && forall j | i <= j < k :: !steps[j].BeginW?
  }

  lemma {:induction false} UndisturbedIsIdle(xs: seq<World>, steps: seq<Step>, i: nat, k: nat)
    requires Trace(xs, steps) && i <= k < |xs| && Undisturbed(xs, steps, i, k)
    ensures xs[k].writes == map[] && forall j | i <= j < k :: !steps[j].Complete?
    decreases k
  {
    if i < k {
      UndisturbedIsIdle(xs, steps, i, k - 1);
      assert NextAt(xs, steps, k - 1);
    }
  }

  /** The checker judges exactly the reads that no write disturbed. */
  lemma JudgedExact(xs: seq<World>, steps: seq<Step>, i: nat, k: nat)
    requires Trace(xs, steps) && i <= k < |xs|
    ensures Judged(xs[k].key, xs[i].key.version, xs[i].writes != map[]) <==> Undisturbed(xs, steps, i, k)
  {
    TraceInv(xs, steps, k);
    VersionCounts(xs, steps, i, k);
    if Undisturbed(xs, steps, i, k) {
      UndisturbedIsIdle(xs, steps, i, k);
    } else if Judged(xs[k].key, xs[i].key.version, xs[i].writes != map[]) {
      var j :| i <= j < k && steps[j].BeginW?;
      assert NextAt(xs, steps, j);
      StaysInFlight(xs, steps, j + 1, k, steps[j].value);
      assert false;
    }
  }

  /** A write that has returned does not return again. */
  lemma {:induction false} StaysReturned(xs: seq<World>, steps: seq<Step>, j: nat, k: nat, v: string)
    requires Trace(xs, steps) && j <= k < |xs| && v in xs[j].used
    requires v in xs[j].writes ==> xs[j].writes[v].outcome.Some?
    ensures v in xs[k].writes ==> xs[k].writes[v].outcome.Some?
    decreases k
  {
    if j < k {
      StaysReturned(xs, steps, j, k - 1, v);
      StaysUsed(xs, steps, j, k - 1, v);
      assert NextAt(xs, steps, k - 1);
    }
  }

  lemma ReturnsOnce(xs: seq<World>, steps: seq<Step>, j: nat, k: nat, v: string)
    requires Trace(xs, steps) && j <= k < |steps|
    requires steps[j].Return? && steps[j].value == v && steps[k].Return? && steps[k].value == v
    ensures j == k
  {
    if j < k {
      assert NextAt(xs, steps, j) && NextAt(xs, steps, k);
      TraceInv(xs, steps, j);
      FlyingIsUsed(xs[j], v);
      StaysReturned(xs, steps, j + 1, k, v);
    }
  }

  /** The write of u succeeded so early that by the given instant its value must be gone. */
  ghost predicate MustBeGone(xs: seq<World>, steps: seq<Step>, k: nat, u: string, start: int)
    requires k <= |steps| < |xs|
  {
    exists r :: 0 <= r < k && steps[r] == Return(u, false) && xs[r].now + xs[0].ttl + TTL_CHECK_BUFFER < start
  }

  /** The write of u began so early that by now its value may be gone. */
  ghost predicate MayBeGone(xs: seq<World>, steps: seq<Step>, k: nat, u: string)
    requires k <= |steps| < |xs|
  {
    exists b :: 0 <= b < k && steps[b].BeginW? && steps[b].value == u && steps[b].start + xs[0].ttl < xs[k].now
  }

  lemma BoundsExact(xs: seq<World>, steps: seq<Step>, k: nat, u: string, start: int)
    requires Trace(xs, steps) && k < |xs| && u in xs[k].key.values
    ensures var e := xs[k].key.values[u];
            && (e.maybeExpiredBy < xs[k].now <==> MayBeGone(xs, steps, k, u))
            && (!e.failed && e.definitelyExpiredBy < start <==> MustBeGone(xs, steps, k, u, start))
  {
    var b, r, c := RecordedAs(xs, steps, k, u);
    if MayBeGone(xs, steps, k, u) {
      var a :| 0 <= a < k && steps[a].BeginW? && steps[a].value == u && steps[a].start + xs[0].ttl < xs[k].now;
      BeginsOnce(xs, steps, if a < b then a else b, if a < b then b else a, u);
    }
    if MustBeGone(xs, steps, k, u, start) {
      var a :| 0 <= a < k && steps[a] == Return(u, false) && xs[a].now + xs[0].ttl + TTL_CHECK_BUFFER < start;
      ReturnsOnce(xs, steps, if a < r then a else r, if a < r then r else a, u);
    }
  }

  /** Every verdict on a found value, exactly. A read that some write disturbed is passed
    over. Otherwise a value is reported as overwritten if a write that was alone came after
    its own, as never written if its write has not completed, as expired if it succeeded and
    must have been gone when the read began; and in no other case. */
  lemma FoundVerdict(xs: seq<World>, steps: seq<Step>, k: nat, id: nat, u: string) returns (i: nat)
    requires Trace(xs, steps) && k < |xs| && id in xs[k].queries
    requires xs[k].queries[id].answer.Some? && xs[k].queries[id].answer.value.result == Some(u)
    ensures i < k && steps[i] == BeginR(id, xs[k].queries[id].start)
    ensures var verdict, on := Judge(xs[k], id), OnRecord(xs, steps, k, u);
            && (verdict == NotChecked <==> !Undisturbed(xs, steps, i, k))
            && (Undisturbed(xs, steps, i, k) ==>
                  && (verdict == WasOverwritten <==> !on && OffRecord(xs, steps, k, u))
                  && (verdict == NeverWritten <==> !on && !OffRecord(xs, steps, k, u))
                  && (verdict == Expired <==> on && MustBeGone(xs, steps, k, u, steps[i].start))
                  && (verdict == Correct <==> on && !MustBeGone(xs, steps, k, u, steps[i].start)))
  {
    i := ReadBegan(xs, steps, k, id);
    JudgedExact(xs, steps, i, k);
    RecordExact(xs, steps, k, u);
    if u in xs[k].key.values {
      BoundsExact(xs, steps, k, u, steps[i].start);
    }
  }

  /** Every verdict on a miss, exactly: it is reported if there is a value on record and
    none of them may be gone by now. */
  lemma MissVerdict(xs: seq<World>, steps: seq<Step>, k: nat, id: nat) returns (i: nat)
    requires Trace(xs, steps) && k < |xs| && id in xs[k].queries
    requires xs[k].queries[id].answer.Some? && xs[k].queries[id].answer.value.result.None?
    ensures i < k && steps[i] == BeginR(id, xs[k].queries[id].start)
    ensures Judge(xs[k], id) == NotChecked <==> !Undisturbed(xs, steps, i, k)
    ensures Judge(xs[k], id) == MissingUnexpired <==>
            && Undisturbed(xs, steps, i, k) && (exists u :: OnRecord(xs, steps, k, u))
            && (forall u | OnRecord(xs, steps, k, u) :: !MayBeGone(xs, steps, k, u))
    ensures Judge(xs[k], id) in {NotChecked, MissingUnexpired, Correct}
  {
    i := ReadBegan(xs, steps, k, id);
    JudgedExact(xs, steps, i, k);
    forall u ensures u in xs[k].key.values <==> OnRecord(xs, steps, k, u) {
      RecordExact(xs, steps, k, u);
    }
    forall u | u in xs[k].key.values
      ensures xs[k].key.values[u].maybeExpiredBy < xs[k].now <==> MayBeGone(xs, steps, k, u)
    {
      BoundsExact(xs, steps, k, u, 0);
    }
    if SomeExpired(xs[k].key, xs[k].now) && xs[k].key.values != map[] {
      var v :| v in xs[k].key.values && xs[k].key.values[v].maybeExpiredBy < xs[k].now;
      assert OnRecord(xs, steps, k, v) && MayBeGone(xs, steps, k, v);
    }
    if xs[k].key.values != map[] {
      var v :| v in xs[k].key.values;
      assert OnRecord(xs, steps, k, v);
    }
  }

  /** After a write that was alone, and until another completes, its value is on record and
    no other is. */
  lemma OnlySoloOnRecord(xs: seq<World>, steps: seq<Step>, b: nat, d: nat, k: nat, u: string)
    requires Trace(xs, steps) && d < k < |xs| && Solo(xs, steps, b, d)
    requires forall i | d < i < k :: !steps[i].Complete?
    ensures OnRecord(xs, steps, k, u) <==> u == steps[b].value
  {
    if u == steps[b].value {
      assert CompletesAt(steps, d, k, u);
    }
    if OnRecord(xs, steps, k, u) {
      var c :| CompletesAt(steps, c, k, u) && !Superseded(xs, steps, c, k);
    }
  }
}
