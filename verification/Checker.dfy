/** What the consistency checker keeps for one key, and what each of its calls does.
  The four maps of the checker are all indexed by key, so keys never interact. Times are
  instants in nanoseconds. */
module Checker {

  /** 10 ms of slack on the upper bound of an expiry. */
  const TTL_CHECK_BUFFER: int := 10_000_000

  datatype StateValue = StateValue(
    value: string, writtenAt: int, maybeExpiredBy: int, definitelyExpiredBy: int, failed: bool)

  datatype KeyState = KeyState(
    values: map<string, StateValue>, overwritten: map<string, StateValue>, version: nat, rc: int)

  const NEW_KEY := KeyState(map[], map[], 0, 0)

  datatype Verdict =
    | NotChecked
    | Correct
    | MissingUnexpired
    | WasOverwritten
    | NeverWritten
    | Expired
  {
    predicate Alarm() {
      !NotChecked? && !Correct?
    }
  }

  function BeginWrite(s: KeyState): KeyState {
    s.(rc := s.rc + 1)
  }

  /** The two cases in which CompleteWrite panics. */
  predicate Duplicate(s: KeyState, value: string) {
    value in s.values || value in s.overwritten
  }

  /** A write that succeeded and that no other write overlapped. */
  predicate Alone(s: KeyState, failed: bool, initialVersion: nat) {
    !failed && initialVersion == s.version && s.rc == 1
  }

  function CompleteWrite(s: KeyState, v: StateValue, initialVersion: nat): KeyState {
    var t := s.(rc := s.rc - 1, version := s.version + 1);
    if Alone(s, v.failed, initialVersion) then
      t.(overwritten := s.overwritten + s.values, values := map[v.value := v])
    else
      t.(values := s.values[v.value := v])
  }

  /** May the read be judged: no write began, ended or was pending meanwhile? */
  predicate Judged(s: KeyState, initialVersion: nat, writesPending: bool) {
    s.version == initialVersion && !writesPending && s.rc == 0
  }

  /** Some possible value may have expired, or none was ever recorded. */
  predicate SomeExpired(s: KeyState, now: int) {
    s.values == map[] || exists v :: v in s.values && s.values[v].maybeExpiredBy < now
  }

  function CheckRead(
    s: KeyState, value: string, wasFound: bool, start: int, initialVersion: nat, writesPending: bool, now: int): Verdict
  {
    if !Judged(s, initialVersion, writesPending) then NotChecked
    else if !wasFound then
      if SomeExpired(s, now) then Correct else MissingUnexpired
    else if value !in s.values then
      if value in s.overwritten then WasOverwritten else NeverWritten
    else if !s.values[value].failed && s.values[value].definitelyExpiredBy < start then Expired
    else Correct
  }
}

/** The checker as the object it is, with its four maps and its counter. */
module CheckerObject {
  import opened Checker

  /** A Go map read: a missing key reads as the zero value. */
  function Lookup<K, V>(m: map<K, V>, k: K, zero: V): V {
    if k in m then m[k] else zero
  }

  class ConsistencyChecker {
    var checksRun: nat
    var values: map<string, map<string, StateValue>>
    var overwrittenValues: map<string, map<string, StateValue>>
    var version: map<string, nat>
    var rc: map<string, int>

    ghost function Key(key: string): KeyState
      reads this
    {
      KeyState(Lookup(values, key, map[]), Lookup(overwrittenValues, key, map[]),
               Lookup(version, key, 0), Lookup(rc, key, 0))
    }

    /** Every recorded value is filed under itself. */
    ghost predicate Valid()
      reads this
    {
      forall key, v | key in values && v in values[key] :: values[key][v].value == v
    }

    constructor ()
      ensures Valid() && checksRun == 0 && forall key :: Key(key) == NEW_KEY
    {
      checksRun, values, overwrittenValues, version, rc := 0, map[], map[], map[], map[];
    }

    method BeginWrite(key: string) returns (initialVersion: nat)
      requires Valid()
      modifies this`rc
      ensures Valid() && Key(key) == Checker.BeginWrite(old(Key(key)))
      ensures initialVersion == Key(key).version
      ensures forall k | k != key :: Key(k) == old(Key(k))
    {
      rc := rc[key := Lookup(rc, key, 0) + 1];
      initialVersion := Lookup(version, key, 0);
    }

    /** `panicked` says the duplicate test stopped the call before it changed anything. */
    method CompleteWrite(key: string, value: string, failed: bool, initialVersion: nat,
                         maybeExpiredBy: int, definitelyExpiredBy: int, now: int) returns (panicked: bool)
      requires Valid()
      modifies this`values, this`overwrittenValues, this`version, this`rc
      ensures Valid() && panicked == Duplicate(old(Key(key)), value)
      ensures Key(key) ==
              if panicked then old(Key(key))
              else Checker.CompleteWrite(old(Key(key)),
                     StateValue(value, now, maybeExpiredBy, definitelyExpiredBy + TTL_CHECK_BUFFER, failed),
                       initialVersion)
      ensures panicked <==> value in old(Key(key)).values || value in old(Key(key)).overwritten
      ensures !panicked ==>
                Written(old(Key(key)), Key(key), initialVersion,
                  StateValue(value, now, maybeExpiredBy, definitelyExpiredBy + TTL_CHECK_BUFFER, failed))
      ensures forall k | k != key :: Key(k) == old(Key(k))
    {
      var newVal := StateValue(value, now, maybeExpiredBy, definitelyExpiredBy + TTL_CHECK_BUFFER, failed);
      var currentVersion := Lookup(version, key, 0);
      panicked := value in Lookup(values, key, map[]) || value in Lookup(overwrittenValues, key, map[]);
      if panicked {
        return;
      }
      Record(key, newVal, !failed && initialVersion == currentVersion && Lookup(rc, key, 0) == 1);
      rc := rc[key := Lookup(rc, key, 0) - 1];
      version := version[key := currentVersion + 1];
    }

    /** One write fewer is pending and one more has completed. The value takes the place of all
      others if its write succeeded, no write has completed since it began and none other is
      pending; else it joins them. */
    static predicate Written(s: KeyState, t: KeyState, initialVersion: nat, v: StateValue) {
      && t.rc == s.rc - 1 && t.version == s.version + 1
      && if !v.failed && initialVersion == s.version && s.rc == 1
         then
           && t.values.Keys == {v.value} && t.values[v.value] == v
           && t.overwritten.Keys == s.overwritten.Keys + s.values.Keys
         else
           && t.values.Keys == s.values.Keys + {v.value} && t.overwritten == s.overwritten
           && t.values[v.value] == v && forall u | u in s.values && u != v.value :: t.values[u] == s.values[u]
    }

    /** A write that was alone retires all other values; any other write adds to them. */
    method Record(key: string, v: StateValue, alone: bool)
      requires Valid()
      modifies this`values, this`overwrittenValues
      ensures Valid()
      ensures Key(key).values == if alone then map[v.value := v] else old(Key(key)).values[v.value := v]
      ensures Key(key).overwritten ==
              if alone then old(Key(key)).overwritten + old(Key(key)).values else old(Key(key)).overwritten
      ensures forall k | k != key :: Key(k) == old(Key(k))
    {
      var current := Lookup(values, key, map[]);
      if alone {
        var retired := Retire(current, Lookup(overwrittenValues, key, map[]));
        overwrittenValues := overwrittenValues[key := retired];
        values := values[key := map[v.value := v]];
      } else {
        values := values[key := current[v.value := v]];
      }
    }

    /** Move every current value, whatever the order, to the overwritten ones. */
    static method Retire(current: map<string, StateValue>, overwritten: map<string, StateValue>)
      returns (result: map<string, StateValue>)
      requires forall v | v in current :: current[v].value == v
      ensures result == overwritten + current
    {
      result := overwritten;
      var left := current.Keys;
      while left != {}
        invariant left <= current.Keys && result.Keys == overwritten.Keys + (current.Keys - left)
        invariant forall v | v in result ::
                    result[v] == if v in current && v !in left then current[v] else overwritten[v]
      {
        var v :| v in left;
        result := result[current[v].value := current[v]];
        left := left - {v};
      }
    }

    method BeginRead(key: string) returns (initialVersion: nat, writesPending: bool)
      ensures initialVersion == Key(key).version && writesPending == (Key(key).rc != 0)
    {
      initialVersion, writesPending := Lookup(version, key, 0), Lookup(rc, key, 0) != 0;
    }

    method CheckReadCorrect(key: string, value: string, wasFound: bool, startTime: int,
                            initialVersion: nat, writesPending: bool, now: int) returns (verdict: Verdict)
      modifies this`checksRun
      ensures verdict == CheckRead(Key(key), value, wasFound, startTime, initialVersion, writesPending, now)
      ensures checksRun == old(checksRun) + if verdict.NotChecked? then 0 else 1
    {
      if Lookup(version, key, 0) != initialVersion || writesPending || Lookup(rc, key, 0) != 0 {
        return NotChecked;
      }
      checksRun := checksRun + 1;
      var current := Lookup(values, key, map[]);
      if !wasFound {
        var someValueExpired := AnyExpired(current, now);
        return if someValueExpired then Correct else MissingUnexpired;
      }
      if value !in current {
        return if value in Lookup(overwrittenValues, key, map[]) then WasOverwritten else NeverWritten;
      }
      if !current[value].failed && current[value].definitelyExpiredBy < startTime {
        return Expired;
      }
      return Correct;
    }

    /** Is the map empty, or some value's earliest expiry past? */
    static method AnyExpired(current: map<string, StateValue>, now: int) returns (found: bool)
      ensures found <==> current == map[] || exists v :: v in current && current[v].maybeExpiredBy < now
    {
      found := |current| == 0;
      var left := current.Keys;
      while left != {}
        invariant left <= current.Keys
        invariant found <==>
                  current == map[] || exists v :: v in current && v !in left && current[v].maybeExpiredBy < now
      {
        var v :| v in left;
        if current[v].maybeExpiredBy < now {
          found := true;
        }
        left := left - {v};
      }
    }
  }
}
