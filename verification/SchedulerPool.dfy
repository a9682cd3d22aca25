/** The pool of traffic-management scheduler ids (agent/src/core_utils.cc, agent/src/core_data.cc). */
module SchedulerPool {
  import opened IdPools

  const MAX_TM_SCHED_ID: nat := 1023

  datatype Direction = Upstream | Downstream | Unsupported

  datatype SchedKey = SchedKey(intf: int, onu: int, uni: int, direction: Direction, techProfile: int)

  /** The bit set of scheduler ids in use and the cache of who holds which id. */
  datatype Scheds = Scheds(used: set<nat>, ids: map<SchedKey, nat>)

  ghost const NO_SCHEDS := Scheds({}, map[])

  /** First id of the default schedulers of the NNI ports. */
  function UpstreamStart(maxPon: nat): int {
    if maxPon == 16 then MAX_TM_SCHED_ID - 3 else MAX_TM_SCHED_ID - 9
  }

  /** First id of the default schedulers of the PON ports, just above the subscribers' ids. */
  function DownstreamStart(maxPon: nat): nat {
    if maxPon == 16 then UpstreamStart(maxPon) - 16 else UpstreamStart(maxPon) - 64
  }

  function DefaultSchedId(maxPon: nat, intf: int, direction: Direction): int {
    match direction
    case Upstream => UpstreamStart(maxPon) + intf
    case Downstream => DownstreamStart(maxPon) + intf
    case Unsupported => 0
  }

  ghost function Get(s: Scheds, key: SchedKey): (Scheds, int) {
    if key in s.ids then (s, s.ids[key])
    else
      var id := LowestFree(s.used, 0, MAX_TM_SCHED_ID);
      if id < MAX_TM_SCHED_ID then (Scheds(s.used + {id}, s.ids[key := id]), id as int) else (s, -1)
  }

  ghost function Free(s: Scheds, key: SchedKey): Scheds {
    if key in s.ids then Scheds(s.used - {s.ids[key]}, s.ids - {key}) else s
  }

  ghost predicate Held(s: Scheds, id: nat) {
    exists k :: k in s.ids && s.ids[k] == id
  }

  /** The cache is a one-to-one correspondence between its keys and the set bits. */
  ghost predicate Bijective(s: Scheds) {
    && (forall k, l | k in s.ids && l in s.ids && s.ids[k] == s.ids[l] :: k == l)
    && (forall k | k in s.ids :: s.ids[k] in s.used && s.ids[k] < MAX_TM_SCHED_ID)
    && (forall id {:trigger Held(s, id)} | id in s.used :: Held(s, id))
  }

  lemma GetKeepsBijection(s: Scheds, key: SchedKey)
    requires Bijective(s)
    ensures Bijective(Get(s, key).0)
  {
    var t := Get(s, key).0;
    if t != s {
      var id := t.ids[key];
      forall i | i in t.used
        ensures Held(t, i)
      {
        if i != id {
          assert Held(s, i);
          var k :| k in s.ids && s.ids[k] == i;
          assert k in t.ids && t.ids[k] == i;
        } else {
          assert key in t.ids;
        }
      }
    }
  }

  lemma FreeKeepsBijection(s: Scheds, key: SchedKey)
    requires Bijective(s)
    ensures Bijective(Free(s, key))
  {
    var t := Free(s, key);
    forall i | i in t.used
      ensures Held(t, i)
    {
      assert Held(s, i);
      var k :| k in s.ids && s.ids[k] == i;
      assert k in t.ids;
    }
  }

  /** A bijective cache has exactly as many live entries as set bits. */
  lemma {:induction false} LiveEntriesEqualSetBits(s: Scheds)
    requires Bijective(s)
    ensures |s.ids| == |s.used|
    decreases |s.used|
  {
    if s.used == {} {
      assert s.ids == map[];
    } else {
      var id := SomeElement(s.used);
      assert Held(s, id);
      var k :| k in s.ids && s.ids[k] == id;
      assert s.ids.Keys == Free(s, k).ids.Keys + {k};
      FreeKeepsBijection(s, k);
      LiveEntriesEqualSetBits(Free(s, k));
    }
  }

  lemma SetBitsAreInRange(s: Scheds)
    requires Bijective(s)
    ensures forall id | id in s.used :: id < MAX_TM_SCHED_ID
  {
    forall id | id in s.used
      ensures id < MAX_TM_SCHED_ID
    {
      assert Held(s, id);
    }
  }

  /** A new id is at most the number of live entries, and ids run out only when all 1023 are live. */
  lemma NewIdIsAtMostLiveEntries(s: Scheds, key: SchedKey)
    requires Bijective(s) && key !in s.ids
    ensures Get(s, key).1 <= |s.ids|
    ensures Get(s, key).1 == -1 <==> |s.ids| == MAX_TM_SCHED_ID
  {
    LiveEntriesEqualSetBits(s);
    SetBitsAreInRange(s);
    LowestFreeBound(s.used, MAX_TM_SCHED_ID);
    LowestFreeExhausted(s.used, MAX_TM_SCHED_ID);
  }

  datatype SchedOp = Acquire(key: SchedKey) | Drop(key: SchedKey)

  ghost function Step(s: Scheds, op: SchedOp): Scheds {
    match op
    case Acquire(key) => Get(s, key).0
    case Drop(key) => Free(s, key)
  }

  ghost function Run(s: Scheds, ops: seq<SchedOp>): Scheds {
    if ops == [] then s else Step(Run(s, ops[..|ops| - 1]), ops[|ops| - 1])
  }

  /** Whatever is acquired and dropped, the cache stays a bijection onto the set bits. */
  lemma {:induction false} EveryRunKeepsBijection(ops: seq<SchedOp>)
    ensures Bijective(Run(NO_SCHEDS, ops))
  {
    if ops != [] {
      EveryRunKeepsBijection(ops[..|ops| - 1]);
      var s := Run(NO_SCHEDS, ops[..|ops| - 1]);
      match ops[|ops| - 1]
      case Acquire(key) => GetKeepsBijection(s, key);
      case Drop(key) => FreeKeepsBijection(s, key);
    }
  }

  /** Once handed out, an id is answered again by every later lookup until its own key is dropped. */
  lemma {:induction false} LookupIsStableUntilFreed(s: Scheds, key: SchedKey, ops: seq<SchedOp>)
    requires key in s.ids
    requires Drop(key) !in ops
    ensures key in Run(s, ops).ids
    ensures Get(Run(s, ops), key) == (Run(s, ops), s.ids[key])
  {
    if ops != [] {
      LookupIsStableUntilFreed(s, key, ops[..|ops| - 1]);
      assert ops[|ops| - 1] in ops;
    }
  }

  ghost predicate IdsBelow(s: Scheds, limit: nat) {
    forall k | k in s.ids :: s.ids[k] < limit
  }

  lemma NewIdBelow(s: Scheds, key: SchedKey, limit: nat)
    requires Bijective(s) && key !in s.ids && Get(s, key).1 != -1
    requires |Get(s, key).0.ids| <= limit
    ensures Get(s, key).1 < limit
  {
    NewIdIsAtMostLiveEntries(s, key);
    var ids := Get(s, key).0.ids;
    assert ids.Keys == s.ids.Keys + {key};
    assert |ids| == |ids.Keys| == |s.ids.Keys| + 1;
  }

  lemma StepKeepsIdsBelow(s: Scheds, op: SchedOp, limit: nat)
    requires Bijective(s) && IdsBelow(s, limit)
    requires |Step(s, op).ids| <= limit
    ensures IdsBelow(Step(s, op), limit)
  {
    match op
    case Drop(key) =>
      assert forall k | k in Free(s, key).ids :: k in s.ids;
    case Acquire(key) =>
      if key !in s.ids && Get(s, key).1 != -1 {
        NewIdBelow(s, key, limit);
      }
  }

  lemma {:induction false} RunKeepsIdsBelow(ops: seq<SchedOp>, limit: nat)
    requires forall i | 0 <= i <= |ops| :: |Run(NO_SCHEDS, ops[..i]).ids| <= limit
    ensures IdsBelow(Run(NO_SCHEDS, ops), limit)
  {
    if ops != [] {
      var prev := ops[..|ops| - 1];
      assert forall i | 0 <= i <= |prev| :: prev[..i] == ops[..i];
      RunKeepsIdsBelow(prev, limit);
      EveryRunKeepsBijection(prev);
      assert ops[..|ops|] == ops;
      StepKeepsIdsBelow(Run(NO_SCHEDS, prev), ops[|ops| - 1], limit);
    }
  }

  /** While no more entries are ever live than there are subscriber ids, no subscriber id reaches a default one. */
  lemma SubscriberIdsStayBelowDefaults(maxPon: nat, ops: seq<SchedOp>, key: SchedKey, intf: nat, direction: Direction)
    requires forall i | 0 <= i <= |ops| :: |Run(NO_SCHEDS, ops[..i]).ids| <= DownstreamStart(maxPon)
    requires key in Run(NO_SCHEDS, ops).ids && direction != Unsupported
    ensures Run(NO_SCHEDS, ops).ids[key] < DefaultSchedId(maxPon, intf, direction)
  {
    RunKeepsIdsBelow(ops, DownstreamStart(maxPon));
  }

  /** On a 16-PON device the subscribers' ids are those below 1004. */
  lemma SixteenPonDefaults(intf: nat)
    ensures DefaultSchedId(16, intf, Downstream) == 1004 + intf
    ensures DefaultSchedId(16, intf, Upstream) == 1020 + intf
  {
  }

  /** On any other device they start at 950 and 1014. */
  lemma OtherPonDefaults(maxPon: nat, intf: nat)
    requires maxPon != 16
    ensures DefaultSchedId(maxPon, intf, Downstream) == 950 + intf
    ensures DefaultSchedId(maxPon, intf, Upstream) == 1014 + intf
  {
  }

  // What one lookup or release does

  /** A key without an id gets the lowest unset bit, which is set, and nobody else's id changes; or none is unset. */
  lemma NewIdIs(s: Scheds, key: SchedKey)
    requires key !in s.ids
    ensures var (t, id) := Get(s, key);
            if id == -1 then t == s && forall i: nat | i < MAX_TM_SCHED_ID :: i in s.used
            else
              && 0 <= id < MAX_TM_SCHED_ID && id !in s.used && (forall i: nat | i < id :: i in s.used)
              && t.used == s.used + {id as nat}
              && t.ids.Keys == s.ids.Keys + {key} && t.ids[key] == id
              && forall k | k in s.ids :: t.ids[k] == s.ids[k]
  {
  }

  /** A release takes the key and its bit out, and nobody else's. */
  lemma FreeIs(s: Scheds, key: SchedKey)
    requires Bijective(s)
    ensures var t := Free(s, key);
            && t.ids.Keys == s.ids.Keys - {key}
            && (forall k | k in t.ids :: t.ids[k] == s.ids[k])
            && (forall i | i in t.used :: i in s.used)
            && (forall i | i in s.used :: i in t.used <==> !(key in s.ids && s.ids[key] == i))
  {
  }

  /** A release undoes the lookup that allocated. */
  lemma FreeUndoesGet(s: Scheds, key: SchedKey)
    requires key !in s.ids && Get(s, key).1 != -1
    ensures Free(Get(s, key).0, key) == s
  {
    var t := Free(Get(s, key).0, key);
    assert t.ids == s.ids;
    assert t.used == s.used;
  }

  /** A dropped key has no id until it is acquired again, and its id is free until another key gets it. */
  lemma {:induction false} DroppedUntilAcquired(s: Scheds, key: SchedKey, ops: seq<SchedOp>)
    requires Bijective(s)
    requires Acquire(key) !in ops
    ensures var t := Run(Free(s, key), ops);
            key !in t.ids && Bijective(t) && (key in s.ids && s.ids[key] in t.used ==> Held(t, s.ids[key]))
  {
    if ops == [] {
      FreeKeepsBijection(s, key);
    } else {
      var last := ops[|ops| - 1];
      assert last in ops;
      var before := ops[..|ops| - 1];
      DroppedUntilAcquired(s, key, before);
      var t := Run(Free(s, key), before);
      match last
      case Acquire(k) => GetKeepsBijection(t, k);
      case Drop(k) => FreeKeepsBijection(t, k);
    }
  }

  class SchedulerCache {
    const bits: array<bool>
    var schedMap: map<SchedKey, nat>

    ghost function Model(): Scheds
      reads this, bits
    {
      Scheds(SetBits(bits[..]), schedMap)
    }

    ghost predicate Valid()
      reads this
    {
      bits.Length == MAX_TM_SCHED_ID
    }

    constructor ()
      ensures Valid() && fresh(bits) && Model() == NO_SCHEDS
    {
      bits := new bool[MAX_TM_SCHED_ID](_ => false);
      schedMap := map[];
    }

    method GetTmSchedId(key: SchedKey) returns (schedId: int)
      requires Valid()
      modifies this, bits
      ensures Valid()
      ensures (Model(), schedId) == Get(old(Model()), key)
    {
      schedId := -1;
      if key in schedMap {
        schedId := schedMap[key];
      }
      if schedId != -1 {
        return;
      }
      var id := TakeLowest(bits, 0);
      if id < MAX_TM_SCHED_ID {
        schedMap := schedMap[key := id];
        schedId := id;
      }
    }

    method FreeTmSchedId(key: SchedKey)
      requires Valid()
      modifies this, bits
      ensures Valid()
      ensures Model() == Free(old(Model()), key)
    {
      if key in schedMap {
        Release(bits, schedMap[key]);
        schedMap := schedMap - {key};
      }
    }

    method IsTmSchedIdPresent(key: SchedKey) returns (present: bool)
      requires Valid()
      ensures present <==> Get(Model(), key).0 == Model() && Get(Model(), key).1 != -1
    {
      present := key in schedMap;
    }
  }
}
