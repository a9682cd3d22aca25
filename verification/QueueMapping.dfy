/** Shared queue mapping profiles: deduplication, references and ids (agent/src/core_utils.cc). */
module QueueMapping {
  import opened IdPools
  import opened QueueProfiles

  const MAX_TM_QMP_ID: nat := 16

  /** A subscriber's scheduler: (scheduler id, PON interface, ONU, UNI). */
  datatype SubKey = SubKey(schedId: int, intf: int, onu: int, uni: int)

  /** The bit set of profile ids, the profiles by id and the profile id each subscriber uses. */
  datatype Qmps = Qmps(used: set<nat>, profiles: map<nat, Profile>, refs: map<SubKey, int>)

  ghost const NO_QMPS := Qmps({}, map[], map[])

  ghost predicate IsFirstWith(profiles: map<nat, Profile>, profile: Profile, id: nat) {
    && id in profiles && profiles[id] == profile
    && forall i | i in profiles && profiles[i] == profile :: id <= i
  }

  /** The first id in the map's order that holds this profile, -1 if none does. */
  ghost function Find(profiles: map<nat, Profile>, profile: Profile): int {
    if id :| IsFirstWith(profiles, profile, id) then id as int else -1
  }

  /** The profile id a subscriber uses, -1 if none. */
  function Lookup(refs: map<SubKey, int>, key: SubKey): int {
    if key in refs then refs[key] else -1
  }

  /** A map insert: an existing entry stays. */
  function Inserted<K, V>(m: map<K, V>, k: K, v: V): map<K, V> {
    if k in m then m else m[k := v]
  }

  ghost function Users(refs: map<SubKey, int>, id: int): set<SubKey> {
    set k | k in refs && refs[k] == id
  }

  ghost function Allocate(q: Qmps, key: SubKey, profile: Profile): (Qmps, int) {
    var id := LowestFree(q.used, 0, MAX_TM_QMP_ID);
    if id < MAX_TM_QMP_ID then
      (Qmps(q.used + {id}, Inserted(q.profiles, id, profile), Inserted(q.refs, key, id)), id as int)
    else (q, -1)
  }

  /**
   * What the creation of a subscriber's queues does with its profile: allocate an absent one, or refer to a present
   * one unless the subscriber already has a profile. The device may refuse a new profile; its id stays allocated.
   */
  ghost function Attach(q: Qmps, key: SubKey, profile: Profile, deviceOk: bool): (Qmps, bool) {
    var id := Find(q.profiles, profile);
    if id == -1 then
      var (r, added) := Allocate(q, key, profile);
      (r, added != -1 && deviceOk)
    else if Lookup(q.refs, key) == -1 then (q.(refs := Inserted(q.refs, key, id)), true)
    else (q, true)
  }

  /** Drops a subscriber's entry and, with the last reference to the id, the profile. The result is left unset when
      there is neither a reference nor a profile: unset stands for what it then happens to be. */
  ghost function FreeQmp(q: Qmps, key: SubKey, id: int, unset: bool): (Qmps, bool) {
    var refs := q.refs - {key};
    if Users(refs, id) == {} then
      if id >= 0 && id in q.profiles then (Qmps(q.used - {id}, q.profiles - {id}, refs), true)
      else (q.(refs := refs), unset)
    else (q.(refs := refs), false)
  }

  /** What the removal of a subscriber's queues does: release the profile the subscriber is mapped to. */
  ghost function Detach(q: Qmps, key: SubKey, unset: bool): (Qmps, bool) {
    FreeQmp(q, key, Lookup(q.refs, key), unset)
  }

  /** Set bits are the profiles' ids, profiles are pairwise distinct, and every subscriber's id names a profile. */
  ghost predicate Coherent(q: Qmps) {
    && q.used == q.profiles.Keys
    && (forall id | id in q.profiles :: id < MAX_TM_QMP_ID)
    && (forall i, j | i in q.profiles && j in q.profiles && q.profiles[i] == q.profiles[j] :: i == j)
    && (forall k | k in q.refs :: 0 <= q.refs[k] && q.refs[k] in q.profiles)
  }

  /** Every profile is used by some subscriber. */
  ghost predicate AllReferenced(q: Qmps) {
    forall id {:trigger Users(q.refs, id)} | id in q.profiles :: Users(q.refs, id) != {}
  }

  lemma FindMeans(q: Qmps, profile: Profile)
    requires Coherent(q)
    ensures Find(q.profiles, profile) == -1 <==> forall id | id in q.profiles :: q.profiles[id] != profile
    ensures Find(q.profiles, profile) != -1 ==>
              0 <= Find(q.profiles, profile) && Find(q.profiles, profile) in q.profiles
              && q.profiles[Find(q.profiles, profile)] == profile
  {
    if id :| id in q.profiles && q.profiles[id] == profile {
      assert IsFirstWith(q.profiles, profile, id);
    }
  }

  lemma AttachKeepsCoherent(q: Qmps, key: SubKey, profile: Profile, deviceOk: bool)
    requires Coherent(q)
    ensures Coherent(Attach(q, key, profile, deviceOk).0)
  {
    FindMeans(q, profile);
    if Find(q.profiles, profile) == -1 {
      AllocateKeepsCoherent(q, key, profile);
    }
  }

  lemma AllocateKeepsCoherent(q: Qmps, key: SubKey, profile: Profile)
    requires Coherent(q) && forall id | id in q.profiles :: q.profiles[id] != profile
    ensures Coherent(Allocate(q, key, profile).0)
  {
    var r := Allocate(q, key, profile).0;
    assert forall id | id in r.profiles :: id in q.profiles || id == LowestFree(q.used, 0, MAX_TM_QMP_ID);
  }

  /** The creation allocates a new profile for a subscriber that already has another. */
  ghost predicate Orphans(q: Qmps, key: SubKey, profile: Profile) {
    Find(q.profiles, profile) == -1 && key in q.refs && LowestFree(q.used, 0, MAX_TM_QMP_ID) < MAX_TM_QMP_ID
  }

  lemma UsersAfterInsert(refs: map<SubKey, int>, key: SubKey, id: int, i: int)
    requires key !in refs
    ensures Users(Inserted(refs, key, id), i) == Users(refs, i) + (if i == id then {key} else {})
  {
  }

  /** A creation leaves every profile referenced exactly when it does not allocate for a mapped subscriber. */
  lemma AttachKeepsReferencedIff(q: Qmps, key: SubKey, profile: Profile, deviceOk: bool)
    requires Coherent(q) && AllReferenced(q)
    ensures AllReferenced(Attach(q, key, profile, deviceOk).0) <==> !Orphans(q, key, profile)
  {
    FindMeans(q, profile);
    var r := Attach(q, key, profile, deviceOk).0;
    if Orphans(q, key, profile) {
      var id := LowestFree(q.used, 0, MAX_TM_QMP_ID);
      assert id in r.profiles && Users(r.refs, id) == {};
    } else {
      forall i | i in r.profiles
        ensures Users(r.refs, i) != {}
      {
        if key !in q.refs && r.refs != q.refs {
          UsersAfterInsert(q.refs, key, r.refs[key], i);
        }
        if i in q.profiles {
          assert Users(q.refs, i) != {};
        }
      }
    }
  }

  lemma UsersAfterDrop(refs: map<SubKey, int>, key: SubKey, i: int)
    ensures Users(refs - {key}, i) == Users(refs, i) - {key}
  {
  }

  lemma DetachKeepsCoherent(q: Qmps, key: SubKey, unset: bool)
    requires Coherent(q)
    ensures Coherent(Detach(q, key, unset).0)
    ensures AllReferenced(q) ==> AllReferenced(Detach(q, key, unset).0)
  {
    var id := Lookup(q.refs, key);
    var refs := q.refs - {key};
    var r := Detach(q, key, unset).0;
    forall k | k in r.refs
      ensures r.refs[k] in r.profiles
    {
      if r.refs[k] == id {
        assert k in Users(refs, id);
      }
    }
    if AllReferenced(q) {
      forall i | i in r.profiles
        ensures Users(r.refs, i) != {}
      {
        assert Users(q.refs, i) != {};
        UsersAfterDrop(q.refs, key, i);
        if i != id {
          assert Users(q.refs, i) - {key} == Users(q.refs, i);
        }
      }
    }
  }

  /** Releasing a mapped subscriber's own profile answers true exactly when it was the last reference, and then the
      profile and its bit are gone; otherwise the profile stays. */
  lemma DetachTrueIffLastReference(q: Qmps, key: SubKey, unset: bool)
    requires Coherent(q) && key in q.refs
    ensures var (r, last) := Detach(q, key, unset);
            && (last <==> Users(q.refs, q.refs[key]) == {key})
            && (last <==> q.refs[key] !in r.profiles)
            && (last <==> q.refs[key] !in r.used)
            && key !in r.refs
  {
    UsersAfterDrop(q.refs, key, q.refs[key]);
    assert key in Users(q.refs, q.refs[key]);
  }

  // What one call does

  /**
   * A creation with a profile that is present keeps the tables and maps a subscriber that has no profile yet to it.
   */
  lemma AttachPresentIs(q: Qmps, key: SubKey, profile: Profile, deviceOk: bool, id: nat)
    requires Coherent(q) && id in q.profiles && q.profiles[id] == profile
    ensures Attach(q, key, profile, deviceOk) == (q.(refs := if key in q.refs then q.refs else q.refs[key := id]), true)
  {
    FindMeans(q, profile);
    assert Find(q.profiles, profile) == id;
  }

  /**
   * With an absent one it takes the lowest free id for it, and maps a subscriber that has no profile yet to that; it
   * fails exactly if all sixteen ids are taken, changing nothing, or if the device refuses the profile.
   */
  lemma AttachAbsentIs(q: Qmps, key: SubKey, profile: Profile, deviceOk: bool, id: nat)
    requires Coherent(q) && forall i | i in q.profiles :: q.profiles[i] != profile
    requires id <= 16 && (forall i: nat | i < id :: i in q.used) && (id < 16 ==> id !in q.used)
    ensures Attach(q, key, profile, deviceOk) ==
              if id == 16 then (q, false)
              else (Qmps(q.used + {id}, q.profiles[id := profile], if key in q.refs then q.refs else q.refs[key := id]),
                    deviceOk)
  {
    FindMeans(q, profile);
    assert LowestFree(q.used, 0, MAX_TM_QMP_ID) == id;
  }

  /** The subscriber's id names this profile. */
  predicate MapsTo(q: Qmps, key: SubKey, profile: Profile) {
    key in q.refs && 0 <= q.refs[key] && q.refs[key] in q.profiles && q.profiles[q.refs[key] as nat] == profile
  }

  /** After a successful creation the subscriber is mapped: to its old id, or else to one with the profile asked for. */
  lemma AttachMaps(q: Qmps, key: SubKey, profile: Profile, deviceOk: bool)
    requires Coherent(q) && Attach(q, key, profile, deviceOk).1
    ensures var r := Attach(q, key, profile, deviceOk).0;
            && key in r.refs
            && (key in q.refs ==> r.refs == q.refs)
            && (key !in q.refs ==> r.refs == q.refs[key := r.refs[key]] && MapsTo(r, key, profile))
            && (forall id | id in q.profiles :: id in r.profiles && r.profiles[id] == q.profiles[id])
  {
    FindMeans(q, profile);
    if id :| id in q.profiles && q.profiles[id] == profile {
      AttachPresentIs(q, key, profile, deviceOk, id);
    } else {
      AttachAbsentIs(q, key, profile, deviceOk, LowestFree(q.used, 0, MAX_TM_QMP_ID));
    }
  }

  /** Releasing a mapped subscriber's own profile: its entry goes, and with the last one the profile and its id. */
  lemma DetachIs(q: Qmps, key: SubKey, unset: bool)
    requires Coherent(q)
    ensures key !in q.refs ==> Detach(q, key, unset) == (q, unset)
    ensures key in q.refs ==>
              var id := q.refs[key];
              var last := forall k | k in q.refs && k != key :: q.refs[k] != id;
              Detach(q, key, unset)
              == (if last then Qmps(q.used - {id}, q.profiles - {id}, q.refs - {key}) else q.(refs := q.refs - {key}), last)
  {
    if key in q.refs {
      UsersAfterDrop(q.refs, key, q.refs[key]);
      var others := Users(q.refs - {key}, q.refs[key]);
      if others == {} {
        forall k | k in q.refs && k != key
          ensures q.refs[k] != q.refs[key]
        {
          assert k !in others;
        }
      }
    } else {
      assert q.refs - {key} == q.refs;
    }
  }

  lemma DetachLastIs(q: Qmps, key: SubKey, unset: bool)
    requires Coherent(q) && key in q.refs && forall k | k in q.refs && k != key :: q.refs[k] != q.refs[key]
    ensures var id := q.refs[key];
            Detach(q, key, unset) == (Qmps(q.used - {id as nat}, q.profiles - {id}, q.refs - {key}), true)
  {
    DetachIs(q, key, unset);
  }

  /**
   * Two subscribers that attach one profile are mapped to one id; the first release answers false and keeps the profile,
   * the second answers true and drops it.
   */
  lemma TwoShareAProfile(q: Qmps, a: SubKey, b: SubKey, profile: Profile, unset: bool)
    requires Coherent(q) && a != b && a !in q.refs && b !in q.refs
    requires forall id | id in q.profiles :: q.profiles[id] != profile
    requires Attach(q, a, profile, true).1
    ensures var both := Attach(Attach(q, a, profile, true).0, b, profile, true).0;
            && Lookup(both.refs, a) == Lookup(both.refs, b) >= 0
            && var (one, first) := Detach(both, a, unset);
               var (none, second) := Detach(one, b, unset);
               && !first && one.profiles == both.profiles && Lookup(one.refs, b) == Lookup(both.refs, b)
               && second && none == q
  {
    var low := LowestFree(q.used, 0, MAX_TM_QMP_ID);
    AttachAbsentIs(q, a, profile, true, low);
    AttachKeepsCoherent(q, a, profile, true);
    var r := Attach(q, a, profile, true).0;
    AttachPresentIs(r, b, profile, true, low);
    AttachKeepsCoherent(r, b, profile, true);
    ReleaseBoth(q, a, b, profile, low, Attach(r, b, profile, true).0, unset);
  }

  lemma ReleaseBoth(q: Qmps, a: SubKey, b: SubKey, profile: Profile, id: nat, both: Qmps, unset: bool)
    requires Coherent(q) && Coherent(both) && a != b && a !in q.refs && b !in q.refs && id !in q.used
    requires both == Qmps(q.used + {id}, q.profiles[id := profile], q.refs[a := id][b := id])
    ensures Detach(both, a, unset) == (both.(refs := q.refs[b := id]), false)
    ensures Detach(both.(refs := q.refs[b := id]), b, unset) == (q, true)
  {
    DetachIs(both, a, unset);
    assert both.refs[b] == id;
    assert both.refs - {a} == q.refs[b := id];
    DetachKeepsCoherent(both, a, unset);
    ReleaseLast(q, b, profile, id, both.(refs := q.refs[b := id]), unset);
  }

  lemma ReleaseLast(q: Qmps, b: SubKey, profile: Profile, id: nat, one: Qmps, unset: bool)
    requires Coherent(q) && Coherent(one) && b !in q.refs && id !in q.used
    requires one == Qmps(q.used + {id}, q.profiles[id := profile], q.refs[b := id])
    ensures Detach(one, b, unset) == (q, true)
  {
    DetachLastIs(one, b, unset);
    assert q.refs[b := id] - {b} == q.refs;
    assert q.profiles[id := profile] - {id} == q.profiles;
    assert q.used + {id} - {id} == q.used;
  }

  // Runs

  datatype QmpOp =
    | AttachOp(key: SubKey, profile: Profile, deviceOk: bool)
    | DetachOp(key: SubKey, unset: bool)

  ghost function Step(q: Qmps, op: QmpOp): Qmps {
    match op
    case AttachOp(key, profile, deviceOk) => Attach(q, key, profile, deviceOk).0
    case DetachOp(key, unset) => Detach(q, key, unset).0
  }

  ghost function Run(ops: seq<QmpOp>): Qmps {
    if ops == [] then NO_QMPS else Step(Run(ops[..|ops| - 1]), ops[|ops| - 1])
  }

  ghost predicate NeverOrphans(ops: seq<QmpOp>) {
    ops == [] ||
    (NeverOrphans(ops[..|ops| - 1]) &&
     var last := ops[|ops| - 1];
     last.AttachOp? ==> !Orphans(Run(ops[..|ops| - 1]), last.key, last.profile))
  }

  /** After any run of creations and removals, refused profiles included, the profile tables are coherent; and every
      profile is referenced if no creation allocated for a subscriber that was already mapped. */
  lemma {:induction false} EveryRunIsCoherent(ops: seq<QmpOp>)
    ensures Coherent(Run(ops))
    ensures NeverOrphans(ops) ==> AllReferenced(Run(ops))
  {
    if ops != [] {
      var prefix := ops[..|ops| - 1];
      EveryRunIsCoherent(prefix);
      var q := Run(prefix);
      match ops[|ops| - 1]
      case AttachOp(key, profile, deviceOk) =>
        AttachKeepsCoherent(q, key, profile, deviceOk);
        if NeverOrphans(ops) {
          AttachKeepsReferencedIff(q, key, profile, deviceOk);
        }
      case DetachOp(key, unset) => DetachKeepsCoherent(q, key, unset);
    }
  }

  lemma FirstProfile(key: SubKey, profile: Profile)
    ensures Attach(NO_QMPS, key, profile, true).0 == Qmps({0}, map[0 := profile], map[key := 0])
  {
    FindMeans(NO_QMPS, profile);
    assert LowestFree({}, 0, MAX_TM_QMP_ID) == 0;
  }

  lemma SecondProfile(q: Qmps, key: SubKey, first: Profile, second: Profile)
    requires first != second && q == Qmps({0}, map[0 := first], map[key := 0])
    ensures Coherent(Attach(q, key, second, true).0) && !AllReferenced(Attach(q, key, second, true).0)
  {
    FindMeans(q, second);
    LowestFreeBound({0}, MAX_TM_QMP_ID);
    assert Users(q.refs, 0) == {key};
    AttachKeepsReferencedIff(q, key, second, true);
    AttachKeepsCoherent(q, key, second, true);
  }

  lemma RunOfTwo(first: QmpOp, second: QmpOp)
    ensures Run([first, second]) == Step(Step(NO_QMPS, first), second)
  {
    var one, two := [first], [first, second];
    assert one[..0] == [] && Run(one) == Step(Run([]), first);
    assert two[..1] == one && Run(two) == Step(Run(two[..1]), second);
  }

  /** A subscriber that attaches one profile and then another leaves the second without a reference. */
  lemma SecondProfileIsOrphaned(key: SubKey, first: Profile, second: Profile)
    requires first != second
    ensures Coherent(Run([AttachOp(key, first, true), AttachOp(key, second, true)]))
    ensures !AllReferenced(Run([AttachOp(key, first, true), AttachOp(key, second, true)]))
  {
    FirstProfile(key, first);
    SecondProfile(Attach(NO_QMPS, key, first, true).0, key, first, second);
    RunOfTwo(AttachOp(key, first, true), AttachOp(key, second, true));
  }

  class QmpTable {
    const bits: array<bool>
    var profiles: map<nat, Profile>
    var refs: map<SubKey, int>

    ghost predicate Valid()
      reads this
    {
      bits.Length == MAX_TM_QMP_ID
    }

    ghost function Model(): Qmps
      reads this, bits
    {
      Qmps(SetBits(bits[..]), profiles, refs)
    }

    constructor ()
      ensures Valid() && fresh(bits) && Model() == NO_QMPS
    {
      bits := new bool[MAX_TM_QMP_ID](_ => false);
      profiles, refs := map[], map[];
    }

    method CheckTmQmpEquality(a: Profile, b: Profile) returns (same: bool)
      ensures same <==> a == b
    {
      var i := 0;
      while i < TMQ_MAP_PROFILE_SIZE
        invariant i <= TMQ_MAP_PROFILE_SIZE
        invariant a[..i] == b[..i]
      {
        if a[i] != b[i] {
          return false;
        }
        i := i + 1;
      }
      assert a == a[..8] && b == b[..8];
      same := true;
    }

    method FindProfile(profile: Profile) returns (id: int)
      ensures id == Find(profiles, profile)
    {
      id := -1;
      var rest := profiles.Keys;
      while rest != {}
        invariant id == -1 && rest <= profiles.Keys
        invariant forall i | i in profiles && i !in rest :: profiles[i] != profile
        decreases rest
      {
        ghost var least := LeastExists(rest);
        assert least in rest && forall v | v in rest :: least <= v;
        var first :| first in rest && forall v | v in rest :: first <= v;
        var same := CheckTmQmpEquality(profile, profiles[first]);
        if same {
          assert IsFirstWith(profiles, profile, first);
          return first;
        }
        rest := rest - {first};
      }
    }

    method AllocateProfile(key: SubKey, profile: Profile) returns (id: int)
      requires Valid()
      modifies this, bits
      ensures Valid()
      ensures (Model(), id) == Allocate(old(Model()), key, profile)
    {
      var free := TakeLowest(bits, 0);
      if free < MAX_TM_QMP_ID {
        profiles := Inserted(profiles, free, profile);
        refs := Inserted(refs, key, free);
        return free;
      }
      id := -1;
    }

    method AttachProfile(key: SubKey, profile: Profile, deviceOk: bool) returns (ok: bool)
      requires Valid()
      modifies this, bits
      ensures Valid()
      ensures (Model(), ok) == Attach(old(Model()), key, profile, deviceOk)
    {
      var id := FindProfile(profile);
      if id == -1 {
        id := AllocateProfile(key, profile);
        ok := id != -1 && deviceOk;
      } else {
        if Lookup(refs, key) == -1 {
          refs := Inserted(refs, key, id);
        }
        ok := true;
      }
    }

    method CountReferences(id: int) returns (count: nat)
      ensures count == |Users(refs, id)|
    {
      count := 0;
      var rest := refs.Keys;
      assert Users(refs, id) - rest == {};
      while rest != {}
        invariant rest <= refs.Keys
        invariant count == |Users(refs, id) - rest|
        decreases rest
      {
        ghost var some := SomeElement(rest);
        var k :| k in rest;
        ghost var seen := Users(refs, id) - rest;
        rest := rest - {k};
        if refs[k] == id {
          count := count + 1;
          assert Users(refs, id) - rest == seen + {k};
        } else {
          assert Users(refs, id) - rest == seen;
        }
      }
      assert Users(refs, id) - {} == Users(refs, id);
    }

    method FreeTmQmpId(key: SubKey, id: int, unset: bool) returns (result: bool)
      requires Valid()
      modifies this, bits
      ensures Valid()
      ensures (Model(), result) == FreeQmp(old(Model()), key, id, unset)
    {
      if key in refs {
        refs := refs - {key};
      }
      assert refs == old(refs) - {key};
      var count := CountReferences(id);
      assert count == 0 <==> Users(refs, id) == {};
      result := unset;
      if count == 0 {
        if id >= 0 && id in profiles {
          Release(bits, id);
          profiles := profiles - {id};
          result := true;
        }
      } else {
        result := false;
      }
    }
  }
}
