/** What every run of trap-flow installs and removals keeps. */
module TrapAclProofs {
  import opened IdPools
  import opened TrapAcl

  ghost function FlowsOn(flows: map<FlowKey, Target>, acl: nat): set<FlowKey> {
    set f | f in flows && flows[f].acl == acl
  }

  function RegKeyAt(flows: map<FlowKey, Target>, f: FlowKey): RegKey
    requires f in flows
  {
    RegKeyOf(flows[f].acl, flows[f].intf, f.flowType)
  }

  ghost function FlowsAt(flows: map<FlowKey, Target>, reg: RegKey): set<FlowKey> {
    set f | f in flows && RegKeyAt(flows, f) == reg
  }

  /** A counter is present exactly when something is counted, and then holds how many. */
  ghost predicate Counts<K, F>(m: map<K, nat>, k: K, counted: set<F>) {
    && (k in m <==> counted != {})
    && (k in m ==> m[k] == |counted|)
  }

  ghost predicate RefsExact(refs: map<nat, nat>, flows: map<FlowKey, Target>) {
    forall acl: nat :: Counts(refs, acl, FlowsOn(flows, acl))
  }

  ghost predicate RegsExact(registered: map<RegKey, nat>, flows: map<FlowKey, Target>) {
    forall reg :: Counts(registered, reg, FlowsAt(flows, reg))
  }

  ghost predicate Classified(classifiers: map<int, nat>, acl: nat) {
    exists w :: w in classifiers && classifiers[w] == acl
  }

  /** One classifier per referenced ACL and no other, all of them with allocated ids. */
  ghost predicate ClassifiersExact(classifiers: map<int, nat>, refs: map<nat, nat>, used: set<nat>) {
    && (forall v, w | v in classifiers && w in classifiers && classifiers[v] == classifiers[w] :: v == w)
    && (forall w | w in classifiers :: classifiers[w] in refs)
    && (forall acl {:trigger Classified(classifiers, acl)} | acl in refs :: Classified(classifiers, acl))
    && (forall acl | acl in refs :: acl in used)
    && (forall id | id in used :: id < MAX_ACL_ID)
  }

  ghost predicate Consistent(s: Acls) {
    && RefsExact(s.refs, s.flows)
    && RegsExact(s.registered, s.flows)
    && ClassifiersExact(s.classifiers, s.refs, s.used)
  }

  // Counting

  lemma CountOneMore<K, F>(m: map<K, nat>, k: K, counted: set<F>, f: F)
    requires Counts(m, k, counted) && f !in counted
    ensures Counts(m[k := Incremented(m, k)], k, counted + {f})
  {
  }

  lemma CountOneLess<K, F>(m: map<K, nat>, k: K, counted: set<F>, f: F)
    requires Counts(m, k, counted) && f in counted
    ensures k in m && m[k] > 0 && Decremented(m, k) == |counted - {f}|
    ensures Counts(if Decremented(m, k) == 0 then m - {k} else m[k := Decremented(m, k)], k, counted - {f})
  {
    assert counted == (counted - {f}) + {f};
  }

  lemma FlowsOnAdded(flows: map<FlowKey, Target>, f: FlowKey, t: Target, acl: nat)
    requires f !in flows
    ensures FlowsOn(flows[f := t], acl) == FlowsOn(flows, acl) + (if t.acl == acl then {f} else {})
  {
  }

  lemma FlowsAtAdded(flows: map<FlowKey, Target>, f: FlowKey, t: Target, reg: RegKey)
    requires f !in flows
    ensures FlowsAt(flows[f := t], reg)
         == FlowsAt(flows, reg) + (if RegKeyOf(t.acl, t.intf, f.flowType) == reg then {f} else {})
  {
  }

  lemma FlowsOnDropped(flows: map<FlowKey, Target>, f: FlowKey, acl: nat)
    ensures FlowsOn(flows - {f}, acl) == FlowsOn(flows, acl) - {f}
  {
  }

  lemma FlowsAtDropped(flows: map<FlowKey, Target>, f: FlowKey, reg: RegKey)
    ensures FlowsAt(flows - {f}, reg) == FlowsAt(flows, reg) - {f}
  {
  }

  lemma RefsAfterAdd(refs: map<nat, nat>, flows: map<FlowKey, Target>, f: FlowKey, t: Target)
    requires RefsExact(refs, flows) && f !in flows
    ensures RefsExact(refs[t.acl := Incremented(refs, t.acl)], flows[f := t])
  {
    var after := refs[t.acl := Incremented(refs, t.acl)];
    var grown := flows[f := t];
    forall acl: nat
      ensures Counts(after, acl, FlowsOn(grown, acl))
    {
      FlowsOnAdded(flows, f, t, acl);
      assert Counts(refs, acl, FlowsOn(flows, acl));
      if acl == t.acl {
        CountOneMore(refs, acl, FlowsOn(flows, acl), f);
      }
    }
  }

  lemma RegsAfterAdd(registered: map<RegKey, nat>, flows: map<FlowKey, Target>, f: FlowKey, t: Target)
    requires RegsExact(registered, flows) && f !in flows
    ensures var reg := RegKeyOf(t.acl, t.intf, f.flowType);
            RegsExact(registered[reg := Incremented(registered, reg)], flows[f := t])
  {
    var own := RegKeyOf(t.acl, t.intf, f.flowType);
    var after := registered[own := Incremented(registered, own)];
    var grown := flows[f := t];
    forall reg
      ensures Counts(after, reg, FlowsAt(grown, reg))
    {
      FlowsAtAdded(flows, f, t, reg);
      assert Counts(registered, reg, FlowsAt(flows, reg));
      if reg == own {
        CountOneMore(registered, reg, FlowsAt(flows, reg), f);
      }
    }
  }

  ghost function Lowered<K>(m: map<K, nat>, k: K): map<K, nat> {
    if Decremented(m, k) == 0 then m - {k} else m[k := Decremented(m, k)]
  }

  lemma RefsAfterDrop(refs: map<nat, nat>, flows: map<FlowKey, Target>, f: FlowKey)
    requires RefsExact(refs, flows) && f in flows
    ensures RefsExact(Lowered(refs, flows[f].acl), flows - {f})
  {
    var own := flows[f].acl;
    forall acl: nat
      ensures Counts(Lowered(refs, own), acl, FlowsOn(flows - {f}, acl))
    {
      FlowsOnDropped(flows, f, acl);
      assert Counts(refs, acl, FlowsOn(flows, acl));
      if acl == own {
        CountOneLess(refs, acl, FlowsOn(flows, acl), f);
      } else {
        assert FlowsOn(flows, acl) - {f} == FlowsOn(flows, acl);
      }
    }
  }

  lemma RegsAfterDrop(registered: map<RegKey, nat>, flows: map<FlowKey, Target>, f: FlowKey)
    requires RegsExact(registered, flows) && f in flows
    ensures RegsExact(Lowered(registered, RegKeyAt(flows, f)), flows - {f})
  {
    var own := RegKeyAt(flows, f);
    forall reg
      ensures Counts(Lowered(registered, own), reg, FlowsAt(flows - {f}, reg))
    {
      FlowsAtDropped(flows, f, reg);
      assert Counts(registered, reg, FlowsAt(flows, reg));
      if reg == own {
        CountOneLess(registered, reg, FlowsAt(flows, reg), f);
      } else {
        assert FlowsAt(flows, reg) - {f} == FlowsAt(flows, reg);
      }
    }
  }

  // Classifiers

  lemma ClassifiersAfterNewAcl(classifiers: map<int, nat>, refs: map<nat, nat>, used: set<nat>, w: int, id: nat, n: nat)
    requires ClassifiersExact(classifiers, refs, used)
    requires w !in classifiers && id !in used && id < MAX_ACL_ID
    ensures ClassifiersExact(classifiers[w := id], refs[id := n], used + {id})
  {
    var after := classifiers[w := id];
    forall acl | acl in refs[id := n]
      ensures Classified(after, acl)
    {
      if acl == id {
        assert w in after;
      } else {
        assert Classified(classifiers, acl);
        var v :| v in classifiers && classifiers[v] == acl;
        assert v in after;
      }
    }
  }

  /** With one classifier per ACL, the search erases exactly the classifier of the ACL and nothing else. */
  lemma SearchErasesTheRightClassifier(s: Acls, acl: nat)
    requires ClassifiersExact(s.classifiers, s.refs, s.used) && acl in s.refs
    ensures exists w :: w in s.classifiers && s.classifiers[w] == acl && EraseFirst(s.classifiers, acl) == s.classifiers - {w}
    ensures !Classified(EraseFirst(s.classifiers, acl), acl)
  {
    assert Classified(s.classifiers, acl);
    var w :| w in s.classifiers && s.classifiers[w] == acl;
    assert IsFirst(s.classifiers, acl, w);
    assert EraseFirst(s.classifiers, acl) == s.classifiers - {w};
  }

  lemma ClassifiersAfterLastFlow(s: Acls, acl: nat, freed: set<nat>)
    requires ClassifiersExact(s.classifiers, s.refs, s.used) && acl in s.refs
    requires freed <= {acl}
    ensures ClassifiersExact(EraseFirst(s.classifiers, acl), s.refs - {acl}, s.used - freed)
  {
    SearchErasesTheRightClassifier(s, acl);
    var left := EraseFirst(s.classifiers, acl);
    forall a | a in s.refs - {acl}
      ensures Classified(left, a)
    {
      assert Classified(s.classifiers, a);
      var v :| v in s.classifiers && s.classifiers[v] == a;
      assert v in left;
    }
    forall w | w in left
      ensures left[w] in s.refs - {acl}
    {
      assert Classified(left, left[w]);
      assert left[w] == s.classifiers[w];
    }
  }

  // Steps

  /** A new ACL is to be had: the packet type is known, an id is free and the device accepts. */
  ghost predicate NewAclInstalls(s: Acls, req: TrapRequest, deviceOk: bool) {
    && ToPacketType(req.classifier) != UnsupportedPacket
    && LowestFree(s.used, 0, MAX_ACL_ID) < MAX_ACL_ID
    && deviceOk
  }

  /** The install is for a flow already on an ACL, yet under a classifier that has none, and a new one is to be had. */
  ghost predicate Clashes(s: Acls, req: TrapRequest, deviceOk: bool) {
    && req.flow in s.flows
    && Weight(FormulateKey(req.classifier, s.vlanLimitHit)) !in s.classifiers
    && NewAclInstalls(s, req, deviceOk)
  }

  lemma InstallKeepsConsistent(s: Acls, req: TrapRequest, deviceOk: bool)
    requires Consistent(s) && !Clashes(s, req, deviceOk)
    ensures Consistent(Install(s, req, deviceOk).0)
  {
    var key := FormulateKey(req.classifier, s.vlanLimitHit);
    var t := Install(s, req, deviceOk).0;
    if t != s {
      var target := t.flows[req.flow];
      RefsAfterAdd(s.refs, s.flows, req.flow, target);
      RegsAfterAdd(s.registered, s.flows, req.flow, target);
      if Weight(key) !in s.classifiers {
        assert target.acl !in s.refs;
        ClassifiersAfterNewAcl(s.classifiers, s.refs, s.used, Weight(key), target.acl, 1);
      }
    }
  }

  lemma ClashBreaksCounts(s: Acls, req: TrapRequest, deviceOk: bool)
    requires Consistent(s) && Clashes(s, req, deviceOk)
    ensures !Consistent(Install(s, req, deviceOk).0)
  {
    var t := Install(s, req, deviceOk).0;
    var left := s.flows[req.flow].acl;
    var taken := t.flows[req.flow].acl;
    assert Counts(s.refs, left, FlowsOn(s.flows, left));
    assert req.flow in FlowsOn(s.flows, left);
    assert taken !in s.used && left != taken;
    assert FlowsOn(t.flows, left) == FlowsOn(s.flows, left) - {req.flow};
    assert FlowsOn(s.flows, left) == FlowsOn(t.flows, left) + {req.flow};
    assert t.refs[left] == s.refs[left];
    assert !Counts(t.refs, left, FlowsOn(t.flows, left));
  }

  /** An install keeps the counters, maps and bits consistent exactly when it does not move a flow to a new ACL. */
  lemma InstallKeepsConsistentIff(s: Acls, req: TrapRequest, deviceOk: bool)
    requires Consistent(s)
    ensures Consistent(Install(s, req, deviceOk).0) <==> !Clashes(s, req, deviceOk)
  {
    if Clashes(s, req, deviceOk) {
      ClashBreaksCounts(s, req, deviceOk);
    } else {
      InstallKeepsConsistent(s, req, deviceOk);
    }
  }

  /** Neither counter a removal decrements is absent or zero. */
  lemma DecrementsHitPositiveCounters(s: Acls, flow: FlowKey)
    requires Consistent(s) && flow in s.flows
    ensures RegKeyAt(s.flows, flow) in s.registered && s.registered[RegKeyAt(s.flows, flow)] > 0
    ensures s.flows[flow].acl in s.refs && s.refs[s.flows[flow].acl] > 0
  {
    var acl, reg := s.flows[flow].acl, RegKeyAt(s.flows, flow);
    assert Counts(s.refs, acl, FlowsOn(s.flows, acl)) && flow in FlowsOn(s.flows, acl);
    assert Counts(s.registered, reg, FlowsAt(s.flows, reg)) && flow in FlowsAt(s.flows, reg);
  }

  /** The device lets go of an ACL it is asked to remove. */
  predicate LetsGo(reply: RemoveReply) {
    reply == NotThere || reply == Cleared
  }

  function UsedAfter(used: set<nat>, acl: nat, gone: bool): set<nat> {
    if gone then used - {acl} else used
  }

  lemma RemoveAclFields(s: Acls, acl: nat, reply: RemoveReply)
    ensures RemoveAcl(s, acl, reply)
         == s.(used := UsedAfter(s.used, acl, LetsGo(reply)), device := if LetsGo(reply) then s.device - {acl} else s.device)
  {
  }

  lemma UnreferenceFields(s: Acls, acl: nat, reply: RemoveReply)
    ensures var last := Decremented(s.refs, acl) == 0;
            var gone := last && LetsGo(reply);
            Unreference(s, acl, reply) == s.(
              refs := Lowered(s.refs, acl),
              classifiers := if last then EraseFirst(s.classifiers, acl) else s.classifiers,
              used := UsedAfter(s.used, acl, gone),
              device := if gone then s.device - {acl} else s.device)
  {
    RemoveAclFields(s, acl, reply);
  }

  lemma RemoveFields(s: Acls, flow: FlowKey, reply: RemoveReply)
    requires flow in s.flows
    ensures var acl := s.flows[flow].acl;
            var last := Decremented(s.refs, acl) == 0;
            var gone := last && LetsGo(reply);
            Remove(s, flow, reply) == s.(
              flows := s.flows - {flow},
              registered := Lowered(s.registered, RegKeyAt(s.flows, flow)),
              refs := Lowered(s.refs, acl),
              classifiers := if last then EraseFirst(s.classifiers, acl) else s.classifiers,
              used := UsedAfter(s.used, acl, gone),
              device := if gone then s.device - {acl} else s.device,
              allowed := Disallow(s, flow.id).allowed)
  {
    var u := Unregister(s, RegKeyAt(s.flows, flow));
    UnreferenceFields(u, s.flows[flow].acl, reply);
    var v := Unreference(u, s.flows[flow].acl, reply);
    DisallowReadsOnlyLists(s, v.(flows := v.flows - {flow}), flow.id);
  }

  /** Taking a VLAN off a list looks at nothing but the packet information and the lists. */
  lemma DisallowReadsOnlyLists(s: Acls, t: Acls, id: nat)
    requires t.infos == s.infos && t.allowed == s.allowed
    ensures Disallow(t, id) == t.(allowed := Disallow(s, id).allowed)
  {
  }

  lemma RemoveKeepsConsistent(s: Acls, flow: FlowKey, reply: RemoveReply)
    requires Consistent(s)
    ensures Consistent(Remove(s, flow, reply))
  {
    if flow in s.flows {
      var acl := s.flows[flow].acl;
      RemoveFields(s, flow, reply);
      DecrementsHitPositiveCounters(s, flow);
      RefsAfterDrop(s.refs, s.flows, flow);
      RegsAfterDrop(s.registered, s.flows, flow);
      if Decremented(s.refs, acl) == 0 {
        ClassifiersAfterLastFlow(s, acl, if LetsGo(reply) then {acl} else {});
      }
    }
  }

  /** The removal of an ACL is attempted exactly when the last flow referencing it leaves. */
  lemma RemovalAttemptedIffLastFlow(s: Acls, flow: FlowKey)
    requires Consistent(s) && flow in s.flows
    ensures Decremented(s.refs, s.flows[flow].acl) == 0 <==> FlowsOn(s.flows, s.flows[flow].acl) == {flow}
  {
    var acl := s.flows[flow].acl;
    var on := FlowsOn(s.flows, acl);
    assert Counts(s.refs, acl, on) && flow in on;
    CountOneLess(s.refs, acl, on, flow);
    assert on == (on - {flow}) + {flow};
  }

  // The registration counters of an ACL add up to its reference counter

  ghost function RegKeysOf(s: Acls, acl: nat): set<RegKey> {
    set reg | reg in s.registered && reg.acl == acl
  }

  ghost function Total(keys: set<RegKey>, m: map<RegKey, nat>): nat
    requires keys <= m.Keys
    decreases |keys|
  {
    if keys == {} then 0
    else
      var reg :| reg in keys;
      m[reg] + Total(keys - {reg}, m)
  }

  ghost function FlowsAmong(flows: map<FlowKey, Target>, keys: set<RegKey>): set<FlowKey> {
    set f | f in flows && RegKeyAt(flows, f) in keys
  }

  lemma {:induction false} TotalCountsFlows(keys: set<RegKey>, s: Acls)
    requires RegsExact(s.registered, s.flows) && keys <= s.registered.Keys
    ensures Total(keys, s.registered) == |FlowsAmong(s.flows, keys)|
    decreases |keys|
  {
    if keys == {} {
      assert FlowsAmong(s.flows, keys) == {};
    } else {
      var reg :| reg in keys && Total(keys, s.registered) == s.registered[reg] + Total(keys - {reg}, s.registered);
      TotalCountsFlows(keys - {reg}, s);
      assert Counts(s.registered, reg, FlowsAt(s.flows, reg));
      assert FlowsAmong(s.flows, keys) == FlowsAt(s.flows, reg) + FlowsAmong(s.flows, keys - {reg});
      assert FlowsAt(s.flows, reg) !! FlowsAmong(s.flows, keys - {reg});
    }
  }

  lemma RegistrationsSumToReferences(s: Acls, acl: nat)
    requires Consistent(s) && acl in s.refs
    ensures Total(RegKeysOf(s, acl), s.registered) == s.refs[acl]
  {
    var keys := RegKeysOf(s, acl);
    TotalCountsFlows(keys, s);
    forall f | f in FlowsOn(s.flows, acl)
      ensures f in FlowsAmong(s.flows, keys)
    {
      var reg := RegKeyAt(s.flows, f);
      assert Counts(s.registered, reg, FlowsAt(s.flows, reg)) && f in FlowsAt(s.flows, reg);
    }
    assert FlowsAmong(s.flows, keys) == FlowsOn(s.flows, acl);
    assert Counts(s.refs, acl, FlowsOn(s.flows, acl));
  }

  /** No counter of either kind exceeds the number of live trap flows, so with at most 65535 of them none wraps. */
  lemma CountersBoundedByFlows(s: Acls, acl: nat, reg: RegKey)
    requires Consistent(s)
    ensures acl in s.refs ==> s.refs[acl] <= |s.flows|
    ensures reg in s.registered ==> s.registered[reg] <= |s.flows|
  {
    assert Counts(s.refs, acl, FlowsOn(s.flows, acl));
    assert Counts(s.registered, reg, FlowsAt(s.flows, reg));
    SubsetSize(FlowsOn(s.flows, acl), s.flows.Keys);
    SubsetSize(FlowsAt(s.flows, reg), s.flows.Keys);
  }

  // Runs

  datatype AclOp =
    | AddTrap(req: TrapRequest, deviceOk: bool)
    | DropTrap(flow: FlowKey, reply: RemoveReply)

  ghost function Step(s: Acls, op: AclOp): Acls {
    match op
    case AddTrap(req, deviceOk) => Install(s, req, deviceOk).0
    case DropTrap(flow, reply) => Remove(s, flow, reply)
  }

  ghost function Run(ops: seq<AclOp>): Acls {
    if ops == [] then NO_ACLS else Step(Run(ops[..|ops| - 1]), ops[|ops| - 1])
  }

  /** No install of the run moves a flow to a new ACL. */
  ghost predicate NoClash(ops: seq<AclOp>) {
    ops == [] ||
    (NoClash(ops[..|ops| - 1]) &&
     var last := ops[|ops| - 1];
     last.AddTrap? ==> !Clashes(Run(ops[..|ops| - 1]), last.req, last.deviceOk))
  }

  /**
   * After any run of installs and removals, whatever the device answers: reference counters count the flows on an
   * ACL, registration counters those on an interface of it, and the classifier map is one-to-one onto the
   * referenced ACLs, all of which have their bit set.
   */
  lemma {:induction false} EveryRunIsConsistent(ops: seq<AclOp>)
    requires NoClash(ops)
    ensures Consistent(Run(ops))
  {
    if ops != [] {
      var prefix := ops[..|ops| - 1];
      EveryRunIsConsistent(prefix);
      match ops[|ops| - 1]
      case AddTrap(req, deviceOk) => InstallKeepsConsistent(Run(prefix), req, deviceOk);
      case DropTrap(flow, reply) => RemoveKeepsConsistent(Run(prefix), flow, reply);
    }
  }

  /** Every ACL removal the run attempted freed its id. */
  ghost predicate RemovalsSucceed(ops: seq<AclOp>) {
    forall i | 0 <= i < |ops| && ops[i].DropTrap? :: LetsGo(ops[i].reply)
  }

  /** Then no id leaks: the set bits are exactly the referenced ACLs. */
  lemma {:induction false} NoIdLeaks(ops: seq<AclOp>)
    requires NoClash(ops) && RemovalsSucceed(ops)
    ensures Run(ops).used == Run(ops).refs.Keys
  {
    if ops != [] {
      var prefix := ops[..|ops| - 1];
      NoIdLeaks(prefix);
      EveryRunIsConsistent(prefix);
      var s := Run(prefix);
      match ops[|ops| - 1]
      case AddTrap(req, deviceOk) =>
      case DropTrap(flow, reply) =>
        if flow in s.flows {
          RemoveFields(s, flow, reply);
          DecrementsHitPositiveCounters(s, flow);
        }
    }
  }

  // The ceiling on VLAN-classified ACLs

  ghost function VlanAcls(s: Acls): set<nat> {
    set id | id in s.device && s.device[id]
  }

  ghost predicate BelowCeilingExcept(s: Acls, x: nat) {
    forall id | id in VlanAcls(s) :: id < MAX_ACL_WITH_VLAN_CLASSIFIER || id == x
  }

  /** Below the ceiling until the flag is set, and at most one more once it is. */
  ghost predicate VlanBounded(s: Acls) {
    && (!s.vlanLimitHit ==> forall id | id in VlanAcls(s) :: id < MAX_ACL_WITH_VLAN_CLASSIFIER)
    && (s.vlanLimitHit ==> exists x :: BelowCeilingExcept(s, x))
  }

  lemma InstallDevice(s: Acls, req: TrapRequest, deviceOk: bool)
    ensures var key := FormulateKey(req.classifier, s.vlanLimitHit);
            var t := Install(s, req, deviceOk).0;
            var id := LowestFree(s.used, 0, MAX_ACL_ID);
            || (t.device == s.device && t.vlanLimitHit == s.vlanLimitHit)
            || (t.device == s.device[id := ClassifiesVlan(key) && !s.vlanLimitHit]
                && (t.vlanLimitHit <==> s.vlanLimitHit || (ClassifiesVlan(key) && id >= MAX_ACL_WITH_VLAN_CLASSIFIER)))
  {
  }

  lemma InstallKeepsVlanBound(s: Acls, req: TrapRequest, deviceOk: bool)
    requires VlanBounded(s)
    ensures VlanBounded(Install(s, req, deviceOk).0)
    ensures s.vlanLimitHit ==> VlanAcls(Install(s, req, deviceOk).0) <= VlanAcls(s)
  {
    InstallDevice(s, req, deviceOk);
    var t := Install(s, req, deviceOk).0;
    var id := LowestFree(s.used, 0, MAX_ACL_ID);
    if s.vlanLimitHit {
      assert VlanAcls(t) <= VlanAcls(s);
      var x :| BelowCeilingExcept(s, x);
      assert BelowCeilingExcept(t, x);
    } else {
      assert VlanAcls(t) <= VlanAcls(s) + {id};
      assert BelowCeilingExcept(t, id);
    }
  }

  lemma RemoveKeepsVlanBound(s: Acls, flow: FlowKey, reply: RemoveReply)
    requires VlanBounded(s)
    ensures VlanBounded(Remove(s, flow, reply))
    ensures VlanAcls(Remove(s, flow, reply)) <= VlanAcls(s)
  {
    var t := Remove(s, flow, reply);
    if flow in s.flows {
      RemoveFields(s, flow, reply);
    }
    assert VlanAcls(t) <= VlanAcls(s);
    if s.vlanLimitHit {
      var x :| BelowCeilingExcept(s, x);
      assert BelowCeilingExcept(t, x);
    }
  }

  lemma {:induction false} EveryRunIsVlanBounded(ops: seq<AclOp>)
    ensures VlanBounded(Run(ops))
  {
    if ops != [] {
      var prefix := ops[..|ops| - 1];
      EveryRunIsVlanBounded(prefix);
      match ops[|ops| - 1]
      case AddTrap(req, deviceOk) => InstallKeepsVlanBound(Run(prefix), req, deviceOk);
      case DropTrap(flow, reply) => RemoveKeepsVlanBound(Run(prefix), flow, reply);
    }
  }

  /**
   * Over every run, failed device calls included, the device never holds more than 11 ACLs that classify by VLAN;
   * while the flag is unset all have ids below 10.
   */
  lemma AtMostElevenVlanAcls(ops: seq<AclOp>)
    ensures |VlanAcls(Run(ops))| <= MAX_ACL_WITH_VLAN_CLASSIFIER + 1
    ensures !Run(ops).vlanLimitHit ==> forall id | id in VlanAcls(Run(ops)) :: id < MAX_ACL_WITH_VLAN_CLASSIFIER
  {
    EveryRunIsVlanBounded(ops);
    var s := Run(ops);
    var acls := VlanAcls(s);
    if s.vlanLimitHit {
      var x :| BelowCeilingExcept(s, x);
      BoundedSetSize(acls - {x}, MAX_ACL_WITH_VLAN_CLASSIFIER);
      SubsetSize(acls, (acls - {x}) + {x});
    } else {
      BoundedSetSize(acls, MAX_ACL_WITH_VLAN_CLASSIFIER);
    }
  }

  /** The flag is never unset, and once it is set no VLAN-classified ACL is added. */
  lemma NoVlanAclAfterTheLimit(ops: seq<AclOp>, op: AclOp)
    requires Run(ops).vlanLimitHit
    ensures Run(ops + [op]).vlanLimitHit
    ensures VlanAcls(Run(ops + [op])) <= VlanAcls(Run(ops))
  {
    EveryRunIsVlanBounded(ops);
    var s := Run(ops);
    assert (ops + [op])[..|ops|] == ops;
    match op
    case AddTrap(req, deviceOk) =>
      InstallDevice(s, req, deviceOk);
      InstallKeepsVlanBound(s, req, deviceOk);
    case DropTrap(flow, reply) =>
      if flow in s.flows {
        RemoveFields(s, flow, reply);
      }
      RemoveKeepsVlanBound(s, flow, reply);
  }

  // Classifiers of equal weight

  /** DHCP from a server on VLAN v and IGMP on VLAN v + 102 weigh the same. */
  lemma DifferentClassifiersWeighTheSame(vlan: nat)
    requires 0 < vlan < ANY_VLAN - 102
    ensures var dhcp := Classifier(0x0800, 17, 67, 68, vlan);
            var igmp := Classifier(0x0800, 2, 0, 0, vlan + 102);
            && ToPacketType(dhcp) == Dhcpv4 && ToPacketType(igmp) == Igmpv4
            && Weight(FormulateKey(dhcp, false)) == Weight(FormulateKey(igmp, false))
  {
  }

  /** A freshly installed flow sits on the ACL its weight leads to, a new one if the weight is new. */
  lemma InstalledUnder(s: Acls, req: TrapRequest, deviceOk: bool)
    requires req.flow !in s.flows && Install(s, req, deviceOk).1 == Installed
    ensures var t := Install(s, req, deviceOk).0;
            var w := Weight(FormulateKey(req.classifier, s.vlanLimitHit));
            && req.flow in t.flows && w in t.classifiers && t.flows[req.flow].acl == t.classifiers[w]
            && (if w in s.classifiers then t.classifiers == s.classifiers
                else t.classifiers == s.classifiers[w := t.classifiers[w]] && t.classifiers[w] !in s.used)
            && t.flows == s.flows[req.flow := t.flows[req.flow]]
  {
  }

  /** The ACL a flow is on, -1 if it has none. */
  function AclOf(s: Acls, f: FlowKey): int {
    if f in s.flows then s.flows[f].acl else -1
  }

  /** Two flows, whatever their packets, share an ACL exactly when the keys they were installed under weigh the same. */
  lemma SharedAclIffEqualWeight(
    s: Acls, first: TrapRequest, second: TrapRequest, firstOk: bool, secondOk: bool, s1: Acls, s2: Acls)
    requires Consistent(s)
    requires first.flow !in s.flows && second.flow !in s.flows && first.flow != second.flow
    requires Install(s, first, firstOk) == (s1, Installed)
    requires Install(s1, second, secondOk) == (s2, Installed)
    ensures AclOf(s2, first.flow) == AclOf(s2, second.flow) <==>
            Weight(FormulateKey(first.classifier, s.vlanLimitHit))
            == Weight(FormulateKey(second.classifier, s1.vlanLimitHit))
  {
    InstallKeepsConsistent(s, first, firstOk);
    InstalledUnder(s, first, firstOk);
    InstalledUnder(s1, second, secondOk);
    SharedIff(s1, s2, first.flow, second.flow, Weight(FormulateKey(first.classifier, s.vlanLimitHit)),
              Weight(FormulateKey(second.classifier, s1.vlanLimitHit)));
  }

  /** first sits on the ACL of weight v, second has just been put on that of weight w. */
  lemma SharedIff(s1: Acls, s2: Acls, first: FlowKey, second: FlowKey, v: int, w: int)
    requires Consistent(s1) && first != second && first in s1.flows
    requires v in s1.classifiers && s1.flows[first].acl == s1.classifiers[v]
    requires w in s2.classifiers && second in s2.flows
    requires s2.flows == s1.flows[second := s2.flows[second]] && s2.flows[second].acl == s2.classifiers[w]
    requires if w in s1.classifiers then s2.classifiers == s1.classifiers
             else s2.classifiers == s1.classifiers[w := s2.classifiers[w]] && s2.classifiers[w] !in s1.used
    ensures AclOf(s2, first) == AclOf(s2, second) <==> v == w
  {
  }
}
