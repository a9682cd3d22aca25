/** What installing a trap flow answers and leads to, field by field (agent/src/core_utils.cc, agent/src/core_data.cc). */
module AclEffects {
  import opened IdPools
  import opened TrapAcl
  import opened TrapAclProofs

  // Classifiers

  /** EAPOL goes before DHCP, DHCP before LLDP, LLDP before IGMP and IGMP before PPPoE discovery. */
  lemma PacketTypeMeans(c: Classifier)
    ensures var eap, dhcp := c.ethType == 34958, c.srcPort == 67 || c.srcPort == 68;
            var lldp, igmp, pppoe := c.ethType == 35020, c.ipProto == 2, c.ethType == 34915;
            && (ToPacketType(c) == Eap <==> eap)
            && (ToPacketType(c) == Dhcpv4 <==> dhcp && !eap)
            && (ToPacketType(c) == Lldp <==> lldp && !dhcp)
            && (ToPacketType(c) == Igmpv4 <==> igmp && !eap && !dhcp && !lldp)
            && (ToPacketType(c) == Pppoed <==> pppoe && !dhcp && !igmp)
  {
  }

  /** The VLAN a flow is keyed and listed under. */
  function KeyVlan(c: Classifier, vlanLimitHit: bool): int {
    if c.oVid == 0 || vlanLimitHit then 4095 else c.oVid
  }

  /** Two classifiers are keyed alike exactly when all their fields agree, the VLAN as far as it still classifies. */
  lemma KeysAgreeIff(c: Classifier, d: Classifier, vlanLimitHit: bool)
    ensures FormulateKey(c, vlanLimitHit) == FormulateKey(d, vlanLimitHit) <==>
              && c.ethType == d.ethType && c.ipProto == d.ipProto && c.srcPort == d.srcPort && c.dstPort == d.dstPort
              && KeyVlan(c, vlanLimitHit) == KeyVlan(d, vlanLimitHit)
    ensures FormulateKey(c, vlanLimitHit).oVid == KeyVlan(c, vlanLimitHit)
  {
  }

  /** The fields count one, two, three, four and five times towards the weight; a field that is not given counts as -1. */
  lemma WeightMeans(c: Classifier, vlanLimitHit: bool)
    ensures var field := (x: nat) => if x == 0 then -1 else x as int;
            Weight(FormulateKey(c, vlanLimitHit))
            == field(c.ethType) + field(c.ipProto) + field(c.ipProto)
               + field(c.srcPort) + field(c.srcPort) + field(c.srcPort)
               + 4 * field(c.dstPort) + 5 * KeyVlan(c, vlanLimitHit)
  {
  }

  // Installing

  /** The interface a trap flow traps on: the PON upstream, the NNI otherwise. */
  function TrapsOn(req: TrapRequest): (IntfType, int) {
    if req.flow.flowType == Upstream then (Pon, req.accessIntf) else (Nni, req.networkIntf)
  }

  /** s with req's flow recorded on an ACL: its registration, its target, its packet information and its allow list. */
  ghost predicate Records(s: Acls, t: Acls, req: TrapRequest, acl: nat) {
    var (kind, intf) := TrapsOn(req);
    var reg := RegKey(acl, intf % 256, kind);
    var info := PktInfo(kind, intf, ToPacketType(req.classifier), req.gem);
    var list := if info in s.allowed then s.allowed[info] else [];
    var vlan := KeyVlan(req.classifier, s.vlanLimitHit);
    && t.registered == s.registered[reg := if reg in s.registered then s.registered[reg] + 1 else 1]
    && t.flows == s.flows[req.flow := Target(acl, intf)]
    && t.infos == s.infos[req.flow.id := VlanInfo(info, req.classifier.oVid)]
    && t.allowed == if vlan in list then s.allowed else s.allowed[info := list + [vlan]]
  }

  lemma AttachRecords(s: Acls, u: Acls, req: TrapRequest, acl: nat)
    requires u.registered == s.registered && u.flows == s.flows && u.infos == s.infos && u.allowed == s.allowed
    ensures Records(s, Attach(u, req, acl, KeyVlan(req.classifier, s.vlanLimitHit)), req, acl)
  {
  }

  lemma AttachKeepsRest(s: Acls, req: TrapRequest, acl: nat, vid: int)
    ensures var t := Attach(s, req, acl, vid);
            && t.classifiers == s.classifiers && t.refs == s.refs && t.used == s.used
            && t.vlanLimitHit == s.vlanLimitHit && t.device == s.device
  {
  }

  /** Every answer of an install, by the first check that fails, and what a failed one leaves: everything as it was. */
  lemma InstallAnswers(s: Acls, req: TrapRequest, deviceOk: bool)
    ensures var known := Weight(FormulateKey(req.classifier, s.vlanLimitHit)) in s.classifiers;
            Install(s, req, deviceOk).1 ==
              if ToPacketType(req.classifier) == UnsupportedPacket then Unsupported
              else if known then Installed
              else if forall id: nat | id < 33 :: id in s.used then Exhausted
              else if !deviceOk then Rejected
              else Installed
    ensures Install(s, req, deviceOk).1 != Installed ==> Install(s, req, deviceOk).0 == s
  {
    assert LowestFree(s.used, 0, MAX_ACL_ID) == MAX_ACL_ID <==> forall id: nat | id < 33 :: id in s.used;
  }

  /** The flow's classifier classifies by VLAN. */
  predicate HasVlan(c: Classifier) {
    c.oVid != 0 && c.oVid != 4095
  }

  /**
   * An accepted install under a weight that has no ACL: exactly one ACL is added to the device, under the lowest id that
   * was not in use. It classifies by VLAN exactly if the flow does and the flag was not set; and the flag is set
   * afterwards exactly if it was, or the flow classifies by VLAN and the id is ten or more.
   */
  lemma NewAclIs(s: Acls, req: TrapRequest, deviceOk: bool) returns (id: nat)
    requires Weight(FormulateKey(req.classifier, s.vlanLimitHit)) !in s.classifiers
    requires Install(s, req, deviceOk).1 == Installed
    ensures id < 33 && id !in s.used && forall j: nat | j < id :: j in s.used
    ensures var t := Install(s, req, deviceOk).0;
            && t.device == s.device[id := HasVlan(req.classifier) && !s.vlanLimitHit]
            && (t.vlanLimitHit <==> s.vlanLimitHit || (HasVlan(req.classifier) && id >= 10))
            && t.used == s.used + {id}
            && t.classifiers == s.classifiers[Weight(FormulateKey(req.classifier, s.vlanLimitHit)) := id]
            && t.refs == s.refs[id := 1]
            && Records(s, t, req, id)
  {
    id := LowestFree(s.used, 0, MAX_ACL_ID);
    var key := FormulateKey(req.classifier, s.vlanLimitHit);
    var (u, _) := InstallAcl(s, key, deviceOk);
    var v := u.(refs := u.refs[id := 1]);
    AttachRecords(s, v, req, id);
    AttachKeepsRest(v, req, id, key.oVid);
  }

  /** An install of a new flow under a weight that has an ACL counts it there and records it; the device is not asked. */
  lemma SharedAclIs(s: Acls, req: TrapRequest, deviceOk: bool)
    requires Weight(FormulateKey(req.classifier, s.vlanLimitHit)) in s.classifiers
    requires ToPacketType(req.classifier) != UnsupportedPacket && req.flow !in s.flows
    ensures var t, acl := Install(s, req, deviceOk).0, s.classifiers[Weight(FormulateKey(req.classifier, s.vlanLimitHit))];
            && t.device == s.device && t.vlanLimitHit == s.vlanLimitHit && t.used == s.used
            && t.classifiers == s.classifiers
            && t.refs == s.refs[acl := if acl in s.refs then s.refs[acl] + 1 else 1]
            && Records(s, t, req, acl)
  {
    var key := FormulateKey(req.classifier, s.vlanLimitHit);
    var acl := s.classifiers[Weight(key)];
    var v := s.(refs := s.refs[acl := Incremented(s.refs, acl)]);
    AttachRecords(s, v, req, acl);
    AttachKeepsRest(v, req, acl, key.oVid);
  }

  /** A flow that has an ACL already, under a weight that has one, is left alone. */
  lemma RepeatedInstallIs(s: Acls, req: TrapRequest, deviceOk: bool)
    requires Weight(FormulateKey(req.classifier, s.vlanLimitHit)) in s.classifiers
    requires ToPacketType(req.classifier) != UnsupportedPacket && req.flow in s.flows
    ensures Install(s, req, deviceOk) == (s, Installed)
  {
  }

  // Removing

  /** s without one of the things the counter at k counts: the counter goes with the last of them. */
  ghost function OneLess<K>(m: map<K, nat>, k: K, last: bool): map<K, nat>
    requires k in m && (!last ==> m[k] > 0)
  {
    if last then m - {k} else m[k := m[k] - 1]
  }

  lemma CountedOneLess<K, F>(m: map<K, nat>, k: K, counted: set<F>, f: F)
    requires Counts(m, k, counted) && f in counted
    ensures k in m && m[k] > 0 && Lowered(m, k) == OneLess(m, k, counted == {f})
    ensures Decremented(m, k) == 0 <==> counted == {f}
  {
    assert |counted - {f}| == |counted| - 1;
    if counted == {f} {
      assert |counted| == 1;
    } else {
      assert counted - {f} != {};
    }
  }

  /**
   * Removing a trap flow: its registration and its ACL count one flow less; with the last flow on the ACL its classifier
   * goes, and ACL and id as well if the device lets go of it; the flow's VLAN goes from the allow list of its packets.
   */
  lemma RemoveTrapIs(s: Acls, flow: FlowKey, reply: RemoveReply) returns (w: int)
    requires Consistent(s) && flow in s.flows
    ensures var acl := s.flows[flow].acl;
            var reg := RegKey(acl, s.flows[flow].intf % 256, if flow.flowType == Upstream then Pon else Nni);
            var last := FlowsOn(s.flows, acl) == {flow};
            var gone := last && (reply == NotThere || reply == Cleared);
            var t := Remove(s, flow, reply);
            && w in s.classifiers && s.classifiers[w] == acl
            && acl in s.refs && s.refs[acl] > 0 && reg in s.registered && s.registered[reg] > 0
            && t.flows == s.flows - {flow}
            && t.refs == OneLess(s.refs, acl, last)
            && t.registered == OneLess(s.registered, reg, FlowsAt(s.flows, reg) == {flow})
            && t.classifiers == (if last then s.classifiers - {w} else s.classifiers)
            && t.used == (if gone then s.used - {acl} else s.used)
            && t.device == (if gone then s.device - {acl} else s.device)
            && t.vlanLimitHit == s.vlanLimitHit && t.infos == s.infos
            && t.allowed == if flow.id in s.infos && s.infos[flow.id].info in s.allowed
                            then var vi := s.infos[flow.id];
                                 s.allowed[vi.info := Without(s.allowed[vi.info], vi.vlan)]
                            else s.allowed
  {
    var acl, reg := s.flows[flow].acl, RegKeyAt(s.flows, flow);
    assert Counts(s.refs, acl, FlowsOn(s.flows, acl)) && flow in FlowsOn(s.flows, acl);
    assert Counts(s.registered, reg, FlowsAt(s.flows, reg)) && flow in FlowsAt(s.flows, reg);
    CountedOneLess(s.refs, acl, FlowsOn(s.flows, acl), flow);
    CountedOneLess(s.registered, reg, FlowsAt(s.flows, reg), flow);
    SearchErasesTheRightClassifier(s, acl);
    w :| w in s.classifiers && s.classifiers[w] == acl && EraseFirst(s.classifiers, acl) == s.classifiers - {w};
    RemoveFields(s, flow, reply);
  }

  /** A flow without an ACL is left to the datapath branch. */
  lemma RemoveOtherIs(s: Acls, flow: FlowKey, reply: RemoveReply)
    requires flow !in s.flows
    ensures Remove(s, flow, reply) == s
  {
  }

  // The ceiling is reached

  /** DHCP trap flow v, on VLAN v. */
  function DhcpOn(v: nat): TrapRequest {
    TrapRequest(FlowKey(v, Upstream), 1024, 0, 0, Classifier(2048, 17, 68, 67, v))
  }

  ghost function DhcpUpTo(n: nat): seq<AclOp> {
    if n == 0 then [] else DhcpUpTo(n - 1) + [AddTrap(DhcpOn(n), true)]
  }

  /** The weight of flow v while VLANs classify. */
  function DhcpWeight(v: nat): int {
    2048 + 34 + 204 + 268 + 5 * v
  }

  /** The ids below n are taken, by VLAN-classified ACLs; the flag is set once there are eleven. */
  ghost predicate Filled(s: Acls, n: nat) {
    && (forall id: nat :: id in s.used <==> id < n)
    && (forall id: nat :: id in VlanAcls(s) <==> id < n)
    && (s.vlanLimitHit <==> n >= 11)
    && (forall w | w in s.classifiers :: w <= DhcpWeight(n))
  }

  lemma OneMoreFilled(s: Acls, n: nat)
    requires n < 11 && Filled(s, n)
    ensures Filled(Install(s, DhcpOn(n + 1), true).0, n + 1)
  {
    var req := DhcpOn(n + 1);
    WeightMeans(req.classifier, false);
    assert Weight(FormulateKey(req.classifier, false)) == DhcpWeight(n + 1);
    assert n !in s.used;
    InstallAnswers(s, req, true);
    var id := NewAclIs(s, req, true);
    assert id == n;
    FilledFrom(s, Install(s, req, true).0, n);
  }

  lemma FilledFrom(s: Acls, t: Acls, n: nat)
    requires n < 11 && Filled(s, n)
    requires t.device == s.device[n := true] && t.used == s.used + {n} && (t.vlanLimitHit <==> s.vlanLimitHit || n >= 10)
    requires t.classifiers == s.classifiers[DhcpWeight(n + 1) := n]
    ensures Filled(t, n + 1)
  {
    assert forall i: nat :: i in VlanAcls(t) <==> i in VlanAcls(s) || i == n;
  }

  lemma RunOneMore(ops: seq<AclOp>, req: TrapRequest)
    ensures Run(ops + [AddTrap(req, true)]) == Install(Run(ops), req, true).0
  {
    var more := ops + [AddTrap(req, true)];
    assert more[..|more| - 1] == ops;
  }

  lemma NoneFilled()
    ensures Filled(Run([]), 0)
  {
  }

  /** n accepted DHCP flows on VLANs 1 to n make n VLAN-classified ACLs, and the eleventh sets the flag. */
  lemma {:induction false} DhcpFlowsFill(n: nat)
    requires n <= 11
    ensures Filled(Run(DhcpUpTo(n)), n)
  {
    if n == 0 {
      NoneFilled();
    } else {
      DhcpFlowsFill(n - 1);
      var s := Run(DhcpUpTo(n - 1));
      OneMoreFilled(s, n - 1);
      RunOneMore(DhcpUpTo(n - 1), DhcpOn(n));
      assert DhcpUpTo(n) == DhcpUpTo(n - 1) + [AddTrap(DhcpOn(n), true)];
    }
  }

  /** The twelfth flow is installed on an ACL, but not on a VLAN-classified one. */
  lemma TwelfthHasNoVlan(s: Acls)
    requires Filled(s, 11)
    ensures Install(s, DhcpOn(12), true).1 == Installed
    ensures VlanAcls(Install(s, DhcpOn(12), true).0) == VlanAcls(s)
  {
    assert 11 !in s.used;
    InstallAnswers(s, DhcpOn(12), true);
    if Weight(FormulateKey(DhcpOn(12).classifier, true)) in s.classifiers {
      TwelfthShares(s);
    } else {
      var id := NewAclIs(s, DhcpOn(12), true);
      assert id !in VlanAcls(s);
    }
  }

  lemma TwelfthShares(s: Acls)
    requires Weight(FormulateKey(DhcpOn(12).classifier, s.vlanLimitHit)) in s.classifiers
    ensures Install(s, DhcpOn(12), true).0.device == s.device
  {
    if DhcpOn(12).flow in s.flows {
      RepeatedInstallIs(s, DhcpOn(12), true);
    } else {
      SharedAclIs(s, DhcpOn(12), true);
    }
  }

  lemma FilledSize(s: Acls, n: nat)
    requires Filled(s, n)
    ensures |VlanAcls(s)| == n
  {
    assert VlanAcls(s) == Below(n);
  }

  /** So the bound of eleven is reached, and the next flow gets an ACL that does not classify by VLAN. */
  lemma ElevenVlanAclsAreReached()
    ensures var s := Run(DhcpUpTo(11));
            && |VlanAcls(s)| == MAX_ACL_WITH_VLAN_CLASSIFIER + 1 && s.vlanLimitHit
            && Install(s, DhcpOn(12), true).1 == Installed
            && VlanAcls(Install(s, DhcpOn(12), true).0) == VlanAcls(s)
  {
    DhcpFlowsFill(11);
    FilledSize(Run(DhcpUpTo(11)), 11);
    TwelfthHasNoVlan(Run(DhcpUpTo(11)));
  }
}
