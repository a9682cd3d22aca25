/** Trap-to-host flows and the shared ACLs behind them (agent/src/core_utils.cc, agent/src/core_data.cc). */
module TrapAcl {
  import opened IdPools

  const MAX_ACL_ID: nat := 33
  const MAX_ACL_WITH_VLAN_CLASSIFIER: nat := 10
  const ANY_VLAN: int := 4095

  datatype FlowType = Upstream | Downstream | Multicast

  datatype IntfType = Pon | Nni

  datatype PacketType = Dhcpv4 | Lldp | Eap | Igmpv4 | Pppoed | UnsupportedPacket

  /** The classifier fields of a flow request; 0 stands for a field that is not given. */
  datatype Classifier = Classifier(ethType: nat, ipProto: nat, srcPort: nat, dstPort: nat, oVid: nat)

  datatype AclKey = AclKey(etherType: int, ipProto: int, srcPort: int, dstPort: int, oVid: int)

  datatype FlowKey = FlowKey(id: nat, flowType: FlowType)

  datatype Target = Target(acl: nat, intf: int)

  datatype RegKey = RegKey(acl: nat, intf: int, kind: IntfType)

  datatype PktInfo = PktInfo(kind: IntfType, intf: int, pktType: PacketType, gem: int)

  datatype VlanInfo = VlanInfo(info: PktInfo, vlan: int)

  datatype TrapRequest = TrapRequest(flow: FlowKey, gem: int, accessIntf: int, networkIntf: int, classifier: Classifier)

  datatype InstallStatus = Installed | Unsupported | Exhausted | Rejected

  /** The device, asked to remove an ACL: the state read fails, it is not there, or the clear fails or succeeds. */
  datatype RemoveReply = StateReadFails | NotThere | ClearFails | Cleared

  /** The weight by which the classifier map orders, and so identifies, its keys. */
  function Weight(k: AclKey): int {
    k.etherType + 2 * k.ipProto + 3 * k.srcPort + 4 * k.dstPort + 5 * k.oVid
  }

  function OrMinusOne(x: nat): int {
    if x != 0 then x else -1
  }

  function FormulateKey(c: Classifier, vlanLimitHit: bool): AclKey {
    AclKey(OrMinusOne(c.ethType), OrMinusOne(c.ipProto), OrMinusOne(c.srcPort), OrMinusOne(c.dstPort),
           if c.oVid != 0 && !vlanLimitHit then c.oVid else ANY_VLAN)
  }

  function ToPacketType(c: Classifier): PacketType {
    if c.ethType == 0x888e then Eap
    else if c.srcPort == 67 || c.srcPort == 68 then Dhcpv4
    else if c.ethType == 0x88cc then Lldp
    else if c.ipProto == 2 then Igmpv4
    else if c.ethType == 0x8863 then Pppoed
    else UnsupportedPacket
  }

  predicate ClassifiesVlan(k: AclKey) {
    k.oVid > 0 && k.oVid != ANY_VLAN
  }

  function IntfTypeOf(t: FlowType): IntfType {
    if t == Upstream then Pon else Nni
  }

  function IntfOf(req: TrapRequest): int {
    if req.flow.flowType == Upstream then req.accessIntf else req.networkIntf
  }

  /** The registration counters are keyed by an 8-bit interface id. */
  function RegKeyOf(acl: nat, intf: int, t: FlowType): RegKey {
    RegKey(acl, intf % 256, IntfTypeOf(t))
  }

  function InfoOf(req: TrapRequest): PktInfo {
    PktInfo(IntfTypeOf(req.flow.flowType), IntfOf(req), ToPacketType(req.classifier), req.gem)
  }

  /** All the state kept about trap flows, and which ACLs the device holds, with or without a VLAN classifier. */
  datatype Acls = Acls(
    classifiers: map<int, nat>,
    refs: map<nat, nat>,
    registered: map<RegKey, nat>,
    flows: map<FlowKey, Target>,
    used: set<nat>,
    vlanLimitHit: bool,
    infos: map<nat, VlanInfo>,
    allowed: map<PktInfo, seq<int>>,
    device: map<nat, bool>)

  ghost const NO_ACLS := Acls(map[], map[], map[], map[], {}, false, map[], map[], map[])

  function Incremented<K>(m: map<K, nat>, k: K): nat {
    if k in m then m[k] + 1 else 1
  }

  /** What the 16-bit counter at k holds after a decrement; an absent counter starts at zero and wraps. */
  function Decremented<K>(m: map<K, nat>, k: K): nat {
    if k !in m || m[k] == 0 then 65535 else m[k] - 1
  }

  function AllowList(allowed: map<PktInfo, seq<int>>, info: PktInfo): seq<int> {
    if info in allowed then allowed[info] else []
  }

  function Without(list: seq<int>, v: int): (r: seq<int>)
    ensures forall x :: x in r <==> x in list && x != v
  {
    if list == [] then [] else (if list[0] == v then [] else [list[0]]) + Without(list[1..], v)
  }

  /** Takes an id and configures an ACL on the device; a refusal puts the id back. */
  ghost function InstallAcl(s: Acls, key: AclKey, deviceOk: bool): (Acls, InstallStatus) {
    var id := LowestFree(s.used, 0, MAX_ACL_ID);
    if id == MAX_ACL_ID then (s, Exhausted)
    else if !deviceOk then (s, Rejected)
    else
      (s.(used := s.used + {id},
          device := s.device[id := ClassifiesVlan(key) && !s.vlanLimitHit],
          classifiers := s.classifiers[Weight(key) := id],
          vlanLimitHit := s.vlanLimitHit || (ClassifiesVlan(key) && id >= MAX_ACL_WITH_VLAN_CLASSIFIER)),
       Installed)
  }

  /** Records a flow on an ACL: the registration counter, the flow map, the packet information and the allow list. */
  function Attach(s: Acls, req: TrapRequest, acl: nat, vid: int): Acls {
    var reg := RegKeyOf(acl, IntfOf(req), req.flow.flowType);
    var list := AllowList(s.allowed, InfoOf(req));
    s.(registered := s.registered[reg := Incremented(s.registered, reg)],
       flows := s.flows[req.flow := Target(acl, IntfOf(req))],
       infos := s.infos[req.flow.id := VlanInfo(InfoOf(req), req.classifier.oVid)],
       allowed := if vid in list then s.allowed else s.allowed[InfoOf(req) := list + [vid]])
  }

  ghost function Install(s: Acls, req: TrapRequest, deviceOk: bool): (Acls, InstallStatus) {
    var key := FormulateKey(req.classifier, s.vlanLimitHit);
    var w := Weight(key);
    if ToPacketType(req.classifier) == UnsupportedPacket then (s, Unsupported)
    else if w in s.classifiers then
      if req.flow in s.flows then (s, Installed)
      else
        var acl := s.classifiers[w];
        (Attach(s.(refs := s.refs[acl := Incremented(s.refs, acl)]), req, acl, key.oVid), Installed)
    else
      var (t, status) := InstallAcl(s, key, deviceOk);
      if status != Installed then (t, status)
      else
        var acl := t.classifiers[w];
        (Attach(t.(refs := t.refs[acl := 1]), req, acl, key.oVid), Installed)
  }

  ghost predicate IsFirst(classifiers: map<int, nat>, acl: nat, w: int) {
    && w in classifiers && classifiers[w] == acl
    && forall v | v in classifiers && classifiers[v] == acl :: w <= v
  }

  /** Erases the first classifier found for an ACL in the map's order. */
  ghost function EraseFirst(classifiers: map<int, nat>, acl: nat): map<int, nat> {
    if w :| IsFirst(classifiers, acl, w) then classifiers - {w} else classifiers
  }

  /** Frees the id unless the device refuses. */
  function RemoveAcl(s: Acls, acl: nat, reply: RemoveReply): Acls {
    if reply == StateReadFails || reply == ClearFails then s
    else s.(used := s.used - {acl}, device := s.device - {acl})
  }

  ghost function Unregister(s: Acls, reg: RegKey): Acls {
    var n := Decremented(s.registered, reg);
    s.(registered := if n == 0 then s.registered - {reg} else s.registered[reg := n])
  }

  ghost function Unreference(s: Acls, acl: nat, reply: RemoveReply): Acls {
    var n := Decremented(s.refs, acl);
    if n == 0 then
      var t := RemoveAcl(s, acl, reply);
      t.(refs := t.refs - {acl}, classifiers := EraseFirst(t.classifiers, acl))
    else s.(refs := s.refs[acl := n])
  }

  ghost function Cleanup(s: Acls, acl: nat, intf: int, t: FlowType, reply: RemoveReply): Acls {
    Unreference(Unregister(s, RegKeyOf(acl, intf, t)), acl, reply)
  }

  /** Takes the flow's VLAN off the allow list; the packet information itself is kept. */
  function Disallow(s: Acls, id: nat): Acls {
    if id in s.infos && s.infos[id].info in s.allowed then
      var vi := s.infos[id];
      s.(allowed := s.allowed[vi.info := Without(s.allowed[vi.info], vi.vlan)])
    else s
  }

  /** The ACL branch of a flow removal; a flow without an ACL is left to the datapath branch. */
  ghost function Remove(s: Acls, flow: FlowKey, reply: RemoveReply): Acls {
    if flow !in s.flows then s
    else
      var target := s.flows[flow];
      var t := Cleanup(s, target.acl, target.intf, flow.flowType, reply);
      Disallow(t.(flows := t.flows - {flow}), flow.id)
  }

  /** The final check on a trapped packet, given its parsed header fields. */
  predicate Admits(allowed: map<PktInfo, seq<int>>, info: PktInfo, vlan: int) {
    info in allowed && (vlan in allowed[info] || ANY_VLAN in allowed[info])
  }

  class AclManager {
    const bits: array<bool>
    var classifiers: map<int, nat>
    var refs: map<nat, nat>
    var registered: map<RegKey, nat>
    var flows: map<FlowKey, Target>
    var vlanLimitHit: bool
    var infos: map<nat, VlanInfo>
    var allowed: map<PktInfo, seq<int>>
    ghost var device: map<nat, bool>

    ghost predicate Valid()
      reads this
    {
      bits.Length == MAX_ACL_ID
    }

    ghost function Model(): Acls
      reads this, bits
    {
      Acls(classifiers, refs, registered, flows, SetBits(bits[..]), vlanLimitHit, infos, allowed, device)
    }

    constructor ()
      ensures Valid() && fresh(bits) && Model() == NO_ACLS
    {
      bits := new bool[MAX_ACL_ID](_ => false);
      classifiers, refs, registered, flows := map[], map[], map[], map[];
      vlanLimitHit, infos, allowed, device := false, map[], map[], map[];
    }

    method ConfigureAcl(key: AclKey, deviceOk: bool) returns (status: InstallStatus)
      requires Valid()
      modifies this, bits
      ensures Valid()
      ensures (Model(), status) == InstallAcl(old(Model()), key, deviceOk)
    {
      var id := TakeLowest(bits, 0);
      if id == MAX_ACL_ID {
        return Exhausted;
      }
      if !deviceOk {
        Release(bits, id);
        return Rejected;
      }
      device := device[id := ClassifiesVlan(key) && !vlanLimitHit];
      classifiers := classifiers[Weight(key) := id];
      if ClassifiesVlan(key) && id >= MAX_ACL_WITH_VLAN_CLASSIFIER {
        vlanLimitHit := true;
      }
      status := Installed;
    }

    method HandleAclRuleInstall(req: TrapRequest, deviceOk: bool) returns (status: InstallStatus)
      requires Valid()
      modifies this, bits
      ensures Valid()
      ensures (Model(), status) == Install(old(Model()), req, deviceOk)
    {
      if ToPacketType(req.classifier) == UnsupportedPacket {
        return Unsupported;
      }
      var key := FormulateKey(req.classifier, vlanLimitHit);
      var acl: nat;
      if Weight(key) in classifiers {
        acl := classifiers[Weight(key)];
        if req.flow in flows {
          return Installed;
        }
        if acl in refs {
          refs := refs[acl := refs[acl] + 1];
        } else {
          refs := refs[acl := 1];
        }
      } else {
        status := ConfigureAcl(key, deviceOk);
        if status != Installed {
          return;
        }
        acl := classifiers[Weight(key)];
        refs := refs[acl := 1];
      }
      RecordFlow(req, acl, key.oVid);
      status := Installed;
    }

    method RecordFlow(req: TrapRequest, acl: nat, vid: int)
      modifies this`registered, this`flows, this`infos, this`allowed
      ensures Model() == Attach(old(Model()), req, acl, vid)
    {
      var reg := RegKeyOf(acl, IntfOf(req), req.flow.flowType);
      if reg in registered {
        registered := registered[reg := registered[reg] + 1];
      } else {
        registered := registered[reg := 1];
      }
      flows := flows[req.flow := Target(acl, IntfOf(req))];
      var info := InfoOf(req);
      infos := infos[req.flow.id := VlanInfo(info, req.classifier.oVid)];
      var duplicate := info in allowed && vid in allowed[info];
      if !duplicate {
        allowed := allowed[info := AllowList(allowed, info) + [vid]];
      }
    }

    method ForgetClassifier(acl: nat)
      modifies this`classifiers
      ensures classifiers == EraseFirst(old(classifiers), acl)
    {
      var rest := classifiers.Keys;
      while rest != {}
        invariant classifiers == old(classifiers)
        invariant rest <= classifiers.Keys
        invariant forall w | w in classifiers && w !in rest :: classifiers[w] != acl
        decreases rest
      {
        ghost var least := LeastExists(rest);
        assert least in rest && forall v | v in rest :: least <= v;
        var w :| w in rest && forall v | v in rest :: w <= v;
        if classifiers[w] == acl {
          assert IsFirst(classifiers, acl, w);
          classifiers := classifiers - {w};
          return;
        }
        rest := rest - {w};
      }
    }

    method DropRegistration(reg: RegKey)
      modifies this`registered
      ensures Model() == Unregister(old(Model()), reg)
    {
      registered := registered[reg := Decremented(registered, reg)];
      if registered[reg] == 0 {
        registered := registered - {reg};
        assert registered == old(registered) - {reg};
      }
    }

    method DropReference(acl: nat, reply: RemoveReply)
      requires Valid()
      modifies this`refs, this`classifiers, this`device, bits
      ensures Model() == Unreference(old(Model()), acl, reply)
    {
      refs := refs[acl := Decremented(refs, acl)];
      if refs[acl] == 0 {
        if reply == NotThere || reply == Cleared {
          device := device - {acl};
          Release(bits, acl);
        }
        refs := refs - {acl};
        assert refs == old(refs) - {acl};
        ForgetClassifier(acl);
      }
    }

    method HandleAclRuleCleanup(acl: nat, intf: int, t: FlowType, reply: RemoveReply)
      requires Valid()
      modifies this`registered, this`refs, this`classifiers, this`device, bits
      ensures Model() == Cleanup(old(Model()), acl, intf, t, reply)
    {
      DropRegistration(RegKeyOf(acl, intf, t));
      DropReference(acl, reply);
    }

    method RemoveTrapFlow(flow: FlowKey, reply: RemoveReply) returns (handled: bool)
      requires Valid()
      modifies this, bits
      ensures Valid()
      ensures Model() == Remove(old(Model()), flow, reply)
      ensures handled <==> flow in old(flows)
    {
      handled := flow in flows;
      if handled {
        var target := flows[flow];
        HandleAclRuleCleanup(target.acl, target.intf, flow.flowType, reply);
        flows := flows - {flow};
        if flow.id in infos {
          var vi := infos[flow.id];
          if vi.info in allowed {
            allowed := allowed[vi.info := Without(allowed[vi.info], vi.vlan)];
          }
        }
      }
    }

    method IsPacketAllowed(info: PktInfo, vlan: int) returns (ok: bool)
      ensures ok <==> Admits(allowed, info, vlan)
    {
      if info in allowed {
        var list := allowed[info];
        var i := 0;
        while i < |list|
          invariant i <= |list|
          invariant vlan !in list[..i] && ANY_VLAN !in list[..i]
        {
          if list[i] == vlan || list[i] == ANY_VLAN {
            return true;
          }
          i := i + 1;
        }
      }
      ok := false;
    }
  }
}
