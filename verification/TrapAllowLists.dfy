/** The VLAN allow lists that decide which trapped packets reach the host. */
module TrapAllowLists {
  import opened IdPools
  import opened TrapAcl
  import opened TrapAclProofs

  ghost predicate Distinct(list: seq<int>) {
    forall i, j | 0 <= i < j < |list| :: list[i] != list[j]
  }

  ghost predicate IsFor(s: Acls, f: FlowKey, vi: VlanInfo) {
    f in s.flows && f.id in s.infos && s.infos[f.id] == vi
  }

  /** Some live trap flow matches these header fields. */
  ghost predicate Live(s: Acls, info: PktInfo, vlan: int) {
    exists f :: IsFor(s, f, VlanInfo(info, vlan))
  }

  ghost predicate FlowsDescribed(s: Acls) {
    && (forall f | f in s.flows :: f.id in s.infos && 0 < s.infos[f.id].vlan < ANY_VLAN)
    && (forall f, g | f in s.flows && g in s.flows && f.id == g.id :: f == g)
    && (forall f, g, vi | IsFor(s, f, vi) && IsFor(s, g, vi) :: f == g)
  }

  /** The list has no duplicates and holds exactly the VLANs of the live flows for its key. */
  ghost predicate ListExact(s: Acls, info: PktInfo) {
    && Distinct(AllowList(s.allowed, info))
    && forall v :: v in AllowList(s.allowed, info) <==> Live(s, info, v)
  }

  ghost predicate ListsExact(s: Acls) {
    FlowsDescribed(s) && forall info :: ListExact(s, info)
  }

  /** A trap flow with a new id and header fields no live flow has, on a proper VLAN, while VLANs still classify. */
  ghost predicate Admissible(s: Acls, op: AclOp) {
    op.AddTrap? ==>
      && (forall f | f in s.flows :: f.id != op.req.flow.id)
      && 0 < op.req.classifier.oVid < ANY_VLAN
      && !Live(s, InfoOf(op.req), op.req.classifier.oVid)
      && !s.vlanLimitHit
  }

  /** s with req's flow attached to some ACL, its VLAN under the name vid on the allow list. */
  ghost predicate Attached(s: Acls, t: Acls, req: TrapRequest, vid: int) {
    var list := AllowList(s.allowed, InfoOf(req));
    && req.flow in t.flows && t.flows == s.flows[req.flow := t.flows[req.flow]]
    && t.infos == s.infos[req.flow.id := VlanInfo(InfoOf(req), req.classifier.oVid)]
    && t.allowed == if vid in list then s.allowed else s.allowed[InfoOf(req) := list + [vid]]
  }

  ghost predicate SameLists(s: Acls, t: Acls) {
    t.flows == s.flows && t.infos == s.infos && t.allowed == s.allowed
  }

  lemma AttachAttaches(s: Acls, u: Acls, req: TrapRequest, acl: nat, vid: int)
    requires SameLists(s, u)
    ensures Attached(s, Attach(u, req, acl, vid), req, vid)
  {
  }

  lemma InstallAclKeepsLists(s: Acls, key: AclKey, deviceOk: bool)
    ensures SameLists(s, InstallAcl(s, key, deviceOk).0)
  {
  }

  lemma InstallLists(s: Acls, req: TrapRequest, deviceOk: bool)
    requires req.flow !in s.flows
    ensures var t := Install(s, req, deviceOk).0;
            if Install(s, req, deviceOk).1 == Installed then
              Attached(s, t, req, FormulateKey(req.classifier, s.vlanLimitHit).oVid)
            else SameLists(s, t)
  {
    var key := FormulateKey(req.classifier, s.vlanLimitHit);
    var w := Weight(key);
    if w in s.classifiers {
      var acl := s.classifiers[w];
      AttachAttaches(s, s.(refs := s.refs[acl := Incremented(s.refs, acl)]), req, acl, key.oVid);
    } else {
      var (t, status) := InstallAcl(s, key, deviceOk);
      InstallAclKeepsLists(s, key, deviceOk);
      if status == Installed {
        var acl := t.classifiers[w];
        AttachAttaches(s, t.(refs := t.refs[acl := 1]), req, acl, key.oVid);
      }
    }
  }

  lemma LiveAfterInstall(s: Acls, t: Acls, req: TrapRequest, info: PktInfo, v: int)
    requires forall f | f in s.flows :: f.id != req.flow.id
    requires req.flow in t.flows && t.flows == s.flows[req.flow := t.flows[req.flow]]
    requires t.infos == s.infos[req.flow.id := VlanInfo(InfoOf(req), req.classifier.oVid)]
    ensures Live(t, info, v) <==> Live(s, info, v) || (info == InfoOf(req) && v == req.classifier.oVid)
  {
    var vi := VlanInfo(info, v);
    if Live(t, info, v) {
      var f :| IsFor(t, f, vi);
      assert f == req.flow || IsFor(s, f, vi);
    }
    if Live(s, info, v) {
      var f :| IsFor(s, f, vi);
      assert IsFor(t, f, vi);
    }
    assert IsFor(t, req.flow, VlanInfo(InfoOf(req), req.classifier.oVid));
  }

  lemma InstallKeepsDescribed(s: Acls, t: Acls, req: TrapRequest)
    requires FlowsDescribed(s)
    requires forall f | f in s.flows :: f.id != req.flow.id
    requires 0 < req.classifier.oVid < ANY_VLAN
    requires !Live(s, InfoOf(req), req.classifier.oVid)
    requires req.flow in t.flows && t.flows == s.flows[req.flow := t.flows[req.flow]]
    requires t.infos == s.infos[req.flow.id := VlanInfo(InfoOf(req), req.classifier.oVid)]
    ensures FlowsDescribed(t)
  {
    forall f, g, vi | IsFor(t, f, vi) && IsFor(t, g, vi)
      ensures f == g
    {
      assert f == req.flow || IsFor(s, f, vi);
      assert g == req.flow || IsFor(s, g, vi);
    }
  }

  lemma ListAfterInstall(s: Acls, t: Acls, req: TrapRequest, info: PktInfo)
    requires ListExact(s, info) && Attached(s, t, req, req.classifier.oVid)
    requires forall f | f in s.flows :: f.id != req.flow.id
    requires !Live(s, InfoOf(req), req.classifier.oVid)
    ensures ListExact(t, info)
  {
    forall v
      ensures v in AllowList(t.allowed, info) <==> Live(t, info, v)
    {
      LiveAfterInstall(s, t, req, info, v);
    }
  }

  lemma InstallKeepsLists(s: Acls, req: TrapRequest, deviceOk: bool)
    requires ListsExact(s) && Admissible(s, AddTrap(req, deviceOk))
    ensures ListsExact(Install(s, req, deviceOk).0)
  {
    var (t, status) := Install(s, req, deviceOk);
    InstallLists(s, req, deviceOk);
    if status == Installed {
      InstallKeepsDescribed(s, t, req);
      forall info
        ensures ListExact(t, info)
      {
        assert ListExact(s, info);
        ListAfterInstall(s, t, req, info);
      }
    } else {
      SameListsExact(s, t);
    }
  }

  lemma SameListsExact(s: Acls, t: Acls)
    requires ListsExact(s)
    requires t.flows == s.flows && t.infos == s.infos && t.allowed == s.allowed
    ensures ListsExact(t)
  {
    assert forall f, vi :: IsFor(t, f, vi) <==> IsFor(s, f, vi);
    forall info
      ensures ListExact(t, info)
    {
      assert ListExact(s, info);
      assert forall v :: Live(t, info, v) <==> Live(s, info, v);
    }
  }

  lemma {:induction false} WithoutKeepsDistinct(list: seq<int>, v: int)
    requires Distinct(list)
    ensures Distinct(Without(list, v))
  {
    if list != [] {
      WithoutKeepsDistinct(list[1..], v);
      var rest := Without(list[1..], v);
      assert forall i | 0 <= i < |rest| :: rest[i] in rest;
      assert forall i | 0 <= i < |list[1..]| :: list[1..][i] == list[i + 1];
    }
  }

  lemma LiveAfterRemove(s: Acls, t: Acls, flow: FlowKey, info: PktInfo, v: int)
    requires FlowsDescribed(s) && flow in s.flows
    requires t.flows == s.flows - {flow} && t.infos == s.infos
    ensures Live(t, info, v) <==> Live(s, info, v) && s.infos[flow.id] != VlanInfo(info, v)
  {
    var vi := VlanInfo(info, v);
    if Live(t, info, v) {
      var f :| IsFor(t, f, vi);
      assert IsFor(s, f, vi);
      if s.infos[flow.id] == vi {
        assert IsFor(s, flow, vi);
      }
    }
    if Live(s, info, v) && s.infos[flow.id] != vi {
      var f :| IsFor(s, f, vi);
      assert IsFor(t, f, vi);
    }
  }

  /** The list for info once flow's VLAN is off the list of its own key. */
  function ListWithout(s: Acls, flow: FlowKey, info: PktInfo): seq<int>
    requires flow.id in s.infos
  {
    var gone := s.infos[flow.id];
    if gone.info == info then Without(AllowList(s.allowed, info), gone.vlan) else AllowList(s.allowed, info)
  }

  lemma AllowListUpdated(allowed: map<PktInfo, seq<int>>, info: PktInfo, list: seq<int>, other: PktInfo)
    ensures AllowList(allowed[info := list], other) == if other == info then list else AllowList(allowed, other)
  {
  }

  lemma DisallowIsWithout(s: Acls, flow: FlowKey, info: PktInfo)
    requires flow.id in s.infos
    ensures AllowList(Disallow(s, flow.id).allowed, info) == ListWithout(s, flow, info)
  {
    var gone := s.infos[flow.id];
    if gone.info in s.allowed {
      AllowListUpdated(s.allowed, gone.info, Without(s.allowed[gone.info], gone.vlan), info);
    } else {
      assert Without([], gone.vlan) == [];
    }
  }

  lemma ListAfterRemove(s: Acls, t: Acls, flow: FlowKey, info: PktInfo)
    requires FlowsDescribed(s) && ListExact(s, info) && flow in s.flows && flow.id in s.infos
    requires t.flows == s.flows - {flow} && t.infos == s.infos
    requires AllowList(t.allowed, info) == ListWithout(s, flow, info)
    ensures ListExact(t, info)
  {
    WithoutKeepsDistinct(AllowList(s.allowed, info), s.infos[flow.id].vlan);
    forall v
      ensures v in AllowList(t.allowed, info) <==> Live(t, info, v)
    {
      LiveAfterRemove(s, t, flow, info, v);
      assert v in AllowList(s.allowed, info) <==> Live(s, info, v);
    }
  }

  lemma RemoveKeepsLists(s: Acls, flow: FlowKey, reply: RemoveReply)
    requires ListsExact(s)
    ensures ListsExact(Remove(s, flow, reply))
  {
    if flow in s.flows {
      var t := Remove(s, flow, reply);
      RemoveFields(s, flow, reply);
      assert forall f, vi :: IsFor(t, f, vi) ==> IsFor(s, f, vi);
      forall info
        ensures ListExact(t, info)
      {
        assert ListExact(s, info);
        DisallowIsWithout(s, flow, info);
        ListAfterRemove(s, t, flow, info);
      }
    }
  }

  ghost predicate AdmissibleRun(ops: seq<AclOp>) {
    ops == [] || (AdmissibleRun(ops[..|ops| - 1]) && Admissible(Run(ops[..|ops| - 1]), ops[|ops| - 1]))
  }

  lemma {:induction false} EveryAdmissibleRunKeepsLists(ops: seq<AclOp>)
    requires AdmissibleRun(ops)
    ensures ListsExact(Run(ops))
  {
    if ops != [] {
      var prefix := ops[..|ops| - 1];
      EveryAdmissibleRunKeepsLists(prefix);
      match ops[|ops| - 1]
      case AddTrap(req, deviceOk) => InstallKeepsLists(Run(prefix), req, deviceOk);
      case DropTrap(flow, reply) => RemoveKeepsLists(Run(prefix), flow, reply);
    }
  }

  lemma NoLiveFlowOnAnyVlan(s: Acls, info: PktInfo)
    requires FlowsDescribed(s)
    ensures !Live(s, info, ANY_VLAN)
  {
    assert forall f :: !IsFor(s, f, VlanInfo(info, ANY_VLAN));
  }

  /** After any admissible run, failed calls included, a packet is admitted exactly when a live trap flow matches it. */
  lemma AdmitsIffLiveFlowMatches(ops: seq<AclOp>, info: PktInfo, vlan: int)
    requires AdmissibleRun(ops)
    ensures Admits(Run(ops).allowed, info, vlan) <==> Live(Run(ops), info, vlan)
  {
    EveryAdmissibleRunKeepsLists(ops);
    var s := Run(ops);
    assert ListExact(s, info);
    NoLiveFlowOnAnyVlan(s, info);
    assert ANY_VLAN !in AllowList(s.allowed, info);
  }

  // Where the restrictions come from

  lemma {:induction false} WithoutAbsent(list: seq<int>, v: int)
    ensures Without(list, v) == list <==> v !in list
  {
    if list != [] {
      WithoutAbsent(list[1..], v);
      WithoutIsNoLonger(list[1..], v);
      assert list == [list[0]] + list[1..];
    }
  }

  lemma {:induction false} WithoutIsNoLonger(list: seq<int>, v: int)
    ensures |Without(list, v)| <= |list|
  {
    if list != [] {
      WithoutIsNoLonger(list[1..], v);
    }
  }

  lemma {:induction false} WithoutAppend(list: seq<int>, x: int, v: int)
    ensures Without(list + [x], v) == Without(list, v) + (if x == v then [] else [x])
  {
    if list == [] {
      assert list + [x] == [x];
    } else {
      assert (list + [x])[1..] == list[1..] + [x];
      WithoutAppend(list[1..], x, v);
    }
  }

  /** What an installed flow's VLAN is put on its allow list as. */
  function ListedAs(s: Acls, req: TrapRequest): int {
    if req.classifier.oVid == 0 || s.vlanLimitHit then ANY_VLAN else req.classifier.oVid
  }

  /** The allow list for the flow's key after an install. */
  function Listed(s: Acls, req: TrapRequest): seq<int> {
    var list := AllowList(s.allowed, InfoOf(req));
    if ListedAs(s, req) in list then list else list + [ListedAs(s, req)]
  }

  /** Removing a flow just attached leaves the flows as they were and takes its VLAN off its list. */
  lemma RemoveAttached(s: Acls, u: Acls, req: TrapRequest, reply: RemoveReply)
    requires req.flow !in s.flows && Attached(s, u, req, ListedAs(s, req))
    ensures var t := Remove(u, req.flow, reply);
            && t.flows == s.flows
            && InfoOf(req) in t.allowed
            && t.allowed[InfoOf(req)] == Without(Listed(s, req), req.classifier.oVid)
  {
    RemoveFields(u, req.flow, reply);
    assert u.flows - {req.flow} == s.flows;
    assert InfoOf(req) in u.allowed && u.allowed[InfoOf(req)] == Listed(s, req);
  }

  /** The allow list for the flow's key after an install and a removal. */
  lemma ListAfterRoundTrip(s: Acls, req: TrapRequest, deviceOk: bool, reply: RemoveReply)
    requires forall f | f in s.flows :: f.id != req.flow.id
    requires Install(s, req, deviceOk).1 == Installed
    ensures var t := Remove(Install(s, req, deviceOk).0, req.flow, reply);
            && t.flows == s.flows
            && InfoOf(req) in t.allowed
            && t.allowed[InfoOf(req)] == Without(Listed(s, req), req.classifier.oVid)
  {
    InstallLists(s, req, deviceOk);
    RemoveAttached(s, Install(s, req, deviceOk).0, req, reply);
  }

  /**
   * Installing a trap flow with a new id and removing it again restores its allow list - an empty one if it is the
   * first on its key - exactly when the flow's VLAN was not on the list and the VID put on the list is that VLAN, or
   * was there already. The VID put on the list is ANY_VLAN for a flow without a VLAN and for every flow once the flag
   * is set.
   */
  lemma RoundTripRestoresListIff(s: Acls, req: TrapRequest, deviceOk: bool, reply: RemoveReply)
    requires forall f | f in s.flows :: f.id != req.flow.id
    requires Install(s, req, deviceOk).1 == Installed
    ensures var t := Remove(Install(s, req, deviceOk).0, req.flow, reply);
            var list := AllowList(s.allowed, InfoOf(req));
            && InfoOf(req) in t.allowed
            && (t.allowed[InfoOf(req)] == list <==>
                req.classifier.oVid !in list && (ListedAs(s, req) == req.classifier.oVid || ListedAs(s, req) in list))
  {
    ListAfterRoundTrip(s, req, deviceOk, reply);
    var list := AllowList(s.allowed, InfoOf(req));
    var listed, vlan := ListedAs(s, req), req.classifier.oVid;
    WithoutAbsent(list, vlan);
    WithoutAppend(list, listed, vlan);
    if listed !in list && listed != vlan {
      assert listed in Without(list, vlan) + [listed];
    }
  }

  /** A trap flow without a VLAN, installed and removed, leaves packets of every VLAN admitted. */
  lemma FlowWithoutVlanLeavesListOpen(s: Acls, req: TrapRequest, deviceOk: bool, reply: RemoveReply, vlan: int)
    requires forall f | f in s.flows :: f.id != req.flow.id
    requires req.classifier.oVid == 0
    requires Install(s, req, deviceOk).1 == Installed
    ensures var t := Remove(Install(s, req, deviceOk).0, req.flow, reply);
            t.flows == s.flows && Admits(t.allowed, InfoOf(req), vlan)
  {
    ListAfterRoundTrip(s, req, deviceOk, reply);
    var list := AllowList(s.allowed, InfoOf(req));
    assert ANY_VLAN in Listed(s, req);
  }

  lemma RunOfTwo(first: AclOp, second: AclOp)
    ensures Run([first, second]) == Step(Step(NO_ACLS, first), second)
  {
    var one, two := [first], [first, second];
    assert one[..0] == [] && Run(one) == Step(Run([]), first);
    assert two[..1] == one && Run(two) == Step(Run(two[..1]), second);
  }

  lemma FirstFlowInstalls(req: TrapRequest)
    requires ToPacketType(req.classifier) != UnsupportedPacket
    ensures Install(NO_ACLS, req, true).1 == Installed
  {
    assert LowestFree({}, 0, MAX_ACL_ID) == 0;
  }

  /** For instance the very first flow: none is live any more, and every VLAN is admitted. */
  lemma FirstFlowWithoutVlan(req: TrapRequest, vlan: int)
    requires req == TrapRequest(FlowKey(1, Upstream), 1024, 0, 0, Classifier(0x888e, 0, 0, 0, 0))
    ensures var s := Run([AddTrap(req, true), DropTrap(req.flow, Cleared)]);
            && s.flows == map[] && Admits(s.allowed, InfoOf(req), vlan)
            && AllowList(s.allowed, InfoOf(req)) != AllowList(NO_ACLS.allowed, InfoOf(req))
  {
    FirstFlowInstalls(req);
    RoundTripRestoresListIff(NO_ACLS, req, true, Cleared);
    FlowWithoutVlanLeavesListOpen(NO_ACLS, req, true, Cleared, vlan);
    RunOfTwo(AddTrap(req, true), DropTrap(req.flow, Cleared));
  }
}
