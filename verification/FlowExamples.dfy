/** Concrete runs in which ids, counters and entries go wrong (agent/src/core_api_handler.cc, agent/src/core_utils.cc). */
module FlowExamples {
  import opened IdPools
  import opened DeviceFlows
  import opened DeviceFlowProofs
  import opened DeviceFlowRuns
  import opened FlowRemoval
  import opened FlowRollback
  import S = SymmetricFlows
  import A = TrapAcl
  import P = TrapAclProofs

  // A flow with one device flow

  ghost predicate AllSucceed(dev: Device) {
    forall j: nat :: dev.add(j) == AddOk && dev.clear(j)
  }

  function SingleParams(req: AddRequest, id: nat): seq<Params> {
    [Params(req.pbit, req.gem, id)]
  }

  /** What an accepted add of one new device flow leads to. */
  ghost function WithNewFlow(s: Flows, req: AddRequest, id: nat): Flows {
    var ref := FlowRef(id, req.flowType);
    Flows(s.idEnd, s.used + {id},
          if req.trap then s.installed else s.installed + {ref},
          if req.trap then s.counter else |s.installed + {ref}| % 65536,
          if req.trap then s.trapped + {ref} else s.trapped,
          s.cache[req.flowId := DeviceFlow(false, req.flowType, SingleParams(req, id), 0)],
          if Datapath(req) then s.symmetric[SymKeyOf(req) := req.flowId] else s.symmetric)
  }

  lemma AddNewFlow(s: Flows, req: AddRequest, dev: Device)
    requires !req.replicate && req.flowType != OtherType && dev.add(0) == AddOk
    requires req.flowId !in s.cache && !Shares(s.cache, s.symmetric, req)
    requires LowestFree(s.used, FLOW_ID_START, s.idEnd + FLOW_ID_START) < s.idEnd + FLOW_ID_START
    ensures Add(s, req, dev)
         == (WithNewFlow(s, req, LowestFree(s.used, FLOW_ID_START, s.idEnd + FLOW_ID_START)), Done(false))
  {
    var id := LowestFree(s.used, FLOW_ID_START, s.idEnd + FLOW_ID_START);
    OneLowestFreeId(s.used, FLOW_ID_START, s.idEnd + FLOW_ID_START);
    assert AllocatedIds(s, req) == [id];
    assert Zip(PairsOf(req), [id]) == SingleParams(req, id);
    assert Elements([id]) == {id};
    var u := s.(used := s.used + {id});
    var t := AddDevice(u, req, FlowRef(id, req.flowType), AddOk);
    assert AddFrom(u, req, SingleParams(req, id), dev, false, 0) == (t, 1);
  }

  /** The half of a pair that comes second, on the id of the first. */
  lemma AddSecondHalf(s: Flows, req: AddRequest, dev: Device)
    requires !req.replicate && req.flowType != OtherType && Datapath(req) && dev.add(0) == AddOk
    requires req.flowId !in s.cache && Shares(s.cache, s.symmetric, req)
    requires |s.cache[PartnerOf(s.symmetric, req)].params| == 1
    ensures var partner := PartnerOf(s.symmetric, req);
            var params := s.cache[partner].params;
            var ref := FlowRef(params[0].id, req.flowType);
            Add(s, req, dev) == (
              s.(installed := s.installed + {ref}, counter := |s.installed + {ref}| % 65536,
                 cache := s.cache[req.flowId := DeviceFlow(false, req.flowType, params, partner)],
                 symmetric := s.symmetric[SymKeyOf(req) := req.flowId]),
              Done(false))
  {
    var params := SharedParams(s, req);
    assert params == s.cache[PartnerOf(s.symmetric, req)].params;
    var t := AddDevice(s, req, RefOf(params[0], req.flowType), AddOk);
    assert AddFrom(s, req, params, dev, true, 0) == (t, 1);
  }

  lemma RemoveSingle(s: Flows, req: RemoveRequest, dev: Device)
    requires req.flowId in s.cache && |s.cache[req.flowId].params| == 1
    ensures var flow := s.cache[req.flowId];
            var (t, ok) := RemoveDevice(s, RefOf(flow.params[0], flow.flowType), dev.clear(0));
            Remove(s, req, dev).0 == t.(
              used := if ok then s.used - {flow.params[0].id} else s.used,
              cache := s.cache - {req.flowId},
              symmetric := s.symmetric - {KeyOf(req, flow.flowType)})
  {
    var flow := s.cache[req.flowId];
    var (t, ok) := RemoveDevice(s, RefOf(flow.params[0], flow.flowType), dev.clear(0));
    var u := if ok then t.(used := t.used - {flow.params[0].id}) else t;
    assert RemoveFrom(u, flow.params, flow.flowType, dev, 1) == u;
    assert RemoveFrom(s, flow.params, flow.flowType, dev, 0) == u;
  }

  // One subscriber's pair of flows

  /** A flow of the subscriber on PON 0, ONU 1, UNI 1 with tech profile 64. */
  function FlowOf(flowId: nat, t: FlowType, trap: bool): AddRequest {
    AddRequest(flowId, 0, 1, 1, 64, t, trap, false, [], 1024, 0)
  }

  function RemovalOf(flowId: nat): RemoveRequest {
    RemoveRequest(flowId, 0, 1, 1, 64)
  }

  function KeyFor(t: FlowType): SymKey {
    SymKey(0, 1, 1, 64, t)
  }

  function CachedOn1(t: FlowType, symmetric: nat): DeviceFlow {
    DeviceFlow(false, t, [Params(0, 1024, 1)], symmetric)
  }

  /** The upstream flow 1 is installed, on device flow 1. */
  ghost function FirstHalf(): Flows {
    Flows(100, {1}, {FlowRef(1, Upstream)}, 1, {}, map[1 := CachedOn1(Upstream, 0)], map[KeyFor(Upstream) := 1])
  }

  /** So is the downstream flow 2, on the same device flow. */
  ghost function BothHalves(): Flows {
    Flows(100, {1}, {FlowRef(1, Upstream), FlowRef(1, Downstream)}, 2, {},
          map[1 := CachedOn1(Upstream, 0), 2 := CachedOn1(Downstream, 1)],
          map[KeyFor(Upstream) := 1, KeyFor(Downstream) := 2])
  }

  /** The upstream flow 1 is gone, and with it the bit of the id the downstream flow 2 still has. */
  ghost function SecondHalf(): Flows {
    Flows(100, {}, {FlowRef(1, Downstream)}, 1, {}, map[2 := CachedOn1(Downstream, 1)], map[KeyFor(Downstream) := 2])
  }

  /** The upstream trap flow 3 has got that id. */
  ghost function SecondHalfAndTrap(): Flows {
    Flows(100, {1}, {FlowRef(1, Downstream)}, 1, {FlowRef(1, Upstream)},
          map[2 := CachedOn1(Downstream, 1), 3 := CachedOn1(Upstream, 0)], map[KeyFor(Downstream) := 2])
  }

  /** The downstream flow 2 is gone, and with it the bit of the trap flow's id. */
  ghost function TrapWithoutBit(): Flows {
    Flows(100, {}, {}, 0, {FlowRef(1, Upstream)}, map[3 := CachedOn1(Upstream, 0)], map[])
  }

  lemma FirstHalfInstalls(dev: Device)
    requires AllSucceed(dev)
    ensures Add(NoFlows(100), FlowOf(1, Upstream, false), dev) == (FirstHalf(), Done(false))
  {
    AddNewFlow(NoFlows(100), FlowOf(1, Upstream, false), dev);
    assert LowestFree({}, 1, 101) == 1;
    assert {} + {FlowRef(1, Upstream)} == {FlowRef(1, Upstream)};
  }

  lemma FirstHalfIsExact()
    ensures Exact(FirstHalf())
  {
    NoFlowsExact(100);
    var dev := Device((j: nat) => AddOk, (j: nat) => true);
    FirstHalfInstalls(dev);
    AddKeepsExact(NoFlows(100), FlowOf(1, Upstream, false), dev);
  }

  lemma SecondHalfInstalls(dev: Device)
    requires AllSucceed(dev)
    ensures Add(FirstHalf(), FlowOf(2, Downstream, false), dev) == (BothHalves(), Done(false))
  {
    AddSecondHalf(FirstHalf(), FlowOf(2, Downstream, false), dev);
    assert {FlowRef(1, Upstream)} + {FlowRef(1, Downstream)} == {FlowRef(1, Upstream), FlowRef(1, Downstream)};
    assert |{FlowRef(1, Upstream), FlowRef(1, Downstream)}| == 2;
  }

  lemma BothHalvesAreExact()
    ensures Exact(BothHalves())
  {
    var dev := Device((j: nat) => AddOk, (j: nat) => true);
    FirstHalfIsExact();
    SecondHalfInstalls(dev);
    AddKeepsExact(FirstHalf(), FlowOf(2, Downstream, false), dev);
  }

  /**
   * The downstream half is refused by the device, and the id of the upstream flow is free although it is installed: the
   * input on which an add breaks the ids.
   */
  lemma RefusedHalfFreesId(dev: Device)
    requires dev.add(0) == AddFails
    ensures Exact(FirstHalf()) && LosesPartnerId(FirstHalf(), FlowOf(2, Downstream, false), dev)
    ensures var t := Add(FirstHalf(), FlowOf(2, Downstream, false), dev).0;
            t.used == {} && t.cache == FirstHalf().cache && 1 in t.cache && 1 in Ids(t.cache[1]) && !Exact(t)
  {
    var req := FlowOf(2, Downstream, false);
    FirstHalfIsExact();
    LosingPartnerIdFreesIt(FirstHalf(), req, dev);
    AddKeepsExactIff(FirstHalf(), req, dev);
    assert Params(0, 1024, 1) in CachedOn1(Upstream, 0).params;
  }

  lemma FirstHalfGoes(dev: Device)
    requires AllSucceed(dev)
    ensures Remove(BothHalves(), RemovalOf(1), dev).0 == SecondHalf()
  {
    RemoveSingle(BothHalves(), RemovalOf(1), dev);
    var t := Remove(BothHalves(), RemovalOf(1), dev).0;
    assert t.installed == {FlowRef(1, Downstream)};
    assert t.cache == SecondHalf().cache && t.symmetric == SecondHalf().symmetric && t.used == {};
  }

  /** Removing one half of the pair frees the id of the other: the input on which a removal breaks the ids. */
  lemma RemovingOneHalfFreesId(dev: Device)
    requires AllSucceed(dev)
    ensures Exact(BothHalves()) && !SafeToRemove(BothHalves(), 1, dev)
    ensures Remove(BothHalves(), RemovalOf(1), dev).0 == SecondHalf()
    ensures 1 in Ids(SecondHalf().cache[2]) && 1 !in SecondHalf().used && !Exact(SecondHalf())
  {
    BothHalvesAreExact();
    FirstHalfGoes(dev);
    assert LinksTo(BothHalves().cache, 2, 1);
    RemoveKeepsExactIff(BothHalves(), RemovalOf(1), dev);
    assert Params(0, 1024, 1) in CachedOn1(Downstream, 1).params;
  }

  // A trap flow's id given out twice

  lemma TrapTakesFreedId(dev: Device)
    requires AllSucceed(dev)
    ensures Add(SecondHalf(), FlowOf(3, Upstream, true), dev) == (SecondHalfAndTrap(), Done(false))
  {
    var s, req := SecondHalf(), FlowOf(3, Upstream, true);
    AddNewFlow(s, req, dev);
    assert LowestFree({}, 1, 101) == 1;
    var t := WithNewFlow(s, req, 1);
    assert t.used == {1} && t.trapped == {FlowRef(1, Upstream)} && !Datapath(req);
    assert t.cache == SecondHalfAndTrap().cache;
  }

  lemma OtherHalfFreesTrapId(dev: Device)
    requires AllSucceed(dev)
    ensures Remove(SecondHalfAndTrap(), RemovalOf(2), dev).0 == TrapWithoutBit()
  {
    var s := SecondHalfAndTrap();
    RemoveSingle(s, RemovalOf(2), dev);
    var t := Remove(s, RemovalOf(2), dev).0;
    assert t.installed == {} && t.used == {};
    assert t.cache == map[3 := CachedOn1(Upstream, 0)] && t.symmetric == map[];
  }

  /**
   * Five calls, all of them succeeding, after which the next upstream trap flow is given the id of a live one: add both
   * halves of a pair, remove the first, add a trap flow, remove the second half.
   */
  lemma LiveTrapIdIsGivenOut(dev: Device)
    requires AllSucceed(dev)
    ensures var s1 := Add(NoFlows(100), FlowOf(1, Upstream, false), dev).0;
            && SlotsExist(s1.cache, s1.symmetric, FlowOf(2, Downstream, false))
            && var s2 := Add(s1, FlowOf(2, Downstream, false), dev).0;
               var s3 := Remove(s2, RemovalOf(1), dev).0;
               && SlotsExist(s3.cache, s3.symmetric, FlowOf(3, Upstream, true))
               && var s4 := Add(s3, FlowOf(3, Upstream, true), dev).0;
                  Remove(s4, RemovalOf(2), dev).0 == TrapWithoutBit()
    ensures var next := FlowOf(4, Upstream, true);
            && FlowRef(1, Upstream) in TrapWithoutBit().trapped && 3 in TrapWithoutBit().cache
            && AllocatedIds(TrapWithoutBit(), next) == [1]
            && !PoolHidesLiveIds(TrapWithoutBit(), next)
  {
    FirstHalfInstalls(dev);
    SecondHalfInstalls(dev);
    RemovingOneHalfFreesId(dev);
    TrapTakesFreedId(dev);
    OtherHalfFreesTrapId(dev);
    var next := FlowOf(4, Upstream, true);
    OneLowestFreeId({}, 1, 101);
    assert LowestFree({}, 1, 101) == 1;
    assert AllocatedIds(TrapWithoutBit(), next) == [1];
    assert 1 in AllocatedIds(TrapWithoutBit(), next);
    NewIdsAreFreshIff(TrapWithoutBit(), next);
  }

  /** A trap flow for this flow id and direction, of the given EtherType, source port and VLAN. */
  function TrapOn(id: nat, etherType: nat, srcPort: nat, vlan: nat): A.TrapRequest {
    A.TrapRequest(A.FlowKey(id, A.Upstream), 1024, 0, 0, A.Classifier(etherType, 0, srcPort, 0, vlan))
  }

  /**
   * And that is the input on which an install breaks the counters: the two trap flows above, on the id they were both
   * given, one for EAPOL and one for DHCP.
   */
  lemma SecondInstallBreaksCounts()
    ensures var eap, dhcp := TrapOn(1, 0x888e, 0, 0), TrapOn(1, 0x0800, 68, 0);
            var s := A.Install(A.NO_ACLS, eap, true).0;
            && P.Consistent(s) && P.Clashes(s, dhcp, true)
            && !P.Consistent(A.Install(s, dhcp, true).0)
  {
    var eap, dhcp := TrapOn(1, 0x888e, 0, 0), TrapOn(1, 0x0800, 68, 0);
    EmptyAclsAreConsistent();
    P.InstallKeepsConsistent(A.NO_ACLS, eap, true);
    assert LowestFree({}, 0, A.MAX_ACL_ID) == 0;
    var s := A.Install(A.NO_ACLS, eap, true).0;
    assert s.used == {0} && eap.flow in s.flows;
    assert s.classifiers == map[A.Weight(A.FormulateKey(eap.classifier, false)) := 0];
    LowestFreeBound({0}, A.MAX_ACL_ID);
    P.InstallKeepsConsistentIff(s, dhcp, true);
  }

  lemma EmptyAclsAreConsistent()
    ensures P.Consistent(A.NO_ACLS)
  {
    P.EveryRunIsConsistent([]);
  }

  // A datapath flow of ONU id 0

  /** Added and removed again with its own identifiers, it leaves an entry under ONU id 1 that names it. */
  lemma OnuZeroLeavesEntry(dev: Device)
    requires AllSucceed(dev)
    ensures var req := AddRequest(1, 0, 0, 1, 64, Upstream, false, false, [], 1024, 0);
            var t := Remove(Add(NoFlows(100), req, dev).0, S.Repeating(1, S.IdentityOf(req)), dev).0;
            t.cache == map[] && KeyFor(Upstream) in t.symmetric && t.symmetric[KeyFor(Upstream)] == 1
  {
    var req := AddRequest(1, 0, 0, 1, 64, Upstream, false, false, [], 1024, 0);
    AddNewFlow(NoFlows(100), req, dev);
    assert LowestFree({}, 1, 101) == 1;
    var s := Add(NoFlows(100), req, dev).0;
    RemoveSingle(s, S.Repeating(1, S.IdentityOf(req)), dev);
  }

  // A counter that runs out

  ghost function IdsUpTo(n: nat): (ids: set<nat>)
    ensures forall id :: id in ids <==> 1 <= id <= n
  {
    if n == 0 then {} else IdsUpTo(n - 1) + {n}
  }

  /** The refs of ids 1 to n. */
  ghost function RefsUpTo(n: nat, t: FlowType): (refs: set<FlowRef>)
    ensures forall ref :: ref in refs <==> 1 <= ref.id <= n && ref.flowType == t
    ensures |refs| == n
  {
    if n == 0 then {} else RefsUpTo(n - 1, t) + {FlowRef(n, t)}
  }

  /** VOLTHA flow v is upstream on device flow v up to m, from there on downstream on the device flow of v - m. */
  function PairFlow(m: nat, v: nat): DeviceFlow
    requires v >= 1
  {
    if v <= m then DeviceFlow(false, Upstream, [Params(0, 1024, v)], 0)
    else DeviceFlow(false, Downstream, [Params(0, 1024, v - m)], v - m)
  }

  /** m upstream flows, and downstream flows on the same device flows for all of them but the last. */
  ghost function Pairs(m: nat): Flows
    requires m > 0
  {
    Flows(65534, IdsUpTo(m), RefsUpTo(m, Upstream) + RefsUpTo(m - 1, Downstream),
          (2 * m - 1) % 65536, {}, (map v: nat | 1 <= v < 2 * m :: PairFlow(m, v)), map[])
  }

  lemma PairsAreOwned(m: nat)
    requires m > 0
    ensures Owned(Pairs(m)) && Counted(Pairs(m)) && |Pairs(m).installed| == 2 * m - 1
  {
    var s := Pairs(m);
    PairsSize(m);
    forall id: nat
      ensures id in s.used <==> SomeFlowHas(s.cache, id)
    {
      PairsHaveIds(m, id);
    }
  }

  lemma PairsSize(m: nat)
    requires m > 0
    ensures |Pairs(m).installed| == 2 * m - 1
  {
    UnionSize(RefsUpTo(m, Upstream), RefsUpTo(m - 1, Downstream));
  }

  lemma PairsHaveIds(m: nat, id: nat)
    requires m > 0
    ensures SomeFlowHas(Pairs(m).cache, id) <==> 1 <= id <= m
  {
    var cache := Pairs(m).cache;
    if 1 <= id <= m {
      var p := Params(0, 1024, id);
      assert id in cache && p in cache[id].params && p.id == id;
    }
    if SomeFlowHas(cache, id) {
      var v :| v in cache && id in Ids(cache[v]);
      assert cache[v] == PairFlow(m, v);
    }
  }

  /** An upstream flow on two new device flows. */
  function TwoFlows(flowId: nat): AddRequest {
    AddRequest(flowId, 0, 1, 1, 64, Upstream, false, true, [PbitGem(0, 1024), PbitGem(1, 1025)], 1024, 0)
  }

  lemma PairsLeaveIds(m: nat)
    requires 0 < m < 65533
    ensures |AllocatedIds(Pairs(m), TwoFlows(2 * m))| == 2
    ensures forall id | id in AllocatedIds(Pairs(m), TwoFlows(2 * m)) :: id > m
  {
    var s := Pairs(m);
    LowestFreeIdsSound(s.used, 1, 65535, 2);
    var ids := AllocatedIds(s, TwoFlows(2 * m));
    assert ids == LowestFreeIds(s.used, 1, 65535, 2);
    assert m + 1 !in s.used && m + 2 !in s.used;
    TwoMembers(ids, m + 1, m + 2);
  }

  lemma TwoMembers(ids: seq<nat>, a: nat, b: nat)
    ensures a in ids && b in ids && a != b ==> |ids| >= 2
  {
  }

  lemma PartialHasNewIds(s: Flows, req: AddRequest, dev: Device)
    requires Allocates(s, req)
    ensures forall ref | ref in Partial(s, req, dev) :: ref.id in AllocatedIds(s, req)
  {
    var params, n := FreshParams(s, req), FirstRefused(req, dev);
    forall ref | ref in Partial(s, req, dev)
      ensures ref.id in AllocatedIds(s, req)
    {
      var p :| p in params[..n] && ref == RefOf(p, req.flowType);
      var i :| 0 <= i < n && params[..n][i] == p;
      assert params[i].id == AllocatedIds(s, req)[i];
    }
  }

  /**
   * 65535 device flows are installed and the second of two more is refused: the first brings the 16-bit counter to
   * zero, its clear succeeds, and the flow map keeps its entry all the same.
   */
  lemma CounterRunsOut(dev: Device) returns (s: Flows, req: AddRequest)
    requires dev.add(0) == AddOk && dev.add(1) == AddFails && forall j: nat :: dev.clear(j)
    ensures Owned(s) && Counted(s) && |s.installed| == 65535 && SlotsExist(s.cache, s.symmetric, req)
    ensures Add(s, req, dev).1 == Failed && Add(s, req, dev).0 != s
  {
    s, req := PairsHaveRoom(32768);
    OneAccepted(req, dev);
    FailsAtTheWrap(s, req, dev);
  }

  lemma PairsHaveRoom(m: nat) returns (s: Flows, req: AddRequest)
    requires 0 < m < 65533
    ensures Owned(s) && Counted(s) && |s.installed| == 2 * m - 1
    ensures Allocates(s, req) && !req.trap && SlotsExist(s.cache, s.symmetric, req)
    ensures |PairsOf(req)| == 2 && req.flowType != OtherType
    ensures forall ref | ref in s.installed :: ref.id !in AllocatedIds(s, req)
  {
    s, req := Pairs(m), TwoFlows(2 * m);
    PairsAreOwned(m);
    PairsLeaveIds(m);
    forall ref | ref in s.installed
      ensures ref.id !in AllocatedIds(s, req)
    {
      assert ref.id <= m;
    }
  }

  /** With 65535 entries and one new device flow accepted, the counter reads zero when the rollback starts. */
  lemma FailsAtTheWrap(s: Flows, req: AddRequest, dev: Device)
    requires Owned(s) && Counted(s) && |s.installed| == 65535
    requires Allocates(s, req) && !req.trap && SlotsExist(s.cache, s.symmetric, req)
    requires |PairsOf(req)| == 2 && FirstRefused(req, dev) == 1 && forall j: nat :: dev.clear(j)
    requires forall ref | ref in s.installed :: ref.id !in AllocatedIds(s, req)
    ensures Add(s, req, dev).1 == Failed && Add(s, req, dev).0 != s
  {
    PartialHasNewIds(s, req, dev);
    FreshAddFailsIff(s, req, dev);
    CounterDecidesRestoring(s, req, dev);
  }

  lemma OneAccepted(req: AddRequest, dev: Device)
    requires |PairsOf(req)| == 2 && req.flowType != OtherType && dev.add(0) == AddOk && dev.add(1) == AddFails
    ensures FirstRefused(req, dev) == 1
  {
  }
}
