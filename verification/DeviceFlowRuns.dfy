/** Runs of flow adds and of removals, of one flow or of a whole group of linked flows. */
module DeviceFlowRuns {
  import opened IdPools
  import opened Options
  import opened DeviceFlows
  import opened DeviceFlowProofs
  import opened FlowRemoval

  // Removing a whole group

  lemma {:induction false} RemoveFromEffect(s: Flows, params: seq<Params>, t: FlowType, dev: Device, i: nat)
    requires i <= |params| && (t == OtherType ==> params == [])
    requires forall j: nat :: dev.clear(j)
    ensures var r := RemoveFrom(s, params, t, dev, i);
            && OnlyDeviceDiffers(s.(used := r.used), r)
            && r.used == s.used - (set p | p in params[i..] :: p.id)
            && r.trapped == s.trapped - Refs(params[i..], t)
    decreases |params| - i
  {
    if i < |params| {
      var (u, ok) := RemoveDevice(s, RefOf(params[i], t), dev.clear(i));
      RemoveFromEffect(u.(used := u.used - {params[i].id}), params, t, dev, i + 1);
      assert params[i..] == [params[i]] + params[i + 1..];
    }
  }

  /** With succeeding clears a removal takes the flow, its ids and its trap flows away. */
  lemma RemoveEffect(s: Flows, req: RemoveRequest, dev: Device)
    requires req.flowId in s.cache && forall j: nat :: dev.clear(j)
    requires s.cache[req.flowId].flowType == OtherType ==> s.cache[req.flowId].params == []
    ensures var t := Remove(s, req, dev).0;
            var flow := s.cache[req.flowId];
            && t.cache == s.cache - {req.flowId}
            && t.used == s.used - Ids(flow)
            && t.trapped == s.trapped - Refs(flow.params, flow.flowType)
  {
    var flow := s.cache[req.flowId];
    RemoveFromEffect(s, flow.params, flow.flowType, dev, 0);
    assert flow.params[0..] == flow.params;
  }

  ghost function RemoveAll(s: Flows, reqs: seq<RemoveRequest>, dev: Device): Flows
    decreases |reqs|
  {
    if reqs == [] then s else RemoveAll(Remove(s, reqs[0], dev).0, reqs[1..], dev)
  }

  ghost function FlowIds(reqs: seq<RemoveRequest>): set<nat> {
    set r | r in reqs :: r.flowId
  }

  /** The requests name cached flows, each once. */
  ghost predicate NameEachOnce(s: Flows, reqs: seq<RemoveRequest>) {
    && (forall r | r in reqs :: r.flowId in s.cache)
    && (forall i, j | 0 <= i < j < |reqs| :: reqs[i].flowId != reqs[j].flowId)
  }

  /** A flow is in the group exactly when the flow it is symmetric to is. */
  ghost predicate WholeGroup(cache: map<nat, DeviceFlow>, group: set<nat>) {
    forall v {:trigger cache[v].symmetric} | v in cache && cache[v].symmetric != 0 ::
      v in group <==> cache[v].symmetric in group
  }

  ghost predicate HasIdIn(cache: map<nat, DeviceFlow>, group: set<nat>, id: nat) {
    exists v :: v in group && v in cache && id in Ids(cache[v])
  }

  ghost predicate OwnsIn(cache: map<nat, DeviceFlow>, group: set<nat>, ref: FlowRef) {
    exists v :: v in group && v in cache && cache[v].flowType == ref.flowType && ref.id in Ids(cache[v])
  }

  lemma HasIdInMore(cache: map<nat, DeviceFlow>, v: nat, rest: set<nat>, id: nat)
    requires v in cache && v !in rest
    ensures HasIdIn(cache, rest + {v}, id) <==> id in Ids(cache[v]) || HasIdIn(cache - {v}, rest, id)
  {
    if HasIdIn(cache, rest + {v}, id) {
      var w :| w in rest + {v} && w in cache && id in Ids(cache[w]);
      assert w == v || (w in rest && w in cache - {v} && id in Ids((cache - {v})[w]));
    }
    if HasIdIn(cache - {v}, rest, id) {
      var w :| w in rest && w in cache - {v} && id in Ids((cache - {v})[w]);
      assert w in rest + {v} && w in cache && id in Ids(cache[w]);
    }
    if id in Ids(cache[v]) {
      assert v in rest + {v};
    }
  }

  lemma OwnsInMore(cache: map<nat, DeviceFlow>, v: nat, rest: set<nat>, ref: FlowRef)
    requires v in cache && v !in rest
    ensures OwnsIn(cache, rest + {v}, ref)
       <==> ref in Refs(cache[v].params, cache[v].flowType) || OwnsIn(cache - {v}, rest, ref)
  {
    RefsAreIds(cache[v], ref);
    if OwnsIn(cache, rest + {v}, ref) {
      var w :| w in rest + {v} && w in cache && cache[w].flowType == ref.flowType && ref.id in Ids(cache[w]);
      assert w == v || (w in rest && w in cache - {v} && (cache - {v})[w] == cache[w]);
    }
    if OwnsIn(cache - {v}, rest, ref) {
      var w :| w in rest && w in cache - {v} && (cache - {v})[w].flowType == ref.flowType && ref.id in Ids((cache - {v})[w]);
      assert w in rest + {v} && w in cache && cache[w] == (cache - {v})[w];
    }
    if ref in Refs(cache[v].params, cache[v].flowType) {
      assert v in rest + {v};
    }
  }

  lemma {:induction false} RemoveAllEffect(s: Flows, reqs: seq<RemoveRequest>, dev: Device)
    requires forall v | v in s.cache && s.cache[v].flowType == OtherType :: s.cache[v].params == []
    requires NameEachOnce(s, reqs) && forall j: nat :: dev.clear(j)
    ensures var t := RemoveAll(s, reqs, dev);
            && t.cache == s.cache - FlowIds(reqs)
            && (forall id :: id in t.used <==> id in s.used && !HasIdIn(s.cache, FlowIds(reqs), id))
            && (forall ref :: ref in t.trapped <==> ref in s.trapped && !OwnsIn(s.cache, FlowIds(reqs), ref))
    decreases |reqs|
  {
    if reqs != [] {
      var v := reqs[0].flowId;
      assert reqs[0] in reqs;
      var rest := FlowIds(reqs[1..]);
      assert v !in rest;
      assert FlowIds(reqs) == rest + {v};
      var u := Remove(s, reqs[0], dev).0;
      RemoveEffect(s, reqs[0], dev);
      RemoveAllEffect(u, reqs[1..], dev);
      var t := RemoveAll(s, reqs, dev);
      forall id
        ensures id in t.used <==> id in s.used && !HasIdIn(s.cache, FlowIds(reqs), id)
      {
        HasIdInMore(s.cache, v, rest, id);
      }
      forall ref
        ensures ref in t.trapped <==> ref in s.trapped && !OwnsIn(s.cache, FlowIds(reqs), ref)
      {
        OwnsInMore(s.cache, v, rest, ref);
      }
    }
  }

  lemma {:induction false} ChainStaysInGroup(cache: map<nat, DeviceFlow>, group: set<nat>, v: nat, n: nat)
    requires Closed(cache) && WholeGroup(cache, group) && v in cache
    ensures Follow(cache, v, n) in group <==> v in group
    decreases n
  {
    if n != 0 && cache[v].symmetric != 0 {
      ChainStaysInGroup(cache, group, cache[v].symmetric, n - 1);
    }
  }

  lemma RootInGroup(cache: map<nat, DeviceFlow>, root: map<nat, nat>, group: set<nat>, v: nat)
    requires Rooted(cache, root) && WholeGroup(cache, group) && v in cache
    ensures root[v] in group <==> v in group
  {
    RootedIsClosed(cache, root);
    assert RootOk(cache, root, v);
    var n: nat :| Follow(cache, v, n) == root[v];
    ChainStaysInGroup(cache, group, v, n);
  }

  lemma RootedWithoutGroup(cache: map<nat, DeviceFlow>, root: map<nat, nat>, group: set<nat>)
    requires Rooted(cache, root) && WholeGroup(cache, group)
    ensures Rooted(cache - group, root - group)
  {
    var small, roots := cache - group, root - group;
    RootedIsClosed(cache, root);
    assert Closed(small);
    forall v | v in small
      ensures RootOk(small, roots, v)
    {
      assert RootOk(cache, root, v);
      RootInGroup(cache, root, group, v);
      LeadsToUnchanged(small, cache, v, root[v]);
    }
  }

  /** Ids of the group are ids of no other flow. */
  lemma GroupIdsApart(cache: map<nat, DeviceFlow>, root: map<nat, nat>, group: set<nat>, v: nat, id: nat)
    requires Rooted(cache, root) && WholeGroup(cache, group)
    requires v in cache && v !in group && id in Ids(cache[v])
    ensures !HasIdIn(cache, group, id)
  {
    if HasIdIn(cache, group, id) {
      var w :| w in group && w in cache && id in Ids(cache[w]);
      RootInGroup(cache, root, group, v);
      RootInGroup(cache, root, group, w);
      assert false;
    }
  }

  lemma RemovingWholeGroupKeepsExact(s: Flows, reqs: seq<RemoveRequest>, dev: Device)
    requires Exact(s) && NameEachOnce(s, reqs) && WholeGroup(s.cache, FlowIds(reqs))
    requires forall j: nat :: dev.clear(j)
    ensures Exact(RemoveAll(s, reqs, dev))
  {
    var group := FlowIds(reqs);
    var root :| Rooted(s.cache, root);
    var t := RemoveAll(s, reqs, dev);
    RemoveAllEffect(s, reqs, dev);
    RootedWithoutGroup(s.cache, root, group);
    assert Rooted(t.cache, root - group);
    OwnedWithoutGroup(s, t, root, group);
  }

  lemma OwnedWithoutGroup(s: Flows, t: Flows, root: map<nat, nat>, group: set<nat>)
    requires Owned(s) && Rooted(s.cache, root) && WholeGroup(s.cache, group)
    requires t.cache == s.cache - group
    requires forall id :: id in t.used <==> id in s.used && !HasIdIn(s.cache, group, id)
    requires forall ref :: ref in t.trapped <==> ref in s.trapped && !OwnsIn(s.cache, group, ref)
    ensures Owned(t)
  {
    forall id
      ensures id in t.used <==> SomeFlowHas(t.cache, id)
    {
      if id in t.used {
        assert SomeFlowHas(s.cache, id);
        var v :| v in s.cache && id in Ids(s.cache[v]);
        assert v in t.cache && id in Ids(t.cache[v]);
      }
      if SomeFlowHas(t.cache, id) {
        var v :| v in t.cache && id in Ids(t.cache[v]);
        assert v in s.cache && id in Ids(s.cache[v]);
        assert SomeFlowHas(s.cache, id);
        GroupIdsApart(s.cache, root, group, v, id);
      }
    }
    forall ref | ref in t.trapped
      ensures SomeFlowOwns(t.cache, ref)
    {
      assert SomeFlowOwns(s.cache, ref);
      var v :| v in s.cache && ref.id in Ids(s.cache[v]) && s.cache[v].flowType == ref.flowType;
      assert v in t.cache && ref.id in Ids(t.cache[v]) && t.cache[v].flowType == ref.flowType;
    }
  }

  // Runs

  datatype FlowOp =
    | AddOp(req: AddRequest, dev: Device)
    | RemoveOp(one: RemoveRequest, dev: Device)
    | RemoveGroupOp(reqs: seq<RemoveRequest>, dev: Device)

  /**
   * Adds read only existing parameter slots and do not lose a partner's id; a removal frees only what no other flow
   * has, or takes a whole group and succeeds.
   */
  ghost predicate Legal(s: Flows, op: FlowOp) {
    match op
    case AddOp(req, dev) => SlotsExist(s.cache, s.symmetric, req) && !LosesPartnerId(s, req, dev)
    case RemoveOp(one, dev) => one.flowId in s.cache ==> SafeToRemove(s, one.flowId, dev)
    case RemoveGroupOp(reqs, dev) =>
      NameEachOnce(s, reqs) && WholeGroup(s.cache, FlowIds(reqs)) && forall j: nat :: dev.clear(j)
  }

  ghost function Run(idEnd: nat, ops: seq<FlowOp>): Option<Flows> {
    if ops == [] then Some(NoFlows(idEnd))
    else
      var before := Run(idEnd, ops[..|ops| - 1]);
      var op := ops[|ops| - 1];
      if before.None? || !Legal(before.value, op) then None
      else
        Some(match op
             case AddOp(req, dev) => Add(before.value, req, dev).0
             case RemoveOp(one, dev) => Remove(before.value, one, dev).0
             case RemoveGroupOp(reqs, dev) => RemoveAll(before.value, reqs, dev))
  }

  lemma NoFlowsExact(idEnd: nat)
    ensures Exact(NoFlows(idEnd))
  {
    assert Rooted(NoFlows(idEnd).cache, map[]);
  }

  lemma {:induction false} EveryRunIsExact(idEnd: nat, ops: seq<FlowOp>)
    requires Run(idEnd, ops).Some?
    ensures Exact(Run(idEnd, ops).value)
  {
    if ops == [] {
      NoFlowsExact(idEnd);
    } else {
      var prefix := ops[..|ops| - 1];
      EveryRunIsExact(idEnd, prefix);
      match ops[|ops| - 1]
      case AddOp(req, dev) => AddKeepsExact(Run(idEnd, prefix).value, req, dev);
      case RemoveOp(one, dev) =>
        if one.flowId in Run(idEnd, prefix).value.cache {
          RemoveKeepsExactIff(Run(idEnd, prefix).value, one, dev);
        }
      case RemoveGroupOp(reqs, dev) => RemovingWholeGroupKeepsExact(Run(idEnd, prefix).value, reqs, dev);
    }
  }

  /**
   * After any run of adds, failed ones included, of removals that free no other flow's id and of removals of whole
   * groups: the set bits are exactly the ids of cached flows, and two flows share an id only if their chains of
   * symmetric flows meet.
   */
  lemma IdsAreExactAndSharedOnlyByLinkedFlows(idEnd: nat, ops: seq<FlowOp>, s: Flows)
    requires Run(idEnd, ops) == Some(s)
    ensures forall id {:trigger id in s.used} :: id in s.used <==> SomeFlowHas(s.cache, id)
    ensures forall v, w | v in s.cache && w in s.cache && !(Ids(s.cache[v]) !! Ids(s.cache[w])) :: Linked(s.cache, v, w)
  {
    EveryRunIsExact(idEnd, ops);
    var root :| Rooted(s.cache, root);
    forall v, w | v in s.cache && w in s.cache && !(Ids(s.cache[v]) !! Ids(s.cache[w]))
      ensures Linked(s.cache, v, w)
    {
      assert RootOk(s.cache, root, v) && RootOk(s.cache, root, w);
      assert root[v] == root[w];
    }
  }

  // Ids for new trap flows

  /** The add needs at least as many ids as are free below every free id that a trap flow of its type still has. */
  ghost predicate PoolHidesLiveIds(s: Flows, req: AddRequest) {
    forall ref | ref in s.trapped && ref.flowType == req.flowType && ref.id !in s.used
                 && FLOW_ID_START <= ref.id < s.idEnd + FLOW_ID_START ::
      |PairsOf(req)| <= CountFree(s.used, FLOW_ID_START, ref.id)
  }

  /**
   * The ids an add takes belong to no trap flow of its type on the device exactly when every such flow whose id is
   * marked free is hidden behind enough lower free ids.
   */
  lemma NewIdsAreFreshIff(s: Flows, req: AddRequest)
    ensures (forall id | id in AllocatedIds(s, req) :: FlowRef(id, req.flowType) !in s.trapped) <==> PoolHidesLiveIds(s, req)
  {
    var hi, n := s.idEnd + FLOW_ID_START, |PairsOf(req)|;
    forall id: nat
      ensures id in AllocatedIds(s, req) <==>
              FLOW_ID_START <= id < hi && id !in s.used && CountFree(s.used, FLOW_ID_START, id) < n
    {
      InLowestFreeIds(s.used, FLOW_ID_START, hi, n, id);
    }
    if PoolHidesLiveIds(s, req) {
      forall id | id in AllocatedIds(s, req)
        ensures FlowRef(id, req.flowType) !in s.trapped
      {
        assert FlowRef(id, req.flowType).id == id;
      }
    }
    if forall id | id in AllocatedIds(s, req) :: FlowRef(id, req.flowType) !in s.trapped {
      forall ref | ref in s.trapped && ref.flowType == req.flowType && ref.id !in s.used && FLOW_ID_START <= ref.id < hi
        ensures n <= CountFree(s.used, FLOW_ID_START, ref.id)
      {
        assert ref == FlowRef(ref.id, req.flowType);
      }
    }
  }

  /** In particular while ids are exact: no live trap flow's id is free then. */
  lemma ExactMeansFresh(s: Flows, req: AddRequest)
    requires Exact(s)
    ensures forall id | id in AllocatedIds(s, req) :: FlowRef(id, req.flowType) !in s.trapped
  {
    NewIdsAreFreshIff(s, req);
    forall ref | ref in s.trapped
      ensures ref.id in s.used
    {
      assert SomeFlowOwns(s.cache, ref);
      assert SomeFlowHas(s.cache, ref.id);
    }
  }
}
