/** Removing one flow: which device-flow ids it frees, and when that is right (agent/src/core_api_handler.cc). */
module FlowRemoval {
  import opened IdPools
  import opened DeviceFlows
  import opened DeviceFlowProofs

  /** Device flow j is removed: it is a trap flow, or its clear succeeds. */
  predicate Goes(trapped: set<FlowRef>, params: seq<Params>, t: FlowType, dev: Device, j: nat) {
    j < |params| && (RefOf(params[j], t) in trapped || dev.clear(j))
  }

  /** Some device flow from i on with this id is removed. */
  ghost predicate Frees(trapped: set<FlowRef>, params: seq<Params>, t: FlowType, dev: Device, i: nat, id: nat) {
    exists j: nat :: i <= j && Goes(trapped, params, t, dev, j) && params[j].id == id
  }

  lemma FreesFirstOrLater(trapped: set<FlowRef>, params: seq<Params>, t: FlowType, dev: Device, i: nat, id: nat)
    requires i < |params|
    ensures var ref := RefOf(params[i], t);
            Frees(trapped, params, t, dev, i, id)
            <==> (Goes(trapped, params, t, dev, i) && params[i].id == id)
                 || Frees(trapped - {ref}, params, t, dev, i + 1, id)
  {
    var left := trapped - {RefOf(params[i], t)};
    if Frees(trapped, params, t, dev, i, id) {
      var j: nat :| i <= j && Goes(trapped, params, t, dev, j) && params[j].id == id;
      assert j == i || Goes(left, params, t, dev, j) || RefOf(params[j], t) == RefOf(params[i], t);
    }
    if Frees(left, params, t, dev, i + 1, id) {
      var j: nat :| i + 1 <= j && Goes(left, params, t, dev, j) && params[j].id == id;
      assert Goes(trapped, params, t, dev, j);
    }
  }

  /** One turn of the removal loop. */
  lemma RemoveOne(s: Flows, params: seq<Params>, t: FlowType, dev: Device, i: nat) returns (v: Flows)
    requires i < |params| && t != OtherType
    ensures RemoveFrom(s, params, t, dev, i) == RemoveFrom(v, params, t, dev, i + 1)
    ensures OnlyDeviceDiffers(s.(used := v.used), v)
    ensures v.trapped == s.trapped - {RefOf(params[i], t)}
    ensures v.used == if Goes(s.trapped, params, t, dev, i) then s.used - {params[i].id} else s.used
  {
    var (u, ok) := RemoveDevice(s, RefOf(params[i], t), dev.clear(i));
    v := if ok then u.(used := u.used - {params[i].id}) else u;
  }

  /** The removal loop frees exactly the ids of the device flows that go. */
  lemma {:induction false} RemoveFromFrees(s: Flows, params: seq<Params>, t: FlowType, dev: Device, i: nat)
    requires i <= |params| && (t == OtherType ==> params == [])
    ensures var r := RemoveFrom(s, params, t, dev, i);
            && OnlyDeviceDiffers(s.(used := r.used), r)
            && (forall id :: id in r.used <==> id in s.used && !Frees(s.trapped, params, t, dev, i, id))
            && r.trapped == s.trapped - Refs(params[i..], t)
    decreases |params| - i
  {
    var r := RemoveFrom(s, params, t, dev, i);
    if i < |params| {
      var v := RemoveOne(s, params, t, dev, i);
      RemoveFromFrees(v, params, t, dev, i + 1);
      assert params[i..] == [params[i]] + params[i + 1..];
      forall id
        ensures id in r.used <==> id in s.used && !Frees(s.trapped, params, t, dev, i, id)
      {
        FreesFirstOrLater(s.trapped, params, t, dev, i, id);
      }
    }
  }

  /** Flow w leads on to flow v. */
  predicate LinksTo(cache: map<nat, DeviceFlow>, w: nat, v: nat) {
    w in cache && v != 0 && cache[w].symmetric == v
  }

  /** No other flow leads on to v, and the removal frees an id of v exactly if no other flow has it. */
  ghost predicate SafeToRemove(s: Flows, v: nat, dev: Device)
    requires v in s.cache
  {
    var flow := s.cache[v];
    && (forall w | w in s.cache && w != v :: !LinksTo(s.cache, w, v))
    && (forall id | id in Ids(flow) ::
          Frees(s.trapped, flow.params, flow.flowType, dev, 0, id) <==> !SomeFlowHas(s.cache - {v}, id))
  }

  /** What a removal does to cache, ids and trap flows. */
  ghost predicate Removed(s: Flows, t: Flows, v: nat, dev: Device)
    requires v in s.cache
  {
    var flow := s.cache[v];
    && t.cache == s.cache - {v}
    && (forall id :: id in t.used <==> id in s.used && !Frees(s.trapped, flow.params, flow.flowType, dev, 0, id))
    && t.trapped == s.trapped - Refs(flow.params, flow.flowType)
  }

  lemma RemoveRemoves(s: Flows, req: RemoveRequest, dev: Device)
    requires Owned(s) && req.flowId in s.cache
    ensures Removed(s, Remove(s, req, dev).0, req.flowId, dev)
  {
    var flow := s.cache[req.flowId];
    RemoveFromFrees(s, flow.params, flow.flowType, dev, 0);
    assert flow.params[0..] == flow.params;
  }

  lemma SomeFlowHasLess(cache: map<nat, DeviceFlow>, v: nat, id: nat)
    requires v in cache
    ensures SomeFlowHas(cache, id) <==> id in Ids(cache[v]) || SomeFlowHas(cache - {v}, id)
  {
    var rest := cache - {v};
    if SomeFlowHas(cache, id) {
      var w :| w in cache && id in Ids(cache[w]);
      assert w == v || (w in rest && id in Ids(rest[w]));
    }
    if SomeFlowHas(rest, id) {
      var w :| w in rest && id in Ids(rest[w]);
      assert w in cache && id in Ids(cache[w]);
    }
  }

  lemma RefsAreIds(flow: DeviceFlow, ref: FlowRef)
    ensures ref in Refs(flow.params, flow.flowType) <==> flow.flowType == ref.flowType && ref.id in Ids(flow)
  {
    if flow.flowType == ref.flowType && ref.id in Ids(flow) {
      var p :| p in flow.params && p.id == ref.id;
      assert RefOf(p, flow.flowType) == ref;
    }
  }

  /** Ids are right after a removal exactly if it frees the right ids. */
  lemma RemovedKeepsOwnedIff(s: Flows, t: Flows, v: nat, dev: Device)
    requires Owned(s) && v in s.cache && Removed(s, t, v, dev)
    ensures Owned(t) <==> forall id | id in Ids(s.cache[v]) ::
              Frees(s.trapped, s.cache[v].params, s.cache[v].flowType, dev, 0, id) <==> !SomeFlowHas(s.cache - {v}, id)
  {
    var flow := s.cache[v];
    forall id
      ensures id in s.used <==> id in Ids(flow) || SomeFlowHas(t.cache, id)
      ensures id !in Ids(flow) ==> !Frees(s.trapped, flow.params, flow.flowType, dev, 0, id)
    {
      SomeFlowHasLess(s.cache, v, id);
      assert id in s.used <==> SomeFlowHas(s.cache, id);
      if Frees(s.trapped, flow.params, flow.flowType, dev, 0, id) {
        var j: nat :| Goes(s.trapped, flow.params, flow.flowType, dev, j) && flow.params[j].id == id;
        assert flow.params[j] in flow.params;
      }
    }
    forall ref | ref in t.trapped
      ensures SomeFlowOwns(t.cache, ref)
    {
      assert SomeFlowOwns(s.cache, ref);
      var w :| w in s.cache && ref.id in Ids(s.cache[w]) && s.cache[w].flowType == ref.flowType;
      RefsAreIds(flow, ref);
      assert w in t.cache && ref.id in Ids(t.cache[w]) && t.cache[w].flowType == ref.flowType;
    }
  }

  /** Only a flow that leads on to v can have a chain ending at v. */
  lemma {:induction false} ChainReaches(cache: map<nat, DeviceFlow>, w: nat, n: nat, v: nat)
    requires Closed(cache) && w in cache && w != v && Follow(cache, w, n) == v
    ensures exists u :: u != v && LinksTo(cache, u, v)
    decreases n
  {
    var next := cache[w].symmetric;
    assert n > 0 && next != 0 && next in cache;
    if next == v {
      assert LinksTo(cache, w, v);
    } else {
      ChainReaches(cache, next, n - 1, v);
    }
  }

  lemma RootIsNot(cache: map<nat, DeviceFlow>, root: map<nat, nat>, v: nat, w: nat)
    requires Rooted(cache, root) && v in cache && w in cache && w != v
    requires forall u | u in cache && u != v :: !LinksTo(cache, u, v)
    ensures root[w] != v
  {
    RootedIsClosed(cache, root);
    assert RootOk(cache, root, w);
    var n: nat :| Follow(cache, w, n) == root[w];
    if root[w] == v {
      ChainReaches(cache, w, n, v);
    }
  }

  lemma RootedWithout(cache: map<nat, DeviceFlow>, root: map<nat, nat>, v: nat)
    requires Rooted(cache, root) && v in cache
    requires forall u | u in cache && u != v :: !LinksTo(cache, u, v)
    ensures Rooted(cache - {v}, root - {v})
  {
    var small, roots := cache - {v}, root - {v};
    RootedIsClosed(cache, root);
    forall w | w in small && small[w].symmetric != 0
      ensures small[w].symmetric in small
    {
      assert !LinksTo(cache, w, v);
    }
    assert Closed(small);
    forall w | w in small
      ensures RootOk(small, roots, w)
    {
      assert RootOk(cache, root, w) && !LinksTo(cache, w, v);
      RootIsNot(cache, root, v, w);
      LeadsToUnchanged(small, cache, w, root[w]);
    }
  }

  /**
   * Removing one flow, whatever the clears answer, keeps the set bits equal to the ids of cached flows and the groups
   * apart exactly when no other flow leads on to it and it frees just those of its ids that no other flow has.
   */
  lemma RemoveKeepsExactIff(s: Flows, req: RemoveRequest, dev: Device)
    requires Exact(s) && req.flowId in s.cache
    ensures Exact(Remove(s, req, dev).0) <==> SafeToRemove(s, req.flowId, dev)
  {
    var v, t := req.flowId, Remove(s, req, dev).0;
    RemoveRemoves(s, req, dev);
    RemovedKeepsOwnedIff(s, t, v, dev);
    if SafeToRemove(s, v, dev) {
      var root :| Rooted(s.cache, root);
      RootedWithout(s.cache, root, v);
      assert Rooted(t.cache, root - {v});
    }
    if Exact(t) {
      var root :| Rooted(t.cache, root);
      forall w | w in s.cache && w != v
        ensures !LinksTo(s.cache, w, v)
      {
        assert RootOk(t.cache, root, w);
      }
    }
  }

  lemma OthersHaveNoneIff(cache: map<nat, DeviceFlow>, v: nat)
    requires v in cache
    ensures (forall id | id in Ids(cache[v]) :: !SomeFlowHas(cache - {v}, id))
       <==> (forall w | w in cache && w != v :: Ids(cache[w]) !! Ids(cache[v]))
  {
    var rest := cache - {v};
    if forall id | id in Ids(cache[v]) :: !SomeFlowHas(rest, id) {
      forall w, id | w in cache && w != v && id in Ids(cache[w])
        ensures id !in Ids(cache[v])
      {
        assert w in rest && id in Ids(rest[w]);
        assert SomeFlowHas(rest, id);
      }
    }
  }

  /** With succeeding clears: exactly when no other flow has an id of it, or leads on to it. */
  lemma ClearedRemoveKeepsExactIff(s: Flows, req: RemoveRequest, dev: Device)
    requires Exact(s) && req.flowId in s.cache
    requires forall j: nat :: dev.clear(j)
    ensures Exact(Remove(s, req, dev).0) <==>
            forall w | w in s.cache && w != req.flowId ::
              Ids(s.cache[w]) !! Ids(s.cache[req.flowId]) && !LinksTo(s.cache, w, req.flowId)
  {
    var flow := s.cache[req.flowId];
    RemoveKeepsExactIff(s, req, dev);
    OthersHaveNoneIff(s.cache, req.flowId);
    forall id | id in Ids(flow)
      ensures Frees(s.trapped, flow.params, flow.flowType, dev, 0, id)
    {
      var j: nat :| j < |flow.params| && flow.params[j].id == id;
      assert Goes(s.trapped, flow.params, flow.flowType, dev, j);
    }
  }
}
