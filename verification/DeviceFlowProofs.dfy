/** What runs of flow adds and removals keep about device-flow ids. */
module DeviceFlowProofs {
  import opened IdPools
  import opened DeviceFlows

  ghost function Ids(flow: DeviceFlow): set<nat> {
    set p | p in flow.params :: p.id
  }

  /** Where the chain of symmetric flows from v has got to after n links; it ends at a flow without one. */
  ghost function Follow(cache: map<nat, DeviceFlow>, v: nat, n: nat): nat
    decreases n
  {
    if n == 0 || v !in cache || cache[v].symmetric == 0 then v else Follow(cache, cache[v].symmetric, n - 1)
  }

  ghost predicate LeadsTo(cache: map<nat, DeviceFlow>, v: nat, r: nat) {
    exists n: nat :: Follow(cache, v, n) == r
  }

  /** Two flows whose chains of symmetric flows meet in a cached flow. */
  ghost predicate Linked(cache: map<nat, DeviceFlow>, v: nat, w: nat) {
    exists r :: r in cache && LeadsTo(cache, v, r) && LeadsTo(cache, w, r)
  }

  ghost predicate SomeFlowHas(cache: map<nat, DeviceFlow>, id: nat) {
    exists v :: v in cache && id in Ids(cache[v])
  }

  ghost predicate SomeFlowOwns(cache: map<nat, DeviceFlow>, ref: FlowRef) {
    exists v :: v in cache && ref.id in Ids(cache[v]) && cache[v].flowType == ref.flowType
  }

  /** root sends flow v to the end of its chain, a flow that has all its ids. */
  ghost predicate RootOk(cache: map<nat, DeviceFlow>, root: map<nat, nat>, v: nat) {
    && v in cache && v in root && root[v] in cache && root[v] in root
    && cache[root[v]].symmetric == 0 && root[root[v]] == root[v]
    && (cache[v].symmetric != 0 ==>
          cache[v].symmetric in cache && cache[v].symmetric in root && root[cache[v].symmetric] == root[v])
    && LeadsTo(cache, v, root[v])
    && Ids(cache[v]) <= Ids(cache[root[v]])
  }

  /** Every cached flow has a root, and flows with different roots have no id in common. */
  ghost predicate Rooted(cache: map<nat, DeviceFlow>, root: map<nat, nat>) {
    && root.Keys == cache.Keys
    && (forall v {:trigger RootOk(cache, root, v)} | v in cache :: RootOk(cache, root, v))
    && (forall v, w {:trigger Ids(cache[v]), Ids(cache[w])} | v in cache && w in cache && root[v] != root[w] ::
          Ids(cache[v]) !! Ids(cache[w]))
  }

  /** Set bits are the ids of cached flows, and every trap flow on the device belongs to a cached one. */
  ghost predicate Owned(s: Flows) {
    && (forall id {:trigger SomeFlowHas(s.cache, id)} :: id in s.used <==> SomeFlowHas(s.cache, id))
    && (forall ref {:trigger SomeFlowOwns(s.cache, ref)} | ref in s.trapped :: SomeFlowOwns(s.cache, ref))
    && (forall v | v in s.cache && s.cache[v].flowType == OtherType :: s.cache[v].params == [])
  }

  ghost predicate Exact(s: Flows) {
    Owned(s) && exists root :: Rooted(s.cache, root)
  }

  // What the loops leave alone

  /** Only the device side and the trap flows may differ, and trap flows only by these. */
  ghost predicate OnlyDeviceDiffers(s: Flows, t: Flows) {
    t.(installed := s.installed, counter := s.counter, trapped := s.trapped) == s
  }

  ghost function Refs(params: seq<Params>, t: FlowType): set<FlowRef> {
    set p | p in params :: RefOf(p, t)
  }

  lemma {:induction false} AddFromFrame(s: Flows, req: AddRequest, params: seq<Params>, dev: Device, sharing: bool, i: nat)
    requires i <= |params|
    ensures var (t, n) := AddFrom(s, req, params, dev, sharing, i);
            && OnlyDeviceDiffers(s, t)
            && t.trapped <= s.trapped + (if req.trap then Refs(params[i..n], req.flowType) else {})
            && (n == |params| && i < n ==> req.flowType != OtherType)
    decreases |params| - i
  {
    if i < |params| && Accepts(ReplyFor(req, dev.add(i)), sharing) {
      var u := AddDevice(s, req, RefOf(params[i], req.flowType), dev.add(i));
      AddFromFrame(u, req, params, dev, sharing, i + 1);
      var n := AddFrom(s, req, params, dev, sharing, i).1;
      assert params[i..n] == [params[i]] + params[i + 1..n];
    }
  }

  lemma {:induction false} RollBackFrame(s: Flows, params: seq<Params>, t: FlowType, dev: Device, n: nat)
    requires n <= |params|
    ensures var r := RollBack(s, params, t, dev, n);
            && OnlyDeviceDiffers(s, r)
            && r.trapped == if t == OtherType then s.trapped else s.trapped - Refs(params[..n], t)
    decreases n
  {
    if n > 0 {
      var u := RemoveDevice(s, RefOf(params[n - 1], t), dev.clear(n - 1)).0;
      RollBackFrame(u, params, t, dev, n - 1);
      assert params[..n] == params[..n - 1] + [params[n - 1]];
    }
  }

  // Adding

  /** The add is not replicated, works on a partner's id and is refused by the device: the partner's id is freed. */
  predicate LosesPartnerId(s: Flows, req: AddRequest, dev: Device) {
    && req.flowId !in s.cache && Shares(s.cache, s.symmetric, req) && !req.replicate
    && !Accepts(ReplyFor(req, dev.add(0)), true)
  }

  lemma LosingPartnerIdFreesIt(s: Flows, req: AddRequest, dev: Device)
    requires SlotsExist(s.cache, s.symmetric, req) && LosesPartnerId(s, req, dev)
    ensures Add(s, req, dev) == (s.(used := s.used - {s.cache[PartnerOf(s.symmetric, req)].params[0].id}), Failed)
  {
  }

  /** Every way an add can end, as far as ids, cache and trap flows go. */
  datatype Effect =
    | NoEffect
    | SharesPartner(params: seq<Params>)
    | TakesIds(params: seq<Params>)

  ghost predicate HasEffect(s: Flows, t: Flows, req: AddRequest, e: Effect) {
    match e
    case NoEffect => t.cache == s.cache && t.used == s.used && t.symmetric == s.symmetric && t.trapped <= s.trapped
    case SharesPartner(params) =>
      var partner := PartnerOf(s.symmetric, req);
      && req.flowId !in s.cache && partner != 0 && partner in s.cache && !req.trap
      && (forall p | p in params :: p in s.cache[partner].params)
      && t.cache == s.cache[req.flowId := DeviceFlow(req.replicate, req.flowType, params, partner)]
      && t.used == s.used && t.trapped <= s.trapped
      && (params != [] ==> req.flowType != OtherType)
    case TakesIds(params) =>
      && req.flowId !in s.cache
      && (forall p | p in params :: p.id !in s.used)
      && t.cache == s.cache[req.flowId := DeviceFlow(req.replicate, req.flowType, params, 0)]
      && t.used == s.used + (set p | p in params :: p.id)
      && t.trapped <= s.trapped + Refs(params, req.flowType)
      && (params != [] ==> req.flowType != OtherType)
  }

  lemma ZipIds(pairs: seq<PbitGem>, ids: seq<nat>)
    requires |pairs| == |ids|
    ensures (set p | p in Zip(pairs, ids) :: p.id) == Elements(ids)
  {
    var params := Zip(pairs, ids);
    forall id | id in ids
      ensures id in (set p | p in params :: p.id)
    {
      var i :| 0 <= i < |ids| && ids[i] == id;
      assert params[i] in params && params[i].id == id;
    }
  }

  lemma AddFreshEffect(s: Flows, req: AddRequest, dev: Device) returns (e: Effect)
    requires req.flowId !in s.cache
    ensures HasEffect(s, AddFresh(s, req, dev).0, req, e)
    ensures AddFresh(s, req, dev).1.Done? <==> !e.NoEffect?
    ensures AddFresh(s, req, dev).0.symmetric == s.symmetric
  {
    var ids := AllocatedIds(s, req);
    var pairs := PairsOf(req);
    e := NoEffect;
    if |pairs| <= NUMBER_OF_PBITS && |ids| == |pairs| {
      LowestFreeIdsSound(s.used, FLOW_ID_START, s.idEnd + FLOW_ID_START, |pairs|);
      var params := Zip(pairs, ids);
      ZipIds(pairs, ids);
      var u := s.(used := s.used + Elements(ids));
      AddFromFrame(u, req, params, dev, false, 0);
      var (t, n) := AddFrom(u, req, params, dev, false, 0);
      assert params[0..n] == params[..n];
      if n == |params| {
        assert params[..n] == params;
        e := TakesIds(params);
      } else {
        RollBackFrame(t, params, req.flowType, dev, n);
        FailedTypeAddsNothing(u, req, params, dev, false);
        assert s.used + Elements(ids) - Elements(ids) == s.used;
      }
    }
  }

  lemma FailedTypeAddsNothing(s: Flows, req: AddRequest, params: seq<Params>, dev: Device, sharing: bool)
    ensures req.flowType == OtherType ==> AddFrom(s, req, params, dev, sharing, 0) == (s, 0)
  {
  }

  lemma AddSharingEffect(s: Flows, req: AddRequest, dev: Device) returns (e: Effect)
    requires req.flowId !in s.cache
    requires Shares(s.cache, s.symmetric, req) && SlotsExist(s.cache, s.symmetric, req)
    requires !req.replicate ==> AddSharing(s, req, dev).1 != Failed
    ensures HasEffect(s, AddSharing(s, req, dev).0, req, e)
    ensures AddSharing(s, req, dev).1.Done? <==> !e.NoEffect?
    ensures AddSharing(s, req, dev).0.symmetric == s.symmetric
  {
    e := NoEffect;
    if !(req.replicate && |req.pbitToGem| > NUMBER_OF_PBITS) {
      var params := SharedParams(s, req);
      AddFromFrame(s, req, params, dev, true, 0);
      var (t, n) := AddFrom(s, req, params, dev, true, 0);
      if n == |params| {
        e := SharesPartner(params);
      } else {
        RollBackFrame(t, params, req.flowType, dev, n);
      }
    }
  }

  lemma AddEffect(s: Flows, req: AddRequest, dev: Device) returns (e: Effect)
    requires SlotsExist(s.cache, s.symmetric, req) && !LosesPartnerId(s, req, dev)
    ensures var t := Add(s, req, dev).0;
            HasEffect(s, t.(symmetric := s.symmetric), req, e)
    ensures Add(s, req, dev).1.Done? <==> !e.NoEffect?
    ensures Add(s, req, dev).0.symmetric
         == if e.NoEffect? || !Datapath(req) then s.symmetric else s.symmetric[SymKeyOf(req) := req.flowId]
  {
    if req.flowId in s.cache {
      e := NoEffect;
    } else if Shares(s.cache, s.symmetric, req) {
      e := AddSharingEffect(s, req, dev);
    } else {
      e := AddFreshEffect(s, req, dev);
    }
  }

  /** Every link leads to a cached flow. */
  ghost predicate Closed(cache: map<nat, DeviceFlow>) {
    forall v {:trigger cache[v].symmetric} | v in cache && cache[v].symmetric != 0 :: cache[v].symmetric in cache
  }

  lemma {:induction false} FollowUnchanged(small: map<nat, DeviceFlow>, large: map<nat, DeviceFlow>, v: nat, n: nat)
    requires Closed(small) && v in small
    requires forall w | w in small :: w in large && large[w] == small[w]
    ensures Follow(large, v, n) == Follow(small, v, n)
    decreases n
  {
    if n != 0 && small[v].symmetric != 0 {
      FollowUnchanged(small, large, small[v].symmetric, n - 1);
    }
  }

  lemma LeadsToUnchanged(small: map<nat, DeviceFlow>, large: map<nat, DeviceFlow>, v: nat, r: nat)
    requires Closed(small) && v in small
    requires forall w | w in small :: w in large && large[w] == small[w]
    ensures LeadsTo(large, v, r) <==> LeadsTo(small, v, r)
  {
    forall n: nat
      ensures Follow(large, v, n) == Follow(small, v, n)
    {
      FollowUnchanged(small, large, v, n);
    }
  }

  lemma IdsAreOwned(s: Flows, v: nat)
    requires Owned(s) && v in s.cache
    ensures Ids(s.cache[v]) <= s.used
  {
    forall id | id in Ids(s.cache[v])
      ensures id in s.used
    {
      assert SomeFlowHas(s.cache, id);
    }
  }

  lemma LinkOneMore(cache: map<nat, DeviceFlow>, v: nat, r: nat)
    requires v in cache && cache[v].symmetric != 0 && LeadsTo(cache, cache[v].symmetric, r)
    ensures LeadsTo(cache, v, r)
  {
    var n: nat :| Follow(cache, cache[v].symmetric, n) == r;
    var m := n + 1;
    assert Follow(cache, v, m) == r;
  }

  lemma RootedIsClosed(cache: map<nat, DeviceFlow>, root: map<nat, nat>)
    requires Rooted(cache, root)
    ensures Closed(cache)
  {
    forall v | v in cache && cache[v].symmetric != 0
      ensures cache[v].symmetric in cache
    {
      assert RootOk(cache, root, v);
    }
  }

  /** Adding a flow does not disturb the root of another. */
  lemma RootOkSurvives(cache: map<nat, DeviceFlow>, v: nat, flow: DeviceFlow, root: map<nat, nat>, r: nat, w: nat)
    requires Rooted(cache, root) && v !in cache && w in cache
    ensures RootOk(cache[v := flow], root[v := r], w)
  {
    RootedIsClosed(cache, root);
    assert RootOk(cache, root, w);
    LeadsToUnchanged(cache, cache[v := flow], w, root[w]);
  }

  lemma TakingIdsKeepsRooted(s: Flows, v: nat, flow: DeviceFlow, root: map<nat, nat>)
    requires Owned(s) && Rooted(s.cache, root)
    requires v !in s.cache
    requires flow.symmetric == 0 && Ids(flow) !! s.used
    ensures Rooted(s.cache[v := flow], root[v := v])
  {
    var larger, grown := s.cache[v := flow], root[v := v];
    forall w | w in larger
      ensures RootOk(larger, grown, w)
      ensures w != v ==> Ids(larger[w]) <= s.used
    {
      if w == v {
        assert Follow(larger, v, 0) == v;
      } else {
        RootOkSurvives(s.cache, v, flow, root, v, w);
        IdsAreOwned(s, w);
      }
    }
  }

  lemma SharingKeepsRooted(cache: map<nat, DeviceFlow>, v: nat, flow: DeviceFlow, root: map<nat, nat>)
    requires Rooted(cache, root)
    requires v !in cache && flow.symmetric != 0 && flow.symmetric in cache
    requires Ids(flow) <= Ids(cache[flow.symmetric])
    ensures Rooted(cache[v := flow], root[v := root[flow.symmetric]])
  {
    var partner := flow.symmetric;
    var r := root[partner];
    var larger, grown := cache[v := flow], root[v := r];
    RootOkSurvives(cache, v, flow, root, r, partner);
    assert RootOk(larger, grown, partner);
    LinkOneMore(larger, v, r);
    assert RootOk(larger, grown, v);
    forall w | w in larger
      ensures RootOk(larger, grown, w)
    {
      if w != v {
        RootOkSurvives(cache, v, flow, root, r, w);
      }
    }
    forall w | w in cache && root[w] != r
      ensures Ids(flow) !! Ids(cache[w])
    {
      assert Ids(cache[partner]) !! Ids(cache[w]);
    }
  }

  lemma SomeFlowHasMore(cache: map<nat, DeviceFlow>, v: nat, flow: DeviceFlow, id: nat)
    requires v !in cache
    ensures SomeFlowHas(cache[v := flow], id) <==> SomeFlowHas(cache, id) || id in Ids(flow)
  {
    var larger := cache[v := flow];
    if SomeFlowHas(cache, id) {
      var w :| w in cache && id in Ids(cache[w]);
      assert w in larger && id in Ids(larger[w]);
    }
    if id in Ids(flow) {
      assert v in larger && id in Ids(larger[v]);
    }
  }

  lemma SomeFlowOwnsMore(cache: map<nat, DeviceFlow>, v: nat, flow: DeviceFlow, ref: FlowRef)
    requires v !in cache
    requires SomeFlowOwns(cache, ref) || (ref.id in Ids(flow) && flow.flowType == ref.flowType)
    ensures SomeFlowOwns(cache[v := flow], ref)
  {
    var larger := cache[v := flow];
    if SomeFlowOwns(cache, ref) {
      var w :| w in cache && ref.id in Ids(cache[w]) && cache[w].flowType == ref.flowType;
      assert w in larger && ref.id in Ids(larger[w]) && larger[w].flowType == ref.flowType;
    } else {
      assert v in larger && ref.id in Ids(larger[v]) && larger[v].flowType == ref.flowType;
    }
  }

  lemma EffectKeepsOwned(s: Flows, t: Flows, req: AddRequest, e: Effect)
    requires Owned(s) && HasEffect(s, t, req, e)
    ensures Owned(t)
  {
    if !e.NoEffect? {
      var flow := t.cache[req.flowId];
      forall id
        ensures id in t.used <==> SomeFlowHas(t.cache, id)
      {
        SomeFlowHasMore(s.cache, req.flowId, flow, id);
        if e.SharesPartner? && id in Ids(flow) {
          assert SomeFlowHas(s.cache, id);
        }
      }
      forall ref | ref in t.trapped
        ensures SomeFlowOwns(t.cache, ref)
      {
        SomeFlowOwnsMore(s.cache, req.flowId, flow, ref);
      }
    }
  }

  lemma EffectKeepsExact(s: Flows, t: Flows, req: AddRequest, e: Effect)
    requires Exact(s) && HasEffect(s, t, req, e)
    ensures Exact(t)
  {
    EffectKeepsOwned(s, t, req, e);
    var root :| Rooted(s.cache, root);
    match e
    case NoEffect =>
    case SharesPartner(params) =>
      var flow := t.cache[req.flowId];
      SharingKeepsRooted(s.cache, req.flowId, flow, root);
      assert Rooted(t.cache, root[req.flowId := root[flow.symmetric]]);
    case TakesIds(params) =>
      TakingIdsKeepsRooted(s, req.flowId, t.cache[req.flowId], root);
      assert Rooted(t.cache, root[req.flowId := req.flowId]);
  }

  lemma AddKeepsExact(s: Flows, req: AddRequest, dev: Device)
    requires Exact(s) && SlotsExist(s.cache, s.symmetric, req) && !LosesPartnerId(s, req, dev)
    ensures Exact(Add(s, req, dev).0)
  {
    var e := AddEffect(s, req, dev);
    var t := Add(s, req, dev).0;
    var u := t.(symmetric := s.symmetric);
    EffectKeepsExact(s, u, req, e);
    var root :| Rooted(u.cache, root);
    assert Rooted(t.cache, root);
  }

  lemma LosingPartnerIdBreaksExact(s: Flows, req: AddRequest, dev: Device)
    requires Exact(s) && SlotsExist(s.cache, s.symmetric, req) && LosesPartnerId(s, req, dev)
    ensures !Exact(Add(s, req, dev).0)
  {
    var t := Add(s, req, dev).0;
    var partner := PartnerOf(s.symmetric, req);
    var p := s.cache[partner].params[0];
    LosingPartnerIdFreesIt(s, req, dev);
    assert p in t.cache[partner].params && p.id in Ids(t.cache[partner]);
    assert SomeFlowHas(t.cache, p.id);
    assert p.id !in t.used;
  }

  /**
   * An add, whatever the device answers, keeps the set bits equal to the ids of cached flows and the groups apart
   * exactly when it is not a failed, unreplicated add on an installed partner.
   */
  lemma AddKeepsExactIff(s: Flows, req: AddRequest, dev: Device)
    requires Exact(s) && SlotsExist(s.cache, s.symmetric, req)
    ensures Exact(Add(s, req, dev).0) <==> !LosesPartnerId(s, req, dev)
  {
    if LosesPartnerId(s, req, dev) {
      LosingPartnerIdBreaksExact(s, req, dev);
    } else {
      AddKeepsExact(s, req, dev);
    }
  }

  // What an add answers

  lemma {:induction false} AddsAllIff(s: Flows, req: AddRequest, params: seq<Params>, dev: Device, sharing: bool, i: nat)
    requires i <= |params|
    ensures AddFrom(s, req, params, dev, sharing, i).1 == |params|
       <==> forall j: nat {:trigger dev.add(j)} | i <= j < |params| :: Accepts(ReplyFor(req, dev.add(j)), sharing)
    decreases |params| - i
  {
    if i < |params| && Accepts(ReplyFor(req, dev.add(i)), sharing) {
      AddsAllIff(AddDevice(s, req, RefOf(params[i], req.flowType), dev.add(i)), req, params, dev, sharing, i + 1);
    }
  }

  /**
   * An add caches its flow and yet answers ALREADY_EXISTS exactly when it works on a partner, the device accepts all its
   * device flows, and the last of them because it has it already.
   */
  lemma AnswersExistsThoughAddedIff(s: Flows, req: AddRequest, dev: Device)
    requires SlotsExist(s.cache, s.symmetric, req)
    ensures var n := |PairsOf(req)|;
            Add(s, req, dev).1.Done? && Answer(Add(s, req, dev).1) == AlreadyExists <==>
              && req.flowId !in s.cache && Shares(s.cache, s.symmetric, req) && 0 < n <= NUMBER_OF_PBITS
              && (forall j: nat {:trigger dev.add(j)} | j < n :: Accepts(ReplyFor(req, dev.add(j)), true))
              && ReplyFor(req, dev.add(n - 1)) == AddExists
  {
    if req.flowId !in s.cache && Shares(s.cache, s.symmetric, req) && |PairsOf(req)| <= NUMBER_OF_PBITS {
      AddsAllIff(s, req, SharedParams(s, req), dev, true, 0);
    }
  }
}
