/** What an add answers and what it leads to, on a partner's device flows or on new ones (agent/src/core_api_handler.cc). */
module FlowAdds {
  import opened IdPools
  import opened DeviceFlows
  import opened DeviceFlowProofs
  import opened FlowClearing

  // Partners

  /** A datapath flow has a subscriber and a profile, is not multicast, and does not trap. */
  lemma DatapathMeans(req: AddRequest)
    ensures Datapath(req) <==>
              && req.access >= 0 && req.onu >= 0 && req.uni >= 0 && req.techProfile > 0
              && (req.flowType == Upstream || req.flowType == Downstream || req.flowType == OtherType) && !req.trap
  {
  }

  /** Its partner is the flow recorded for the same subscriber and profile in the other direction. */
  lemma PartnerMeans(symmetric: map<SymKey, nat>, req: AddRequest, direction: FlowType)
    requires direction == if req.flowType == Upstream then Downstream else Upstream
    ensures var key := SymKey(req.access, req.onu, req.uni, req.techProfile, direction);
            PartnerOf(symmetric, req) == if Datapath(req) && key in symmetric then symmetric[key] else 0
  {
  }

  // The loop over device flows

  /** The device flows from i up to n that the device takes as new. */
  ghost function TakenIn(params: seq<Params>, req: AddRequest, dev: Device, i: nat, n: nat): set<FlowRef>
    requires n <= |params|
  {
    set j: nat | i <= j < n && ReplyFor(req, dev.add(j)) == AddOk :: FlowRef(params[j].id, req.flowType)
  }

  /** s with these device flows added, to the trap flows or to the flow map. */
  ghost function With(s: Flows, trap: bool, added: set<FlowRef>): Flows {
    if trap then s.(trapped := s.trapped + added)
    else s.(installed := s.installed + added, counter := if added == {} then s.counter else |s.installed + added| % 65536)
  }

  lemma TakenInFirst(params: seq<Params>, req: AddRequest, dev: Device, i: nat, n: nat)
    requires i < n <= |params|
    ensures TakenIn(params, req, dev, i, n)
         == (if ReplyFor(req, dev.add(i)) == AddOk then {FlowRef(params[i].id, req.flowType)} else {})
            + TakenIn(params, req, dev, i + 1, n)
  {
  }

  lemma WithTwice(s: Flows, trap: bool, a: set<FlowRef>, b: set<FlowRef>)
    ensures With(With(s, trap, a), trap, b) == With(s, trap, a + b)
  {
    if trap {
      assert s.trapped + a + b == s.trapped + (a + b);
    } else {
      assert s.installed + a + b == s.installed + (a + b);
      if b == {} {
        assert a + b == a;
      }
      if a == {} {
        assert a + b == b && s.installed + a == s.installed;
      }
    }
  }

  /** Device flow i, and then those from i + 1 up to n. */
  lemma OneMoreTakenIn(s: Flows, req: AddRequest, params: seq<Params>, dev: Device, i: nat, n: nat)
    requires i < n <= |params|
    ensures With(AddDevice(s, req, RefOf(params[i], req.flowType), dev.add(i)), req.trap, TakenIn(params, req, dev, i + 1, n))
         == With(s, req.trap, TakenIn(params, req, dev, i, n))
  {
    var first := if ReplyFor(req, dev.add(i)) == AddOk then {FlowRef(params[i].id, req.flowType)} else {};
    OneMoreWith(s, req, params[i], dev.add(i));
    TakenInFirst(params, req, dev, i, n);
    WithTwice(s, req.trap, first, TakenIn(params, req, dev, i + 1, n));
  }

  lemma NoneTakenIn(s: Flows, req: AddRequest, params: seq<Params>, dev: Device, i: nat)
    requires i <= |params|
    ensures With(s, req.trap, TakenIn(params, req, dev, i, i)) == s
  {
    assert TakenIn(params, req, dev, i, i) == {};
    WithNone(s, req.trap);
  }

  /** The loop puts just the device flows taken as new on the device. */
  lemma {:induction false} AddFromIs(s: Flows, req: AddRequest, params: seq<Params>, dev: Device, sharing: bool, i: nat)
    requires i <= |params|
    ensures var (t, n) := AddFrom(s, req, params, dev, sharing, i);
            t == With(s, req.trap, TakenIn(params, req, dev, i, n))
    decreases |params| - i
  {
    if i < |params| && Accepts(ReplyFor(req, dev.add(i)), sharing) {
      AddFromIs(AddDevice(s, req, RefOf(params[i], req.flowType), dev.add(i)), req, params, dev, sharing, i + 1);
      OneMoreTakenIn(s, req, params, dev, i, AddFrom(s, req, params, dev, sharing, i).1);
    } else {
      NoneTakenIn(s, req, params, dev, i);
    }
  }

  lemma WithNone(s: Flows, trap: bool)
    ensures With(s, trap, {}) == s
  {
    assert s.trapped + {} == s.trapped && s.installed + {} == s.installed;
  }

  lemma OneMoreWith(s: Flows, req: AddRequest, p: Params, reply: AddReply)
    ensures AddDevice(s, req, RefOf(p, req.flowType), reply)
         == With(s, req.trap, if ReplyFor(req, reply) == AddOk then {FlowRef(p.id, req.flowType)} else {})
  {
    WithNone(s, req.trap);
  }

  // Answers

  /** How many device flows the request asks for. */
  function Wanted(req: AddRequest): nat {
    if req.replicate then |req.pbitToGem| else 1
  }

  lemma {:induction false} FreeIdsSuffice(used: set<nat>, lo: nat, hi: nat, n: nat)
    requires lo <= hi
    ensures |LowestFreeIds(used, lo, hi, n)| == n <==> n <= CountFree(used, lo, hi)
    ensures |LowestFreeIds(used, lo, hi, n)| <= n
    decreases hi - lo
  {
    if lo < hi && n > 0 {
      FreeIdsSuffice(used, lo + 1, hi, if lo in used then n else n - 1);
    }
  }

  /** The device accepts every device flow of the request; when they are a partner's, having one already will do. */
  ghost predicate AllAccepted(req: AddRequest, dev: Device, sharing: bool) {
    forall j: nat {:trigger dev.add(j)} | j < Wanted(req) ::
      req.flowType != OtherType && (dev.add(j) == AddOk || (sharing && dev.add(j) == AddExists))
  }

  /** Every answer of an add, by the first check that fails. */
  lemma AddAnswers(s: Flows, req: AddRequest, dev: Device)
    requires SlotsExist(s.cache, s.symmetric, req)
    ensures var partner := PartnerOf(s.symmetric, req);
            var sharing := partner > 0 && partner in s.cache;
            Add(s, req, dev).1 ==
              if req.flowId in s.cache then AlreadyExists
              else if Wanted(req) > 8 then OutOfRange
              else if !sharing && CountFree(s.used, 1, s.idEnd + 1) < Wanted(req) then Exhausted
              else if !AllAccepted(req, dev, sharing) then Failed
              else Done(sharing && Wanted(req) > 0 && dev.add(Wanted(req) - 1) == AddExists)
    ensures Add(s, req, dev).1 == AlreadyExists || Add(s, req, dev).1 == OutOfRange || Add(s, req, dev).1 == Exhausted ==>
              Add(s, req, dev).0 == s
  {
    if req.flowId !in s.cache && Wanted(req) <= 8 {
      if Shares(s.cache, s.symmetric, req) {
        SharingAnswers(s, req, dev);
      } else {
        FreshAnswers(s, req, dev);
      }
    }
  }

  lemma AcceptedMeans(req: AddRequest, dev: Device, sharing: bool)
    ensures AllAccepted(req, dev, sharing) <==>
            forall j: nat {:trigger dev.add(j)} | j < Wanted(req) :: Accepts(ReplyFor(req, dev.add(j)), sharing)
  {
    if AllAccepted(req, dev, sharing) {
      forall j: nat {:trigger dev.add(j)} | j < Wanted(req)
        ensures Accepts(ReplyFor(req, dev.add(j)), sharing)
      {
      }
    } else {
      var j: nat :| j < Wanted(req) && !(req.flowType != OtherType && (dev.add(j) == AddOk || (sharing && dev.add(j) == AddExists)));
      assert !Accepts(ReplyFor(req, dev.add(j)), sharing);
    }
  }

  lemma SharingAnswers(s: Flows, req: AddRequest, dev: Device)
    requires Shares(s.cache, s.symmetric, req) && SlotsExist(s.cache, s.symmetric, req) && Wanted(req) <= 8
    ensures AddSharing(s, req, dev).1
         == if AllAccepted(req, dev, true) then Done(Wanted(req) > 0 && dev.add(Wanted(req) - 1) == AddExists) else Failed
  {
    AddsAllIff(s, req, SharedParams(s, req), dev, true, 0);
    AcceptedMeans(req, dev, true);
  }

  lemma FreshAnswers(s: Flows, req: AddRequest, dev: Device)
    requires Wanted(req) <= 8
    ensures AddFresh(s, req, dev).1
         == if CountFree(s.used, 1, s.idEnd + 1) < Wanted(req) then Exhausted
            else if AllAccepted(req, dev, false) then Done(false) else Failed
    ensures AddFresh(s, req, dev).1 == Exhausted ==> AddFresh(s, req, dev).0 == s
  {
    FreeIdsSuffice(s.used, 1, s.idEnd + 1, Wanted(req));
    AcceptedMeans(req, dev, false);
    var ids := AllocatedIds(s, req);
    if |ids| == Wanted(req) {
      AddsAllIff(s.(used := s.used + Elements(ids)), req, Zip(PairsOf(req), ids), dev, false, 0);
    }
  }

  // Success

  /** The map of partners after an add; an ONU id of 0 is recorded as 1. */
  function SymmetricAfter(symmetric: map<SymKey, nat>, req: AddRequest): map<SymKey, nat> {
    if Datapath(req) then
      symmetric[SymKey(req.access, if req.onu == 0 then 1 else req.onu, req.uni, req.techProfile, req.flowType) := req.flowId]
    else symmetric
  }

  /** The first n slots whose device flow the device takes as new. */
  ghost function NewOf(slots: seq<Params>, t: FlowType, dev: Device, n: nat): set<FlowRef>
    requires n <= |slots|
  {
    set j: nat | j < n && dev.add(j) == AddOk :: FlowRef(slots[j].id, t)
  }

  /**
   * A successful add on a partner's device flows uses the partner's first slots, slot for slot. Of the device flows the
   * flow map gains exactly those the device took as new; no id is taken.
   */
  lemma SharedAddIs(s: Flows, req: AddRequest, dev: Device)
    requires SlotsExist(s.cache, s.symmetric, req) && req.flowId !in s.cache
    requires PartnerOf(s.symmetric, req) > 0 && PartnerOf(s.symmetric, req) in s.cache
    requires Add(s, req, dev).1.Done?
    ensures var partner := PartnerOf(s.symmetric, req);
            var slots := s.cache[partner].params;
            && Wanted(req) <= |slots|
            && var added := NewOf(slots, req.flowType, dev, Wanted(req));
               Add(s, req, dev).0 == Flows(
                 s.idEnd, s.used, s.installed + added,
                 if added == {} then s.counter else |s.installed + added| % 65536, s.trapped,
                 s.cache[req.flowId := DeviceFlow(req.replicate, req.flowType, slots[..Wanted(req)], partner)],
                 SymmetricAfter(s.symmetric, req))
  {
    var slots := s.cache[PartnerOf(s.symmetric, req)].params;
    var params := slots[..Wanted(req)];
    assert params == SharedParams(s, req);
    AddAnswers(s, req, dev);
    AddsAllIff(s, req, params, dev, true, 0);
    AddFromIs(s, req, params, dev, true, 0);
    NewAreTaken(slots, req, dev, Wanted(req), Wanted(req));
  }

  lemma NewAreTaken(slots: seq<Params>, req: AddRequest, dev: Device, m: nat, n: nat)
    requires n <= m <= |slots| && (n > 0 ==> req.flowType != OtherType)
    ensures TakenIn(slots[..m], req, dev, 0, n) == NewOf(slots, req.flowType, dev, n)
  {
  }

  /** The pbit and GEM port of each device flow of an add on new ids. */
  function PairAt(req: AddRequest, i: nat): PbitGem
    requires i < Wanted(req)
  {
    if req.replicate then req.pbitToGem[i] else PbitGem(req.pbit, req.gem)
  }

  /**
   * A successful add on new ids takes the lowest free ones, in ascending order, one for each pair of pbit and GEM port.
   * The flow map, or for a trap flow the trap flows, gain exactly those device flows.
   */
  lemma FreshAddIs(s: Flows, req: AddRequest, dev: Device)
    requires SlotsExist(s.cache, s.symmetric, req) && req.flowId !in s.cache
    requires !(PartnerOf(s.symmetric, req) > 0 && PartnerOf(s.symmetric, req) in s.cache)
    requires Add(s, req, dev).1.Done?
    ensures var t, ids := Add(s, req, dev).0, LowestFreeIds(s.used, 1, s.idEnd + 1, Wanted(req));
            var added := set id | id in ids :: FlowRef(id, req.flowType);
            && |ids| == Wanted(req)
            && req.flowId in t.cache && |t.cache[req.flowId].params| == |ids|
            && (forall i | 0 <= i < |ids| ::
                  t.cache[req.flowId].params[i] == Params(PairAt(req, i).pbit, PairAt(req, i).gem, ids[i]))
            && t == Flows(
                 s.idEnd, s.used + Elements(ids),
                 if req.trap then s.installed else s.installed + added,
                 if req.trap || ids == [] then s.counter else |s.installed + added| % 65536,
                 if req.trap then s.trapped + added else s.trapped,
                 s.cache[req.flowId := DeviceFlow(req.replicate, req.flowType, t.cache[req.flowId].params, 0)],
                 SymmetricAfter(s.symmetric, req))
  {
    var params := FreshAddTakesIn(s, req, dev);
    AllNewAreTaken(params, req, dev, LowestFreeIds(s.used, 1, s.idEnd + 1, Wanted(req)));
  }

  lemma FreshAddTakesIn(s: Flows, req: AddRequest, dev: Device) returns (params: seq<Params>)
    requires SlotsExist(s.cache, s.symmetric, req) && req.flowId !in s.cache
    requires !(PartnerOf(s.symmetric, req) > 0 && PartnerOf(s.symmetric, req) in s.cache)
    requires Add(s, req, dev).1.Done?
    ensures AllAccepted(req, dev, false)
    ensures var ids := LowestFreeIds(s.used, 1, s.idEnd + 1, Wanted(req));
            && |params| == |ids| == Wanted(req)
            && (forall i | 0 <= i < |ids| :: params[i] == Params(PairAt(req, i).pbit, PairAt(req, i).gem, ids[i]))
            && Add(s, req, dev).0
               == With(s, req.trap, TakenIn(params, req, dev, 0, |params|)).(
                    used := s.used + Elements(ids),
                    cache := s.cache[req.flowId := DeviceFlow(req.replicate, req.flowType, params, 0)],
                    symmetric := SymmetricAfter(s.symmetric, req))
  {
    var ids := AllocatedIds(s, req);
    FreeIdsSuffice(s.used, 1, s.idEnd + 1, Wanted(req));
    AddAnswers(s, req, dev);
    params := Zip(PairsOf(req), ids);
    var u := s.(used := s.used + Elements(ids));
    AddsAllIff(u, req, params, dev, false, 0);
    AddFromIs(u, req, params, dev, false, 0);
  }

  lemma AllNewAreTaken(params: seq<Params>, req: AddRequest, dev: Device, ids: seq<nat>)
    requires |params| == |ids| == Wanted(req) && forall i | 0 <= i < |ids| :: params[i].id == ids[i]
    requires AllAccepted(req, dev, false)
    ensures TakenIn(params, req, dev, 0, |params|) == set id | id in ids :: FlowRef(id, req.flowType)
    ensures ids == [] <==> TakenIn(params, req, dev, 0, |params|) == {}
  {
    var taken := TakenIn(params, req, dev, 0, |params|);
    forall id | id in ids
      ensures FlowRef(id, req.flowType) in taken
    {
      var i: nat :| i < |ids| && ids[i] == id;
      assert dev.add(i) == AddOk;
    }
    if ids != [] {
      assert FlowRef(ids[0], req.flowType) in taken;
    }
  }

  // Failure on a partner's device flows

  /**
   * A replicated add on a partner's device flows, refused at device flow n: those before it that were new have been
   * added, and then all of those before it are removed again, last first, whether they were new or not.
   */
  lemma FailedShareIs(s: Flows, req: AddRequest, dev: Device, n: nat)
    requires SlotsExist(s.cache, s.symmetric, req) && req.flowId !in s.cache && req.replicate && Wanted(req) <= 8
    requires PartnerOf(s.symmetric, req) > 0 && PartnerOf(s.symmetric, req) in s.cache
    requires n < Wanted(req) && req.flowType != OtherType && dev.add(n) == AddFails
    requires forall j: nat | j < n :: dev.add(j) == AddOk || dev.add(j) == AddExists
    ensures var slots := s.cache[PartnerOf(s.symmetric, req)].params;
            && n < |slots|
            && var added := NewOf(slots, req.flowType, dev, n);
               var u := With(s, false, added);
               var refs, oks := Downwards(RefsOf(slots[..n], req.flowType)), Downwards(ClearsOf(dev, n));
               var gone := TakenOut(u, refs, oks);
               && |gone| <= u.counter
               && Add(s, req, dev)
                  == (u.(installed := u.installed - gone, counter := u.counter - |gone|, trapped := u.trapped - AsSet(refs)),
                      Failed)
  {
    var slots := s.cache[PartnerOf(s.symmetric, req)].params;
    var added := NewOf(slots, req.flowType, dev, n);
    var u := With(s, false, added);
    FailedShareRollsBack(s, req, dev, n);
    RollBackOfSlots(u, slots, req.flowType, dev, n);
  }

  lemma FailedShareRollsBack(s: Flows, req: AddRequest, dev: Device, n: nat)
    requires SlotsExist(s.cache, s.symmetric, req) && req.flowId !in s.cache && req.replicate && Wanted(req) <= 8
    requires PartnerOf(s.symmetric, req) > 0 && PartnerOf(s.symmetric, req) in s.cache
    requires n < Wanted(req) && req.flowType != OtherType && dev.add(n) == AddFails
    requires forall j: nat | j < n :: dev.add(j) == AddOk || dev.add(j) == AddExists
    ensures var slots := s.cache[PartnerOf(s.symmetric, req)].params;
            && n < |slots|
            && var added := NewOf(slots, req.flowType, dev, n);
               Add(s, req, dev) == (RollBack(With(s, false, added), slots, req.flowType, dev, n), Failed)
  {
    var slots := s.cache[PartnerOf(s.symmetric, req)].params;
    FailedShareUndoes(s, req, dev, n);
    AddFromIs(s, req, slots[..Wanted(req)], dev, true, 0);
    NewAreTaken(slots, req, dev, Wanted(req), n);
    var added := NewOf(slots, req.flowType, dev, n);
    RollBackPrefix(With(s, false, added), slots, Wanted(req), req.flowType, dev, n);
  }

  lemma FailedShareUndoes(s: Flows, req: AddRequest, dev: Device, n: nat)
    requires SlotsExist(s.cache, s.symmetric, req) && req.flowId !in s.cache && req.replicate && Wanted(req) <= 8
    requires PartnerOf(s.symmetric, req) > 0 && PartnerOf(s.symmetric, req) in s.cache
    requires n < Wanted(req) && req.flowType != OtherType && dev.add(n) == AddFails
    requires forall j: nat | j < n :: dev.add(j) == AddOk || dev.add(j) == AddExists
    ensures Wanted(req) <= |s.cache[PartnerOf(s.symmetric, req)].params|
    ensures var params := s.cache[PartnerOf(s.symmetric, req)].params[..Wanted(req)];
            && AddFrom(s, req, params, dev, true, 0).1 == n
            && Add(s, req, dev)
               == (RollBack(AddFrom(s, req, params, dev, true, 0).0, params, req.flowType, dev, n), Failed)
  {
    var params := s.cache[PartnerOf(s.symmetric, req)].params[..Wanted(req)];
    assert params == SharedParams(s, req);
    StopsAt(s, req, params, dev, 0, n);
  }

  lemma {:induction false} RollBackPrefix(s: Flows, params: seq<Params>, m: nat, t: FlowType, dev: Device, n: nat)
    requires n <= m <= |params|
    ensures RollBack(s, params[..m], t, dev, n) == RollBack(s, params, t, dev, n)
    decreases n
  {
    if n > 0 {
      RollBackPrefix(RemoveDevice(s, RefOf(params[n - 1], t), dev.clear(n - 1)).0, params, m, t, dev, n - 1);
    }
  }

  lemma RollBackOfSlots(u: Flows, slots: seq<Params>, t: FlowType, dev: Device, n: nat)
    requires n <= |slots| && t != OtherType
    ensures var refs, oks := Downwards(RefsOf(slots[..n], t)), Downwards(ClearsOf(dev, n));
            var gone := TakenOut(u, refs, oks);
            && |gone| <= u.counter
            && RollBack(u, slots, t, dev, n)
               == u.(installed := u.installed - gone, counter := u.counter - |gone|, trapped := u.trapped - AsSet(refs))
  {
    RollBackClears(u, slots, t, dev, n);
    ClearAllIs(u, Downwards(RefsOf(slots[..n], t)), Downwards(ClearsOf(dev, n)));
  }

  lemma {:induction false} StopsAt(s: Flows, req: AddRequest, params: seq<Params>, dev: Device, i: nat, n: nat)
    requires i <= n < |params| && req.flowType != OtherType && dev.add(n) == AddFails
    requires forall j: nat | i <= j < n :: dev.add(j) == AddOk || dev.add(j) == AddExists
    ensures AddFrom(s, req, params, dev, true, i).1 == n
    decreases n - i
  {
    if i < n {
      StopsAt(AddDevice(s, req, RefOf(params[i], req.flowType), dev.add(i)), req, params, dev, i + 1, n);
    }
  }
}
