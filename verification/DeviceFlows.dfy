/**
 * Device-flow ids behind VOLTHA flows: allocation, replication, symmetric sharing (agent/src/core_api_handler.cc,
 * agent/src/core_utils.cc).
 */
module DeviceFlows {
  import opened IdPools

  const NUMBER_OF_PBITS: nat := 8
  const FLOW_ID_START: nat := 1

  /** OtherType stands for any string that names no flow type. */
  datatype FlowType = Upstream | Downstream | Multicast | OtherType

  /** A flow as the device knows it. */
  datatype FlowRef = FlowRef(id: nat, flowType: FlowType)

  datatype Params = Params(pbit: nat, gem: int, id: nat)

  /** A cached VOLTHA flow; symmetric 0 means none. */
  datatype DeviceFlow = DeviceFlow(replicated: bool, flowType: FlowType, params: seq<Params>, symmetric: nat)

  datatype SymKey = SymKey(access: int, onu: int, uni: int, techProfile: nat, flowType: FlowType)

  datatype PbitGem = PbitGem(pbit: nat, gem: int)

  datatype AddRequest = AddRequest(
    flowId: nat, access: int, onu: int, uni: int, techProfile: nat, flowType: FlowType, trap: bool,
    replicate: bool, pbitToGem: seq<PbitGem>, gem: int, pbit: nat)

  datatype RemoveRequest = RemoveRequest(flowId: nat, access: int, onu: int, uni: int, techProfile: nat)

  datatype AddReply = AddOk | AddExists | AddFails

  /** Replies to the i-th device flow added, and to clearing the i-th device flow. */
  datatype Device = Device(add: nat -> AddReply, clear: nat -> bool)

  /** How a call ends; existed tells that the device knew the last device flow it was asked to add. */
  datatype Status = Done(existed: bool) | AlreadyExists | OutOfRange | Exhausted | Failed | NotFound

  /** What the caller is told: a flow whose last device flow existed is reported like one that is already installed. */
  function Answer(status: Status): Status {
    if status == Done(true) then AlreadyExists else status
  }

  /**
   * idEnd is FLOW_ID_END. installed holds the keys of flow_map and counter its 16-bit size; trapped holds the keys
   * of the trap flows' ACL map.
   */
  datatype Flows = Flows(
    idEnd: nat,
    used: set<nat>,
    installed: set<FlowRef>,
    counter: nat,
    trapped: set<FlowRef>,
    cache: map<nat, DeviceFlow>,
    symmetric: map<SymKey, nat>)

  ghost function NoFlows(idEnd: nat): Flows {
    Flows(idEnd, {}, {}, 0, {}, map[], map[])
  }

  predicate Datapath(req: AddRequest) {
    && req.access >= 0 && req.onu >= 0 && req.uni >= 0 && req.techProfile > 0
    && req.flowType != Multicast && !req.trap
  }

  function Inverse(t: FlowType): FlowType {
    if t == Upstream then Downstream else Upstream
  }

  /** The flow installed in the other direction for the same subscriber and profile, 0 if none. */
  function PartnerOf(symmetric: map<SymKey, nat>, req: AddRequest): nat {
    var key := SymKey(req.access, req.onu, req.uni, req.techProfile, Inverse(req.flowType));
    if Datapath(req) && key in symmetric then symmetric[key] else 0
  }

  /** The add uses the device flow ids of an installed partner. */
  predicate Shares(cache: map<nat, DeviceFlow>, symmetric: map<SymKey, nat>, req: AddRequest) {
    PartnerOf(symmetric, req) > 0 && PartnerOf(symmetric, req) in cache
  }

  /** The partner has every parameter slot the add reads. */
  predicate SlotsExist(cache: map<nat, DeviceFlow>, symmetric: map<SymKey, nat>, req: AddRequest) {
    Shares(cache, symmetric, req) ==>
      var slots := |cache[PartnerOf(symmetric, req)].params|;
      if req.replicate then |req.pbitToGem| <= NUMBER_OF_PBITS ==> |req.pbitToGem| <= slots else slots >= 1
  }

  function RefOf(p: Params, t: FlowType): FlowRef {
    FlowRef(p.id, t)
  }

  // The device

  function ReplyFor(req: AddRequest, reply: AddReply): AddReply {
    if req.flowType == OtherType then AddFails else reply
  }

  /** FlowAdd_: a trap flow goes to the ACLs, any other flow to flow_map. */
  function AddDevice(s: Flows, req: AddRequest, ref: FlowRef, reply: AddReply): Flows {
    if ReplyFor(req, reply) != AddOk then s
    else if req.trap then s.(trapped := s.trapped + {ref})
    else s.(installed := s.installed + {ref}, counter := |s.installed + {ref}| % 65536)
  }

  /** FlowRemove_: the flow map is only searched while the counter is not zero. */
  function RemoveDevice(s: Flows, ref: FlowRef, ok: bool): (Flows, bool) {
    if ref.flowType == OtherType then (s, false)
    else if ref in s.trapped then (s.(trapped := s.trapped - {ref}), true)
    else if !ok then (s, false)
    else if s.counter != 0 && ref in s.installed then
      (s.(installed := s.installed - {ref}, counter := s.counter - 1), true)
    else (s, true)
  }

  // Adding

  predicate Accepts(reply: AddReply, sharing: bool) {
    reply == AddOk || (sharing && reply == AddExists)
  }

  /** Adds device flows from index i on; answers the index of the first that fails, or their number. */
  ghost function AddFrom(s: Flows, req: AddRequest, params: seq<Params>, dev: Device, sharing: bool, i: nat): (r: (Flows, nat))
    requires i <= |params|
    ensures i <= r.1 <= |params|
    decreases |params| - i
  {
    if i == |params| then (s, i)
    else if Accepts(ReplyFor(req, dev.add(i)), sharing) then
      AddFrom(AddDevice(s, req, RefOf(params[i], req.flowType), dev.add(i)), req, params, dev, sharing, i + 1)
    else (s, i)
  }

  predicate LastExisted(req: AddRequest, dev: Device, n: nat) {
    n > 0 && ReplyFor(req, dev.add(n - 1)) == AddExists
  }

  /** Removes the first n device flows, last first. */
  ghost function RollBack(s: Flows, params: seq<Params>, t: FlowType, dev: Device, n: nat): Flows
    requires n <= |params|
    decreases n
  {
    if n == 0 then s
    else RollBack(RemoveDevice(s, RefOf(params[n - 1], t), dev.clear(n - 1)).0, params, t, dev, n - 1)
  }

  function Cached(s: Flows, req: AddRequest, params: seq<Params>, partner: nat): Flows {
    s.(cache := s.cache[req.flowId := DeviceFlow(req.replicate, req.flowType, params, partner)])
  }

  function Zip(pairs: seq<PbitGem>, ids: seq<nat>): (params: seq<Params>)
    requires |pairs| == |ids|
    ensures |params| == |ids|
    ensures forall i | 0 <= i < |ids| :: params[i] == Params(pairs[i].pbit, pairs[i].gem, ids[i])
  {
    seq(|ids|, i requires 0 <= i < |ids| => Params(pairs[i].pbit, pairs[i].gem, ids[i]))
  }

  /** The device flows that an add on an installed partner uses. */
  function SharedParams(s: Flows, req: AddRequest): seq<Params>
    requires Shares(s.cache, s.symmetric, req) && SlotsExist(s.cache, s.symmetric, req)
    requires req.replicate ==> |req.pbitToGem| <= NUMBER_OF_PBITS
  {
    var params := s.cache[PartnerOf(s.symmetric, req)].params;
    if req.replicate then params[..|req.pbitToGem|] else params[..1]
  }

  ghost function AddSharing(s: Flows, req: AddRequest, dev: Device): (Flows, Status)
    requires Shares(s.cache, s.symmetric, req) && SlotsExist(s.cache, s.symmetric, req)
  {
    if req.replicate && |req.pbitToGem| > NUMBER_OF_PBITS then (s, OutOfRange)
    else
      var params := SharedParams(s, req);
      var (t, n) := AddFrom(s, req, params, dev, true, 0);
      if n == |params| then (Cached(t, req, params, PartnerOf(s.symmetric, req)), Done(LastExisted(req, dev, n)))
      else if req.replicate then (RollBack(t, params, req.flowType, dev, n), Failed)
      // A failed add that is not replicated frees the id although the partner still uses it.
      else (t.(used := t.used - {params[0].id}), Failed)
  }

  ghost function AllocatedIds(s: Flows, req: AddRequest): seq<nat> {
    LowestFreeIds(s.used, FLOW_ID_START, s.idEnd + FLOW_ID_START, if req.replicate then |req.pbitToGem| else 1)
  }

  function PairsOf(req: AddRequest): seq<PbitGem> {
    if req.replicate then req.pbitToGem else [PbitGem(req.pbit, req.gem)]
  }

  ghost function AddFresh(s: Flows, req: AddRequest, dev: Device): (Flows, Status) {
    if |PairsOf(req)| > NUMBER_OF_PBITS then (s, OutOfRange)
    else
      var ids := AllocatedIds(s, req);
      if |ids| != |PairsOf(req)| then (s, Exhausted)
      else
        var params := Zip(PairsOf(req), ids);
        var (t, n) := AddFrom(s.(used := s.used + Elements(ids)), req, params, dev, false, 0);
        if n == |params| then (Cached(t, req, params, 0), Done(false))
        else
          var u := RollBack(t, params, req.flowType, dev, n);
          (u.(used := u.used - Elements(ids)), Failed)
  }

  /** The entry a datapath flow leaves behind for its partner; an ONU id of 0 is recorded as 1. */
  function SymKeyOf(req: AddRequest): SymKey {
    SymKey(req.access, if req.onu < 1 then 1 else req.onu, req.uni, req.techProfile, req.flowType)
  }

  ghost function Add(s: Flows, req: AddRequest, dev: Device): (Flows, Status)
    requires SlotsExist(s.cache, s.symmetric, req)
  {
    if req.flowId in s.cache then (s, AlreadyExists)
    else
      var (t, status) :=
        if Shares(s.cache, s.symmetric, req) then AddSharing(s, req, dev) else AddFresh(s, req, dev);
      if status.Done? && Datapath(req) then (t.(symmetric := t.symmetric[SymKeyOf(req) := req.flowId]), status)
      else (t, status)
  }

  // Removing

  ghost function RemoveFrom(s: Flows, params: seq<Params>, t: FlowType, dev: Device, i: nat): Flows
    requires i <= |params|
    decreases |params| - i
  {
    if i == |params| then s
    else
      var (u, ok) := RemoveDevice(s, RefOf(params[i], t), dev.clear(i));
      RemoveFrom(if ok then u.(used := u.used - {params[i].id}) else u, params, t, dev, i + 1)
  }

  function KeyOf(req: RemoveRequest, t: FlowType): SymKey {
    SymKey(req.access, req.onu, req.uni, req.techProfile, t)
  }

  ghost function Remove(s: Flows, req: RemoveRequest, dev: Device): (Flows, Status) {
    if req.flowId !in s.cache then (s, NotFound)
    else
      var flow := s.cache[req.flowId];
      var t := RemoveFrom(s, flow.params, flow.flowType, dev, 0);
      (t.(cache := t.cache - {req.flowId}, symmetric := t.symmetric - {KeyOf(req, flow.flowType)}), Done(false))
  }

  class FlowManager {
    const idEnd: nat
    const bits: array<bool>
    var installed: set<FlowRef>
    var counter: nat
    var trapped: set<FlowRef>
    var cache: map<nat, DeviceFlow>
    var symmetric: map<SymKey, nat>

    ghost predicate Valid()
      reads this
    {
      bits.Length == idEnd + FLOW_ID_START
    }

    ghost function Model(): Flows
      reads this, bits
    {
      Flows(idEnd, SetBits(bits[..]), installed, counter, trapped, cache, symmetric)
    }

    constructor (idEnd: nat)
      requires FLOW_ID_START <= idEnd < 65535
      ensures Valid() && fresh(bits) && Model() == NoFlows(idEnd)
    {
      this.idEnd := idEnd;
      bits := new bool[idEnd + FLOW_ID_START](_ => false);
      installed, counter, trapped, cache, symmetric := {}, 0, {}, map[], map[];
    }

    method GetFlowIds(n: nat) returns (ids: seq<nat>, ok: bool)
      requires Valid()
      modifies bits
      ensures var wanted := LowestFreeIds(SetBits(old(bits[..])), FLOW_ID_START, bits.Length, n);
              && (ok <==> n <= NUMBER_OF_PBITS && |wanted| == n)
              && (ok ==> ids == wanted && SetBits(bits[..]) == SetBits(old(bits[..])) + Elements(ids))
              && (!ok ==> SetBits(bits[..]) == SetBits(old(bits[..])))
    {
      if n > NUMBER_OF_PBITS {
        return [], false;
      }
      ghost var before := SetBits(bits[..]);
      ids := TakeLowestMany(bits, FLOW_ID_START, n);
      ok := |ids| == n;
      if !ok {
        LowestFreeIdsSound(before, FLOW_ID_START, bits.Length, n);
        FreeFlowIds(ids);
        assert before + Elements(ids) - Elements(ids) == before;
      }
    }

    method FreeFlowIds(ids: seq<nat>)
      modifies bits
      ensures SetBits(bits[..]) == SetBits(old(bits[..])) - Elements(ids)
    {
      var i := 0;
      while i < |ids|
        invariant i <= |ids|
        invariant SetBits(bits[..]) == SetBits(old(bits[..])) - Elements(ids[..i])
      {
        Release(bits, ids[i]);
        assert Elements(ids[..i + 1]) == Elements(ids[..i]) + {ids[i]};
        i := i + 1;
      }
      assert ids[..i] == ids;
    }

    method FlowAdd(req: AddRequest, ref: FlowRef, reply: AddReply) returns (result: AddReply)
      modifies this`installed, this`counter, this`trapped
      ensures result == ReplyFor(req, reply)
      ensures Model() == AddDevice(old(Model()), req, ref, reply)
    {
      if req.flowType == OtherType {
        return AddFails;
      }
      result := reply;
      if reply == AddOk {
        if req.trap {
          trapped := trapped + {ref};
        } else {
          installed := installed + {ref};
          counter := |installed| % 65536;
        }
      }
    }

    method FlowRemove(ref: FlowRef, clearOk: bool) returns (ok: bool)
      modifies this`installed, this`counter, this`trapped
      ensures (Model(), ok) == RemoveDevice(old(Model()), ref, clearOk)
    {
      if ref.flowType == OtherType {
        return false;
      }
      if ref in trapped {
        trapped := trapped - {ref};
        return true;
      }
      if !clearOk {
        return false;
      }
      if counter != 0 {
        if ref in installed {
          counter := counter - 1;
          installed := installed - {ref};
        }
      }
      ok := true;
    }

    method UndoDeviceFlows(params: seq<Params>, t: FlowType, dev: Device, n: nat)
      requires n <= |params|
      modifies this`installed, this`counter, this`trapped
      ensures Model() == RollBack(old(Model()), params, t, dev, n)
    {
      var j := n;
      while j > 0
        invariant 0 <= j <= n
        invariant RollBack(old(Model()), params, t, dev, n) == RollBack(Model(), params, t, dev, j)
      {
        var _ := FlowRemove(RefOf(params[j - 1], t), dev.clear(j - 1));
        j := j - 1;
      }
    }

    /** The replication loop; on a failure it answers the index that failed. */
    method AddDeviceFlows(req: AddRequest, params: seq<Params>, dev: Device, sharing: bool) returns (n: nat, existed: bool)
      modifies this`installed, this`counter, this`trapped
      ensures (Model(), n) == AddFrom(old(Model()), req, params, dev, sharing, 0)
      ensures n <= |params| && existed == LastExisted(req, dev, n)
    {
      n, existed := 0, false;
      while n < |params|
        invariant n <= |params| && existed == LastExisted(req, dev, n)
        invariant AddFrom(old(Model()), req, params, dev, sharing, 0) == AddFrom(Model(), req, params, dev, sharing, n)
      {
        var result := FlowAdd(req, RefOf(params[n], req.flowType), dev.add(n));
        if !Accepts(result, sharing) {
          return;
        }
        existed := result == AddExists;
        n := n + 1;
      }
    }

    method AddOnPartner(req: AddRequest, dev: Device, partner: nat) returns (status: Status)
      requires Valid() && Shares(cache, symmetric, req) && SlotsExist(cache, symmetric, req)
      requires partner == PartnerOf(symmetric, req)
      modifies this, bits
      ensures Valid()
      ensures (Model(), status) == AddSharing(old(Model()), req, dev)
    {
      if req.replicate && |req.pbitToGem| > NUMBER_OF_PBITS {
        return OutOfRange;
      }
      var slots := cache[partner].params;
      var params := if req.replicate then slots[..|req.pbitToGem|] else slots[..1];
      var n, existed := AddDeviceFlows(req, params, dev, true);
      if n < |params| {
        if req.replicate {
          UndoDeviceFlows(params, req.flowType, dev, n);
        } else {
          Release(bits, params[0].id);
        }
        return Failed;
      }
      cache := cache[req.flowId := DeviceFlow(req.replicate, req.flowType, params, partner)];
      status := Done(existed);
    }

    method AddOnNewIds(req: AddRequest, dev: Device) returns (status: Status)
      requires Valid()
      modifies this, bits
      ensures Valid()
      ensures (Model(), status) == AddFresh(old(Model()), req, dev)
    {
      if |PairsOf(req)| > NUMBER_OF_PBITS {
        return OutOfRange;
      }
      var ids, ok := GetFlowIds(|PairsOf(req)|);
      if !ok {
        return Exhausted;
      }
      var params := Zip(PairsOf(req), ids);
      var n, _ := AddDeviceFlows(req, params, dev, false);
      if n < |params| {
        UndoDeviceFlows(params, req.flowType, dev, n);
        FreeFlowIds(ids);
        return Failed;
      }
      cache := cache[req.flowId := DeviceFlow(req.replicate, req.flowType, params, 0)];
      status := Done(false);
    }

    method FlowAddWrapper(req: AddRequest, dev: Device) returns (answer: Status)
      requires Valid() && SlotsExist(cache, symmetric, req)
      modifies this, bits
      ensures Valid()
      ensures Model() == Add(old(Model()), req, dev).0
      ensures answer == Answer(Add(old(Model()), req, dev).1)
    {
      var status;
      var partner := PartnerOf(symmetric, req);
      if req.flowId in cache {
        return AlreadyExists;
      }
      if partner > 0 && partner in cache {
        status := AddOnPartner(req, dev, partner);
      } else {
        status := AddOnNewIds(req, dev);
      }
      if status.Done? && Datapath(req) {
        symmetric := symmetric[SymKeyOf(req) := req.flowId];
      }
      answer := Answer(status);
    }

    method FlowRemoveWrapper(req: RemoveRequest, dev: Device) returns (status: Status)
      requires Valid()
      modifies this, bits
      ensures Valid()
      ensures (Model(), status) == Remove(old(Model()), req, dev)
    {
      if req.flowId !in cache {
        return NotFound;
      }
      var flow := cache[req.flowId];
      var i := 0;
      while i < |flow.params|
        invariant i <= |flow.params| && Valid()
        invariant cache == old(cache) && symmetric == old(symmetric)
        invariant RemoveFrom(old(Model()), flow.params, flow.flowType, dev, 0)
               == RemoveFrom(Model(), flow.params, flow.flowType, dev, i)
      {
        var ok := FlowRemove(RefOf(flow.params[i], flow.flowType), dev.clear(i));
        if ok {
          Release(bits, flow.params[i].id);
        }
        i := i + 1;
      }
      cache := cache - {req.flowId};
      symmetric := symmetric - {KeyOf(req, flow.flowType)};
      status := Done(false);
    }
  }
}
