/** The map from a subscriber's direction to the flow installed for it (agent/src/core_api_handler.cc). */
module SymmetricFlows {
  import opened DeviceFlows
  import opened DeviceFlowProofs

  /** The identifiers a request carries. */
  datatype Identity = Identity(access: int, onu: int, uni: int, techProfile: nat)

  /** who remembers the identifiers each cached flow was added with. */
  datatype Tracked = Tracked(flows: Flows, who: map<nat, Identity>)

  datatype Op = AddOp(req: AddRequest, dev: Device) | RemoveOp(flowId: nat, dev: Device)

  function IdentityOf(req: AddRequest): Identity {
    Identity(req.access, req.onu, req.uni, req.techProfile)
  }

  /** A removal repeating the identifiers of the add. */
  function Repeating(flowId: nat, id: Identity): RemoveRequest {
    RemoveRequest(flowId, id.access, id.onu, id.uni, id.techProfile)
  }

  ghost predicate Legal(s: Tracked, op: Op) {
    match op
    case AddOp(req, _) => SlotsExist(s.flows.cache, s.flows.symmetric, req) && (Datapath(req) ==> req.onu >= 1)
    case RemoveOp(flowId, _) => flowId in s.who
  }

  ghost function Step(s: Tracked, op: Op): Tracked
    requires Legal(s, op)
  {
    match op
    case AddOp(req, dev) =>
      var (flows, status) := Add(s.flows, req, dev);
      Tracked(flows, if status.Done? then s.who[req.flowId := IdentityOf(req)] else s.who)
    case RemoveOp(flowId, dev) =>
      Tracked(Remove(s.flows, Repeating(flowId, s.who[flowId]), dev).0, s.who - {flowId})
  }

  /** Entry k names a cached flow of its direction, added with its identifiers. */
  ghost predicate NamesItsFlow(s: Tracked, k: SymKey) {
    && k in s.flows.symmetric
    && var v := s.flows.symmetric[k];
       && v in s.flows.cache && v in s.who
       && s.flows.cache[v].flowType == k.flowType
       && k == KeyOf(Repeating(v, s.who[v]), k.flowType)
  }

  ghost predicate NoStaleEntry(s: Tracked) {
    && s.who.Keys == s.flows.cache.Keys
    && forall k {:trigger NamesItsFlow(s, k)} | k in s.flows.symmetric :: NamesItsFlow(s, k)
  }

  /** Whatever the device answers: the cache and the map change only on success, by one entry each. */
  lemma AddChangesMaps(s: Flows, req: AddRequest, dev: Device)
    requires SlotsExist(s.cache, s.symmetric, req)
    ensures var (t, status) := Add(s, req, dev);
            && (status.Done? ==> req.flowId !in s.cache && t.cache.Keys == s.cache.Keys + {req.flowId})
            && (status.Done? ==> t.cache[req.flowId].flowType == req.flowType)
            && (!status.Done? ==> t.cache == s.cache)
            && (forall v | v in s.cache :: v in t.cache && t.cache[v] == s.cache[v])
            && t.symmetric == (if status.Done? && Datapath(req) then s.symmetric[SymKeyOf(req) := req.flowId] else s.symmetric)
  {
    if LosesPartnerId(s, req, dev) {
      LosingPartnerIdFreesIt(s, req, dev);
    } else {
      var e := AddEffect(s, req, dev);
    }
  }

  lemma {:induction false} RemoveFromFrame(s: Flows, params: seq<Params>, t: FlowType, dev: Device, i: nat)
    requires i <= |params|
    ensures var r := RemoveFrom(s, params, t, dev, i);
            r.cache == s.cache && r.symmetric == s.symmetric
    decreases |params| - i
  {
    if i < |params| {
      var (u, ok) := RemoveDevice(s, RefOf(params[i], t), dev.clear(i));
      RemoveFromFrame(if ok then u.(used := u.used - {params[i].id}) else u, params, t, dev, i + 1);
    }
  }

  lemma RemoveChangesMaps(s: Flows, req: RemoveRequest, dev: Device)
    requires req.flowId in s.cache
    ensures var t := Remove(s, req, dev).0;
            && t.cache == s.cache - {req.flowId}
            && t.symmetric == s.symmetric - {KeyOf(req, s.cache[req.flowId].flowType)}
  {
    RemoveFromFrame(s, s.cache[req.flowId].params, s.cache[req.flowId].flowType, dev, 0);
  }

  lemma StepKeepsNoStaleEntry(s: Tracked, op: Op)
    requires NoStaleEntry(s) && Legal(s, op)
    ensures NoStaleEntry(Step(s, op))
  {
    var t := Step(s, op);
    match op
    case AddOp(req, dev) =>
      AddChangesMaps(s.flows, req, dev);
      forall k | k in t.flows.symmetric
        ensures NamesItsFlow(t, k)
      {
        if t.flows.symmetric != s.flows.symmetric && k == SymKeyOf(req) {
          assert t.flows.symmetric[k] == req.flowId;
        } else {
          assert NamesItsFlow(s, k);
        }
      }
    case RemoveOp(flowId, dev) =>
      RemoveChangesMaps(s.flows, Repeating(flowId, s.who[flowId]), dev);
      forall k | k in t.flows.symmetric
        ensures NamesItsFlow(t, k)
      {
        assert NamesItsFlow(s, k);
      }
  }

  ghost function Start(idEnd: nat): Tracked {
    Tracked(NoFlows(idEnd), map[])
  }

  ghost predicate LegalRun(s: Tracked, ops: seq<Op>)
    decreases |ops|
  {
    ops == [] || (Legal(s, ops[0]) && LegalRun(Step(s, ops[0]), ops[1..]))
  }

  ghost function Run(s: Tracked, ops: seq<Op>): Tracked
    requires LegalRun(s, ops)
    decreases |ops|
  {
    if ops == [] then s else Run(Step(s, ops[0]), ops[1..])
  }

  lemma {:induction false} RunKeepsNoStaleEntry(s: Tracked, ops: seq<Op>)
    requires NoStaleEntry(s) && LegalRun(s, ops)
    ensures NoStaleEntry(Run(s, ops))
    decreases |ops|
  {
    if ops != [] {
      StepKeepsNoStaleEntry(s, ops[0]);
      RunKeepsNoStaleEntry(Step(s, ops[0]), ops[1..]);
    }
  }

  /**
   * After any run of adds, datapath flows for ONU ids from 1, and of removals repeating the identifiers of the add,
   * whatever the device answers, every entry names an installed flow whose direction is the one in the key.
   */
  lemma EveryEntryNamesAnInstalledFlow(idEnd: nat, ops: seq<Op>)
    requires LegalRun(Start(idEnd), ops)
    ensures var s := Run(Start(idEnd), ops).flows;
            forall k | k in s.symmetric :: s.symmetric[k] in s.cache && s.cache[s.symmetric[k]].flowType == k.flowType
  {
    RunKeepsNoStaleEntry(Start(idEnd), ops);
    var t := Run(Start(idEnd), ops);
    forall k | k in t.flows.symmetric
      ensures t.flows.symmetric[k] in t.flows.cache && t.flows.cache[t.flows.symmetric[k]].flowType == k.flowType
    {
      assert NamesItsFlow(t, k);
    }
  }

  /**
   * A flow added and removed again leaves an entry naming it exactly when it is a datapath flow of ONU id 0: the
   * entry is written under ONU id 1 and erased under 0.
   */
  lemma AddThenRemoveLeavesEntryIff(s: Tracked, req: AddRequest, dev: Device, dev2: Device)
    requires NoStaleEntry(s) && SlotsExist(s.flows.cache, s.flows.symmetric, req)
    requires Add(s.flows, req, dev).1.Done?
    ensures var t := Remove(Add(s.flows, req, dev).0, Repeating(req.flowId, IdentityOf(req)), dev2).0;
            && req.flowId !in t.cache
            && ((exists k :: k in t.symmetric && t.symmetric[k] == req.flowId) <==> Datapath(req) && req.onu == 0)
  {
    var u := Add(s.flows, req, dev).0;
    AddChangesMaps(s.flows, req, dev);
    RemoveChangesMaps(u, Repeating(req.flowId, IdentityOf(req)), dev2);
    var t := Remove(u, Repeating(req.flowId, IdentityOf(req)), dev2).0;
    if Datapath(req) && req.onu == 0 {
      assert SymKeyOf(req) in t.symmetric && t.symmetric[SymKeyOf(req)] == req.flowId;
    }
    forall k | k in s.flows.symmetric
      ensures s.flows.symmetric[k] != req.flowId
    {
      assert NamesItsFlow(s, k);
    }
  }
}
