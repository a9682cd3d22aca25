/** What a failed flow add leaves behind (agent/src/core_api_handler.cc). */
module FlowRollback {
  import opened IdPools
  import opened DeviceFlows
  import opened DeviceFlowProofs
  import Runs = DeviceFlowRuns

  // flow_id_counters

  /** The counter is the 16-bit size of the flow map. */
  ghost predicate Counted(s: Flows) {
    s.counter == |s.installed| % 65536
  }

  lemma RemoveDeviceKeepsCounted(s: Flows, ref: FlowRef, ok: bool)
    requires Counted(s)
    ensures Counted(RemoveDevice(s, ref, ok).0)
  {
    if ref in s.installed {
      assert |s.installed - {ref}| == |s.installed| - 1;
    }
  }

  lemma {:induction false} AddFromKeepsCounted(s: Flows, req: AddRequest, params: seq<Params>, dev: Device, sharing: bool, i: nat)
    requires Counted(s) && i <= |params|
    ensures Counted(AddFrom(s, req, params, dev, sharing, i).0)
    decreases |params| - i
  {
    if i < |params| && Accepts(ReplyFor(req, dev.add(i)), sharing) {
      AddFromKeepsCounted(AddDevice(s, req, RefOf(params[i], req.flowType), dev.add(i)), req, params, dev, sharing, i + 1);
    }
  }

  lemma {:induction false} RollBackKeepsCounted(s: Flows, params: seq<Params>, t: FlowType, dev: Device, n: nat)
    requires Counted(s) && n <= |params|
    ensures Counted(RollBack(s, params, t, dev, n))
    decreases n
  {
    if n > 0 {
      RemoveDeviceKeepsCounted(s, RefOf(params[n - 1], t), dev.clear(n - 1));
      RollBackKeepsCounted(RemoveDevice(s, RefOf(params[n - 1], t), dev.clear(n - 1)).0, params, t, dev, n - 1);
    }
  }

  lemma {:induction false} RemoveFromKeepsCounted(s: Flows, params: seq<Params>, t: FlowType, dev: Device, i: nat)
    requires Counted(s) && i <= |params|
    ensures Counted(RemoveFrom(s, params, t, dev, i))
    decreases |params| - i
  {
    if i < |params| {
      RemoveDeviceKeepsCounted(s, RefOf(params[i], t), dev.clear(i));
      var (u, ok) := RemoveDevice(s, RefOf(params[i], t), dev.clear(i));
      RemoveFromKeepsCounted(if ok then u.(used := u.used - {params[i].id}) else u, params, t, dev, i + 1);
    }
  }

  /** No removal, failing or not, lets the counter differ from the size of the flow map modulo 65536. */
  lemma RemoveKeepsCounted(s: Flows, req: RemoveRequest, dev: Device)
    requires Counted(s)
    ensures Counted(Remove(s, req, dev).0)
  {
    if req.flowId in s.cache {
      RemoveFromKeepsCounted(s, s.cache[req.flowId].params, s.cache[req.flowId].flowType, dev, 0);
    }
  }

  /** Nor does any add. */
  lemma AddKeepsCounted(s: Flows, req: AddRequest, dev: Device)
    requires Counted(s) && SlotsExist(s.cache, s.symmetric, req)
    ensures Counted(Add(s, req, dev).0)
  {
    if req.flowId !in s.cache {
      if Shares(s.cache, s.symmetric, req) {
        SharingKeepsCounted(s, req, dev);
      } else {
        FreshKeepsCounted(s, req, dev);
      }
    }
  }

  lemma SharingKeepsCounted(s: Flows, req: AddRequest, dev: Device)
    requires Counted(s) && Shares(s.cache, s.symmetric, req) && SlotsExist(s.cache, s.symmetric, req)
    ensures Counted(AddSharing(s, req, dev).0)
  {
    if !(req.replicate && |req.pbitToGem| > NUMBER_OF_PBITS) {
      var params := SharedParams(s, req);
      AddFromKeepsCounted(s, req, params, dev, true, 0);
      var (t, n) := AddFrom(s, req, params, dev, true, 0);
      RollBackKeepsCounted(t, params, req.flowType, dev, n);
    }
  }

  lemma FreshKeepsCounted(s: Flows, req: AddRequest, dev: Device)
    requires Counted(s)
    ensures Counted(AddFresh(s, req, dev).0)
  {
    var ids := AllocatedIds(s, req);
    if |PairsOf(req)| <= NUMBER_OF_PBITS && |ids| == |PairsOf(req)| {
      var params := Zip(PairsOf(req), ids);
      var u := s.(used := s.used + Elements(ids));
      AddFromKeepsCounted(u, req, params, dev, false, 0);
      var (t, n) := AddFrom(u, req, params, dev, false, 0);
      RollBackKeepsCounted(t, params, req.flowType, dev, n);
    }
  }

  lemma {:induction false} RemoveAllKeepsCounted(s: Flows, reqs: seq<RemoveRequest>, dev: Device)
    requires Counted(s)
    ensures Counted(Runs.RemoveAll(s, reqs, dev))
    decreases |reqs|
  {
    if reqs != [] {
      RemoveKeepsCounted(s, reqs[0], dev);
      RemoveAllKeepsCounted(Remove(s, reqs[0], dev).0, reqs[1..], dev);
    }
  }

  /** What the lemmas below ask of a state holds after every run. */
  lemma {:induction false} EveryRunIsCounted(idEnd: nat, ops: seq<Runs.FlowOp>)
    requires Runs.Run(idEnd, ops).Some?
    ensures Counted(Runs.Run(idEnd, ops).value) && Exact(Runs.Run(idEnd, ops).value)
  {
    Runs.EveryRunIsExact(idEnd, ops);
    if ops != [] {
      var prefix := ops[..|ops| - 1];
      EveryRunIsCounted(idEnd, prefix);
      var s := Runs.Run(idEnd, prefix).value;
      match ops[|ops| - 1]
      case AddOp(req, dev) => AddKeepsCounted(s, req, dev);
      case RemoveOp(one, dev) => RemoveKeepsCounted(s, one, dev);
      case RemoveGroupOp(reqs, dev) => RemoveAllKeepsCounted(s, reqs, dev);
    }
  }

  // Ids, cache and map of partners

  /**
   * A failed add, replicated or not and at whichever device flow, changes nothing but the device side, except when
   * it is not replicated and works on a partner's id.
   */
  lemma FailedAddChangesOnlyDeviceIff(s: Flows, req: AddRequest, dev: Device)
    requires Exact(s) && SlotsExist(s.cache, s.symmetric, req) && !Add(s, req, dev).1.Done?
    ensures OnlyDeviceDiffers(s, Add(s, req, dev).0) <==> !LosesPartnerId(s, req, dev)
  {
    if LosesPartnerId(s, req, dev) {
      LosingPartnerIdBreaksExact(s, req, dev);
      LosingPartnerIdFreesIt(s, req, dev);
      assert SomeFlowHas(s.cache, SharedParams(s, req)[0].id) by {
        var p := SharedParams(s, req)[0];
        assert p in s.cache[PartnerOf(s.symmetric, req)].params;
      }
    } else {
      var e := AddEffect(s, req, dev);
      AddKeepsIdEnd(s, req, dev);
    }
  }

  lemma AddKeepsIdEnd(s: Flows, req: AddRequest, dev: Device)
    requires SlotsExist(s.cache, s.symmetric, req)
    ensures Add(s, req, dev).0.idEnd == s.idEnd
  {
    if req.flowId !in s.cache {
      if Shares(s.cache, s.symmetric, req) {
        if !(req.replicate && |req.pbitToGem| > NUMBER_OF_PBITS) {
          LoopsKeepIdEnd(s, req, SharedParams(s, req), dev, true);
        }
      } else if |PairsOf(req)| <= NUMBER_OF_PBITS && |AllocatedIds(s, req)| == |PairsOf(req)| {
        var ids := AllocatedIds(s, req);
        LoopsKeepIdEnd(s.(used := s.used + Elements(ids)), req, Zip(PairsOf(req), ids), dev, false);
      }
    }
  }

  lemma LoopsKeepIdEnd(s: Flows, req: AddRequest, params: seq<Params>, dev: Device, sharing: bool)
    ensures var (t, n) := AddFrom(s, req, params, dev, sharing, 0);
            t.idEnd == s.idEnd && RollBack(t, params, req.flowType, dev, n).idEnd == s.idEnd
  {
    AddFromFrame(s, req, params, dev, sharing, 0);
    var (t, n) := AddFrom(s, req, params, dev, sharing, 0);
    RollBackFrame(t, params, req.flowType, dev, n);
  }

  /** A failed replicated add on a partner leaves the partner's ids allocated. */
  lemma PartnerKeepsItsIds(s: Flows, req: AddRequest, dev: Device)
    requires Exact(s) && Shares(s.cache, s.symmetric, req) && SlotsExist(s.cache, s.symmetric, req)
    requires req.replicate && !Add(s, req, dev).1.Done?
    ensures var t := Add(s, req, dev).0;
            t.cache == s.cache && Ids(s.cache[PartnerOf(s.symmetric, req)]) <= t.used
  {
    FailedAddChangesOnlyDeviceIff(s, req, dev);
    IdsAreOwned(s, PartnerOf(s.symmetric, req));
  }

  // The device side

  ghost predicate Distinct(params: seq<Params>) {
    forall i, j | 0 <= i < j < |params| :: params[i].id != params[j].id
  }

  /** How many of the clears from device flow i up to device flow n succeed. */
  function Clears(dev: Device, i: nat, n: nat): nat {
    if n <= i then 0 else Clears(dev, i, n - 1) + if dev.clear(n - 1) then 1 else 0
  }

  /** Rolling back from n on, device flow j is cleared while the counter, at first c, has not yet read zero. */
  predicate TakenOut(dev: Device, n: nat, c: nat, j: nat) {
    j < n && dev.clear(j) && Clears(dev, j + 1, n) < c
  }

  ghost function Cleared(params: seq<Params>, t: FlowType, dev: Device, n: nat, c: nat): set<FlowRef>
    requires n <= |params|
  {
    set j: nat | j < n && TakenOut(dev, n, c, j) :: RefOf(params[j], t)
  }

  lemma {:induction false} ClearsOneMore(dev: Device, i: nat, n: nat)
    requires i < n
    ensures Clears(dev, i, n) == Clears(dev, i, n - 1) + if dev.clear(n - 1) then 1 else 0
    ensures Clears(dev, n, n) == 0
  {
  }

  lemma RefsSplit(params: seq<Params>, t: FlowType, i: nat, n: nat)
    requires i < n <= |params|
    ensures Refs(params[i..n], t) == {RefOf(params[i], t)} + Refs(params[i + 1..n], t)
  {
    assert params[i..n] == [params[i]] + params[i + 1..n];
  }

  /** The trap flows' map or the flow map, whichever the add's flows go to. */
  ghost function Side(s: Flows, trap: bool): set<FlowRef> {
    if trap then s.trapped else s.installed
  }

  /** A fresh add puts exactly the device flows before the failing one on its side of the device. */
  lemma {:induction false} FreshAddFromIs(s: Flows, req: AddRequest, params: seq<Params>, dev: Device, i: nat)
    requires i <= |params|
    ensures var (t, n) := AddFrom(s, req, params, dev, false, i);
            && Side(t, req.trap) == Side(s, req.trap) + Refs(params[i..n], req.flowType)
            && Side(t, !req.trap) == Side(s, !req.trap)
    decreases |params| - i
  {
    var (t, n) := AddFrom(s, req, params, dev, false, i);
    var added := Refs(params[i..n], req.flowType);
    if i < |params| && Accepts(ReplyFor(req, dev.add(i)), false) {
      var ref := RefOf(params[i], req.flowType);
      var u := AddDevice(s, req, ref, dev.add(i));
      FreshAddFromIs(u, req, params, dev, i + 1);
      RefsSplit(params, req.flowType, i, n);
      var rest := Refs(params[i + 1..n], req.flowType);
      assert Side(u, req.trap) == Side(s, req.trap) + {ref} && Side(u, !req.trap) == Side(s, !req.trap);
      assert (t, n) == AddFrom(u, req, params, dev, false, i + 1);
      assert Side(t, req.trap) == Side(u, req.trap) + rest;
      assert Side(s, req.trap) + {ref} + rest == Side(s, req.trap) + added;
    } else {
      assert n == i && t == s;
      assert added == {};
    }
  }

  lemma ClearedOneMore(params: seq<Params>, t: FlowType, dev: Device, n: nat, c: nat)
    requires 0 < n <= |params|
    ensures var ref := RefOf(params[n - 1], t);
            Cleared(params, t, dev, n, c)
            == if !dev.clear(n - 1) then Cleared(params, t, dev, n - 1, c)
               else if c == 0 then {}
               else {ref} + Cleared(params, t, dev, n - 1, c - 1)
  {
    var less := if dev.clear(n - 1) then 1 else 0;
    forall j: nat | j < n - 1
      ensures TakenOut(dev, n, c, j) <==> less <= c && TakenOut(dev, n - 1, c - less, j)
    {
      ClearsOneMore(dev, j + 1, n);
    }
    assert TakenOut(dev, n, c, n - 1) <==> dev.clear(n - 1) && 0 < c;
  }

  lemma NothingTakenOutAtZero(params: seq<Params>, t: FlowType, dev: Device, n: nat)
    requires n <= |params|
    ensures Cleared(params, t, dev, n, 0) == {}
  {
  }

  /** Removing a device flow that is in the flow map and no trap. */
  lemma RemoveInstalled(s: Flows, ref: FlowRef, ok: bool)
    requires ref.flowType != OtherType && ref in s.installed && ref !in s.trapped
    ensures RemoveDevice(s, ref, ok).0
         == if ok && s.counter != 0 then s.(installed := s.installed - {ref}, counter := s.counter - 1) else s
  {
  }

  lemma RollBackStep(s: Flows, params: seq<Params>, t: FlowType, dev: Device, n: nat)
    requires 0 < n <= |params|
    ensures RollBack(s, params, t, dev, n)
         == RollBack(RemoveDevice(s, RefOf(params[n - 1], t), dev.clear(n - 1)).0, params, t, dev, n - 1)
  {
  }

  /**
   * Rolling back takes exactly the device flows whose clear succeeds out of the flow map, last first, until the counter
   * reads zero.
   */
  lemma {:induction false} RollBackTakesCleared(s: Flows, params: seq<Params>, t: FlowType, dev: Device, n: nat)
    requires n <= |params| && Distinct(params) && t != OtherType
    requires Refs(params[..n], t) !! s.trapped && Refs(params[..n], t) <= s.installed
    ensures RollBack(s, params, t, dev, n).installed == s.installed - Cleared(params, t, dev, n, s.counter)
    decreases n
  {
    if n > 0 {
      var ref := RefOf(params[n - 1], t);
      RefsBeforeLast(params, t, n);
      RemoveInstalled(s, ref, dev.clear(n - 1));
      var u := if dev.clear(n - 1) && s.counter != 0
               then s.(installed := s.installed - {ref}, counter := s.counter - 1) else s;
      RollBackStep(s, params, t, dev, n);
      RollBackTakesCleared(u, params, t, dev, n - 1);
      ClearedFromNext(s, u, params, t, dev, n);
    }
  }

  /** The cleared device flows of a rollback, from those of the rest of it. */
  lemma ClearedFromNext(s: Flows, u: Flows, params: seq<Params>, t: FlowType, dev: Device, n: nat)
    requires 0 < n <= |params|
    requires u == if dev.clear(n - 1) && s.counter != 0
                  then s.(installed := s.installed - {RefOf(params[n - 1], t)}, counter := s.counter - 1) else s
    ensures u.installed - Cleared(params, t, dev, n - 1, u.counter) == s.installed - Cleared(params, t, dev, n, s.counter)
  {
    ClearedOneMore(params, t, dev, n, s.counter);
    if dev.clear(n - 1) && s.counter != 0 {
      TakenInTwoSteps(s.installed, RefOf(params[n - 1], t), Cleared(params, t, dev, n - 1, u.counter));
    } else if dev.clear(n - 1) {
      NothingTakenOutAtZero(params, t, dev, n - 1);
    }
  }

  lemma TakenInTwoSteps<T>(a: set<T>, x: T, b: set<T>)
    ensures a - {x} - b == a - ({x} + b)
  {
  }

  lemma RefsBeforeLast(params: seq<Params>, t: FlowType, n: nat)
    requires 0 < n <= |params| && Distinct(params)
    ensures Refs(params[..n], t) == Refs(params[..n - 1], t) + {RefOf(params[n - 1], t)}
    ensures RefOf(params[n - 1], t) !in Refs(params[..n - 1], t)
  {
    assert params[..n] == params[..n - 1] + [params[n - 1]];
  }

  /** The add allocates new ids for all its device flows. */
  ghost predicate Allocates(s: Flows, req: AddRequest) {
    && req.flowId !in s.cache && !Shares(s.cache, s.symmetric, req)
    && |PairsOf(req)| <= NUMBER_OF_PBITS && |AllocatedIds(s, req)| == |PairsOf(req)|
  }

  ghost function FreshParams(s: Flows, req: AddRequest): seq<Params>
    requires Allocates(s, req)
  {
    Zip(PairsOf(req), AllocatedIds(s, req))
  }

  /** The least index from i on, below n, of a device flow the device does not take as new; n if it takes them all. */
  function LeastRefused(req: AddRequest, dev: Device, i: nat, n: nat): (r: nat)
    requires i <= n
    ensures i <= r <= n
    ensures forall j: nat | i <= j < r :: ReplyFor(req, dev.add(j)) == AddOk
    ensures r < n ==> ReplyFor(req, dev.add(r)) != AddOk
    decreases n - i
  {
    if i == n || ReplyFor(req, dev.add(i)) != AddOk then i else LeastRefused(req, dev, i + 1, n)
  }

  /** The first device flow of the add that the device refuses, or their number. */
  function FirstRefused(req: AddRequest, dev: Device): (n: nat)
    ensures n <= |PairsOf(req)|
  {
    LeastRefused(req, dev, 0, |PairsOf(req)|)
  }

  lemma {:induction false} AddFromStopsAt(s: Flows, req: AddRequest, params: seq<Params>, dev: Device, i: nat)
    requires i <= |params|
    ensures AddFrom(s, req, params, dev, false, i).1 == LeastRefused(req, dev, i, |params|)
    decreases |params| - i
  {
    if i < |params| && ReplyFor(req, dev.add(i)) == AddOk {
      AddFromStopsAt(AddDevice(s, req, RefOf(params[i], req.flowType), dev.add(i)), req, params, dev, i + 1);
    }
  }

  /** An add on new ids fails exactly when the device refuses one of its device flows. */
  lemma FreshAddFailsIff(s: Flows, req: AddRequest, dev: Device)
    requires Allocates(s, req) && SlotsExist(s.cache, s.symmetric, req)
    ensures Add(s, req, dev).1 == Failed <==> FirstRefused(req, dev) < |PairsOf(req)|
    ensures Add(s, req, dev).1 != Failed <==> Add(s, req, dev).1 == Done(false)
  {
    AddFromStopsAt(s.(used := s.used + Elements(AllocatedIds(s, req))), req, FreshParams(s, req), dev, 0);
  }

  /** The device flows added before the refused one. */
  ghost function Partial(s: Flows, req: AddRequest, dev: Device): set<FlowRef>
    requires Allocates(s, req)
  {
    Refs(FreshParams(s, req)[..FirstRefused(req, dev)], req.flowType)
  }

  lemma FreshParamsAreNew(s: Flows, req: AddRequest)
    requires Owned(s) && Allocates(s, req)
    ensures Distinct(FreshParams(s, req))
    ensures Refs(FreshParams(s, req), req.flowType) !! s.trapped
    ensures s.used + Elements(AllocatedIds(s, req)) - Elements(AllocatedIds(s, req)) == s.used
  {
    var params, ids := FreshParams(s, req), AllocatedIds(s, req);
    LowestFreeIdsSound(s.used, FLOW_ID_START, s.idEnd + FLOW_ID_START, if req.replicate then |req.pbitToGem| else 1);
    forall p | p in params
      ensures RefOf(p, req.flowType) !in s.trapped
    {
      if RefOf(p, req.flowType) in s.trapped {
        assert SomeFlowOwns(s.cache, RefOf(p, req.flowType));
        assert SomeFlowHas(s.cache, p.id);
        assert false;
      }
    }
  }

  /** A failed fresh add of trap flows restores the whole state, whatever the clears answer. */
  lemma FailedTrapAddRestoresAll(s: Flows, req: AddRequest, dev: Device)
    requires Owned(s) && Allocates(s, req) && req.trap && SlotsExist(s.cache, s.symmetric, req)
    requires FirstRefused(req, dev) < |PairsOf(req)|
    ensures Add(s, req, dev) == (s, Failed)
  {
    var params, n := FreshParams(s, req), FirstRefused(req, dev);
    FreshParamsAreNew(s, req);
    FreshAddFailsIff(s, req, dev);
    AddFromStopsAt(s.(used := s.used + Elements(AllocatedIds(s, req))), req, params, dev, 0);
    FailedTypeAddsNothing(s.(used := s.used + Elements(AllocatedIds(s, req))), req, params, dev, false);
    var u := s.(used := s.used + Elements(AllocatedIds(s, req)));
    var t := AddFrom(u, req, params, dev, false, 0).0;
    AddFromFrame(u, req, params, dev, false, 0);
    FreshAddFromIs(u, req, params, dev, 0);
    assert params[0..n] == params[..n];
    TrapRollBackKeepsFlowMap(t, params, req.flowType, dev, n);
    RollBackFrame(t, params, req.flowType, dev, n);
    TrapAddFromKeepsCounter(u, req, params, dev, 0);
    PartOfRefs(params, req.flowType, n);
    if n > 0 {
      assert req.flowType != OtherType;
    }
    assert t.trapped - Refs(params[..n], req.flowType) == s.trapped;
  }

  lemma PartOfRefs(params: seq<Params>, t: FlowType, n: nat)
    requires n <= |params|
    ensures Refs(params[..n], t) <= Refs(params, t)
  {
  }

  lemma {:induction false} TrapAddFromKeepsCounter(s: Flows, req: AddRequest, params: seq<Params>, dev: Device, i: nat)
    requires i <= |params| && req.trap
    ensures AddFrom(s, req, params, dev, false, i).0.counter == s.counter
    decreases |params| - i
  {
    if i < |params| && Accepts(ReplyFor(req, dev.add(i)), false) {
      TrapAddFromKeepsCounter(AddDevice(s, req, RefOf(params[i], req.flowType), dev.add(i)), req, params, dev, i + 1);
    }
  }

  lemma {:induction false} TrapRollBackKeepsFlowMap(s: Flows, params: seq<Params>, t: FlowType, dev: Device, n: nat)
    requires n <= |params| && Distinct(params) && Refs(params[..n], t) <= s.trapped
    ensures var r := RollBack(s, params, t, dev, n);
            r.installed == s.installed && r.counter == s.counter
    decreases n
  {
    if n > 0 {
      RefsBeforeLast(params, t, n);
      var u := RemoveDevice(s, RefOf(params[n - 1], t), dev.clear(n - 1)).0;
      TrapRollBackKeepsFlowMap(u, params, t, dev, n - 1);
    }
  }

  /** A fresh add that is not for a trap, up to the refused device flow. */
  lemma UpToRefused(s: Flows, req: AddRequest, params: seq<Params>, dev: Device) returns (t: Flows)
    requires Counted(s) && !req.trap && |params| == |PairsOf(req)|
    ensures AddFrom(s, req, params, dev, false, 0) == (t, FirstRefused(req, dev))
    ensures t == s.(installed := s.installed + Refs(params[..FirstRefused(req, dev)], req.flowType), counter := t.counter)
    ensures Counted(t) && (FirstRefused(req, dev) > 0 ==> req.flowType != OtherType)
  {
    var n := FirstRefused(req, dev);
    t := AddFrom(s, req, params, dev, false, 0).0;
    AddFromStopsAt(s, req, params, dev, 0);
    FailedTypeAddsNothing(s, req, params, dev, false);
    AddFromFrame(s, req, params, dev, false, 0);
    FreshAddFromIs(s, req, params, dev, 0);
    assert params[0..n] == params[..n];
    AddFromKeepsCounted(s, req, params, dev, false, 0);
    assert Side(t, true) == t.trapped && Side(t, false) == t.installed;
  }

  /** The state just before the rollback of a fresh add that is not for a trap. */
  lemma BeforeRollBack(s: Flows, req: AddRequest, dev: Device) returns (t: Flows)
    requires Owned(s) && Counted(s) && Allocates(s, req) && !req.trap && SlotsExist(s.cache, s.symmetric, req)
    requires FirstRefused(req, dev) < |PairsOf(req)|
    ensures t == s.(used := t.used, installed := s.installed + Partial(s, req, dev), counter := t.counter)
    ensures Counted(t) && Partial(s, req, dev) !! s.trapped
    ensures FirstRefused(req, dev) > 0 ==> req.flowType != OtherType
    ensures Add(s, req, dev).0
         == RollBack(t, FreshParams(s, req), req.flowType, dev, FirstRefused(req, dev)).(used := s.used)
  {
    var params, n := FreshParams(s, req), FirstRefused(req, dev);
    FreshParamsAreNew(s, req);
    t := UpToRefused(s.(used := s.used + Elements(AllocatedIds(s, req))), req, params, dev);
    PartOfRefs(params, req.flowType, n);
    FailedFreshAddRollsBack(s, req, dev, t);
    RollBackFrame(t, params, req.flowType, dev, n);
  }

  lemma FailedFreshAddRollsBack(s: Flows, req: AddRequest, dev: Device, t: Flows)
    requires Allocates(s, req) && SlotsExist(s.cache, s.symmetric, req)
    requires FirstRefused(req, dev) < |PairsOf(req)|
    requires AddFrom(s.(used := s.used + Elements(AllocatedIds(s, req))), req, FreshParams(s, req), dev, false, 0)
          == (t, FirstRefused(req, dev))
    ensures var r := RollBack(t, FreshParams(s, req), req.flowType, dev, FirstRefused(req, dev));
            Add(s, req, dev) == (r.(used := r.used - Elements(AllocatedIds(s, req))), Failed)
  {
  }

  /** The counter at the start of the rollback. */
  ghost function CounterBefore(s: Flows, req: AddRequest, dev: Device): nat
    requires Allocates(s, req)
  {
    |s.installed + Partial(s, req, dev)| % 65536
  }

  /**
   * The whole state after a failed add on new ids: of the device flows it had added, the flow map loses exactly those
   * whose clear succeeds before the 16-bit counter reads zero; everything else is as before.
   */
  lemma FailedFreshAddIs(s: Flows, req: AddRequest, dev: Device)
    requires Owned(s) && Counted(s) && Allocates(s, req) && !req.trap && SlotsExist(s.cache, s.symmetric, req)
    requires FirstRefused(req, dev) < |PairsOf(req)|
    ensures var n := FirstRefused(req, dev);
            var left := s.installed + Partial(s, req, dev)
                      - Cleared(FreshParams(s, req), req.flowType, dev, n, CounterBefore(s, req, dev));
            Add(s, req, dev).0 == s.(installed := left, counter := |left| % 65536)
  {
    var params, n := FreshParams(s, req), FirstRefused(req, dev);
    var t := BeforeRollBack(s, req, dev);
    FreshParamsAreNew(s, req);
    RollBackIs(t, params, req.flowType, dev, n);
  }

  /** The whole state after a rollback of device flows in the flow map. */
  lemma RollBackIs(s: Flows, params: seq<Params>, t: FlowType, dev: Device, n: nat)
    requires Counted(s) && n <= |params| && Distinct(params) && (n > 0 ==> t != OtherType)
    requires Refs(params[..n], t) !! s.trapped && Refs(params[..n], t) <= s.installed
    ensures var left := s.installed - Cleared(params, t, dev, n, s.counter);
            RollBack(s, params, t, dev, n) == s.(installed := left, counter := |left| % 65536)
  {
    var r := RollBack(s, params, t, dev, n);
    RollBackKeepsCounted(s, params, t, dev, n);
    RollBackKeepsTrapped(s, params, t, dev, n);
    if n > 0 {
      RollBackTakesCleared(s, params, t, dev, n);
    }
    assert r.installed == s.installed - Cleared(params, t, dev, n, s.counter);
  }

  lemma RollBackKeepsTrapped(s: Flows, params: seq<Params>, t: FlowType, dev: Device, n: nat)
    requires n <= |params| && Refs(params[..n], t) !! s.trapped
    ensures var r := RollBack(s, params, t, dev, n);
            r == s.(installed := r.installed, counter := r.counter)
  {
    RollBackFrame(s, params, t, dev, n);
    assert s.trapped - Refs(params[..n], t) == s.trapped;
  }

  /** Of the first n device flows the rollback takes out exactly those the flow map did not have before. */
  ghost predicate ClearedAsNew(params: seq<Params>, t: FlowType, dev: Device, installed: set<FlowRef>, n: nat, c: nat)
    requires n <= |params|
  {
    forall j: nat {:trigger TakenOut(dev, n, c, j)} | j < n ::
      TakenOut(dev, n, c, j) <==> RefOf(params[j], t) !in installed
  }

  lemma InCleared(params: seq<Params>, t: FlowType, dev: Device, n: nat, c: nat, j: nat)
    requires j < n <= |params| && Distinct(params)
    ensures RefOf(params[j], t) in Refs(params[..n], t)
    ensures RefOf(params[j], t) in Cleared(params, t, dev, n, c) <==> TakenOut(dev, n, c, j)
  {
    assert params[..n][j] in params[..n];
  }

  lemma ClearingRestoresIff(params: seq<Params>, t: FlowType, dev: Device, installed: set<FlowRef>, n: nat, c: nat)
    requires n <= |params| && Distinct(params)
    ensures installed + Refs(params[..n], t) - Cleared(params, t, dev, n, c) == installed
       <==> ClearedAsNew(params, t, dev, installed, n, c)
  {
    var added, cleared := Refs(params[..n], t), Cleared(params, t, dev, n, c);
    var left := installed + added - cleared;
    if left == installed {
      forall j: nat {:trigger TakenOut(dev, n, c, j)} | j < n
        ensures TakenOut(dev, n, c, j) <==> RefOf(params[j], t) !in installed
      {
        InCleared(params, t, dev, n, c, j);
      }
    }
    if ClearedAsNew(params, t, dev, installed, n, c) {
      forall ref
        ensures ref in left <==> ref in installed
      {
        if ref in added {
          var p :| p in params[..n] && ref == RefOf(p, t);
          var j: nat :| j < n && params[..n][j] == p;
          InCleared(params, t, dev, n, c, j);
        } else if ref in cleared {
          var j: nat :| j < n && TakenOut(dev, n, c, j) && ref == RefOf(params[j], t);
          InCleared(params, t, dev, n, c, j);
        }
      }
    }
  }

  /**
   * A failed add on new ids restores the whole state, flow map included, exactly when each device flow it had added is
   * taken out again - its clear succeeds, and fewer clears before it than the counter stood at - or, if it is not, was
   * in the flow map all along.
   */
  lemma FailedFreshAddRestoresAllIff(s: Flows, req: AddRequest, dev: Device)
    requires Owned(s) && Counted(s) && Allocates(s, req) && !req.trap && SlotsExist(s.cache, s.symmetric, req)
    requires FirstRefused(req, dev) < |PairsOf(req)|
    ensures Add(s, req, dev).0 == s <==>
            ClearedAsNew(FreshParams(s, req), req.flowType, dev, s.installed, FirstRefused(req, dev),
                         CounterBefore(s, req, dev))
  {
    FailedFreshAddIs(s, req, dev);
    FreshParamsAreNew(s, req);
    ClearingRestoresIff(FreshParams(s, req), req.flowType, dev, s.installed, FirstRefused(req, dev),
                        CounterBefore(s, req, dev));
  }

  lemma {:induction false} AllClear(dev: Device, i: nat, n: nat)
    requires i <= n && forall j: nat :: dev.clear(j)
    ensures Clears(dev, i, n) == n - i
  {
    if i < n {
      AllClear(dev, i, n - 1);
    }
  }

  /**
   * With succeeding clears and no entry left behind earlier, that comes down to the 16-bit counter: past 65535 entries
   * it can read zero, and the flow map is no longer searched.
   */
  lemma CounterDecidesRestoring(s: Flows, req: AddRequest, dev: Device)
    requires Owned(s) && Counted(s) && Allocates(s, req) && !req.trap && SlotsExist(s.cache, s.symmetric, req)
    requires FirstRefused(req, dev) < |PairsOf(req)|
    requires Partial(s, req, dev) !! s.installed
    requires forall j: nat :: dev.clear(j)
    ensures Add(s, req, dev).0 == s <==>
            FirstRefused(req, dev) <= (|s.installed| + FirstRefused(req, dev)) % 65536
  {
    var params, n, c := FreshParams(s, req), FirstRefused(req, dev), CounterBefore(s, req, dev);
    CounterWhenNew(s, req, dev);
    AllClearedAsNewIff(params, req.flowType, dev, s.installed, n, c);
    FailedFreshAddRestoresAllIff(s, req, dev);
  }

  lemma CounterWhenNew(s: Flows, req: AddRequest, dev: Device)
    requires Owned(s) && Allocates(s, req) && Partial(s, req, dev) !! s.installed
    ensures CounterBefore(s, req, dev) == (|s.installed| + FirstRefused(req, dev)) % 65536
  {
    PartialSize(s, req, dev);
    UnionSize(s.installed, Partial(s, req, dev));
  }

  lemma PartialSize(s: Flows, req: AddRequest, dev: Device)
    requires Owned(s) && Allocates(s, req)
    ensures |Partial(s, req, dev)| == FirstRefused(req, dev)
  {
    FreshParamsAreNew(s, req);
    RefsCount(FreshParams(s, req), req.flowType, FirstRefused(req, dev));
  }

  lemma UnionSize<T>(a: set<T>, b: set<T>)
    requires a !! b
    ensures |a + b| == |a| + |b|
  {
  }

  lemma AllClearedAsNewIff(params: seq<Params>, t: FlowType, dev: Device, installed: set<FlowRef>, n: nat, c: nat)
    requires n <= |params| && Refs(params[..n], t) !! installed
    requires forall j: nat :: dev.clear(j)
    ensures ClearedAsNew(params, t, dev, installed, n, c) <==> n <= c
  {
    forall j: nat | j < n
      ensures RefOf(params[j], t) !in installed
      ensures TakenOut(dev, n, c, j) <==> n - j <= c
    {
      assert params[..n][j] in params[..n];
      AllClear(dev, j + 1, n);
    }
    if n > 0 {
      assert TakenOut(dev, n, c, 0) <==> n <= c;
    }
  }

  lemma {:induction false} RefsCount(params: seq<Params>, t: FlowType, n: nat)
    requires n <= |params| && Distinct(params)
    ensures |Refs(params[..n], t)| == n
  {
    if n == 0 {
      assert Refs(params[..n], t) == {};
    } else {
      RefsCount(params, t, n - 1);
      var last := RefOf(params[n - 1], t);
      assert params[..n] == params[..n - 1] + [params[n - 1]];
      assert Refs(params[..n], t) == Refs(params[..n - 1], t) + {last};
      assert last !in Refs(params[..n - 1], t);
    }
  }
}
