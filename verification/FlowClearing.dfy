/** What a series of device-flow removals takes out of the flow map and the trap flows (agent/src/core_api_handler.cc). */
module FlowClearing {
  import opened DeviceFlows
  import opened DeviceFlowProofs

  /** FlowRemove_ for one device flow after the other; oks tells which clears succeed. */
  ghost function ClearAll(s: Flows, refs: seq<FlowRef>, oks: seq<bool>): Flows
    requires |oks| == |refs|
    decreases |refs|
  {
    if refs == [] then s else ClearAll(RemoveDevice(s, refs[0], oks[0]).0, refs[1..], oks[1..])
  }

  /** Device flow j is cleared on the device: it is, or by then has become, no trap flow, and its clear succeeds. */
  ghost predicate Hits(trapped: set<FlowRef>, refs: seq<FlowRef>, oks: seq<bool>, j: nat)
    requires |oks| == |refs|
  {
    j < |refs| && oks[j] && (refs[j] !in trapped || refs[j] in refs[..j])
  }

  /** The entries of the flow map among the device flows cleared before device flow j. */
  ghost function HitBefore(s: Flows, refs: seq<FlowRef>, oks: seq<bool>, j: nat): set<FlowRef>
    requires |oks| == |refs|
  {
    set k: nat | k < |refs| && k < j && Hits(s.trapped, refs, oks, k) && refs[k] in s.installed :: refs[k]
  }

  /** Device flow j is cleared while the counter, which goes down with every entry, has not yet reached zero. */
  ghost predicate TakesOut(s: Flows, refs: seq<FlowRef>, oks: seq<bool>, j: nat)
    requires |oks| == |refs|
  {
    Hits(s.trapped, refs, oks, j) && |HitBefore(s, refs, oks, j)| < s.counter
  }

  ghost function TakenOut(s: Flows, refs: seq<FlowRef>, oks: seq<bool>): set<FlowRef>
    requires |oks| == |refs|
  {
    set j: nat | j < |refs| && TakesOut(s, refs, oks, j) && refs[j] in s.installed :: refs[j]
  }

  lemma HitsLater(trapped: set<FlowRef>, refs: seq<FlowRef>, oks: seq<bool>, j: nat)
    requires |oks| == |refs| && refs != []
    ensures Hits(trapped, refs, oks, j + 1) <==> Hits(trapped - {refs[0]}, refs[1..], oks[1..], j)
  {
    if j + 1 < |refs| {
      assert refs[..j + 1] == [refs[0]] + refs[1..][..j];
    }
  }

  /** The state after the first removal, as far as the later ones go. */
  ghost function AfterFirst(s: Flows, refs: seq<FlowRef>, oks: seq<bool>): Flows
    requires |oks| == |refs| && refs != []
  {
    RemoveDevice(s, refs[0], oks[0]).0
  }

  /** The first removal takes an entry out of the flow map. */
  ghost predicate FirstTakesOut(s: Flows, refs: seq<FlowRef>, oks: seq<bool>)
    requires |oks| == |refs| && refs != []
  {
    oks[0] && refs[0] !in s.trapped && refs[0] in s.installed && s.counter != 0
  }

  lemma FirstRemoval(s: Flows, refs: seq<FlowRef>, oks: seq<bool>)
    requires |oks| == |refs| && refs != [] && refs[0].flowType != OtherType
    ensures AfterFirst(s, refs, oks)
         == if FirstTakesOut(s, refs, oks) then s.(installed := s.installed - {refs[0]}, counter := s.counter - 1)
            else s.(trapped := s.trapped - {refs[0]})
  {
    if refs[0] !in s.trapped {
      assert s.trapped - {refs[0]} == s.trapped;
    }
  }

  lemma HitBeforeLater(s: Flows, refs: seq<FlowRef>, oks: seq<bool>, j: nat)
    requires |oks| == |refs| && refs != [] && refs[0].flowType != OtherType
    ensures var first := if oks[0] && refs[0] !in s.trapped && refs[0] in s.installed then {refs[0]} else {};
            var later := HitBefore(s.(trapped := s.trapped - {refs[0]}), refs[1..], oks[1..], j);
            HitBefore(s, refs, oks, j + 1) == first + later
  {
    var first := if oks[0] && refs[0] !in s.trapped && refs[0] in s.installed then {refs[0]} else {};
    var later := HitBefore(s.(trapped := s.trapped - {refs[0]}), refs[1..], oks[1..], j);
    forall r | r in HitBefore(s, refs, oks, j + 1)
      ensures r in first + later
    {
      var k: nat :| k < |refs| && k < j + 1 && Hits(s.trapped, refs, oks, k) && refs[k] in s.installed && r == refs[k];
      if k > 0 {
        HitsLater(s.trapped, refs, oks, k - 1);
        assert refs[1..][k - 1] == r;
      }
    }
    forall r | r in first + later
      ensures r in HitBefore(s, refs, oks, j + 1)
    {
      if r in later {
        var k: nat :| k < |refs[1..]| && k < j && Hits(s.trapped - {refs[0]}, refs[1..], oks[1..], k) && r == refs[1..][k];
        HitsLater(s.trapped, refs, oks, k);
        assert refs[k + 1] == r;
      } else {
        assert Hits(s.trapped, refs, oks, 0);
      }
    }
  }

  /** Without the first entry in the flow map. */
  lemma HitBeforeWithout(s: Flows, refs: seq<FlowRef>, oks: seq<bool>, j: nat, r: FlowRef, c: nat)
    requires |oks| == |refs|
    ensures HitBefore(s.(installed := s.installed - {r}, counter := c), refs, oks, j) == HitBefore(s, refs, oks, j) - {r}
  {
  }

  lemma TakesOutLater(s: Flows, refs: seq<FlowRef>, oks: seq<bool>, j: nat)
    requires |oks| == |refs| && refs != [] && refs[0].flowType != OtherType
    ensures TakesOut(s, refs, oks, j + 1) <==> TakesOut(AfterFirst(s, refs, oks), refs[1..], oks[1..], j)
  {
    var u := s.(trapped := s.trapped - {refs[0]});
    FirstRemoval(s, refs, oks);
    HitsLater(s.trapped, refs, oks, j);
    HitBeforeLater(s, refs, oks, j);
    if FirstTakesOut(s, refs, oks) {
      assert u == s;
      HitBeforeWithout(s, refs[1..], oks[1..], j, refs[0], s.counter - 1);
      var later := HitBefore(s, refs[1..], oks[1..], j);
      assert {refs[0]} + later == {refs[0]} + (later - {refs[0]});
    }
  }

  lemma TakenOutLater(s: Flows, refs: seq<FlowRef>, oks: seq<bool>, j: nat)
    requires |oks| == |refs| && j + 1 < |refs| && refs[0].flowType != OtherType
    requires TakesOut(s, refs, oks, j + 1) && refs[j + 1] in s.installed
    ensures (refs[j + 1] == refs[0] && FirstTakesOut(s, refs, oks))
         || refs[j + 1] in TakenOut(AfterFirst(s, refs, oks), refs[1..], oks[1..])
  {
    FirstRemoval(s, refs, oks);
    TakesOutLater(s, refs, oks, j);
    assert refs[1..][j] == refs[j + 1];
  }

  lemma TakenOutIsFirstOrLater(s: Flows, refs: seq<FlowRef>, oks: seq<bool>, r: FlowRef)
    requires |oks| == |refs| && refs != [] && refs[0].flowType != OtherType
    requires r in TakenOut(s, refs, oks)
    ensures (r == refs[0] && FirstTakesOut(s, refs, oks)) || r in TakenOut(AfterFirst(s, refs, oks), refs[1..], oks[1..])
  {
    var j: nat :| j < |refs| && TakesOut(s, refs, oks, j) && refs[j] in s.installed && r == refs[j];
    if j > 0 {
      TakenOutLater(s, refs, oks, j - 1);
    } else {
      FirstRemoval(s, refs, oks);
      assert HitBefore(s, refs, oks, 0) == {};
    }
  }

  lemma LaterIsTakenOut(s: Flows, refs: seq<FlowRef>, oks: seq<bool>, r: FlowRef)
    requires |oks| == |refs| && refs != [] && refs[0].flowType != OtherType
    requires r in TakenOut(AfterFirst(s, refs, oks), refs[1..], oks[1..])
    ensures r in TakenOut(s, refs, oks)
    ensures FirstTakesOut(s, refs, oks) ==> r != refs[0]
  {
    var v := AfterFirst(s, refs, oks);
    FirstRemoval(s, refs, oks);
    var j: nat :| j < |refs[1..]| && TakesOut(v, refs[1..], oks[1..], j) && refs[1..][j] in v.installed && r == refs[1..][j];
    TakesOutLater(s, refs, oks, j);
    assert refs[j + 1] == r;
  }

  lemma TakenOutFirst(s: Flows, refs: seq<FlowRef>, oks: seq<bool>)
    requires |oks| == |refs| && refs != [] && refs[0].flowType != OtherType
    ensures TakenOut(s, refs, oks)
         == (if FirstTakesOut(s, refs, oks) then {refs[0]} else {})
            + TakenOut(AfterFirst(s, refs, oks), refs[1..], oks[1..])
    ensures refs[0] in TakenOut(AfterFirst(s, refs, oks), refs[1..], oks[1..]) ==> !FirstTakesOut(s, refs, oks)
  {
    var all, later := TakenOut(s, refs, oks), TakenOut(AfterFirst(s, refs, oks), refs[1..], oks[1..]);
    forall r | r in all
      ensures (r == refs[0] && FirstTakesOut(s, refs, oks)) || r in later
    {
      TakenOutIsFirstOrLater(s, refs, oks, r);
    }
    forall r | r in later
      ensures r in all && (FirstTakesOut(s, refs, oks) ==> r != refs[0])
    {
      LaterIsTakenOut(s, refs, oks, r);
    }
    if FirstTakesOut(s, refs, oks) {
      assert HitBefore(s, refs, oks, 0) == {};
      assert TakesOut(s, refs, oks, 0);
      assert refs[0] in all;
    }
  }

  ghost function AsSet(refs: seq<FlowRef>): set<FlowRef> {
    set r | r in refs
  }

  /** s without the entries gone and the trap flows trapped. */
  ghost function Without(s: Flows, gone: set<FlowRef>, trapped: set<FlowRef>): Flows
    requires |gone| <= s.counter
  {
    s.(installed := s.installed - gone, counter := s.counter - |gone|, trapped := s.trapped - trapped)
  }

  lemma WithoutFirst(s: Flows, v: Flows, r: FlowRef, later: set<FlowRef>, trapped: set<FlowRef>)
    requires r !in later && s.counter > 0 && r !in s.trapped && |later| <= s.counter - 1
    requires v == s.(installed := s.installed - {r}, counter := s.counter - 1)
    ensures |{r} + later| == 1 + |later|
    ensures Without(v, later, trapped) == Without(s, {r} + later, {r} + trapped)
  {
    assert s.installed - {r} - later == s.installed - ({r} + later);
    assert s.trapped - trapped == s.trapped - ({r} + trapped);
  }

  lemma WithoutTrap(s: Flows, r: FlowRef, later: set<FlowRef>, trapped: set<FlowRef>)
    requires |later| <= s.counter
    ensures Without(s.(trapped := s.trapped - {r}), later, trapped) == Without(s, later, {r} + trapped)
  {
    assert s.trapped - {r} - trapped == s.trapped - ({r} + trapped);
  }

  /** The whole state after a series of removals. */
  lemma {:induction false} ClearAllIs(s: Flows, refs: seq<FlowRef>, oks: seq<bool>)
    requires |oks| == |refs| && forall r | r in refs :: r.flowType != OtherType
    ensures |TakenOut(s, refs, oks)| <= s.counter
    ensures ClearAll(s, refs, oks) == Without(s, TakenOut(s, refs, oks), AsSet(refs))
    decreases |refs|
  {
    if refs == [] {
      assert TakenOut(s, refs, oks) == {} && AsSet(refs) == {};
    } else {
      var v := AfterFirst(s, refs, oks);
      FirstRemoval(s, refs, oks);
      ClearAllIs(v, refs[1..], oks[1..]);
      WithoutFromNext(s, refs, oks, v, TakenOut(v, refs[1..], oks[1..]));
    }
  }

  lemma WithoutFromNext(s: Flows, refs: seq<FlowRef>, oks: seq<bool>, v: Flows, later: set<FlowRef>)
    requires |oks| == |refs| && refs != [] && refs[0].flowType != OtherType
    requires v == AfterFirst(s, refs, oks) && later == TakenOut(v, refs[1..], oks[1..]) && |later| <= v.counter
    ensures |TakenOut(s, refs, oks)| <= s.counter
    ensures Without(v, later, AsSet(refs[1..])) == Without(s, TakenOut(s, refs, oks), AsSet(refs))
  {
    FirstRemoval(s, refs, oks);
    TakenOutFirst(s, refs, oks);
    AsSetFirst(refs);
    WithoutEither(s, v, FirstTakesOut(s, refs, oks), refs[0], later, AsSet(refs[1..]));
  }

  lemma AsSetFirst(refs: seq<FlowRef>)
    requires refs != []
    ensures AsSet(refs) == {refs[0]} + AsSet(refs[1..])
  {
  }

  lemma WithoutEither(s: Flows, v: Flows, takes: bool, r: FlowRef, later: set<FlowRef>, trapped: set<FlowRef>)
    requires takes ==> r !in later && s.counter > 0 && r !in s.trapped
    requires v == if takes then s.(installed := s.installed - {r}, counter := s.counter - 1)
                  else s.(trapped := s.trapped - {r})
    requires |later| <= v.counter
    ensures var all := (if takes then {r} else {}) + later;
            |all| <= s.counter && Without(v, later, trapped) == Without(s, all, {r} + trapped)
  {
    if takes {
      WithoutFirst(s, v, r, later, trapped);
    } else {
      assert {} + later == later;
      WithoutTrap(s, r, later, trapped);
    }
  }

  // The two loops

  function RefsOf(params: seq<Params>, t: FlowType): (refs: seq<FlowRef>)
    ensures |refs| == |params|
  {
    seq(|params|, j requires 0 <= j < |params| => FlowRef(params[j].id, t))
  }

  function ClearsOf(dev: Device, n: nat): (oks: seq<bool>)
    ensures |oks| == n
  {
    seq(n, j requires 0 <= j < n => dev.clear(j))
  }

  lemma {:induction false} RemoveFromClears(s: Flows, params: seq<Params>, t: FlowType, dev: Device, i: nat)
    requires i <= |params|
    ensures var r := RemoveFrom(s, params, t, dev, i);
            r == ClearAll(s, RefsOf(params, t)[i..], ClearsOf(dev, |params|)[i..]).(used := r.used)
    decreases |params| - i
  {
    if i < |params| {
      var refs, oks := RefsOf(params, t)[i..], ClearsOf(dev, |params|)[i..];
      var (u, ok) := RemoveDevice(s, RefOf(params[i], t), dev.clear(i));
      var v := if ok then u.(used := u.used - {params[i].id}) else u;
      assert refs[1..] == RefsOf(params, t)[i + 1..] && oks[1..] == ClearsOf(dev, |params|)[i + 1..];
      RemoveFromClears(v, params, t, dev, i + 1);
      ClearAllIgnoresIds(u, refs[1..], oks[1..], v.used);
    }
  }

  lemma {:induction false} ClearAllIgnoresIds(s: Flows, refs: seq<FlowRef>, oks: seq<bool>, used: set<nat>)
    requires |oks| == |refs|
    ensures ClearAll(s.(used := used), refs, oks) == ClearAll(s, refs, oks).(used := used)
    decreases |refs|
  {
    if refs != [] {
      var u := RemoveDevice(s, refs[0], oks[0]).0;
      assert RemoveDevice(s.(used := used), refs[0], oks[0]).0 == u.(used := used);
      ClearAllIgnoresIds(u, refs[1..], oks[1..], used);
    }
  }

  function Downwards<T>(s: seq<T>): (r: seq<T>)
    ensures |r| == |s|
  {
    seq(|s|, j requires 0 <= j < |s| => s[|s| - 1 - j])
  }

  lemma {:induction false} RollBackClears(s: Flows, params: seq<Params>, t: FlowType, dev: Device, n: nat)
    requires n <= |params|
    ensures RollBack(s, params, t, dev, n) == ClearAll(s, Downwards(RefsOf(params[..n], t)), Downwards(ClearsOf(dev, n)))
    decreases n
  {
    if n > 0 {
      var refs, oks := Downwards(RefsOf(params[..n], t)), Downwards(ClearsOf(dev, n));
      assert refs[0] == RefOf(params[n - 1], t) && oks[0] == dev.clear(n - 1);
      assert refs[1..] == Downwards(RefsOf(params[..n - 1], t)) && oks[1..] == Downwards(ClearsOf(dev, n - 1));
      RollBackClears(RemoveDevice(s, RefOf(params[n - 1], t), dev.clear(n - 1)).0, params, t, dev, n - 1);
    }
  }

  // Removing a flow

  /**
   * The device side after a removal: the flow map loses exactly those entries of the flow's device flows that are no
   * trap flow, whose clear succeeds, and that are reached while the counter is not zero; the counter goes down by as
   * many; the trap flows lose all of them.
   */
  lemma RemoveIs(s: Flows, req: RemoveRequest, dev: Device)
    requires req.flowId in s.cache
    requires s.cache[req.flowId].flowType == OtherType ==> s.cache[req.flowId].params == []
    ensures var flow, t := s.cache[req.flowId], Remove(s, req, dev).0;
            var refs, oks := RefsOf(flow.params, flow.flowType), ClearsOf(dev, |flow.params|);
            var gone := TakenOut(s, refs, oks);
            && |gone| <= s.counter
            && t.installed == s.installed - gone
            && t.counter == s.counter - |gone|
            && t.trapped == s.trapped - AsSet(refs)
            && t.cache == s.cache - {req.flowId}
            && t.symmetric == s.symmetric - {SymKey(req.access, req.onu, req.uni, req.techProfile, flow.flowType)}
            && t.idEnd == s.idEnd
  {
    var flow := s.cache[req.flowId];
    var refs, oks := RefsOf(flow.params, flow.flowType), ClearsOf(dev, |flow.params|);
    RemoveFromClears(s, flow.params, flow.flowType, dev, 0);
    assert refs[0..] == refs && oks[0..] == oks;
    ClearAllIs(s, refs, oks);
  }

  /** The removal of a flow that is not there changes nothing. */
  lemma RemoveMissingIs(s: Flows, req: RemoveRequest, dev: Device)
    ensures req.flowId !in s.cache <==> Remove(s, req, dev).1 == NotFound
    ensures req.flowId !in s.cache ==> Remove(s, req, dev).0 == s
    ensures req.flowId in s.cache ==> Remove(s, req, dev).1 == Done(false)
  {
  }

  /** The i-th device flow of the list is an entry of the flow map and the first with its ref to be cleared. */
  lemma HitBeforeIsSmaller(s: Flows, refs: seq<FlowRef>, oks: seq<bool>, j: nat)
    requires |oks| == |refs| && j < |refs| && refs[j] in s.installed && refs[j] !in HitBefore(s, refs, oks, j)
    ensures |HitBefore(s, refs, oks, j)| < |s.installed|
  {
    var before := HitBefore(s, refs, oks, j);
    assert before <= s.installed - {refs[j]};
    SubsetIsSmaller(before, s.installed - {refs[j]});
  }

  lemma SubsetIsSmaller<T>(a: set<T>, b: set<T>)
    requires a <= b
    ensures |a| <= |b|
  {
    assert b == a + (b - a);
  }

  lemma {:induction false} AllTakenOut(s: Flows, refs: seq<FlowRef>, oks: seq<bool>, j: nat)
    requires |oks| == |refs| && j < |refs| && |s.installed| <= s.counter
    requires forall k | 0 <= k < |refs| :: oks[k] && refs[k] !in s.trapped
    requires refs[j] in s.installed
    ensures refs[j] in TakenOut(s, refs, oks)
    decreases j
  {
    assert Hits(s.trapped, refs, oks, j);
    if refs[j] in HitBefore(s, refs, oks, j) {
      var k: nat :| k < j && Hits(s.trapped, refs, oks, k) && refs[k] == refs[j];
      AllTakenOut(s, refs, oks, k);
    } else {
      HitBeforeIsSmaller(s, refs, oks, j);
      assert TakesOut(s, refs, oks, j);
    }
  }

  lemma RefsOfAreRefs(params: seq<Params>, t: FlowType)
    ensures AsSet(RefsOf(params, t)) == Refs(params, t)
  {
    var refs := RefsOf(params, t);
    forall r | r in refs
      ensures r in Refs(params, t)
    {
      var j: nat :| j < |refs| && refs[j] == r;
      assert params[j] in params && r == RefOf(params[j], t);
    }
    forall r | r in Refs(params, t)
      ensures r in refs
    {
      var p :| p in params && r == RefOf(p, t);
      var j: nat :| j < |params| && params[j] == p;
      assert refs[j] == r;
    }
  }

  lemma TakesEverythingOut(s: Flows, refs: seq<FlowRef>, oks: seq<bool>)
    requires |oks| == |refs| && |s.installed| <= s.counter
    requires forall k | 0 <= k < |refs| :: oks[k] && refs[k] !in s.trapped
    ensures TakenOut(s, refs, oks) == AsSet(refs) * s.installed
  {
    forall r | r in refs && r in s.installed
      ensures r in TakenOut(s, refs, oks)
    {
      var j: nat :| j < |refs| && refs[j] == r;
      AllTakenOut(s, refs, oks, j);
    }
  }

  lemma SizeWithout<T>(a: set<T>, b: set<T>)
    ensures a - (b * a) == a - b
    ensures |a - b| == |a| - |b * a|
  {
    assert a == (a - b) + (b * a);
  }

  /** With succeeding clears, no trap flow among them and fewer than 65536 entries, all of them go. */
  lemma RemoveTakesAll(s: Flows, req: RemoveRequest, dev: Device)
    requires req.flowId in s.cache && s.cache[req.flowId].flowType != OtherType
    requires s.counter == |s.installed| && forall j: nat :: dev.clear(j)
    requires Refs(s.cache[req.flowId].params, s.cache[req.flowId].flowType) !! s.trapped
    ensures var flow, t := s.cache[req.flowId], Remove(s, req, dev).0;
            && t.installed == s.installed - Refs(flow.params, flow.flowType)
            && t.counter == |t.installed|
  {
    var flow := s.cache[req.flowId];
    var refs, oks := RefsOf(flow.params, flow.flowType), ClearsOf(dev, |flow.params|);
    RemoveIs(s, req, dev);
    RefsOfAreRefs(flow.params, flow.flowType);
    assert forall k | 0 <= k < |refs| :: refs[k] in AsSet(refs);
    TakesEverythingOut(s, refs, oks);
    SizeWithout(s.installed, Refs(flow.params, flow.flowType));
  }
}
