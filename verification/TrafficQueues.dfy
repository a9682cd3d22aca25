/** Creating and removing a subscriber's traffic queues (agent/src/core_api_handler.cc, agent/src/core_utils.cc). */
module TrafficQueues {
  import opened IdPools
  import opened SchedulerPool
  import opened QueueProfiles
  import QM = QueueMapping

  /** (PON interface, ONU, UNI). */
  datatype Subscriber = Subscriber(intf: int, onu: int, uni: int)

  datatype QosType = FixedQueue | PriorityToQueue

  /** The queue set of a tm_queue key: none for a fixed queue, else a queue mapping profile id. */
  datatype QueueSet = NotUsed | MappedBy(qmp: int)

  datatype QueueKey = QueueKey(schedId: int, queueId: nat, set_: QueueSet)

  datatype QueueRequest = QueueRequest(direction: Direction, priority: nat, pbitMap: string)

  datatype QueuesRequest = QueuesRequest(sub: Subscriber, nniIntf: int, techProfile: int, queues: seq<QueueRequest>)

  /** Device replies: to a queue and its GEM port when created, to the clearing of a queue, to a profile. */
  datatype CreateReply = QueueOk | QueueExists | QueueFails | GemFails

  datatype Status = Done | BadDirection | ProfileOutOfRange | ProfileFails | QueueFailed

  datatype TmState = TmState(
    maxPon: nat,
    scheds: Scheds,
    qmps: QM.Qmps,
    qosTypes: map<Subscriber, QosType>)

  function SchedKeyOf(sub: Subscriber, direction: Direction, techProfile: int): SchedKey {
    SchedKey(sub.intf, sub.onu, sub.uni, direction, techProfile)
  }

  function SubKeyOf(schedId: int, sub: Subscriber): QM.SubKey {
    QM.SubKey(schedId, sub.intf, sub.onu, sub.uni)
  }

  /** The remembered type of a subscriber, else the one its number of queues suggests. */
  function QosTypeOf(qosTypes: map<Subscriber, QosType>, sub: Subscriber, size: nat): QosType {
    if sub in qosTypes then qosTypes[sub] else if size > 1 then PriorityToQueue else FixedQueue
  }

  /** The default NNI scheduler upstream, the subscriber's own one, allocated on demand, otherwise. */
  ghost function SchedIdFor(s: TmState, req: QueuesRequest, direction: Direction): (Scheds, int) {
    if direction == Upstream then (s.scheds, DefaultSchedId(s.maxPon, req.nniIntf, Upstream))
    else Get(s.scheds, SchedKeyOf(req.sub, direction, req.techProfile))
  }

  function QueueKeyFor(qos: QosType, schedId: int, priority: nat, qmp: int): QueueKey {
    if qos == FixedQueue then QueueKey(schedId, 0, NotUsed) else QueueKey(schedId, priority, MappedBy(qmp))
  }

  function PbitMaps(queues: seq<QueueRequest>): (maps: seq<string>)
    ensures |maps| == |queues|
    ensures forall i | 0 <= i < |queues| :: maps[i] == queues[i].pbitMap
  {
    seq(|queues|, i requires 0 <= i < |queues| => queues[i].pbitMap)
  }

  function Priorities(queues: seq<QueueRequest>): (priorities: seq<nat>)
    ensures |priorities| == |queues|
    ensures forall i | 0 <= i < |queues| :: priorities[i] == queues[i].priority
  {
    seq(|queues|, i requires 0 <= i < |queues| => queues[i].priority)
  }

  ghost function ProfileFor(queues: seq<QueueRequest>): (p: Profile)
    ensures forall j | 0 <= j < 8 :: p[j] == WantedQueue(PbitMaps(queues), Priorities(queues), j, |queues|)
  {
    seq(8, j requires 0 <= j < 8 => WantedQueue(PbitMaps(queues), Priorities(queues), j, |queues|))
  }

  predicate DirectionsKnown(queues: seq<QueueRequest>) {
    forall i | 0 <= i < |queues| :: queues[i].direction != Unsupported
  }

  /** The direction the last queue leaves in the loop variable; an empty request leaves an unknown one. */
  function LastDirection(queues: seq<QueueRequest>): Direction {
    if queues == [] then Unsupported else queues[|queues| - 1].direction
  }

  // Creation

  datatype CreateRun = CreateRun(scheds: Scheds, status: Status, configured: seq<QueueKey>)

  /** One queue: its scheduler is looked up before its priority is checked. */
  ghost function CreateQueue(s: TmState, req: QueuesRequest, qos: QosType, queue: QueueRequest, reply: CreateReply): CreateRun {
    var (scheds, schedId) := SchedIdFor(s, req, queue.direction);
    if queue.priority > 7 then CreateRun(scheds, QueueFailed, [])
    else
      var key := QueueKeyFor(qos, schedId, queue.priority, QM.Lookup(s.qmps.refs, SubKeyOf(schedId, req.sub)));
      match reply
      case QueueOk => CreateRun(scheds, Done, [key])
      case QueueExists => CreateRun(scheds, Done, [])
      case QueueFails => CreateRun(scheds, QueueFailed, [])
      case GemFails => CreateRun(scheds, QueueFailed, [key])
  }

  ghost function CreateQueues(s: TmState, req: QueuesRequest, qos: QosType, queues: seq<QueueRequest>,
                              replies: seq<CreateReply>): CreateRun
    requires |replies| == |queues|
    decreases |queues|
  {
    if queues == [] then CreateRun(s.scheds, Done, [])
    else if queues[0].direction == Unsupported then CreateRun(s.scheds, BadDirection, [])
    else
      var first := CreateQueue(s, req, qos, queues[0], replies[0]);
      if first.status != Done then first
      else
        var rest := CreateQueues(s.(scheds := first.scheds), req, qos, queues[1..], replies[1..]);
        rest.(configured := first.configured + rest.configured)
  }

  datatype Created = Created(s: TmState, status: Status, configured: seq<QueueKey>)

  ghost function CreateTrafficQueues(s: TmState, req: QueuesRequest, profileOk: bool, replies: seq<CreateReply>): Created
    requires |replies| == |req.queues|
  {
    var qos := QosTypeOf(s.qosTypes, req.sub, |req.queues|);
    var s0 := s.(qosTypes := s.qosTypes[req.sub := qos]);
    if qos == PriorityToQueue then
      if !DirectionsKnown(req.queues) then Created(s0, BadDirection, [])
      else if !FitsProfile(PbitMaps(req.queues), |req.queues|) then Created(s0, ProfileOutOfRange, [])
      else
        var (scheds, schedId) := SchedIdFor(s0, req, LastDirection(req.queues));
        var (qmps, ok) := QM.Attach(s0.qmps, SubKeyOf(schedId, req.sub), ProfileFor(req.queues), profileOk);
        var s1 := s0.(scheds := scheds, qmps := qmps);
        if !ok then Created(s1, ProfileFails, [])
        else
          var r := CreateQueues(s1, req, qos, req.queues, replies);
          Created(s1.(scheds := r.scheds), r.status, r.configured)
    else
      var r := CreateQueues(s0, req, qos, req.queues, replies);
      Created(s0.(scheds := r.scheds), r.status, r.configured)
  }

  // Removal

  /** The keys cleared for one queue: none upstream, none without a scheduler, none if the device refuses. */
  ghost function QueueToClear(s: TmState, req: QueuesRequest, qos: QosType, queue: QueueRequest): seq<QueueKey> {
    var schedKey := SchedKeyOf(req.sub, Downstream, req.techProfile);
    if queue.direction == Downstream && schedKey in s.scheds.ids then
      var schedId := s.scheds.ids[schedKey];
      [QueueKeyFor(qos, schedId, queue.priority, QM.Lookup(s.qmps.refs, SubKeyOf(schedId, req.sub)))]
    else []
  }

  /** A queue whose removal looks its priority up: a downstream one whose scheduler is known. */
  predicate LooksUpPriority(ids: map<SchedKey, nat>, req: QueuesRequest, queue: QueueRequest) {
    queue.direction == Downstream && SchedKeyOf(req.sub, Downstream, req.techProfile) in ids
  }

  datatype RemoveRun = RemoveRun(status: Status, cleared: seq<QueueKey>)

  ghost function RemoveQueues(s: TmState, req: QueuesRequest, qos: QosType, queues: seq<QueueRequest>,
                              replies: seq<bool>, status: Status): RemoveRun
    requires |replies| == |queues|
    decreases |queues|
  {
    if queues == [] then RemoveRun(status, [])
    else if queues[0].direction == Unsupported then RemoveRun(BadDirection, [])
    else
      var keys := QueueToClear(s, req, qos, queues[0]);
      var failed := keys != [] && !replies[0];
      var rest := RemoveQueues(s, req, qos, queues[1..], replies[1..], if failed then QueueFailed else status);
      rest.(cleared := (if failed then [] else keys) + rest.cleared)
  }

  datatype Removed = Removed(s: TmState, status: Status, cleared: seq<QueueKey>)

  ghost function RemoveTrafficQueues(s: TmState, req: QueuesRequest, replies: seq<bool>, profileOk: bool, unset: bool): Removed
    requires |replies| == |req.queues|
  {
    var qos := QosTypeOf(s.qosTypes, req.sub, |req.queues|);
    var s0 := s.(qosTypes := s.qosTypes[req.sub := qos]);
    var r := RemoveQueues(s0, req, qos, req.queues, replies, Done);
    var direction := LastDirection(req.queues);
    var schedKey := SchedKeyOf(req.sub, direction, req.techProfile);
    if r.status == BadDirection then Removed(s0, BadDirection, r.cleared)
    else if qos == PriorityToQueue && (direction == Upstream || (direction == Downstream && schedKey in s.scheds.ids)) then
      var (_, schedId) := SchedIdFor(s0, req, direction);
      var (qmps, last) := QM.Detach(s0.qmps, SubKeyOf(schedId, req.sub), unset);
      var s1 := s0.(qmps := qmps);
      if last && !profileOk then Removed(s1, ProfileFails, r.cleared)
      else Removed(s1.(qosTypes := s1.qosTypes - {req.sub}), r.status, r.cleared)
    else Removed(s0.(qosTypes := s0.qosTypes - {req.sub}), r.status, r.cleared)
  }

  // What other subscribers' requests leave alone

  datatype TmOp =
    | CreateOp(req: QueuesRequest, profileOk: bool, createReplies: seq<CreateReply>)
    | RemoveOp(req: QueuesRequest, replies: seq<bool>, profileOk: bool, unset: bool)
    | CreateSchedOp(sub: Subscriber, direction: Direction, techProfile: int)
    | RemoveSchedOp(sub: Subscriber, direction: Direction, techProfile: int, ok: bool)

  function OpSubscriber(op: TmOp): Subscriber {
    match op
    case CreateOp(req, _, _) => req.sub
    case RemoveOp(req, _, _, _) => req.sub
    case CreateSchedOp(sub, _, _) => sub
    case RemoveSchedOp(sub, _, _, _) => sub
  }

  predicate WellFormed(op: TmOp) {
    match op
    case CreateOp(req, _, replies) => |replies| == |req.queues|
    case RemoveOp(req, replies, _, _) => |replies| == |req.queues|
    case CreateSchedOp(_, _, _) => true
    case RemoveSchedOp(_, _, _, _) => true
  }

  ghost function Apply(s: TmState, op: TmOp): TmState
    requires WellFormed(op)
  {
    match op
    case CreateOp(req, profileOk, replies) => CreateTrafficQueues(s, req, profileOk, replies).s
    case RemoveOp(req, replies, profileOk, unset) => RemoveTrafficQueues(s, req, replies, profileOk, unset).s
    case CreateSchedOp(sub, direction, techProfile) =>
      if direction == Downstream then s.(scheds := Get(s.scheds, SchedKeyOf(sub, direction, techProfile)).0) else s
    case RemoveSchedOp(sub, direction, techProfile, ok) =>
      if ok then s.(scheds := Free(s.scheds, SchedKeyOf(sub, direction, techProfile))) else s
  }

  ghost function ApplyAll(s: TmState, ops: seq<TmOp>): TmState
    requires forall i | 0 <= i < |ops| :: WellFormed(ops[i])
    decreases |ops|
  {
    if ops == [] then s else ApplyAll(Apply(s, ops[0]), ops[1..])
  }

  ghost predicate SameSched(s: Scheds, t: Scheds, sub: Subscriber) {
    forall d, tp ::
      var key := SchedKeyOf(sub, d, tp);
      (key in s.ids <==> key in t.ids) && (key in s.ids ==> s.ids[key] == t.ids[key])
  }

  ghost predicate SameRefs(s: QM.Qmps, t: QM.Qmps, sub: Subscriber) {
    forall id ::
      var key := SubKeyOf(id, sub);
      (key in s.refs <==> key in t.refs) && (key in s.refs ==> s.refs[key] == t.refs[key])
  }

  /** Nothing kept about this subscriber differs. */
  ghost predicate SameFor(s: TmState, t: TmState, sub: Subscriber) {
    && s.maxPon == t.maxPon
    && SameSched(s.scheds, t.scheds, sub)
    && SameRefs(s.qmps, t.qmps, sub)
    && (sub in s.qosTypes <==> sub in t.qosTypes)
    && (sub in s.qosTypes ==> s.qosTypes[sub] == t.qosTypes[sub])
  }

  lemma GetLeavesOthers(s: Scheds, key: SchedKey, sub: Subscriber)
    requires Subscriber(key.intf, key.onu, key.uni) != sub
    ensures SameSched(s, Get(s, key).0, sub)
  {
  }

  lemma {:induction false} CreateQueuesLeavesOthers(
    s: TmState, req: QueuesRequest, qos: QosType, queues: seq<QueueRequest>, replies: seq<CreateReply>, sub: Subscriber)
    requires |replies| == |queues| && req.sub != sub
    ensures SameSched(s.scheds, CreateQueues(s, req, qos, queues, replies).scheds, sub)
    decreases |queues|
  {
    if queues != [] && queues[0].direction != Unsupported {
      var first := CreateQueue(s, req, qos, queues[0], replies[0]);
      GetLeavesOthers(s.scheds, SchedKeyOf(req.sub, queues[0].direction, req.techProfile), sub);
      if first.status == Done {
        CreateQueuesLeavesOthers(s.(scheds := first.scheds), req, qos, queues[1..], replies[1..], sub);
      }
    }
  }

  lemma AttachLeavesOthers(q: QM.Qmps, schedId: int, other: Subscriber, p: Profile, ok: bool, sub: Subscriber)
    requires other != sub
    ensures SameRefs(q, QM.Attach(q, SubKeyOf(schedId, other), p, ok).0, sub)
  {
  }

  lemma DetachLeavesOthers(q: QM.Qmps, schedId: int, other: Subscriber, unset: bool, sub: Subscriber)
    requires other != sub
    ensures SameRefs(q, QM.Detach(q, SubKeyOf(schedId, other), unset).0, sub)
  {
  }

  lemma CreateLeavesOthers(s: TmState, req: QueuesRequest, profileOk: bool, replies: seq<CreateReply>, sub: Subscriber)
    requires |replies| == |req.queues| && req.sub != sub
    ensures SameFor(s, CreateTrafficQueues(s, req, profileOk, replies).s, sub)
  {
    var qos := QosTypeOf(s.qosTypes, req.sub, |req.queues|);
    var s0 := s.(qosTypes := s.qosTypes[req.sub := qos]);
    if qos == PriorityToQueue {
      var d := LastDirection(req.queues);
      var (scheds, schedId) := SchedIdFor(s0, req, d);
      GetLeavesOthers(s.scheds, SchedKeyOf(req.sub, d, req.techProfile), sub);
      AttachLeavesOthers(s.qmps, schedId, req.sub, ProfileFor(req.queues), profileOk, sub);
      var qmps := QM.Attach(s0.qmps, SubKeyOf(schedId, req.sub), ProfileFor(req.queues), profileOk).0;
      CreateQueuesLeavesOthers(s0.(scheds := scheds, qmps := qmps), req, qos, req.queues, replies, sub);
    } else {
      CreateQueuesLeavesOthers(s0, req, qos, req.queues, replies, sub);
    }
  }

  lemma RemoveLeavesOthers(s: TmState, req: QueuesRequest, replies: seq<bool>, profileOk: bool, unset: bool, sub: Subscriber)
    requires |replies| == |req.queues| && req.sub != sub
    ensures SameFor(s, RemoveTrafficQueues(s, req, replies, profileOk, unset).s, sub)
  {
    var d := LastDirection(req.queues);
    var (_, schedId) := SchedIdFor(s, req, d);
    DetachLeavesOthers(s.qmps, schedId, req.sub, unset, sub);
  }

  lemma ApplyLeavesOthers(s: TmState, op: TmOp, sub: Subscriber)
    requires WellFormed(op) && OpSubscriber(op) != sub
    ensures SameFor(s, Apply(s, op), sub)
  {
    match op
    case CreateOp(req, profileOk, replies) => CreateLeavesOthers(s, req, profileOk, replies, sub);
    case RemoveOp(req, replies, profileOk, unset) => RemoveLeavesOthers(s, req, replies, profileOk, unset, sub);
    case CreateSchedOp(other, d, tp) => GetLeavesOthers(s.scheds, SchedKeyOf(other, d, tp), sub);
    case RemoveSchedOp(other, d, tp, ok) =>
  }

  /** Whatever is requested for other subscribers, with whatever replies, nothing kept about this one changes. */
  lemma {:induction false} OthersLeaveSubscriberAlone(s: TmState, ops: seq<TmOp>, sub: Subscriber)
    requires forall i | 0 <= i < |ops| :: WellFormed(ops[i]) && OpSubscriber(ops[i]) != sub
    ensures SameFor(s, ApplyAll(s, ops), sub)
    decreases |ops|
  {
    if ops != [] {
      ApplyLeavesOthers(s, ops[0], sub);
      var t := Apply(s, ops[0]);
      OthersLeaveSubscriberAlone(t, ops[1..], sub);
    }
  }

  // Creation and removal compute the same keys

  predicate AllDownstream(queues: seq<QueueRequest>) {
    forall i | 0 <= i < |queues| :: queues[i].direction == Downstream && queues[i].priority < 8
  }

  function KeysOf(queues: seq<QueueRequest>, qos: QosType, schedId: int, qmp: int): seq<QueueKey> {
    if queues == [] then []
    else [QueueKeyFor(qos, schedId, queues[0].priority, qmp)] + KeysOf(queues[1..], qos, schedId, qmp)
  }

  lemma {:induction false} CreateQueuesKeys(
    s: TmState, req: QueuesRequest, qos: QosType, queues: seq<QueueRequest>, replies: seq<CreateReply>, schedId: int)
    requires |replies| == |queues| && AllDownstream(queues)
    requires forall i | 0 <= i < |replies| :: replies[i] == QueueOk
    requires Get(s.scheds, SchedKeyOf(req.sub, Downstream, req.techProfile)).1 == schedId != -1
    ensures var r := CreateQueues(s, req, qos, queues, replies);
            && r.status == Done
            && r.configured == KeysOf(queues, qos, schedId, QM.Lookup(s.qmps.refs, SubKeyOf(schedId, req.sub)))
            && r.scheds == if queues == [] then s.scheds
                           else Get(s.scheds, SchedKeyOf(req.sub, Downstream, req.techProfile)).0
    decreases |queues|
  {
    if queues != [] {
      assert queues[0].direction == Downstream && replies[0] == QueueOk;
      var first := CreateQueue(s, req, qos, queues[0], replies[0]);
      CreateQueuesKeys(s.(scheds := first.scheds), req, qos, queues[1..], replies[1..], schedId);
    }
  }

  lemma {:induction false} RemoveQueuesKeys(
    s: TmState, req: QueuesRequest, qos: QosType, queues: seq<QueueRequest>, replies: seq<bool>, schedId: int)
    requires |replies| == |queues| && AllDownstream(queues)
    requires forall i | 0 <= i < |replies| :: replies[i]
    requires queues != [] ==> SchedKeyOf(req.sub, Downstream, req.techProfile) in s.scheds.ids
    requires queues != [] ==> s.scheds.ids[SchedKeyOf(req.sub, Downstream, req.techProfile)] == schedId
    ensures RemoveQueues(s, req, qos, queues, replies, Done)
         == RemoveRun(Done, KeysOf(queues, qos, schedId, QM.Lookup(s.qmps.refs, SubKeyOf(schedId, req.sub))))
    decreases |queues|
  {
    if queues != [] {
      assert queues[0].direction == Downstream && replies[0];
      RemoveQueuesKeys(s, req, qos, queues[1..], replies[1..], schedId);
    }
  }

  /** Nothing is kept about the subscriber but possibly its schedulers. */
  ghost predicate FreshSubscriber(s: TmState, sub: Subscriber) {
    sub !in s.qosTypes && forall id :: SubKeyOf(id, sub) !in s.qmps.refs
  }

  /** A scheduler id and a profile id are to be had. */
  ghost predicate PoolsSuffice(s: TmState, req: QueuesRequest) {
    && Get(s.scheds, SchedKeyOf(req.sub, Downstream, req.techProfile)).1 != -1
    && (|req.queues| > 1 ==>
          QM.Find(s.qmps.profiles, ProfileFor(req.queues)) != -1 || LowestFree(s.qmps.used, 0, QM.MAX_TM_QMP_ID) < QM.MAX_TM_QMP_ID)
  }

  /** Has the subscriber's queues set up, as far as the tables go. */
  ghost predicate SetUp(s: TmState, req: QueuesRequest, schedId: int) {
    var key := SchedKeyOf(req.sub, Downstream, req.techProfile);
    && req.sub in s.qosTypes
    && s.qosTypes[req.sub] == (if |req.queues| > 1 then PriorityToQueue else FixedQueue)
    && (req.queues != [] ==> key in s.scheds.ids && s.scheds.ids[key] == schedId)
    && (forall id | id != schedId || |req.queues| <= 1 :: SubKeyOf(id, req.sub) !in s.qmps.refs)
  }

  lemma SetUpSurvives(s: TmState, t: TmState, req: QueuesRequest, schedId: int)
    requires SetUp(s, req, schedId) && SameFor(s, t, req.sub)
    ensures SetUp(t, req, schedId)
    ensures t.qosTypes[req.sub] == s.qosTypes[req.sub]
    ensures QM.Lookup(t.qmps.refs, SubKeyOf(schedId, req.sub)) == QM.Lookup(s.qmps.refs, SubKeyOf(schedId, req.sub))
  {
    var key := SchedKeyOf(req.sub, Downstream, req.techProfile);
    assert key in s.scheds.ids <==> key in t.scheds.ids;
    forall id | id != schedId || |req.queues| <= 1
      ensures SubKeyOf(id, req.sub) !in t.qmps.refs
    {
      assert SubKeyOf(id, req.sub) !in s.qmps.refs;
    }
  }

  lemma CreateFresh(s: TmState, req: QueuesRequest, replies: seq<CreateReply>)
    requires FreshSubscriber(s, req.sub) && PoolsSuffice(s, req)
    requires AllDownstream(req.queues)
    requires |req.queues| > 1 ==> FitsProfile(PbitMaps(req.queues), |req.queues|)
    requires |replies| == |req.queues| && forall i | 0 <= i < |replies| :: replies[i] == QueueOk
    ensures var c := CreateTrafficQueues(s, req, true, replies);
            var schedId := Get(s.scheds, SchedKeyOf(req.sub, Downstream, req.techProfile)).1;
            && c.status == Done
            && SetUp(c.s, req, schedId)
            && c.configured == KeysOf(req.queues, c.s.qosTypes[req.sub], schedId, QM.Lookup(c.s.qmps.refs, SubKeyOf(schedId, req.sub)))
  {
    var key := SchedKeyOf(req.sub, Downstream, req.techProfile);
    var (scheds, schedId) := Get(s.scheds, key);
    var qos := QosTypeOf(s.qosTypes, req.sub, |req.queues|);
    var s0 := s.(qosTypes := s.qosTypes[req.sub := qos]);
    if qos == PriorityToQueue {
      assert LastDirection(req.queues) == Downstream;
      var (qmps, ok) := QM.Attach(s0.qmps, SubKeyOf(schedId, req.sub), ProfileFor(req.queues), true);
      assert ok;
      var s1 := s0.(scheds := scheds, qmps := qmps);
      CreateQueuesKeys(s1, req, qos, req.queues, replies, schedId);
    } else {
      CreateQueuesKeys(s0, req, qos, req.queues, replies, schedId);
    }
  }

  /** Removal when the subscriber has a QoS type and, if it has queues, this scheduler and no other profile reference. */
  lemma RemoveKnown(t: TmState, req: QueuesRequest, replies: seq<bool>, unset: bool, schedId: int)
    requires SetUp(t, req, schedId) && AllDownstream(req.queues)
    requires |replies| == |req.queues| && forall i | 0 <= i < |replies| :: replies[i]
    ensures var r := RemoveTrafficQueues(t, req, replies, true, unset);
            && r.status == Done
            && r.cleared == KeysOf(req.queues, t.qosTypes[req.sub], schedId, QM.Lookup(t.qmps.refs, SubKeyOf(schedId, req.sub)))
            && FreshSubscriber(r.s, req.sub)
  {
    var qos := t.qosTypes[req.sub];
    assert t.(qosTypes := t.qosTypes[req.sub := qos]) == t;
    RemoveQueuesKeys(t, req, qos, req.queues, replies, schedId);
    var r := RemoveTrafficQueues(t, req, replies, true, unset);
    if qos == PriorityToQueue {
      assert LastDirection(req.queues) == Downstream;
      assert r.s.qmps == QM.Detach(t.qmps, SubKeyOf(schedId, req.sub), unset).0;
    }
  }

  /**
   * The removal of a fresh downstream subscriber's queues, by the request that created them and with succeeding
   * device calls, clears exactly the tm_queue keys the creation configured and forgets the subscriber's QoS type and
   * profile reference - whatever was done for other subscribers in between.
   */
  lemma RemovalUndoesCreation(
    s: TmState, req: QueuesRequest, createReplies: seq<CreateReply>, others: seq<TmOp>, removeReplies: seq<bool>, unset: bool)
    requires FreshSubscriber(s, req.sub) && PoolsSuffice(s, req)
    requires AllDownstream(req.queues)
    requires |req.queues| > 1 ==> FitsProfile(PbitMaps(req.queues), |req.queues|)
    requires |createReplies| == |req.queues| && forall i | 0 <= i < |createReplies| :: createReplies[i] == QueueOk
    requires forall i | 0 <= i < |others| :: WellFormed(others[i]) && OpSubscriber(others[i]) != req.sub
    requires |removeReplies| == |req.queues| && forall i | 0 <= i < |removeReplies| :: removeReplies[i]
    ensures var c := CreateTrafficQueues(s, req, true, createReplies);
            var r := RemoveTrafficQueues(ApplyAll(c.s, others), req, removeReplies, true, unset);
            && c.status == Done && r.status == Done
            && |c.configured| == |req.queues|
            && r.cleared == c.configured
            && FreshSubscriber(r.s, req.sub)
  {
    var c := CreateTrafficQueues(s, req, true, createReplies);
    var schedId := Get(s.scheds, SchedKeyOf(req.sub, Downstream, req.techProfile)).1;
    CreateFresh(s, req, createReplies);
    var t := ApplyAll(c.s, others);
    OthersLeaveSubscriberAlone(c.s, others, req.sub);
    SetUpSurvives(c.s, t, req, schedId);
    RemoveKnown(t, req, removeReplies, unset, schedId);
    KeysLength(req.queues, t.qosTypes[req.sub], schedId, QM.Lookup(t.qmps.refs, SubKeyOf(schedId, req.sub)));
  }

  lemma {:induction false} KeysLength(queues: seq<QueueRequest>, qos: QosType, schedId: int, qmp: int)
    ensures |KeysOf(queues, qos, schedId, qmp)| == |queues|
  {
    if queues != [] {
      KeysLength(queues[1..], qos, schedId, qmp);
    }
  }
}
