/** Which traffic queues the handlers configure and clear, and where they stop (agent/src/core_api_handler.cc). */
module QueueEffects {
  import opened IdPools
  import opened SchedulerPool
  import opened QueueProfiles
  import opened TrafficQueues
  import QM = QueueMapping

  /** The scheduler under which a subscriber's queues of a direction go; -1 if it has none and none is to be had. */
  ghost function SchedOf(s: TmState, req: QueuesRequest, direction: Direction): int {
    if direction == Upstream then (if s.maxPon == 16 then 1020 else 1014) + req.nniIntf
    else Get(s.scheds, SchedKey(req.sub.intf, req.sub.onu, req.sub.uni, direction, req.techProfile)).1
  }

  /** The key of one queue: a fixed queue is queue 0 of no set, any other one the queue of its priority in its set. */
  ghost function KeyAt(s: TmState, req: QueuesRequest, qos: QosType, queue: QueueRequest): QueueKey {
    var schedId := SchedOf(s, req, queue.direction);
    var sub := QM.SubKey(schedId, req.sub.intf, req.sub.onu, req.sub.uni);
    match qos
    case FixedQueue => QueueKey(schedId, 0, NotUsed)
    case PriorityToQueue => QueueKey(schedId, queue.priority, MappedBy(if sub in s.qmps.refs then s.qmps.refs[sub] else -1))
  }

  // Creating queue after queue

  /** The creation fails at this queue. */
  predicate Fails(queue: QueueRequest, reply: CreateReply) {
    queue.direction == Unsupported || queue.priority > 7 || reply == QueueFails || reply == GemFails
  }

  /** The creation configures this queue on the device; it may fail all the same, for its GEM port. */
  predicate Configures(queue: QueueRequest, reply: CreateReply) {
    queue.direction != Unsupported && queue.priority <= 7 && (reply == QueueOk || reply == GemFails)
  }

  /** How many queues are looked at: all up to and including the first that fails. */
  function LookedAt(queues: seq<QueueRequest>, replies: seq<CreateReply>): (n: nat)
    requires |replies| == |queues|
    ensures n <= |queues|
    ensures forall i | 0 <= i < n - 1 :: !Fails(queues[i], replies[i])
    ensures n < |queues| ==> n > 0 && Fails(queues[n - 1], replies[n - 1])
  {
    if queues == [] then 0
    else if Fails(queues[0], replies[0]) then 1
    else 1 + LookedAt(queues[1..], replies[1..])
  }

  /** The keys of those of the queues that are marked, in order. */
  ghost function KeysWhere(s: TmState, req: QueuesRequest, qos: QosType, queues: seq<QueueRequest>, marked: seq<bool>): seq<QueueKey>
    requires |marked| == |queues|
  {
    if queues == [] then []
    else (if marked[0] then [KeyAt(s, req, qos, queues[0])] else []) + KeysWhere(s, req, qos, queues[1..], marked[1..])
  }

  function ConfiguredMarks(queues: seq<QueueRequest>, replies: seq<CreateReply>): (marked: seq<bool>)
    requires |replies| == |queues|
    ensures |marked| == |queues|
  {
    seq(|queues|, i requires 0 <= i < |queues| => Configures(queues[i], replies[i]))
  }

  lemma KeyAtIsStable(s: TmState, req: QueuesRequest, qos: QosType, queue: QueueRequest, direction: Direction)
    requires queue.direction != Unsupported && direction != Unsupported
    ensures var (scheds, _) := SchedIdFor(s, req, direction);
            KeyAt(s.(scheds := scheds), req, qos, queue) == KeyAt(s, req, qos, queue)
  {
  }

  lemma {:induction false} KeysWhereAreStable(s: TmState, req: QueuesRequest, qos: QosType, queues: seq<QueueRequest>,
                                              marked: seq<bool>, direction: Direction)
    requires |marked| == |queues| && direction != Unsupported
    requires forall i | 0 <= i < |queues| && marked[i] :: queues[i].direction != Unsupported
    ensures var (scheds, _) := SchedIdFor(s, req, direction);
            KeysWhere(s.(scheds := scheds), req, qos, queues, marked) == KeysWhere(s, req, qos, queues, marked)
    decreases |queues|
  {
    if queues != [] {
      if marked[0] {
        KeyAtIsStable(s, req, qos, queues[0], direction);
      }
      KeysWhereAreStable(s, req, qos, queues[1..], marked[1..], direction);
    }
  }

  lemma OneQueueIs(s: TmState, req: QueuesRequest, qos: QosType, queue: QueueRequest, reply: CreateReply)
    requires queue.direction != Unsupported
    ensures var r := CreateQueue(s, req, qos, queue, reply);
            && r.scheds == SchedIdFor(s, req, queue.direction).0
            && r.status == (if Fails(queue, reply) then QueueFailed else Done)
            && r.configured == if Configures(queue, reply) then [KeyAt(s, req, qos, queue)] else []
  {
  }

  /**
   * Queue after queue is configured under its key until one fails, and that one is configured too if only its GEM port
   * failed. A queue that exists already is passed over.
   */
  lemma {:induction false} CreateQueuesIs(
    s: TmState, req: QueuesRequest, qos: QosType, queues: seq<QueueRequest>, replies: seq<CreateReply>)
    requires |replies| == |queues|
    ensures var r, n := CreateQueues(s, req, qos, queues, replies), LookedAt(queues, replies);
            && r.configured == KeysWhere(s, req, qos, queues[..n], ConfiguredMarks(queues[..n], replies[..n]))
            && r.status == (if n == 0 || !Fails(queues[n - 1], replies[n - 1]) then Done
                            else if queues[n - 1].direction == Unsupported then BadDirection else QueueFailed)
    decreases |queues|
  {
    if queues != [] {
      var n := LookedAt(queues, replies);
      var marks := ConfiguredMarks(queues[..n], replies[..n]);
      if queues[0].direction != Unsupported {
        OneQueueIs(s, req, qos, queues[0], replies[0]);
      }
      assert queues[..n][0] == queues[0];
      if Fails(queues[0], replies[0]) {
        assert queues[..n][1..] == [] && marks[1..] == [];
      } else {
        var t := s.(scheds := SchedIdFor(s, req, queues[0].direction).0);
        CreateQueuesIs(t, req, qos, queues[1..], replies[1..]);
        assert queues[..n][1..] == queues[1..][..n - 1];
        assert marks[1..] == ConfiguredMarks(queues[1..][..n - 1], replies[1..][..n - 1]);
        KeysWhereAreStable(s, req, qos, queues[..n][1..], marks[1..], queues[0].direction);
      }
    }
  }

  /** A scheduler id is taken at most for the downstream direction, and only if a downstream queue is looked at. */
  lemma {:induction false} CreateQueuesScheds(
    s: TmState, req: QueuesRequest, qos: QosType, queues: seq<QueueRequest>, replies: seq<CreateReply>)
    requires |replies| == |queues|
    ensures CreateQueues(s, req, qos, queues, replies).scheds
         == if exists i :: 0 <= i < LookedAt(queues, replies) && queues[i].direction == Downstream
            then Get(s.scheds, SchedKey(req.sub.intf, req.sub.onu, req.sub.uni, Downstream, req.techProfile)).0
            else s.scheds
    decreases |queues|
  {
    if queues != [] && queues[0].direction != Unsupported {
      OneQueueIs(s, req, qos, queues[0], replies[0]);
      if !Fails(queues[0], replies[0]) {
        CreateQueuesScheds(s.(scheds := SchedIdFor(s, req, queues[0].direction).0), req, qos, queues[1..], replies[1..]);
        forall i | 0 < i < |queues|
          ensures queues[i] == queues[1..][i - 1]
        {
        }
      }
    }
  }

  // Removing queue after queue

  /** The removal clears this queue on the device, or tries to. */
  predicate Tries(s: TmState, req: QueuesRequest, queue: QueueRequest) {
    && queue.direction == Downstream
    && SchedKey(req.sub.intf, req.sub.onu, req.sub.uni, Downstream, req.techProfile) in s.scheds.ids
  }

  function ClearedMarks(s: TmState, req: QueuesRequest, queues: seq<QueueRequest>, replies: seq<bool>): (marked: seq<bool>)
    requires |replies| == |queues|
    ensures |marked| == |queues|
  {
    seq(|queues|, i requires 0 <= i < |queues| => Tries(s, req, queues[i]) && replies[i])
  }

  /** Some clear of the removal fails. */
  ghost predicate SomeClearFails(s: TmState, req: QueuesRequest, queues: seq<QueueRequest>, replies: seq<bool>)
    requires |replies| == |queues|
  {
    exists i :: 0 <= i < |queues| && Tries(s, req, queues[i]) && !replies[i]
  }

  lemma SomeClearFailsFirst(s: TmState, req: QueuesRequest, queues: seq<QueueRequest>, replies: seq<bool>)
    requires |replies| == |queues| && queues != []
    ensures SomeClearFails(s, req, queues, replies)
       <==> (Tries(s, req, queues[0]) && !replies[0]) || SomeClearFails(s, req, queues[1..], replies[1..])
  {
    if SomeClearFails(s, req, queues, replies) {
      var i :| 0 <= i < |queues| && Tries(s, req, queues[i]) && !replies[i];
      assert i == 0 || (queues[1..][i - 1] == queues[i] && replies[1..][i - 1] == replies[i]);
    }
    if SomeClearFails(s, req, queues[1..], replies[1..]) {
      var i :| 0 <= i < |queues[1..]| && Tries(s, req, queues[1..][i]) && !replies[1..][i];
      assert queues[i + 1] == queues[1..][i] && replies[i + 1] == replies[1..][i];
    }
  }

  /**
   * The removal clears every downstream queue, if the subscriber's scheduler is known, and goes on after a failure; no
   * upstream queue is cleared.
   */
  lemma {:induction false} RemoveQueuesIs(
    s: TmState, req: QueuesRequest, qos: QosType, queues: seq<QueueRequest>, replies: seq<bool>, status: Status)
    requires |replies| == |queues| && DirectionsKnown(queues)
    ensures RemoveQueues(s, req, qos, queues, replies, status) ==
              RemoveRun(if SomeClearFails(s, req, queues, replies) then QueueFailed else status,
                        KeysWhere(s, req, qos, queues, ClearedMarks(s, req, queues, replies)))
    decreases |queues|
  {
    if queues != [] {
      assert ClearedMarks(s, req, queues, replies)[1..] == ClearedMarks(s, req, queues[1..], replies[1..]);
      SomeClearFailsFirst(s, req, queues, replies);
      var failed := Tries(s, req, queues[0]) && !replies[0];
      RemoveQueuesIs(s, req, qos, queues[1..], replies[1..], if failed then QueueFailed else status);
    }
  }

  // The handlers

  /** The type a subscriber keeps once it has one; before that, more than one queue makes it priority-to-queue. */
  lemma QosTypeMeans(qosTypes: map<Subscriber, QosType>, sub: Subscriber, size: nat)
    ensures sub in qosTypes ==> QosTypeOf(qosTypes, sub, size) == qosTypes[sub]
    ensures sub !in qosTypes ==> (QosTypeOf(qosTypes, sub, size) == PriorityToQueue <==> size > 1)
  {
  }

  /** Bit 8 or higher is set in some map. */
  ghost predicate ReachesPast(queues: seq<QueueRequest>) {
    exists i, j: nat :: 0 <= i < |queues| && j >= 8 && HasBit(queues[i].pbitMap, j)
  }

  /** The profile of a request: for each bit the priority of the last queue that has it, 0 if none. */
  ghost predicate IsProfileOf(profile: Profile, queues: seq<QueueRequest>) {
    forall j: nat | j < 8 ::
      if exists i :: 0 <= i < |queues| && HasBit(queues[i].pbitMap, j) then
        exists i :: 0 <= i < |queues| && HasBit(queues[i].pbitMap, j) && profile[j] == queues[i].priority
                    && forall k | i < k < |queues| :: !HasBit(queues[k].pbitMap, j)
      else profile[j] == 0
  }

  lemma ProfileIsThat(queues: seq<QueueRequest>)
    ensures IsProfileOf(ProfileFor(queues), queues)
  {
    forall j: nat | j < 8
      ensures if exists i :: 0 <= i < |queues| && HasBit(queues[i].pbitMap, j) then
                exists i :: 0 <= i < |queues| && HasBit(queues[i].pbitMap, j) && ProfileFor(queues)[j] == queues[i].priority
                            && forall k | i < k < |queues| :: !HasBit(queues[k].pbitMap, j)
              else ProfileFor(queues)[j] == 0
    {
      var last := LastWithBit(PbitMaps(queues), j, |queues|);
      if last >= 0 {
        assert HasBit(queues[last].pbitMap, j) && ProfileFor(queues)[j] == queues[last].priority;
        assert forall k | last < k < |queues| :: !HasBit(queues[k].pbitMap, j);
      } else {
        assert forall k | 0 <= k < |queues| :: !HasBit(queues[k].pbitMap, j);
      }
    }
  }

  /** s with the subscriber's type remembered. */
  ghost function WithType(s: TmState, req: QueuesRequest): TmState {
    s.(qosTypes := s.qosTypes[req.sub := QosTypeOf(s.qosTypes, req.sub, |req.queues|)])
  }

  /**
   * Creation: the type is remembered. Several queues need directions that are known, then maps that fit the profile,
   * then the profile itself, for the scheduler of the last queue's direction; and then queue after queue is created.
   */
  lemma CreateIs(s: TmState, req: QueuesRequest, profileOk: bool, replies: seq<CreateReply>, profile: Profile)
    requires |replies| == |req.queues| && profile == ProfileFor(req.queues)
    ensures var c, t := CreateTrafficQueues(s, req, profileOk, replies), WithType(s, req);
            var qos := t.qosTypes[req.sub];
            if qos == FixedQueue then
              var r := CreateQueues(t, req, qos, req.queues, replies);
              c == Created(t.(scheds := r.scheds), r.status, r.configured)
            else if !DirectionsKnown(req.queues) then c == Created(t, BadDirection, [])
            else if ReachesPast(req.queues) then c == Created(t, ProfileOutOfRange, [])
            else
              var direction := if req.queues == [] then Unsupported else req.queues[|req.queues| - 1].direction;
              var sub := QM.SubKey(SchedOf(t, req, direction), req.sub.intf, req.sub.onu, req.sub.uni);
              var (qmps, ok) := QM.Attach(t.qmps, sub, profile, profileOk);
              var u := t.(scheds := SchedIdFor(t, req, direction).0, qmps := qmps);
              if !ok then c == Created(u, ProfileFails, [])
              else
                var r := CreateQueues(u, req, qos, req.queues, replies);
                c == Created(u.(scheds := r.scheds), r.status, r.configured)
  {
    var t := WithType(s, req);
    if FitsProfile(PbitMaps(req.queues), |req.queues|) {
      assert !ReachesPast(req.queues);
    } else {
      var i, j: nat :| 0 <= i < |req.queues| && HasBit(PbitMaps(req.queues)[i], j) && j >= 8;
      assert HasBit(req.queues[i].pbitMap, j);
    }
  }

  /**
   * Removal: queue after queue is cleared. For several queues the profile is then released, upstream always and
   * downstream if the scheduler is known; if its removal fails the type stays, else it is forgotten.
   */
  lemma RemoveIs(s: TmState, req: QueuesRequest, replies: seq<bool>, profileOk: bool, unset: bool)
    requires |replies| == |req.queues| && DirectionsKnown(req.queues)
    ensures var d, t := RemoveTrafficQueues(s, req, replies, profileOk, unset), WithType(s, req);
            var qos := t.qosTypes[req.sub];
            var direction := if req.queues == [] then Unsupported else req.queues[|req.queues| - 1].direction;
            var key := SchedKey(req.sub.intf, req.sub.onu, req.sub.uni, direction, req.techProfile);
            var sub := QM.SubKey(SchedOf(t, req, direction), req.sub.intf, req.sub.onu, req.sub.uni);
            var releases := qos == PriorityToQueue && (direction == Upstream || (direction == Downstream && key in s.scheds.ids));
            var (qmps, last) := if releases then QM.Detach(t.qmps, sub, unset) else (t.qmps, false);
            && d.cleared == KeysWhere(s, req, qos, req.queues, ClearedMarks(s, req, req.queues, replies))
            && d.s.scheds == s.scheds && d.s.maxPon == s.maxPon && d.s.qmps == qmps
            && (d.status == ProfileFails <==> last && !profileOk)
            && (d.status == QueueFailed <==>
                  d.status != ProfileFails && SomeClearFails(s, req, req.queues, replies))
            && (d.status == ProfileFails || d.status == QueueFailed || d.status == Done)
            && d.s.qosTypes == if d.status == ProfileFails then t.qosTypes else s.qosTypes - {req.sub}
  {
    var t := WithType(s, req);
    ClearingIgnoresTypes(s, req, replies);
    assert t.qosTypes - {req.sub} == s.qosTypes - {req.sub};
  }

  lemma ClearingIgnoresTypes(s: TmState, req: QueuesRequest, replies: seq<bool>)
    requires |replies| == |req.queues| && DirectionsKnown(req.queues)
    ensures var t := WithType(s, req);
            RemoveQueues(t, req, t.qosTypes[req.sub], req.queues, replies, Done) ==
              RemoveRun(if SomeClearFails(s, req, req.queues, replies) then QueueFailed else Done,
                        KeysWhere(s, req, t.qosTypes[req.sub], req.queues, ClearedMarks(s, req, req.queues, replies)))
  {
    var t := WithType(s, req);
    var qos := t.qosTypes[req.sub];
    RemoveQueuesIs(t, req, qos, req.queues, replies, Done);
    assert ClearedMarks(t, req, req.queues, replies) == ClearedMarks(s, req, req.queues, replies);
    KeysIgnoreTypes(s, t.qosTypes, req, qos, req.queues, ClearedMarks(s, req, req.queues, replies));
    assert SomeClearFails(t, req, req.queues, replies) == SomeClearFails(s, req, req.queues, replies);
  }

  lemma {:induction false} KeysIgnoreTypes(
    s: TmState, types: map<Subscriber, QosType>, req: QueuesRequest, qos: QosType, queues: seq<QueueRequest>, marked: seq<bool>)
    requires |marked| == |queues|
    ensures KeysWhere(s.(qosTypes := types), req, qos, queues, marked) == KeysWhere(s, req, qos, queues, marked)
    decreases |queues|
  {
    if queues != [] {
      KeysIgnoreTypes(s, types, req, qos, queues[1..], marked[1..]);
    }
  }

  /** The first queue whose direction is not supported ends the removal: those before it are cleared, nothing is released. */
  lemma RemoveStops(s: TmState, req: QueuesRequest, replies: seq<bool>, profileOk: bool, unset: bool, n: nat)
    requires |replies| == |req.queues|
    requires n < |req.queues| && req.queues[n].direction == Unsupported && DirectionsKnown(req.queues[..n])
    ensures var t := WithType(s, req);
            RemoveTrafficQueues(s, req, replies, profileOk, unset)
            == Removed(t, BadDirection, KeysWhere(t, req, t.qosTypes[req.sub], req.queues[..n],
                                                  ClearedMarks(t, req, req.queues[..n], replies[..n])))
  {
    RemoveQueuesStops(WithType(s, req), req, WithType(s, req).qosTypes[req.sub], req.queues, replies, Done, n);
  }

  lemma {:induction false} RemoveQueuesStops(
    s: TmState, req: QueuesRequest, qos: QosType, queues: seq<QueueRequest>, replies: seq<bool>, status: Status, n: nat)
    requires |replies| == |queues|
    requires n < |queues| && queues[n].direction == Unsupported && DirectionsKnown(queues[..n])
    ensures RemoveQueues(s, req, qos, queues, replies, status)
         == RemoveRun(BadDirection, KeysWhere(s, req, qos, queues[..n], ClearedMarks(s, req, queues[..n], replies[..n])))
    decreases n
  {
    if n > 0 {
      var before, marks := queues[..n], ClearedMarks(s, req, queues[..n], replies[..n]);
      assert before[0] == queues[0] && before[1..] == queues[1..][..n - 1];
      assert marks[1..] == ClearedMarks(s, req, queues[1..][..n - 1], replies[1..][..n - 1]);
      var failed := Tries(s, req, queues[0]) && !replies[0];
      RemoveQueuesStops(s, req, qos, queues[1..], replies[1..], if failed then QueueFailed else status, n - 1);
    }
  }

  // A fresh subscriber

  lemma {:induction false} KeysOfAt(queues: seq<QueueRequest>, qos: QosType, schedId: int, qmp: int, i: nat)
    requires i < |queues|
    ensures |KeysOf(queues, qos, schedId, qmp)| == |queues|
    ensures KeysOf(queues, qos, schedId, qmp)[i] == QueueKeyFor(qos, schedId, queues[i].priority, qmp)
    decreases i
  {
    KeysLength(queues, qos, schedId, qmp);
    if i > 0 {
      KeysOfAt(queues[1..], qos, schedId, qmp, i - 1);
    }
  }

  /**
   * A fresh downstream subscriber with one queue gets queue 0 of its scheduler, in no set; one with several gets a queue
   * per priority in a set whose profile sends each pbit to the last queue that asks for it.
   */
  lemma FreshSubscriberGets(s: TmState, req: QueuesRequest, replies: seq<CreateReply>) returns (schedId: int, qmp: nat)
    requires FreshSubscriber(s, req.sub) && PoolsSuffice(s, req) && QM.Coherent(s.qmps)
    requires AllDownstream(req.queues)
    requires |req.queues| > 1 ==> FitsProfile(PbitMaps(req.queues), |req.queues|)
    requires |replies| == |req.queues| && forall i | 0 <= i < |replies| :: replies[i] == QueueOk
    ensures schedId == Get(s.scheds, SchedKey(req.sub.intf, req.sub.onu, req.sub.uni, Downstream, req.techProfile)).1
    ensures |req.queues| == 1 ==> CreateTrafficQueues(s, req, true, replies).configured == [QueueKey(schedId, 0, NotUsed)]
    ensures |req.queues| > 1 ==>
              var c := CreateTrafficQueues(s, req, true, replies);
              && |c.configured| == |req.queues|
              && (forall i | 0 <= i < |req.queues| ::
                    c.configured[i] == QueueKey(schedId, req.queues[i].priority, MappedBy(qmp)))
              && qmp in c.s.qmps.profiles && IsProfileOf(c.s.qmps.profiles[qmp], req.queues)
  {
    var c := CreateTrafficQueues(s, req, true, replies);
    schedId, qmp := Get(s.scheds, SchedKeyOf(req.sub, Downstream, req.techProfile)).1, 0;
    CreateFresh(s, req, replies);
    var found := QM.Lookup(c.s.qmps.refs, SubKeyOf(schedId, req.sub));
    if |req.queues| > 1 {
      CreateIs(s, req, true, replies, ProfileFor(req.queues));
      assert c.s.qmps == QM.Attach(s.qmps, SubKeyOf(schedId, req.sub), ProfileFor(req.queues), true).0;
      QM.AttachMaps(s.qmps, SubKeyOf(schedId, req.sub), ProfileFor(req.queues), true);
      qmp := found;
      ProfileIsThat(req.queues);
    }
    forall i | 0 <= i < |req.queues|
      ensures |c.configured| == |req.queues|
      ensures c.configured[i] == QueueKeyFor(c.s.qosTypes[req.sub], schedId, req.queues[i].priority, found)
    {
      KeysOfAt(req.queues, c.s.qosTypes[req.sub], schedId, found, i);
    }
  }
}
