/** The handlers that create and remove traffic queues, over the scheduler cache and the profile table. */
module TrafficQueueHandler {
  import opened SchedulerPool
  import opened QueueProfiles
  import opened TrafficQueues
  import QM = QueueMapping

  class Handler {
    const maxPon: nat
    const scheds: SchedulerCache
    const qmps: QM.QmpTable
    var qosTypes: map<Subscriber, QosType>

    ghost predicate Valid()
      reads this, scheds, qmps
    {
      scheds.Valid() && qmps.Valid() && scheds.bits != qmps.bits
    }

    ghost function Model(): TmState
      reads this, scheds, scheds.bits, qmps, qmps.bits
    {
      TmState(maxPon, scheds.Model(), qmps.Model(), qosTypes)
    }

    constructor (maxPon: nat)
      ensures Valid() && fresh(scheds) && fresh(scheds.bits) && fresh(qmps) && fresh(qmps.bits)
      ensures Model() == TmState(maxPon, NO_SCHEDS, QM.NO_QMPS, map[])
    {
      this.maxPon := maxPon;
      var s := new SchedulerCache();
      var q := new QM.QmpTable();
      scheds, qmps, qosTypes := s, q, map[];
    }

    method GetQosType(sub: Subscriber, size: nat) returns (qos: QosType)
      modifies this
      ensures qos == QosTypeOf(old(qosTypes), sub, size)
      ensures qosTypes == old(qosTypes)[sub := qos]
    {
      if sub in qosTypes {
        qos := qosTypes[sub];
        assert qosTypes == qosTypes[sub := qos];
      } else {
        qos := if size > 1 then PriorityToQueue else FixedQueue;
        qosTypes := qosTypes[sub := qos];
      }
    }

    method FindSched(req: QueuesRequest, direction: Direction) returns (schedId: int)
      requires Valid()
      modifies scheds, scheds.bits
      ensures Valid() && qmps.Model() == old(qmps.Model())
      ensures (scheds.Model(), schedId) == SchedIdFor(old(Model()), req, direction)
    {
      if direction == Upstream {
        schedId := DefaultSchedId(maxPon, req.nniIntf, Upstream);
      } else {
        schedId := scheds.GetTmSchedId(SchedKeyOf(req.sub, direction, req.techProfile));
      }
    }

    method AddQueue(req: QueuesRequest, qos: QosType, queue: QueueRequest, reply: CreateReply)
      returns (status: Status, ghost configured: seq<QueueKey>)
      requires Valid()
      modifies scheds, scheds.bits
      ensures Valid() && qmps.Model() == old(qmps.Model())
      ensures CreateRun(scheds.Model(), status, configured) == CreateQueue(old(Model()), req, qos, queue, reply)
    {
      var schedId := FindSched(req, queue.direction);
      configured := [];
      if queue.priority > 7 {
        return QueueFailed, configured;
      }
      var queueId, set_ := QUEUE_ID_LIST[queue.priority], NotUsed;
      if qos == FixedQueue {
        queueId := 0;
      } else {
        set_ := MappedBy(QM.Lookup(qmps.refs, SubKeyOf(schedId, req.sub)));
      }
      if reply == QueueFails {
        return QueueFailed, configured;
      }
      if reply == QueueExists {
        return Done, configured;
      }
      configured := [QueueKey(schedId, queueId, set_)];
      status := if reply == GemFails then QueueFailed else Done;
    }

    method AddQueues(req: QueuesRequest, qos: QosType, replies: seq<CreateReply>)
      returns (status: Status, ghost configured: seq<QueueKey>)
      requires Valid() && |replies| == |req.queues|
      modifies scheds, scheds.bits
      ensures Valid() && qmps.Model() == old(qmps.Model())
      ensures CreateRun(scheds.Model(), status, configured) == CreateQueues(old(Model()), req, qos, req.queues, replies)
    {
      var i := 0;
      configured := [];
      while i < |req.queues|
        invariant Valid() && qmps.Model() == old(qmps.Model()) && i <= |req.queues|
        invariant var rest := CreateQueues(Model(), req, qos, req.queues[i..], replies[i..]);
                  CreateQueues(old(Model()), req, qos, req.queues, replies)
                  == rest.(configured := configured + rest.configured)
      {
        ghost var queues, answers := req.queues[i..], replies[i..];
        assert queues[1..] == req.queues[i + 1..] && answers[1..] == replies[i + 1..];
        if req.queues[i].direction == Unsupported {
          return BadDirection, configured;
        }
        ghost var before := Model();
        ghost var keys;
        status, keys := AddQueue(req, qos, req.queues[i], replies[i]);
        assert Model() == before.(scheds := scheds.Model());
        configured := configured + keys;
        if status != Done {
          return;
        }
        i := i + 1;
      }
      status := Done;
    }

    method HandleCreate(req: QueuesRequest, profileOk: bool, replies: seq<CreateReply>)
      returns (status: Status, ghost configured: seq<QueueKey>)
      requires Valid() && |replies| == |req.queues|
      requires QosTypeOf(qosTypes, req.sub, |req.queues|) == PriorityToQueue ==>
                 forall i | 0 <= i < |req.queues| && HasSomeBit(req.queues[i].pbitMap) :: req.queues[i].priority < 8
      modifies this, scheds, scheds.bits, qmps, qmps.bits
      ensures Valid()
      ensures Created(Model(), status, configured) == CreateTrafficQueues(old(Model()), req, profileOk, replies)
    {
      configured := [];
      var qos := GetQosType(req.sub, |req.queues|);
      if qos == PriorityToQueue {
        var i := 0;
        var direction := Unsupported;
        while i < |req.queues|
          invariant i <= |req.queues|
          invariant forall k | 0 <= k < i :: req.queues[k].direction != Unsupported
          invariant direction == LastDirection(req.queues[..i])
        {
          direction := req.queues[i].direction;
          if direction == Unsupported {
            return BadDirection, configured;
          }
          i := i + 1;
        }
        assert req.queues[..i] == req.queues;
        var maps := new string[|req.queues|](k requires 0 <= k < |req.queues| => req.queues[k].pbitMap);
        assert maps[..] == PbitMaps(req.queues);
        var built := BuildProfile(maps, Priorities(req.queues));
        if built.OutOfRange? {
          return ProfileOutOfRange, configured;
        }
        assert built.profile == ProfileFor(req.queues);
        var schedId := FindSched(req, direction);
        var ok := qmps.AttachProfile(SubKeyOf(schedId, req.sub), built.profile, profileOk);
        if !ok {
          return ProfileFails, configured;
        }
      }
      status, configured := AddQueues(req, qos, replies);
    }

    method DropQueue(req: QueuesRequest, qos: QosType, queue: QueueRequest, ok: bool)
      returns (failed: bool, ghost cleared: seq<QueueKey>)
      requires Valid()
      requires LooksUpPriority(scheds.schedMap, req, queue) ==> queue.priority < 8
      modifies scheds, scheds.bits
      ensures Valid() && Model() == old(Model())
      ensures var keys := QueueToClear(old(Model()), req, qos, queue);
              failed == (keys != [] && !ok) && cleared == if failed then [] else keys
    {
      cleared := [];
      if queue.direction != Downstream {
        return false, cleared;
      }
      var schedKey := SchedKeyOf(req.sub, Downstream, req.techProfile);
      var present := scheds.IsTmSchedIdPresent(schedKey);
      if !present {
        return false, cleared;
      }
      var schedId := scheds.GetTmSchedId(schedKey);
      var queueId, set_ := QUEUE_ID_LIST[queue.priority], NotUsed;
      if qos == FixedQueue {
        queueId := 0;
      } else {
        set_ := MappedBy(QM.Lookup(qmps.refs, SubKeyOf(schedId, req.sub)));
      }
      failed := !ok;
      if ok {
        cleared := [QueueKey(schedId, queueId, set_)];
      }
    }

    /** One turn of the removal loop, from what it has cleared so far. */
    static lemma RemoveOneQueue(s: TmState, req: QueuesRequest, qos: QosType, queues: seq<QueueRequest>, replies: seq<bool>,
                                status: Status, cleared: seq<QueueKey>)
      requires |replies| == |queues| && queues != [] && queues[0].direction != Unsupported
      ensures var keys := QueueToClear(s, req, qos, queues[0]);
              var failed := keys != [] && !replies[0];
              var rest := RemoveQueues(s, req, qos, queues[1..], replies[1..], if failed then QueueFailed else status);
              var whole := RemoveQueues(s, req, qos, queues, replies, status);
              whole.(cleared := cleared + whole.cleared)
              == rest.(cleared := cleared + (if failed then [] else keys) + rest.cleared)
    {
      var keys := QueueToClear(s, req, qos, queues[0]);
      var failed := keys != [] && !replies[0];
      var rest := RemoveQueues(s, req, qos, queues[1..], replies[1..], if failed then QueueFailed else status);
      var now := if failed then [] else keys;
      assert cleared + (now + rest.cleared) == cleared + now + rest.cleared;
    }

    method DropQueues(req: QueuesRequest, qos: QosType, replies: seq<bool>)
      returns (status: Status, ghost cleared: seq<QueueKey>)
      requires Valid() && |replies| == |req.queues|
      requires forall i | 0 <= i < |req.queues| && LooksUpPriority(scheds.schedMap, req, req.queues[i]) ::
                 req.queues[i].priority < 8
      modifies scheds, scheds.bits
      ensures Valid() && Model() == old(Model())
      ensures RemoveRun(status, cleared) == RemoveQueues(old(Model()), req, qos, req.queues, replies, Done)
    {
      var i := 0;
      cleared, status := [], Done;
      ghost var s := Model();
      while i < |req.queues|
        invariant Valid() && Model() == s && i <= |req.queues|
        invariant var rest := RemoveQueues(s, req, qos, req.queues[i..], replies[i..], status);
                  RemoveQueues(s, req, qos, req.queues, replies, Done) == rest.(cleared := cleared + rest.cleared)
      {
        ghost var queues, answers := req.queues[i..], replies[i..];
        assert queues[1..] == req.queues[i + 1..] && answers[1..] == replies[i + 1..];
        if req.queues[i].direction == Unsupported {
          return BadDirection, cleared;
        }
        RemoveOneQueue(s, req, qos, queues, answers, status, cleared);
        assert LooksUpPriority(scheds.schedMap, req, req.queues[i]) == LooksUpPriority(s.scheds.ids, req, req.queues[i]);
        ghost var keys;
        var failed;
        failed, keys := DropQueue(req, qos, req.queues[i], replies[i]);
        cleared := cleared + keys;
        if failed {
          status := QueueFailed;
        }
        i := i + 1;
      }
    }

    method HandleRemove(req: QueuesRequest, replies: seq<bool>, profileOk: bool, unset: bool)
      returns (status: Status, ghost cleared: seq<QueueKey>)
      requires Valid() && |replies| == |req.queues|
      requires forall i | 0 <= i < |req.queues| && LooksUpPriority(scheds.schedMap, req, req.queues[i]) ::
                 req.queues[i].priority < 8
      modifies this, scheds, scheds.bits, qmps, qmps.bits
      ensures Valid()
      ensures Removed(Model(), status, cleared) == RemoveTrafficQueues(old(Model()), req, replies, profileOk, unset)
    {
      var qos := GetQosType(req.sub, |req.queues|);
      status, cleared := DropQueues(req, qos, replies);
      if status == BadDirection {
        return;
      }
      var direction := LastDirection(req.queues);
      var present := scheds.IsTmSchedIdPresent(SchedKeyOf(req.sub, direction, req.techProfile));
      if qos == PriorityToQueue && (direction == Upstream || (direction == Downstream && present)) {
        var schedId := FindSched(req, direction);
        var key := SubKeyOf(schedId, req.sub);
        var last := qmps.FreeTmQmpId(key, QM.Lookup(qmps.refs, key), unset);
        if last && !profileOk {
          return ProfileFails, cleared;
        }
      }
      qosTypes := qosTypes - {req.sub};
    }
  }
}
