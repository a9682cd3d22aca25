/** Streams of indications to the controller (agent/common/server.cc, agent/common/state.h), any number at a time. */
module IndicationStream {

  /** Event stands for every indication other than the OLT's own state. */
  datatype Indication = OltState(up: bool) | Event(body: nat)

  /** Where a stream is between two accesses to shared state. */
  datatype Phase =
    | Entering
    | Reconciling
    | Choosing
    | Announcing(up: bool)
    | Connecting
    | Checking
    | Popping
    | Writing(indication: Indication)
    | Requeueing(indication: Indication)
    | Disconnecting
    | Returned

  /**
   * The shared queue and flags, the streams opened so far, and a record of what happened: what producers and
   * reconciling streams pushed, what was pushed back, every push and every pop in order, and what was written.
   */
  datatype System = System(
    queue: seq<Indication>,
    connected: bool,
    connectedOnce: bool,
    activated: bool,
    streams: seq<Phase>,
    produced: seq<Indication>,
    announced: seq<Indication>,
    requeued: seq<Indication>,
    written: seq<Indication>,
    arrivals: seq<Indication>,
    taken: seq<Indication>)

  datatype Step =
    | Produce(indication: Indication)
    | Activate(up: bool)
    | Open
    | Advance(stream: nat)
    | GiveUp(stream: nat)
    | Write(stream: nat, ok: bool)

  ghost const START := System([], false, false, false, [], [], [], [], [], [], [])

  ghost predicate Enabled(s: System, step: Step) {
    match step
    case Produce(_) => true
    case Activate(_) => true
    case Open => true
    case Advance(i) => i < |s.streams| && MayAdvance(s, s.streams[i])
    // A timed wait can also give up when an indication arrived as it ended.
    case GiveUp(i) => i < |s.streams| && s.streams[i].Popping?
    case Write(i, _) => i < |s.streams| && s.streams[i].Writing?
  }

  ghost predicate MayAdvance(s: System, p: Phase) {
    match p
    case Writing(_) => false
    case Returned => false
    case Popping => s.queue != []
    case _ => true
  }

  ghost function Push(s: System, indication: Indication): System {
    s.(queue := s.queue + [indication], arrivals := s.arrivals + [indication])
  }

  ghost function Move(s: System, i: nat, p: Phase): System
    requires i < |s.streams|
  {
    s.(streams := s.streams[i := p])
  }

  ghost function Next(s: System, step: Step): System
    requires Enabled(s, step)
  {
    match step
    case Produce(ind) => Push(s, ind).(produced := s.produced + [ind])
    case Activate(up) => s.(activated := up)
    case Open => s.(streams := s.streams + [Entering])
    case GiveUp(i) => Move(s, i, Checking)
    case Write(i, ok) =>
      var ind := s.streams[i].indication;
      if ok then Move(s, i, Checking).(written := s.written + [ind])
      else Move(s, i, Requeueing(ind))
    case Advance(i) => Proceed(s, i)
  }

  ghost function Proceed(s: System, i: nat): System
    requires i < |s.streams| && MayAdvance(s, s.streams[i])
  {
    match s.streams[i]
    case Entering => Move(s, i, if s.connectedOnce then Reconciling else Connecting)
    case Reconciling => Move(s, i, if s.activated then Choosing else Connecting)
    case Choosing => Move(s, i, Announcing(s.activated))
    case Announcing(up) =>
      Push(Move(s, i, Connecting), OltState(up)).(announced := s.announced + [OltState(up)])
    case Connecting => Move(s, i, Checking).(connected := true, connectedOnce := true)
    case Checking => Move(s, i, if s.connected then Popping else Returned)
    case Popping => Move(s, i, Writing(s.queue[0])).(queue := s.queue[1..], taken := s.taken + [s.queue[0]])
    case Requeueing(ind) => Push(Move(s, i, Disconnecting), ind).(requeued := s.requeued + [ind])
    case Disconnecting => Move(s, i, Checking).(connected := false)
  }

  /** How often ind occurs. */
  function Count(s: seq<Indication>, ind: Indication): nat {
    if s == [] then 0 else Count(s[..|s| - 1], ind) + if s[|s| - 1] == ind then 1 else 0
  }

  /** A stream in this phase has popped ind and neither written it nor pushed it back. */
  predicate Holds(p: Phase, ind: Indication) {
    (p.Writing? || p.Requeueing?) && p.indication == ind
  }

  function HeldBy(p: Phase, ind: Indication): nat {
    if Holds(p, ind) then 1 else 0
  }

  /** How many streams hold ind. */
  function Held(streams: seq<Phase>, ind: Indication): nat {
    if streams == [] then 0 else HeldBy(streams[0], ind) + Held(streams[1..], ind)
  }

  lemma {:induction false} HeldAfterMove(streams: seq<Phase>, i: nat, p: Phase, ind: Indication)
    requires i < |streams|
    ensures Held(streams[i := p], ind) + HeldBy(streams[i], ind) == Held(streams, ind) + HeldBy(p, ind)
    decreases |streams|
  {
    var moved := streams[i := p];
    if i > 0 {
      HeldAfterMove(streams[1..], i - 1, p, ind);
      assert moved[1..] == streams[1..][i - 1 := p];
    } else {
      assert moved[1..] == streams[1..];
    }
  }

  lemma {:induction false} HeldAfterOpen(streams: seq<Phase>, ind: Indication)
    ensures Held(streams + [Entering], ind) == Held(streams, ind)
    decreases |streams|
  {
    var more := streams + [Entering];
    if streams != [] {
      HeldAfterOpen(streams[1..], ind);
      assert more[1..] == streams[1..] + [Entering];
    } else {
      assert more[1..] == [];
    }
  }

  lemma CountMore(s: seq<Indication>, last: Indication, ind: Indication)
    ensures Count(s + [last], ind) == Count(s, ind) + if last == ind then 1 else 0
  {
    var more := s + [last];
    assert more[..|more| - 1] == s;
  }

  lemma {:induction false} CountSum(a: seq<Indication>, b: seq<Indication>, ind: Indication)
    ensures Count(a + b, ind) == Count(a, ind) + Count(b, ind)
    decreases |b|
  {
    if b == [] {
      assert a + b == a;
    } else {
      var both := a + b;
      assert both[..|both| - 1] == a + b[..|b| - 1];
      CountSum(a, b[..|b| - 1], ind);
    }
  }

  // Conservation

  /** Of ind, what left the queue is written, held or pushed back, and what arrived was pushed for a first time or back. */
  ghost predicate Tallies(s: System, ind: Indication) {
    && Count(s.taken, ind) == Count(s.written, ind) + Count(s.requeued, ind) + Held(s.streams, ind)
    && Count(s.arrivals, ind) == Count(s.produced, ind) + Count(s.announced, ind) + Count(s.requeued, ind)
  }

  /** The tallies hold, and the queue is what arrived and was not yet popped. */
  ghost predicate Accounted(s: System) {
    && (forall ind :: Tallies(s, ind))
    && InOrder(s)
  }

  lemma PushBackKeepsTallies(s: System, i: nat, ind: Indication)
    requires Tallies(s, ind) && i < |s.streams| && s.streams[i].Requeueing?
    ensures Tallies(Proceed(s, i), ind)
  {
    var refused := s.streams[i].indication;
    HeldAfterMove(s.streams, i, Disconnecting, ind);
    CountMore(s.arrivals, refused, ind);
    CountMore(s.requeued, refused, ind);
  }

  lemma AnnounceKeepsTallies(s: System, i: nat, ind: Indication)
    requires Tallies(s, ind) && i < |s.streams| && s.streams[i].Announcing?
    ensures Tallies(Proceed(s, i), ind)
  {
    var state := OltState(s.streams[i].up);
    HeldAfterMove(s.streams, i, Connecting, ind);
    CountMore(s.arrivals, state, ind);
    CountMore(s.announced, state, ind);
  }

  lemma PopKeepsTallies(s: System, i: nat, ind: Indication)
    requires Tallies(s, ind) && i < |s.streams| && s.streams[i].Popping? && s.queue != []
    ensures Tallies(Proceed(s, i), ind)
  {
    HeldAfterMove(s.streams, i, Writing(s.queue[0]), ind);
    CountMore(s.taken, s.queue[0], ind);
  }

  /** A move that neither takes nor releases an indication. */
  lemma QuietMoveKeepsTallies(s: System, i: nat, p: Phase, connected: bool, once: bool, ind: Indication)
    requires Tallies(s, ind) && i < |s.streams| && HeldBy(s.streams[i], ind) == 0 == HeldBy(p, ind)
    ensures Tallies(Move(s, i, p).(connected := connected, connectedOnce := once), ind)
  {
    HeldAfterMove(s.streams, i, p, ind);
  }

  lemma ProceedKeepsTallies(s: System, i: nat, ind: Indication)
    requires Tallies(s, ind) && i < |s.streams| && MayAdvance(s, s.streams[i])
    ensures Tallies(Proceed(s, i), ind)
  {
    var p, t := s.streams[i], Proceed(s, i);
    if p.Requeueing? {
      PushBackKeepsTallies(s, i, ind);
    } else if p.Announcing? {
      AnnounceKeepsTallies(s, i, ind);
    } else if p.Popping? {
      PopKeepsTallies(s, i, ind);
    } else {
      QuietMoveKeepsTallies(s, i, t.streams[i], t.connected, t.connectedOnce, ind);
    }
  }

  lemma WriteKeepsTallies(s: System, i: nat, ok: bool, ind: Indication)
    requires Tallies(s, ind) && i < |s.streams| && s.streams[i].Writing?
    ensures Tallies(Next(s, Write(i, ok)), ind)
  {
    HeldAfterMove(s.streams, i, Next(s, Write(i, ok)).streams[i], ind);
    if ok {
      CountMore(s.written, s.streams[i].indication, ind);
    }
  }

  lemma NextKeepsTallies(s: System, step: Step, ind: Indication)
    requires Tallies(s, ind) && Enabled(s, step)
    ensures Tallies(Next(s, step), ind)
  {
    match step
    case Produce(pushed) =>
      CountMore(s.arrivals, pushed, ind);
      CountMore(s.produced, pushed, ind);
    case Activate(_) =>
    case Open => HeldAfterOpen(s.streams, ind);
    case Advance(i) => ProceedKeepsTallies(s, i, ind);
    case GiveUp(i) => HeldAfterMove(s.streams, i, Checking, ind);
    case Write(i, ok) => WriteKeepsTallies(s, i, ok, ind);
  }

  lemma NextKeepsAccounted(s: System, step: Step)
    requires Accounted(s) && Enabled(s, step)
    ensures Accounted(Next(s, step))
  {
    var t := Next(s, step);
    forall ind
      ensures Tallies(t, ind)
    {
      NextKeepsTallies(s, step, ind);
    }
    NextKeepsOrder(s, step);
  }

  ghost predicate InOrder(s: System) {
    s.arrivals == s.taken + s.queue && (s.connected ==> s.connectedOnce)
  }

  lemma PopKeepsOrder(s: System, i: nat)
    requires InOrder(s) && i < |s.streams| && s.streams[i].Popping? && s.queue != []
    ensures InOrder(Proceed(s, i))
  {
    assert s.queue == [s.queue[0]] + s.queue[1..];
  }

  lemma PushKeepsOrder(s: System, ind: Indication)
    requires InOrder(s)
    ensures InOrder(Push(s, ind))
  {
    assert s.taken + s.queue + [ind] == s.taken + (s.queue + [ind]);
  }

  lemma ProceedKeepsOrder(s: System, i: nat)
    requires InOrder(s) && i < |s.streams| && MayAdvance(s, s.streams[i])
    ensures InOrder(Proceed(s, i))
  {
    var p := s.streams[i];
    if p.Requeueing? {
      PushKeepsOrder(Move(s, i, Disconnecting), p.indication);
    } else if p.Announcing? {
      PushKeepsOrder(Move(s, i, Connecting), OltState(p.up));
    } else if p.Popping? {
      PopKeepsOrder(s, i);
    }
  }

  lemma NextKeepsOrder(s: System, step: Step)
    requires InOrder(s) && Enabled(s, step)
    ensures InOrder(Next(s, step))
  {
    match step
    case Produce(ind) => PushKeepsOrder(s, ind);
    case Advance(i) => ProceedKeepsOrder(s, i);
    case _ =>
  }

  ghost predicate Runs(s: System, steps: seq<Step>)
    decreases |steps|
  {
    steps == [] || (Enabled(s, steps[0]) && Runs(Next(s, steps[0]), steps[1..]))
  }

  ghost function After(s: System, steps: seq<Step>): System
    requires Runs(s, steps)
    decreases |steps|
  {
    if steps == [] then s else After(Next(s, steps[0]), steps[1..])
  }

  lemma {:induction false} RunKeepsAccounted(s: System, steps: seq<Step>)
    requires Accounted(s) && Runs(s, steps)
    ensures Accounted(After(s, steps))
    decreases |steps|
  {
    if steps != [] {
      NextKeepsAccounted(s, steps[0]);
      RunKeepsAccounted(Next(s, steps[0]), steps[1..]);
    }
  }

  /**
   * In every interleaving of any number of streams and producers, with any timeouts, failed writes and disconnects,
   * what was pushed is what was written, is queued, or is held by a stream: nothing is lost or duplicated.
   */
  lemma NothingLostOrDuplicated(steps: seq<Step>)
    requires Runs(START, steps)
    ensures var s := After(START, steps);
            forall ind :: Count(s.produced, ind) + Count(s.announced, ind)
                       == Count(s.written, ind) + Count(s.queue, ind) + Held(s.streams, ind)
  {
    RunKeepsAccounted(START, steps);
    var s := After(START, steps);
    forall ind
      ensures Count(s.produced, ind) + Count(s.announced, ind)
           == Count(s.written, ind) + Count(s.queue, ind) + Held(s.streams, ind)
    {
      assert Tallies(s, ind);
      CountSum(s.taken, s.queue, ind);
    }
  }

  /** Indications leave the queue in the order they were pushed, those pushed back included. */
  lemma LeaveInOrderOfArrival(steps: seq<Step>)
    requires Runs(START, steps)
    ensures var s := After(START, steps);
            |s.taken| <= |s.arrivals| && s.taken == s.arrivals[..|s.taken|]
  {
    RunKeepsAccounted(START, steps);
  }

  // Whole passages of one stream, undisturbed by others

  lemma RunsStep(s: System, step: Step, later: seq<Step>)
    requires Enabled(s, step) && Runs(Next(s, step), later)
    ensures Runs(s, [step] + later)
    ensures After(s, [step] + later) == After(Next(s, step), later)
  {
    assert ([step] + later)[1..] == later;
  }

  /** The stream checks, pops the first indication and writes it. */
  lemma WritesTheFirst(s: System, i: nat)
    requires i < |s.streams| && s.streams[i].Checking? && s.connected && s.queue != []
    ensures var steps := [Advance(i)] + ([Advance(i)] + ([Write(i, true)] + []));
            && Runs(s, steps)
            && After(s, steps) == s.(queue := s.queue[1..], taken := s.taken + [s.queue[0]],
                                     written := s.written + [s.queue[0]])
  {
    var u := Next(s, Advance(i));
    var v := Next(u, Advance(i));
    RunsStep(v, Write(i, true), []);
    RunsStep(u, Advance(i), [Write(i, true)] + []);
    RunsStep(s, Advance(i), [Advance(i)] + ([Write(i, true)] + []));
    assert s.streams[i := Popping][i := Writing(s.queue[0])][i := Checking] == s.streams;
  }

  /** A failed write puts the indication at the end of the queue, disconnects and ends the stream. */
  lemma RefusalEndsStream(s: System, i: nat)
    requires i < |s.streams| && s.streams[i].Writing?
    ensures var steps := [Write(i, false)] + ([Advance(i)] + ([Advance(i)] + ([Advance(i)] + [])));
            var ind := s.streams[i].indication;
            && Runs(s, steps)
            && After(s, steps) == s.(queue := s.queue + [ind], arrivals := s.arrivals + [ind],
                                     requeued := s.requeued + [ind], connected := false,
                                     streams := s.streams[i := Returned])
  {
    var u := Next(s, Write(i, false));
    var v := Next(u, Advance(i));
    var w := Next(v, Advance(i));
    var last := [Advance(i)] + [];
    RunsStep(w, Advance(i), []);
    RunsStep(v, Advance(i), last);
    RunsStep(u, Advance(i), [Advance(i)] + last);
    RunsStep(s, Write(i, false), [Advance(i)] + ([Advance(i)] + last));
    var ind := s.streams[i].indication;
    assert s.streams[i := Requeueing(ind)][i := Disconnecting][i := Checking][i := Returned] == s.streams[i := Returned];
  }

  /** n steps of stream i. */
  ghost function Advances(i: nat, n: nat): seq<Step> {
    if n == 0 then [] else [Advance(i)] + Advances(i, n - 1)
  }

  lemma AdvanceOnce(s: System, i: nat, n: nat)
    requires n > 0 && Enabled(s, Advance(i)) && Runs(Next(s, Advance(i)), Advances(i, n - 1))
    ensures Runs(s, Advances(i, n))
    ensures After(s, Advances(i, n)) == After(Next(s, Advance(i)), Advances(i, n - 1))
  {
    RunsStep(s, Advance(i), Advances(i, n - 1));
  }

  /** The state once stream i is connected, after announcing what. */
  ghost function Connected(s: System, i: nat, what: seq<Indication>): System
    requires i < |s.streams|
  {
    s.(queue := s.queue + what, arrivals := s.arrivals + what, announced := s.announced + what,
       connected := true, connectedOnce := true, streams := s.streams[i := Checking])
  }

  lemma Connects(s: System, i: nat)
    requires i < |s.streams| && s.streams[i].Connecting?
    ensures Runs(s, Advances(i, 1)) && After(s, Advances(i, 1)) == Connected(s, i, [])
  {
    AdvanceOnce(s, i, 1);
  }

  lemma Announces(s: System, i: nat)
    requires i < |s.streams| && s.streams[i].Announcing?
    ensures Runs(s, Advances(i, 2)) && After(s, Advances(i, 2)) == Connected(s, i, [OltState(s.streams[i].up)])
  {
    Connects(Next(s, Advance(i)), i);
    AdvanceOnce(s, i, 2);
    assert s.streams[i := Connecting][i := Checking] == s.streams[i := Checking];
  }

  lemma AnnouncesWhatItSees(s: System, i: nat)
    requires i < |s.streams| && s.streams[i].Choosing?
    ensures Runs(s, Advances(i, 3)) && After(s, Advances(i, 3)) == Connected(s, i, [OltState(s.activated)])
  {
    Announces(Next(s, Advance(i)), i);
    AdvanceOnce(s, i, 3);
    assert s.streams[i := Announcing(s.activated)][i := Checking] == s.streams[i := Checking];
  }

  /** The steps a new stream takes until it is connected. */
  ghost function StepsToConnect(s: System): nat {
    if !s.connectedOnce then 2 else if !s.activated then 3 else 5
  }

  lemma Enters(s: System, i: nat)
    requires i < |s.streams| && s.streams[i].Entering?
    ensures var n := StepsToConnect(s);
            && Runs(s, Advances(i, n))
            && After(s, Advances(i, n)) == Connected(s, i, if s.connectedOnce && s.activated then [OltState(true)] else [])
  {
    var t := Next(s, Advance(i));
    if !s.connectedOnce {
      Connects(t, i);
      assert s.streams[i := Connecting][i := Checking] == s.streams[i := Checking];
    } else {
      Reconciles(t, i);
      assert s.streams[i := Reconciling][i := Checking] == s.streams[i := Checking];
    }
    AdvanceOnce(s, i, StepsToConnect(s));
  }

  lemma Reconciles(s: System, i: nat)
    requires i < |s.streams| && s.streams[i].Reconciling?
    ensures var n := if s.activated then 4 else 2;
            && Runs(s, Advances(i, n))
            && After(s, Advances(i, n)) == Connected(s, i, if s.activated then [OltState(true)] else [])
  {
    var t := Next(s, Advance(i));
    if s.activated {
      AnnouncesWhatItSees(t, i);
      AdvanceOnce(s, i, 4);
      assert s.streams[i := Choosing][i := Checking] == s.streams[i := Checking];
    } else {
      Connects(t, i);
      AdvanceOnce(s, i, 2);
      assert s.streams[i := Connecting][i := Checking] == s.streams[i := Checking];
    }
  }

  /** A new stream, undisturbed: it announces OLT up exactly if it is a reconnection while the OLT is up. */
  lemma OpeningConnects(s: System)
    ensures var steps := [Open] + Advances(|s.streams|, StepsToConnect(s));
            var what := if s.connectedOnce && s.activated then [OltState(true)] else [];
            && Runs(s, steps)
            && After(s, steps) == s.(queue := s.queue + what, arrivals := s.arrivals + what, announced := s.announced + what,
                                     connected := true, connectedOnce := true, streams := s.streams + [Checking])
  {
    var t := Next(s, Open);
    Enters(t, |s.streams|);
    RunsStep(s, Open, Advances(|s.streams|, StepsToConnect(s)));
    assert t.streams[|s.streams| := Checking] == s.streams + [Checking];
  }

  // When the state of the OLT is announced

  /** A stream that has found the server connected to before and has not yet announced the OLT's state. */
  predicate MayAnnounce(p: Phase) {
    p.Reconciling? || p.Choosing? || p.Announcing?
  }

  /** Only reconnections announce, and nothing but a state of the OLT. */
  ghost predicate AnnouncesWhenReconnecting(s: System) {
    && (s.announced != [] ==> s.connectedOnce)
    && (forall p | p in s.streams :: MayAnnounce(p) ==> s.connectedOnce)
    && (forall ind | ind in s.announced :: ind.OltState?)
  }

  /** A move of stream i to p, where an announcing one is a reconnection. */
  lemma MoveKeepsAnnounces(s: System, t: System, i: nat, p: Phase)
    requires AnnouncesWhenReconnecting(s) && i < |s.streams|
    requires t.streams == s.streams[i := p] && t.announced == s.announced
    requires s.connectedOnce || MayAnnounce(p) ==> t.connectedOnce
    ensures AnnouncesWhenReconnecting(t)
  {
    forall q | q in t.streams && MayAnnounce(q)
      ensures t.connectedOnce
    {
      var j :| 0 <= j < |t.streams| && t.streams[j] == q;
      assert j != i ==> s.streams[j] in s.streams;
    }
  }

  lemma ProceedKeepsAnnounces(s: System, i: nat)
    requires AnnouncesWhenReconnecting(s) && i < |s.streams| && MayAdvance(s, s.streams[i])
    ensures AnnouncesWhenReconnecting(Proceed(s, i))
  {
    var p, t := s.streams[i], Proceed(s, i);
    assert p in s.streams;
    MoveKeepsAnnounces(s, t.(announced := s.announced), i, t.streams[i]);
  }

  lemma NextKeepsAnnounces(s: System, step: Step)
    requires AnnouncesWhenReconnecting(s) && Enabled(s, step)
    ensures AnnouncesWhenReconnecting(Next(s, step))
  {
    if step.Advance? {
      ProceedKeepsAnnounces(s, step.stream);
    } else if step.GiveUp? || step.Write? {
      MoveKeepsAnnounces(s, Next(s, step), step.stream, Next(s, step).streams[step.stream]);
    } else if step.Open? {
      assert forall p | p in Next(s, step).streams :: p in s.streams || p == Entering;
    }
  }

  lemma {:induction false} OnlyReconnectionsAnnounce(s: System, steps: seq<Step>)
    requires AnnouncesWhenReconnecting(s) && Runs(s, steps)
    ensures AnnouncesWhenReconnecting(After(s, steps))
    decreases |steps|
  {
    if steps != [] {
      NextKeepsAnnounces(s, steps[0]);
      OnlyReconnectionsAnnounce(Next(s, steps[0]), steps[1..]);
    }
  }

  /** If the OLT goes down between the two looks a reconnecting stream takes at its state, OLT down is announced. */
  lemma GoesDownWhileReconciling(s: System, i: nat)
    requires i < |s.streams| && s.streams[i].Choosing?
    ensures var steps := [Activate(false)] + Advances(i, 3);
            Runs(s, steps) && After(s, steps).queue == s.queue + [OltState(false)]
  {
    AnnouncesWhatItSees(Next(s, Activate(false)), i);
    RunsStep(s, Activate(false), Advances(i, 3));
  }
}
