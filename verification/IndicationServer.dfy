/** The loop of one stream of indications, from its own point of view (agent/common/server.cc). */
module IndicationServer {
  import opened IndicationStream
  import opened BlockingQueue

  const COLLECTION_PERIOD: int := 15

  /** One turn of the loop: what happens during the pop, what a collection of statistics pushes, how the write ends. */
  datatype Turn = Turn(wakes: seq<Wake<Indication>>, stats: seq<Indication>, writeOk: bool)

  /** written lists what the client has received from this and earlier streams. */
  datatype Server = Server(
    items: seq<Indication>, duration: int, connected: bool, connectedOnce: bool, activated: bool, written: seq<Indication>)

  /** The server after a stream's turns, what others pushed meanwhile, and the indication a failed write pushed back. */
  datatype Served = Served(server: Server, arrived: seq<Indication>, refused: seq<Indication>)

  ghost function PopOf(s: Server, turn: Turn): PopRun<Indication> {
    CountingPop(s.items, s.duration, COLLECTION_PERIOD * 1000, 1000, turn.wakes)
  }

  ghost function TakeTurn(s: Server, turn: Turn): Served {
    var pop := PopOf(s, turn);
    var pushed := Pushed(turn.wakes[..Min(pop.used, |turn.wakes|)]);
    var t := s.(items := pop.items, duration := pop.clock);
    match pop.result
    case Waiting => Served(t, pushed, [])
    case TimedOut =>
      var stats := if s.activated then turn.stats else [];
      Served(t.(items := t.items + stats), pushed + stats, [])
    case Popped(ind) =>
      if turn.writeOk then Served(t.(written := t.written + [ind]), pushed, [])
      else Served(t.(items := t.items + [ind], connected := false), pushed, [ind])
  }

  ghost function Loop(s: Server, turns: seq<Turn>): Served
    decreases |turns|
  {
    if !s.connected || turns == [] then Served(s, [], [])
    else
      var first := TakeTurn(s, turns[0]);
      var rest := Loop(first.server, turns[1..]);
      Served(rest.server, first.arrived + rest.arrived, first.refused + rest.refused)
  }

  function Reconnect(s: Server): Server {
    s.(items := if s.connectedOnce && s.activated then s.items + [OltState(true)] else s.items,
       connected := true, connectedOnce := true)
  }

  // What one stream delivers

  /** Every pushed indication is delivered in order, but for one refused: that one goes to the end of the queue. */
  ghost predicate Delivered(s: Server, r: Served) {
    var t := r.server;
    && |r.refused| <= 1 && |r.refused| <= |t.items|
    && var kept := |t.items| - |r.refused|;
       && t.items[kept..] == r.refused
       && t.written + r.refused + t.items[..kept] == s.written + s.items + r.arrived
  }

  lemma Regroup<T>(a: seq<T>, b: seq<T>, c: seq<T>)
    ensures a + b + c == a + (b + c)
  {
  }

  /** A pop that answers rest after taking taken, then a push of more. */
  lemma TurnKeepsOrder(written: seq<Indication>, items: seq<Indication>, pushed: seq<Indication>,
                       taken: seq<Indication>, rest: seq<Indication>, more: seq<Indication>)
    requires items + pushed == taken + rest
    ensures written + taken + (rest + more) == written + items + (pushed + more)
    ensures written + taken + rest == written + items + pushed
  {
    Regroup(written, items, pushed);
    Regroup(written, taken, rest);
    Regroup(written + taken, rest, more);
    Regroup(written + items, pushed, more);
  }

  /** The server after a pop that took taken and left rest. */
  lemma PopDelivers(s: Server, t: Server, arrived: seq<Indication>, taken: seq<Indication>, rest: seq<Indication>)
    requires s.written + taken + rest == s.written + s.items + arrived
    ensures t.written == s.written + taken && t.items == rest ==> Delivered(s, Served(t, arrived, []))
    ensures t.written == s.written && t.items == rest + taken && |taken| == 1 ==> Delivered(s, Served(t, arrived, taken))
  {
    if t.items == rest {
      assert t.items[..|rest|] == rest && t.items[|rest|..] == [];
      assert t.written + [] == t.written;
    }
    if t.items == rest + taken {
      assert t.items[..|rest|] == rest && t.items[|rest|..] == taken;
    }
  }

  lemma TurnDelivers(s: Server, turn: Turn)
    ensures Delivered(s, TakeTurn(s, turn))
    ensures TakeTurn(s, turn).server.connected == (s.connected && TakeTurn(s, turn).refused == [])
  {
    var pop := PopOf(s, turn);
    CountingPopKeepsOrder(s.items, s.duration, COLLECTION_PERIOD * 1000, 1000, turn.wakes);
    var pushed := Pushed(turn.wakes[..pop.used]);
    var stats := if pop.result.TimedOut? && s.activated then turn.stats else [];
    TurnKeepsOrder(s.written, s.items, pushed, Taken(pop.result), pop.items, stats);
    var t := TakeTurn(s, turn).server;
    if pop.result.TimedOut? {
      PopDelivers(s, t, pushed + stats, [], pop.items + stats);
    } else {
      PopDelivers(s, t, pushed, Taken(pop.result), pop.items);
    }
  }

  /** A turn that refuses nothing, and then the rest of the loop. */
  lemma LaterTurnsDeliver(s: Server, first: Served, rest: Served)
    requires Delivered(s, first) && first.refused == []
    requires Delivered(first.server, rest)
    ensures Delivered(s, Served(rest.server, first.arrived + rest.arrived, rest.refused))
  {
    var u := first.server;
    assert u.items[..|u.items|] == u.items;
    assert u.written + [] == u.written;
    assert u.written + u.items == s.written + s.items + first.arrived;
    Regroup(s.written + s.items, first.arrived, rest.arrived);
  }

  lemma {:induction false} LoopDelivers(s: Server, turns: seq<Turn>)
    requires s.connected
    ensures Delivered(s, Loop(s, turns))
    ensures Loop(s, turns).server.connected <==> Loop(s, turns).refused == []
    decreases |turns|
  {
    if turns == [] {
      NoTurnDelivers(s);
    } else {
      TurnDelivers(s, turns[0]);
      var first := TakeTurn(s, turns[0]);
      var rest := Loop(first.server, turns[1..]);
      if first.server.connected {
        LoopDelivers(first.server, turns[1..]);
        LaterTurnsDeliver(s, first, rest);
        assert first.refused + rest.refused == rest.refused;
      } else {
        assert first.arrived + [] == first.arrived && first.refused + [] == first.refused;
      }
    }
  }

  /** Where the popped indication comes from, and how long the pop waited. */
  lemma PopIs(s: Server, turn: Turn)
    ensures var pop := PopOf(s, turn);
            && pop.used <= |turn.wakes|
            && var queued := s.items + Pushed(turn.wakes[..pop.used]);
               && (pop.result.Popped? ==> queued != [] && pop.result.value == queued[0])
               && pop.clock == if pop.result.TimedOut? then 0 else s.duration + Timeouts(turn.wakes[..pop.used]) * 1000
  {
    var pop := PopOf(s, turn);
    CountingPopKeepsOrder(s.items, s.duration, COLLECTION_PERIOD * 1000, 1000, turn.wakes);
    CountingPopTicks(s.items, s.duration, COLLECTION_PERIOD * 1000, 1000, turn.wakes);
    if pop.result.Popped? {
      assert ([pop.result.value] + pop.items)[0] == pop.result.value;
    }
  }

  /**
   * What a turn does besides keeping the order: an indication is written, or refused, exactly if there is one to pop,
   * and then it is the first one queued or pushed; statistics arrive, after all else, exactly if the pop timed out while
   * the OLT is up; the timer starts again exactly after a time-out; the OLT's state stays.
   */
  lemma TurnIs(s: Server, turn: Turn)
    ensures var r, pop := TakeTurn(s, turn), PopOf(s, turn);
            && pop.used <= |turn.wakes|
            && var pushed := Pushed(turn.wakes[..pop.used]);
               && (pop.result.Popped? ==> s.items + pushed != [])
               && r.server.written == s.written + (if pop.result.Popped? && turn.writeOk then [(s.items + pushed)[0]] else [])
               && r.refused == (if pop.result.Popped? && !turn.writeOk then [(s.items + pushed)[0]] else [])
               && r.arrived == pushed + (if pop.result.TimedOut? && s.activated then turn.stats else [])
               && r.server.duration ==
                  (if pop.result.TimedOut? then 0 else s.duration + Timeouts(turn.wakes[..pop.used]) * 1000)
               && r.server.activated == s.activated && r.server.connectedOnce == s.connectedOnce
  {
    PopIs(s, turn);
  }

  lemma {:induction false} LoopKeepsFlags(s: Server, turns: seq<Turn>)
    ensures var t := Loop(s, turns).server;
            t.connectedOnce == s.connectedOnce && t.activated == s.activated
    decreases |turns|
  {
    if s.connected && turns != [] {
      TurnIs(s, turns[0]);
      LoopKeepsFlags(TakeTurn(s, turns[0]).server, turns[1..]);
    }
  }

  /**
   * A whole stream: the client is sent all that was written for nobody yet, then OLT up if this is a reconnection and
   * the OLT is up, then what arrives, but for one refused indication; and the next stream is a reconnection.
   */
  lemma StreamIs(s: Server, turns: seq<Turn>)
    ensures var r := Loop(Reconnect(s), turns);
            var extra := if s.connectedOnce && s.activated then [OltState(true)] else [];
            && |r.refused| <= 1 && |r.refused| <= |r.server.items|
            && var kept := |r.server.items| - |r.refused|;
               && r.server.items[kept..] == r.refused
               && r.server.written + r.refused + r.server.items[..kept] == s.written + s.items + extra + r.arrived
               && (r.server.connected <==> r.refused == [])
               && r.server.connectedOnce && r.server.activated == s.activated
  {
    LoopDelivers(Reconnect(s), turns);
    LoopKeepsFlags(Reconnect(s), turns);
    Regroup(s.written, s.items, [OltState(true)]);
    assert s.written + s.items + [] == s.written + s.items;
  }

  lemma NoTurnDelivers(s: Server)
    ensures Delivered(s, Served(s, [], []))
  {
    assert s.items[..|s.items|] == s.items;
    assert s.written + [] + s.items == s.written + s.items + [];
  }

  lemma {:induction false} AllEqual(refused: Indication, queue: seq<Indication>, n: nat)
    requires n <= |queue| && queue + [refused] == [refused] + queue
    ensures forall k | 0 <= k < n :: queue[k] == refused
  {
    if n > 0 {
      AllEqual(refused, queue, n - 1);
      assert queue[n - 1] == (queue + [refused])[n - 1] == ([refused] + queue)[n - 1];
    }
  }

  /** Pushing a refused indication back, if there is one, keeps the order of the rest only among equals. */
  lemma PushingBackKeepsOrderIff(written: seq<Indication>, refused: seq<Indication>, kept: seq<Indication>)
    requires |refused| <= 1
    ensures written + (kept + refused) == written + refused + kept
       <==> refused == [] || forall ind | ind in kept + refused :: ind == refused[0]
  {
    if refused == [] {
      assert kept + refused == kept && written + refused == written;
    } else {
      assert refused == [refused[0]];
      SamePrefix(written, kept + refused, refused + kept);
      Regroup(written, refused, kept);
      if kept + refused == refused + kept {
        AllEqual(refused[0], kept, |kept|);
      }
      if forall ind | ind in kept + refused :: ind == refused[0] {
        SameWhenEqual(kept, refused);
      }
    }
  }

  lemma SameWhenEqual(kept: seq<Indication>, refused: seq<Indication>)
    requires |refused| == 1
    requires forall ind | ind in kept + refused :: ind == refused[0]
    ensures kept + refused == refused + kept
  {
    var back, front := kept + refused, refused + kept;
    forall k | 0 <= k < |back|
      ensures back[k] == front[k]
    {
      assert back[k] in back;
      assert k > 0 ==> kept[k - 1] == back[k - 1] && back[k - 1] in back;
    }
  }

  lemma SamePrefix<T>(a: seq<T>, b: seq<T>, c: seq<T>)
    ensures a + b == a + c <==> b == c
  {
    assert (a + b)[|a|..] == b && (a + c)[|a|..] == c;
  }

  /** The server at the start of turn i. */
  ghost function Before(s: Server, turns: seq<Turn>, i: nat): Server
    requires i < |turns|
    decreases i
  {
    if i == 0 then s else Before(TakeTurn(s, turns[0]).server, turns[1..], i - 1)
  }

  /** Turn i is reached with the controller connected, pops an indication, and the write of it fails. */
  ghost predicate WriteFailsAt(s: Server, turns: seq<Turn>, i: nat)
    requires i < |turns|
  {
    Before(s, turns, i).connected && PopOf(Before(s, turns, i), turns[i]).result.Popped? && !turns[i].writeOk
  }

  /** At turn i, the pop leaves nothing in the queue but copies of what it popped. */
  ghost predicate LeavesOnlyCopies(s: Server, turns: seq<Turn>, i: nat)
    requires i < |turns|
  {
    var pop := PopOf(Before(s, turns, i), turns[i]);
    pop.result.Popped? && forall ind | ind in pop.items :: ind == pop.result.value
  }

  ghost predicate FailsOnlyAmongCopies(s: Server, turns: seq<Turn>) {
    forall i | 0 <= i < |turns| && WriteFailsAt(s, turns, i) :: LeavesOnlyCopies(s, turns, i)
  }

  /** Whether the loop keeps the order does not depend on the turns before a harmless one. */
  lemma LaterFailures(s: Server, turns: seq<Turn>)
    requires turns != [] && !WriteFailsAt(s, turns, 0)
    ensures FailsOnlyAmongCopies(s, turns) <==> FailsOnlyAmongCopies(TakeTurn(s, turns[0]).server, turns[1..])
  {
    var u, later := TakeTurn(s, turns[0]).server, turns[1..];
    forall i | 0 < i < |turns|
      ensures WriteFailsAt(s, turns, i) <==> WriteFailsAt(u, later, i - 1)
      ensures LeavesOnlyCopies(s, turns, i) <==> LeavesOnlyCopies(u, later, i - 1)
    {
      assert later[i - 1] == turns[i];
    }
    if FailsOnlyAmongCopies(s, turns) {
      forall j | 0 <= j < |later| && WriteFailsAt(u, later, j)
        ensures LeavesOnlyCopies(u, later, j)
      {
        assert WriteFailsAt(s, turns, j + 1);
      }
    }
  }

  lemma {:induction false} NeverReachedAgain(s: Server, turns: seq<Turn>, i: nat)
    requires i < |turns| && !s.connected
    ensures !Before(s, turns, i).connected
    decreases i
  {
    if i > 0 {
      NeverReachedAgain(TakeTurn(s, turns[0]).server, turns[1..], i - 1);
    }
  }

  /** After the first failed write no turn is reached, so only that one counts. */
  lemma FirstTurnFails(s: Server, turns: seq<Turn>)
    requires turns != [] && WriteFailsAt(s, turns, 0)
    ensures FailsOnlyAmongCopies(s, turns) <==> LeavesOnlyCopies(s, turns, 0)
  {
    forall i | 0 < i < |turns|
      ensures !WriteFailsAt(s, turns, i)
    {
      NeverReachedAgain(TakeTurn(s, turns[0]).server, turns[1..], i - 1);
    }
  }

  /** What has been written followed by what is queued is what was written, queued and pushed, in that order. */
  ghost predicate InOrder(s: Server, r: Served) {
    r.server.written + r.server.items == s.written + s.items + r.arrived
  }

  lemma DeliveredInOrderIff(s: Server, r: Served)
    requires Delivered(s, r)
    ensures InOrder(s, r) <==> r.refused == [] || forall ind | ind in r.server.items :: ind == r.refused[0]
  {
    var t := r.server;
    var kept := t.items[..|t.items| - |r.refused|];
    assert t.items == kept + r.refused;
    PushingBackKeepsOrderIff(t.written, r.refused, kept);
  }

  lemma {:induction false} LoopRefusesAmongCopiesIff(s: Server, turns: seq<Turn>)
    requires s.connected
    ensures var r := Loop(s, turns);
            (r.refused == [] || forall ind | ind in r.server.items :: ind == r.refused[0]) <==> FailsOnlyAmongCopies(s, turns)
    decreases |turns|
  {
    if turns != [] {
      var first := TakeTurn(s, turns[0]);
      TurnDelivers(s, turns[0]);
      if WriteFailsAt(s, turns, 0) {
        FirstTurnFails(s, turns);
        RefusedAtOnce(s, turns);
        CopiesAndOneMore(PopOf(s, turns[0]).items, PopOf(s, turns[0]).result.value);
      } else {
        LaterFailures(s, turns);
        LoopRefusesAmongCopiesIff(first.server, turns[1..]);
        assert first.refused + Loop(first.server, turns[1..]).refused == Loop(first.server, turns[1..]).refused;
      }
    }
  }

  lemma CopiesAndOneMore(items: seq<Indication>, ind: Indication)
    ensures (forall x | x in items + [ind] :: x == ind) <==> (forall x | x in items :: x == ind)
  {
    if forall x | x in items + [ind] :: x == ind {
      forall x | x in items
        ensures x == ind
      {
        assert x in items + [ind];
      }
    }
  }

  lemma RefusedAtOnce(s: Server, turns: seq<Turn>)
    requires turns != [] && WriteFailsAt(s, turns, 0)
    ensures var pop := PopOf(s, turns[0]);
            && Loop(s, turns).refused == [pop.result.value]
            && Loop(s, turns).server.items == pop.items + [pop.result.value]
  {
    var first := TakeTurn(s, turns[0]);
    assert Loop(first.server, turns[1..]) == Served(first.server, [], []);
    assert first.refused + [] == first.refused;
  }

  /**
   * The loop keeps the order of what is pushed exactly when no write it reaches fails, or the one that fails pops an
   * indication and leaves only copies of it in the queue: a refused indication is put behind the others.
   */
  lemma LoopKeepsOrderIff(s: Server, turns: seq<Turn>)
    requires s.connected
    ensures InOrder(s, Loop(s, turns)) <==> FailsOnlyAmongCopies(s, turns)
  {
    LoopDelivers(s, turns);
    DeliveredInOrderIff(s, Loop(s, turns));
    LoopRefusesAmongCopiesIff(s, turns);
  }

  /** Two different indications are queued and the first write fails: they end up swapped. */
  lemma RefusalSwaps(s: Server, first: Indication, second: Indication)
    requires s.connected && s.items == [first, second] && first != second
    ensures var turns := [Turn([], [], false)];
            && Loop(s, turns).server.items == [second, first]
            && Loop(s, turns).server.written == s.written
            && !InOrder(s, Loop(s, turns))
  {
    var turns := [Turn([], [], false)];
    assert PopOf(s, turns[0]).result == Popped(first) && PopOf(s, turns[0]).items == [second];
    assert second in PopOf(s, turns[0]).items;
    assert WriteFailsAt(s, turns, 0) && !LeavesOnlyCopies(s, turns, 0);
    RefusedAtOnce(s, turns);
    LoopKeepsOrderIff(s, turns);
  }

  class IndicationService {
    const queue: Queue<Indication>
    var connected: bool
    var connectedOnce: bool
    var activated: bool
    var written: seq<Indication>

    constructor (queue: Queue<Indication>)
      ensures this.queue == queue && !connected && !connectedOnce && !activated && written == []
    {
      this.queue := queue;
      connected, connectedOnce, activated, written := false, false, false, [];
    }

    ghost function Model(): Server
      reads this, queue, queue.clock
    {
      Server(queue.items, queue.clock.duration, connected, connectedOnce, activated, written)
    }

    /** Statistics are collected while the controller is connected and the OLT is up. */
    method CollectStats(stats: seq<Indication>)
      modifies queue
      ensures queue.items == old(queue.items) + if connected && activated then stats else []
    {
      if !connected || !activated {
        return;
      }
      var i := 0;
      while i < |stats|
        invariant i <= |stats| && queue.items == old(queue.items) + stats[..i]
      {
        queue.Push(stats[i]);
        i := i + 1;
      }
    }

    method RunTurn(turn: Turn)
      requires connected
      modifies this`connected, this`written, queue, queue.clock
      ensures Model() == TakeTurn(old(Model()), turn).server
    {
      var result, _ := queue.Pop(COLLECTION_PERIOD * 1000, 1000, turn.wakes);
      match result
      case Waiting =>
      case TimedOut =>
        CollectStats(turn.stats);
      case Popped(indication) =>
        if turn.writeOk {
          written := written + [indication];
        } else {
          queue.Push(indication);
          connected := false;
        }
    }

    method EnableIndication(turns: seq<Turn>)
      modifies this`connected, this`connectedOnce, this`written, queue, queue.clock
      ensures Model() == Loop(Reconnect(old(Model())), turns).server
      ensures Delivered(Reconnect(old(Model())), Loop(Reconnect(old(Model())), turns))
    {
      if connectedOnce {
        if activated {
          queue.Push(OltState(true));
        }
      }
      connected := true;
      connectedOnce := true;
      ghost var begun := Model();
      LoopDelivers(begun, turns);
      var i := 0;
      while connected && i < |turns|
        invariant i <= |turns|
        invariant Loop(begun, turns).server == Loop(Model(), turns[i..]).server
      {
        assert turns[i..][1..] == turns[i + 1..];
        RunTurn(turns[i]);
        i := i + 1;
      }
    }
  }
}
