/** Runs of the completion-wait protocol that the source allows, from whatever state earlier steps led to. */
module WaitRuns {
  import opened CompletionWait
  import opened Options
  import opened WaitProtocol

  lemma OneMore(steps: seq<Step>, s: System, step: Step) returns (more: seq<Step>, t: System)
    requires Run(steps) == Some(s) && Enabled(s, step)
    ensures more == steps + [step] && t == Apply(s, step) && Run(more) == Some(t)
  {
    more, t := steps + [step], Apply(s, step);
    assert more[..|more| - 1] == steps;
  }

  lemma Locks(steps: seq<Step>, s: System, w: nat) returns (more: seq<Step>, t: System)
    requires Run(steps) == Some(s) && w in s.waiters && WaiterMay(s, s.waiters[w], Lock)
    ensures Run(more) == Some(t)
    ensures t == s.(locks := s.locks[KindOf(s.waiters[w]) := WaiterAgent(w)],
                    waiters := s.waiters[w := WaiterAfter(s, s.waiters[w], Lock)])
  {
    more, t := OneMore(steps, s, WaiterStep(w, Lock));
  }

  lemma Unlocks(steps: seq<Step>, s: System, w: nat) returns (more: seq<Step>, t: System)
    requires Run(steps) == Some(s) && w in s.waiters && WaiterMay(s, s.waiters[w], Unlock)
    ensures Run(more) == Some(t)
    ensures t == s.(locks := s.locks - {KindOf(s.waiters[w])},
                    waiters := s.waiters[w := WaiterAfter(s, s.waiters[w], Unlock)])
  {
    more, t := OneMore(steps, s, WaiterStep(w, Unlock));
  }

  // Publishing

  function Waiting(request: Request, key: Key): Waiter {
    Waiter(request, key, PWaiting, [], Nothing)
  }

  lemma SetTwice<K, V>(m: map<K, V>, k: K, u: V, v: V)
    ensures m[k := u][k := v] == m[k := v]
  {
  }

  lemma SetAndTaken<K, V>(m: map<K, V>, k: K, v: V)
    requires k !in m
    ensures m[k := v] - {k} == m
  {
  }

  ghost function EntriesWith(s: System, w: nat, a: Waiter): map<Slot, Option<nat>> {
    if a.request == RssiRequest && SlotOf(a) in s.entries then s.entries else s.entries[SlotOf(a) := Some(w)]
  }

  /** A waiter that locks for it publishes its queue. */
  lemma PublishesLocked(steps: seq<Step>, s: System, w: nat) returns (more: seq<Step>, t: System)
    requires Run(steps) == Some(s) && w in s.waiters && s.waiters[w].pc.PStart? && KindOf(s.waiters[w]) !in s.locks
    requires s.waiters[w].request != DeactivateRequest
    ensures Run(more) == Some(t)
    ensures var a := s.waiters[w];
            t == s.(entries := EntriesWith(s, w, a), waiters := s.waiters[w := a.(pc := PWaiting)])
  {
    var a := s.waiters[w];
    more, t := Locks(steps, s, w);
    more, t := OneMore(more, t, WaiterStep(w, Publish));
    SetTwice(s.waiters, w, a.(pc := PLocked), a.(pc := PPublished));
    assert t.waiters == s.waiters[w := a.(pc := PPublished)];
    more, t := Unlocks(more, t, w);
    SetTwice(s.waiters, w, a.(pc := PPublished), a.(pc := PWaiting));
    SetAndTaken(s.locks, KindOf(a), WaiterAgent(w));
  }

  /** A new waiter publishes its queue and waits; an RSSI waiter only if its ONU has no entry yet. */
  lemma Publishes(steps: seq<Step>, s: System, w: nat, request: Request, key: Key)
    returns (more: seq<Step>, t: System)
    requires Run(steps) == Some(s) && w !in s.waiters && KindOf(Waiting(request, key)) !in s.locks
    ensures Run(more) == Some(t)
    ensures var slot := SlotOf(Waiting(request, key));
            t == s.(entries := if request == RssiRequest && slot in s.entries then s.entries else s.entries[slot := Some(w)],
                    waiters := s.waiters[w := Waiting(request, key)])
  {
    var a := Waiter(request, key, PStart, [], Nothing);
    more, t := OneMore(steps, s, StartWaiter(w, request, key));
    if request == DeactivateRequest {
      more, t := OneMore(more, t, WaiterStep(w, Publish));
    } else {
      more, t := PublishesLocked(more, t, w);
    }
    SetTwice(s.waiters, w, a, Waiting(request, key));
  }

  // A report

  /** A callback finds the waiter's queue, pushes its report and leaves. */
  lemma Reports(steps: seq<Step>, s: System, w: nat, c: nat, report: Report) returns (more: seq<Step>, t: System)
    requires Run(steps) == Some(s) && w in s.waiters && c !in s.callbacks && c !in s.stale
    requires KindOf(s.waiters[w]) !in s.locks && report.key == s.waiters[w].key
    requires SlotOf(s.waiters[w]) in s.entries && s.entries[SlotOf(s.waiters[w])] == Some(w)
    ensures Run(more) == Some(t)
    ensures var a := s.waiters[w];
            t == s.(waiters := s.waiters[w := a.(queue := a.queue + [report])],
                    callbacks := s.callbacks[c := Callback(KindOf(a), report, CDone, 0)])
  {
    var kind := KindOf(s.waiters[w]);
    var found, again := Callback(kind, report, CFound, 0), Callback(kind, report, CRelocked, 0);
    more, t := Finds(steps, s, c, kind, report);
    if kind == Gem {
      more, t := LetsGo(more, t, c);
      SetTwice(s.locks, Gem, CallbackAgent(c), CallbackAgent(c));
      SetTwice(s.callbacks, c, found, again);
    }
    more, t := TestsAndPushes(more, t, c, w);
    SetTwice(s.callbacks, c, if kind == Gem then again else found, Callback(kind, report, CDone, 0));
    SetAndTaken(s.locks, kind, CallbackAgent(c));
  }

  /** A callback about to read through its iterator reads, pushes and leaves. */
  lemma TestsAndPushes(steps: seq<Step>, s: System, c: nat, w: nat) returns (more: seq<Step>, t: System)
    requires Run(steps) == Some(s) && c in s.callbacks && CallbackMay(s, c, s.callbacks[c], Test) && PointsAt(s, c, w)
    ensures Run(more) == Some(t) && w in s.waiters
    ensures var a, b := s.waiters[w], s.callbacks[c];
            t == s.(locks := s.locks - {b.kind}, waiters := s.waiters[w := a.(queue := a.queue + [b.report])],
                    callbacks := s.callbacks[c := b.(pc := CDone)])
  {
    var b := s.callbacks[c];
    more, t := OneMore(steps, s, CallbackStep(c, Test));
    more, t := Pushes(more, t, c, w);
    SetTwice(s.callbacks, c, b.(pc := CTested(w)), b.(pc := CPushed(w)));
    more, t := OneMore(more, t, CallbackStep(c, Leave));
    SetTwice(s.callbacks, c, b.(pc := CPushed(w)), b.(pc := CDone));
  }

  lemma Finds(steps: seq<Step>, s: System, c: nat, kind: Kind, report: Report) returns (more: seq<Step>, t: System)
    requires Run(steps) == Some(s) && c !in s.callbacks && kind !in s.locks && Slot(kind, report.key) in s.entries
    ensures Run(more) == Some(t)
    ensures t == s.(locks := s.locks[kind := CallbackAgent(c)],
                    callbacks := s.callbacks[c := Callback(kind, report, CFound, 0)])
  {
    more, t := OneMore(steps, s, StartCallback(c, kind, report));
    more, t := OneMore(more, t, CallbackStep(c, Seize));
    more, t := OneMore(more, t, CallbackStep(c, Find));
    assert t.callbacks == s.callbacks[c := Callback(kind, report, CFound, 0)];
  }

  /** The GEM callback lets go of the lock and takes it again. */
  lemma LetsGo(steps: seq<Step>, s: System, c: nat) returns (more: seq<Step>, t: System)
    requires Run(steps) == Some(s) && c in s.callbacks && s.callbacks[c].pc.CFound? && s.callbacks[c].kind == Gem
    ensures Run(more) == Some(t)
    ensures t == s.(locks := s.locks[Gem := CallbackAgent(c)], callbacks := s.callbacks[c := s.callbacks[c].(pc := CRelocked)])
  {
    more, t := OneMore(steps, s, CallbackStep(c, Release));
    more, t := OneMore(more, t, CallbackStep(c, Seize));
    assert t.locks == s.locks[Gem := CallbackAgent(c)];
    assert t.callbacks == s.callbacks[c := s.callbacks[c].(pc := CRelocked)];
  }

  lemma Pushes(steps: seq<Step>, s: System, c: nat, w: nat) returns (more: seq<Step>, t: System)
    requires Run(steps) == Some(s) && c in s.callbacks && s.callbacks[c].pc.CTested? && PointsAt(s, c, w)
    ensures Run(more) == Some(t) && w in s.waiters
    ensures var a := s.waiters[w];
            t == s.(waiters := s.waiters[w := a.(queue := a.queue + [s.callbacks[c].report])],
                    callbacks := s.callbacks[c := s.callbacks[c].(pc := CPushed(w))])
  {
    EveryRunKeepsInvariant(steps);
    more, t := OneMore(steps, s, CallbackStep(c, Push));
    PushDelivers(s, c, w);
  }

  /** A waiter with a report in its queue pops it, erases its entry and returns. */
  lemma PopsAndReturns(steps: seq<Step>, s: System, w: nat) returns (more: seq<Step>, t: System)
    requires Run(steps) == Some(s) && w in s.waiters && s.waiters[w].pc.PWaiting? && s.waiters[w].queue != []
    requires KindOf(s.waiters[w]) !in s.locks
    ensures Run(more) == Some(t)
    ensures var a := s.waiters[w].(learnt := Got(s.waiters[w].queue[0]), queue := s.waiters[w].queue[1..]);
            t == System(s.entries - {SlotOf(a)}, s.locks, s.waiters[w := a.(pc := PReturned(Verdict(a)))], s.callbacks,
                        s.stale + IteratorsTo(s, SlotOf(a)))
  {
    var a := s.waiters[w].(learnt := Got(s.waiters[w].queue[0]), queue := s.waiters[w].queue[1..]);
    more, t := OneMore(steps, s, WaiterStep(w, Pop));
    assert t.waiters == s.waiters[w := a.(pc := PDecided)];
    more, t := ErasesEntry(more, t, w);
  }

  /** What a report should decide for each kind of wait. */
  predicate ShouldSucceed(request: Request, success: bool, newState: ActivationState) {
    match request
    case AllocRequest(AllocCreate) => success && newState == Active
    case AllocRequest(AllocDelete) => success && (newState == NotConfigured || newState == OtherState)
    case GemRequest(GemCreate) => success && newState == Active
    case GemRequest(GemEncrypt) => success && newState == Active
    case GemRequest(GemDelete) => success && (newState == NotConfigured || newState == OtherState)
    case DeactivateRequest => success
    case RssiRequest => true
  }

  /**
   * A waiter of any kind publishes, one report for its key comes in, and the waiter returns: with OK exactly on the
   * reports that should succeed, and leaving no entry and no lock behind.
   */
  lemma OneReportDecides(request: Request, key: Key, success: bool, newState: ActivationState)
    returns (steps: seq<Step>, s: System)
    ensures Run(steps) == Some(s) && s.entries == map[] && s.locks == map[] && s.stale == {}
    ensures s.waiters == map[0 := Waiter(request, key,
                                         PReturned(if ShouldSucceed(request, success, newState) then Ok else Internal),
                                         [], Got(Report(key, success, newState)))]
  {
    var report := Report(key, success, newState);
    steps, s := Publishes([], INITIAL, 0, request, key);
    var slot := SlotOf(Waiting(request, key));
    assert s.entries == map[slot := Some(0)] && s.waiters == map[0 := Waiting(request, key)];
    steps, s := Reports(steps, s, 0, 0, report);
    assert [] + [report] == [report];
    assert s.waiters[0] == Waiting(request, key).(queue := [report]) && s.waiters.Keys == {0};
    assert IteratorsTo(s, slot) == {};
    steps, s := PopsAndReturns(steps, s, 0);
    var a := Waiter(request, key, PWaiting, [], Got(report));
    assert s.entries == map[];
    VerdictOnReport(a);
    assert s.waiters[0] == a.(pc := PReturned(Verdict(a))) && s.waiters.Keys == {0};
  }

  lemma VerdictOnReport(a: Waiter)
    requires a.learnt.Got?
    ensures Verdict(a) == if ShouldSucceed(a.request, a.learnt.report.success, a.learnt.report.newState) then Ok else Internal
  {
  }

  // No report

  /** A waiting waiter times out and writes NULL into its entry. */
  lemma NullsEntry(steps: seq<Step>, s: System, w: nat) returns (more: seq<Step>, t: System)
    requires Run(steps) == Some(s) && w in s.waiters && s.waiters[w].pc.PWaiting?
    requires KindOf(s.waiters[w]) !in s.locks
    ensures Run(more) == Some(t)
    ensures var a := s.waiters[w];
            t == s.(entries := s.entries[SlotOf(a) := None],
                    waiters := s.waiters[w := a.(pc := if AsksDevice(a) then PNullReleased else PDecided, learnt := TimedOut)])
  {
    var a := s.waiters[w].(learnt := TimedOut);
    more, t := OneMore(steps, s, WaiterStep(w, TimeOut));
    more, t := Locks(more, t, w);
    SetTwice(s.waiters, w, a.(pc := PExpired), a.(pc := PExpiredLocked));
    more, t := Nulls(more, t, w);
    SetTwice(s.waiters, w, a.(pc := PExpiredLocked), a.(pc := PNulled));
    more, t := Unlocks(more, t, w);
    SetTwice(s.waiters, w, a.(pc := PNulled), a.(pc := if AsksDevice(a) then PNullReleased else PDecided));
    SetAndTaken(s.locks, KindOf(a), WaiterAgent(w));
  }

  lemma ErasesEntry(steps: seq<Step>, s: System, w: nat) returns (more: seq<Step>, t: System)
    requires Run(steps) == Some(s) && w in s.waiters && s.waiters[w].pc.PDecided?
    requires KindOf(s.waiters[w]) !in s.locks
    ensures Run(more) == Some(t)
    ensures var a := s.waiters[w];
            t == System(s.entries - {SlotOf(a)}, s.locks, s.waiters[w := a.(pc := PReturned(Verdict(a)))], s.callbacks,
                        s.stale + IteratorsTo(s, SlotOf(a)))
  {
    var a := s.waiters[w];
    more, t := Locks(steps, s, w);
    more, t := Erases(more, t, w);
    more, t := Unlocks(more, t, w);
    assert t.locks == s.locks;
    assert t.waiters == s.waiters[w := a.(pc := PReturned(Verdict(a)))];
  }

  lemma Nulls(steps: seq<Step>, s: System, w: nat) returns (more: seq<Step>, t: System)
    requires Run(steps) == Some(s) && w in s.waiters && s.waiters[w].pc.PExpiredLocked?
    ensures Run(more) == Some(t)
    ensures var a := s.waiters[w];
            t == s.(entries := s.entries[SlotOf(a) := None], waiters := s.waiters[w := a.(pc := PNulled)])
  {
    more, t := OneMore(steps, s, WaiterStep(w, Null));
  }

  lemma Erases(steps: seq<Step>, s: System, w: nat) returns (more: seq<Step>, t: System)
    requires Run(steps) == Some(s) && w in s.waiters && s.waiters[w].pc.PEraseLocked?
    ensures Run(more) == Some(t)
    ensures var a := s.waiters[w];
            t == s.(entries := s.entries - {SlotOf(a)}, waiters := s.waiters[w := a.(pc := PErased)],
                    stale := s.stale + IteratorsTo(s, SlotOf(a)))
  {
    more, t := OneMore(steps, s, WaiterStep(w, Erase));
  }

  /** The object is as the action wants it, or cannot be read: the alloc and GEM waits then return at once. */
  predicate SettledBy(request: Request, read: DeviceRead) {
    || read.ReadFailed?
    || ((request == AllocRequest(AllocCreate) || request == GemRequest(GemCreate)) && read.state == Active)
    || ((request == AllocRequest(AllocDelete) || request == GemRequest(GemDelete)) && read.state == NotConfigured)
  }

  /**
   * An alloc or GEM waiter times out and reads the device. If that settles the matter it returns and leaves a NULL entry
   * behind; else it erases its entry first.
   */
  lemma TimesOutAsking(steps: seq<Step>, s: System, w: nat, read: DeviceRead) returns (more: seq<Step>, t: System)
    requires Run(steps) == Some(s) && w in s.waiters && s.waiters[w].pc.PWaiting?
    requires KindOf(s.waiters[w]) !in s.locks && AsksDevice(s.waiters[w])
    ensures Run(more) == Some(t)
    ensures var a := s.waiters[w].(learnt := Read(read));
            var settled := SettledBy(a.request, read);
            t == System(if settled then s.entries[SlotOf(a) := None] else s.entries - {SlotOf(a)}, s.locks,
                        s.waiters[w := a.(pc := PReturned(Verdict(a)))], s.callbacks,
                        if settled then s.stale else s.stale + IteratorsTo(s, SlotOf(a)))
  {
    var a := s.waiters[w].(learnt := Read(read));
    more, t := NullsEntry(steps, s, w);
    more, t := OneMore(more, t, WaiterStep(w, ReadDevice(read)));
    if !SettledBy(a.request, read) {
      assert t == System(s.entries[SlotOf(a) := None], s.locks, s.waiters[w := a.(pc := PDecided)], s.callbacks, s.stale);
      more, t := ErasesEntry(more, t, w);
      assert t.entries == s.entries - {SlotOf(a)};
    }
    assert t.waiters == s.waiters[w := a.(pc := PReturned(Verdict(a)))];
  }

  /** An ONU-deactivate or RSSI waiter times out, erases its entry and returns an error. */
  lemma TimesOutSilently(steps: seq<Step>, s: System, w: nat) returns (more: seq<Step>, t: System)
    requires Run(steps) == Some(s) && w in s.waiters && s.waiters[w].pc.PWaiting?
    requires KindOf(s.waiters[w]) !in s.locks && !AsksDevice(s.waiters[w])
    ensures Run(more) == Some(t)
    ensures var a := s.waiters[w].(learnt := TimedOut);
            t == System(s.entries - {SlotOf(a)}, s.locks,
                        s.waiters[w := a.(pc := PReturned(if a.request == RssiRequest then Timeout else Internal))],
                        s.callbacks, s.stale + IteratorsTo(s, SlotOf(a)))
  {
    var a := s.waiters[w].(learnt := TimedOut);
    more, t := NullsEntry(steps, s, w);
    more, t := ErasesEntry(more, t, w);
    assert t.entries == s.entries - {SlotOf(a)};
    assert t.waiters == s.waiters[w := a.(pc := PReturned(Verdict(a)))];
  }

  /** A deletion that times out while the device reads ACTIVE returns OK. */
  lemma DeleteReturnsOkWhileActive(request: Request, key: Key) returns (steps: seq<Step>, s: System)
    requires request == AllocRequest(AllocDelete) || request == GemRequest(GemDelete)
    ensures Run(steps) == Some(s) && 0 in s.waiters
    ensures s.waiters[0] == Waiter(request, key, PReturned(Ok), [], Read(ReadState(Active)))
  {
    steps, s := Publishes([], INITIAL, 0, request, key);
    steps, s := TimesOutAsking(steps, s, 0, ReadState(Active));
  }

  // GEM callbacks

  /**
   * The GEM callback's iterator can dangle: its entry is erased, and the waiter gone, while the callback has let go of
   * the lock; then it takes the lock again, about to read through the iterator.
   */
  lemma GemIteratorCanDangle(key: Key) returns (steps: seq<Step>, s: System)
    ensures Run(steps) == Some(s) && 0 in s.callbacks && 0 in s.waiters
    ensures s.callbacks[0].kind == Gem && s.callbacks[0].pc == CRelocked && 0 in s.stale
    ensures CallbackSlot(s.callbacks[0]) !in s.entries && s.waiters[0].pc.PReturned?
  {
    var report := Report(key, true, Active);
    steps, s := Publishes([], INITIAL, 0, GemRequest(GemCreate), key);
    steps, s := Finds(steps, s, 0, Gem, report);
    steps, s := OneMore(steps, s, CallbackStep(0, Release));
    assert s.callbacks[0] == Callback(Gem, report, CReleased, 0);
    assert 0 in IteratorsTo(s, Slot(Gem, key));
    steps, s := TimesOutAsking(steps, s, 0, ReadState(Inactive));
    steps, s := OneMore(steps, s, CallbackStep(0, Seize));
  }

  /** A GEM callback that finds no entry looks again, five times in all. */
  lemma GemMisses(steps: seq<Step>, s: System, c: nat) returns (more: seq<Step>, t: System)
    requires Run(steps) == Some(s) && c in s.callbacks && s.callbacks[c].pc.CStart? && s.callbacks[c].kind == Gem
    requires Gem !in s.locks && CallbackSlot(s.callbacks[c]) !in s.entries
    ensures Run(more) == Some(t) && |more| == |steps| + 3
    ensures var b := s.callbacks[c];
            t == s.(callbacks := s.callbacks[c := if b.checks < 4 then b.(checks := b.checks + 1) else b.(pc := CDone)])
  {
    more, t := OneMore(steps, s, CallbackStep(c, Seize));
    more, t := OneMore(more, t, CallbackStep(c, Find));
    more, t := OneMore(more, t, CallbackStep(c, Leave));
    assert t.locks == s.locks;
    var b := s.callbacks[c];
    assert t.callbacks == s.callbacks[c := if b.checks < 4 then b.(checks := b.checks + 1) else b.(pc := CDone)];
  }

  lemma GemGivesUpAfterFiveLooks(key: Key, success: bool, newState: ActivationState) returns (steps: seq<Step>, s: System)
    ensures Run(steps) == Some(s) && s == INITIAL.(callbacks := map[0 := Callback(Gem, Report(key, success, newState), CDone, 4)])
    ensures |steps| == 1 + 5 * 3
  {
    steps, s := OneMore([], INITIAL, StartCallback(0, Gem, Report(key, success, newState)));
    steps, s := GemMisses(steps, s, 0);
    steps, s := GemMisses(steps, s, 0);
    steps, s := GemMisses(steps, s, 0);
    steps, s := GemMisses(steps, s, 0);
    assert s.callbacks[0] == Callback(Gem, Report(key, success, newState), CStart, 4);
    steps, s := GemMisses(steps, s, 0);
    assert s.callbacks[0] == Callback(Gem, Report(key, success, newState), CDone, 4) && s.callbacks.Keys == {0};
  }
}
