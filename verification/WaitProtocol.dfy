/**
 * The completion-wait protocol: waiters publish a pointer to a queue on their own stack in a shared map, callbacks on
 * other threads look it up under a lock and push (agent/src/core_utils.cc, agent/src/core_api_handler.cc,
 * agent/src/indications.cc). Threads interleave at every lock, map access, push and pop.
 */
module WaitProtocol {
  import opened CompletionWait
  import opened Options

  const MAX_GEM_CFG_KEY_CHECK: nat := 5

  /** The four waits, each with a map and a lock of its own. */
  datatype Kind = Alloc | Gem | Deactivate | Rssi

  datatype Request = AllocRequest(alloc: AllocAction) | GemRequest(gem: GemAction) | DeactivateRequest | RssiRequest

  /** (PON interface, alloc id, GEM port id or ONU id). */
  datatype Key = Key(pon: int, id: int)

  datatype Report = Report(key: Key, success: bool, newState: ActivationState)

  datatype Agent = WaiterAgent(w: nat) | CallbackAgent(c: nat)

  datatype WaiterPc =
    | PStart          // the queue exists, nothing is published
    | PLocked         // holds the lock, about to publish
    | PPublished      // published, still holds the lock
    | PWaiting        // blocked in the timed pop
    | PExpired        // the pop timed out
    | PExpiredLocked  // holds the lock, about to write NULL
    | PNulled         // wrote NULL, still holds the lock
    | PNullReleased   // about to read the device's state, where the wait does that
    | PDecided        // result known, entry still to be erased
    | PEraseLocked    // holds the lock, about to erase
    | PErased         // erased, still holds the lock
    | PReturned(err: Errno)

  /** What a waiter has learnt so far. */
  datatype Learnt = Nothing | Got(report: Report) | TimedOut | Read(read: DeviceRead)

  datatype Waiter = Waiter(request: Request, key: Key, pc: WaiterPc, queue: seq<Report>, learnt: Learnt)

  datatype CallbackPc =
    | CStart
    | CLocked             // holds the lock
    | CFound              // holds the lock and an iterator to the entry of its key
    | CReleased           // GEM only: holds the iterator without the lock
    | CRelocked           // GEM only: holds the lock again, and the iterator
    | CTested(seen: nat)  // read a non-NULL pointer through the iterator
    | CPushed(into: nat)  // pushed, and still has to notify the waiter
    | CUnlocking          // about to unlock
    | CMissed             // GEM only: no entry yet, about to unlock and try again
    | CDone

  /** checks counts how often a GEM callback has looked for its key in vain. */
  datatype Callback = Callback(kind: Kind, report: Report, pc: CallbackPc, checks: nat)

  datatype Slot = Slot(kind: Kind, key: Key)

  /**
   * Entries hold NULL as None and a pointer to a waiter's queue as Some of the waiter. stale lists the callbacks whose
   * entry was erased while they held an iterator to it without the lock.
   */
  datatype System = System(
    entries: map<Slot, Option<nat>>,
    locks: map<Kind, Agent>,
    waiters: map<nat, Waiter>,
    callbacks: map<nat, Callback>,
    stale: set<nat>)

  const INITIAL := System(map[], map[], map[], map[], {})

  datatype WaiterAct = Lock | Publish | Pop | TimeOut | Null | Erase | Unlock | ReadDevice(read: DeviceRead)

  datatype CallbackAct = Seize | Find | Release | Test | Push | Leave

  datatype Step =
    | StartWaiter(w: nat, request: Request, key: Key)
    | StartCallback(c: nat, kind: Kind, report: Report)
    | WaiterStep(w: nat, waiterAct: WaiterAct)
    | CallbackStep(c: nat, callbackAct: CallbackAct)

  predicate WaiterHolds(pc: WaiterPc) {
    pc.PLocked? || pc.PPublished? || pc.PExpiredLocked? || pc.PNulled? || pc.PEraseLocked? || pc.PErased?
  }

  predicate CallbackHolds(pc: CallbackPc) {
    pc.CLocked? || pc.CFound? || pc.CRelocked? || pc.CTested? || pc.CPushed? || pc.CUnlocking? || pc.CMissed?
  }

  /** The queue may be pointed to: published, and neither nulled nor erased by its own waiter since. */
  predicate Reachable(pc: WaiterPc) {
    pc.PPublished? || pc.PWaiting? || pc.PExpired? || pc.PExpiredLocked? || pc.PDecided? || pc.PEraseLocked?
  }

  function KindOf(a: Waiter): Kind {
    match a.request
    case AllocRequest(_) => Alloc
    case GemRequest(_) => Gem
    case DeactivateRequest => Deactivate
    case RssiRequest => Rssi
  }

  function SlotOf(a: Waiter): Slot {
    Slot(KindOf(a), a.key)
  }

  function CallbackSlot(b: Callback): Slot {
    Slot(b.kind, b.report.key)
  }

  /** How the wait ended, for the two waits that ask the device after a timeout. */
  function OutcomeOf(learnt: Learnt): Option<Outcome> {
    match learnt
    case Got(r) => Some(Completed(ToResult(r.success, r.newState)))
    case Read(read) => Some(Expired(read))
    case Nothing => None
    case TimedOut => None
  }

  function Verdict(a: Waiter): Errno {
    match a.request
    case AllocRequest(action) =>
      var o := OutcomeOf(a.learnt);
      if o.Some? then AllocVerdict(action, o.value) else Internal
    case GemRequest(action) =>
      var o := OutcomeOf(a.learnt);
      if o.Some? then GemVerdict(action, o.value) else Internal
    case DeactivateRequest => if a.learnt.Got? && a.learnt.report.success then Ok else Internal
    case RssiRequest => if a.learnt.Got? then Ok else Timeout
  }

  /** The wait asks the device for the object's state after a timeout. */
  predicate AsksDevice(a: Waiter) {
    a.request.AllocRequest? || a.request.GemRequest?
  }

  predicate ReturnsEarly(request: Request, read: DeviceRead) {
    match request
    case AllocRequest(action) => AllocReturnsEarly(action, read)
    case GemRequest(action) => GemReturnsEarly(action, read)
    case DeactivateRequest => false
    case RssiRequest => false
  }

  // Waiters

  predicate WaiterMay(s: System, a: Waiter, act: WaiterAct) {
    match act
    case Lock =>
      KindOf(a) !in s.locks && ((a.pc.PStart? && !a.request.DeactivateRequest?) || a.pc.PExpired? || a.pc.PDecided?)
    // The ONU-deactivate wait publishes without the lock.
    case Publish => if a.request.DeactivateRequest? then a.pc.PStart? else a.pc.PLocked?
    case Pop => a.pc.PWaiting? && a.queue != []
    case TimeOut => a.pc.PWaiting?
    case Null => a.pc.PExpiredLocked?
    case Erase => a.pc.PEraseLocked?
    case Unlock => a.pc.PPublished? || a.pc.PNulled? || a.pc.PErased?
    case ReadDevice(_) => a.pc.PNullReleased? && AsksDevice(a)
  }

  function WaiterAfter(s: System, a: Waiter, act: WaiterAct): Waiter
    requires WaiterMay(s, a, act)
  {
    match act
    case Lock => a.(pc := if a.pc.PStart? then PLocked else if a.pc.PExpired? then PExpiredLocked else PEraseLocked)
    case Publish => a.(pc := if a.request.DeactivateRequest? then PWaiting else PPublished)
    case Pop => a.(pc := PDecided, queue := a.queue[1..], learnt := Got(a.queue[0]))
    case TimeOut => a.(pc := PExpired, learnt := TimedOut)
    case Null => a.(pc := PNulled)
    case Erase => a.(pc := PErased)
    case Unlock =>
      a.(pc := if a.pc.PPublished? then PWaiting
               else if a.pc.PErased? then PReturned(Verdict(a))
               else if AsksDevice(a) then PNullReleased else PDecided)
    case ReadDevice(read) =>
      var b := a.(learnt := Read(read));
      b.(pc := if ReturnsEarly(a.request, read) then PReturned(Verdict(b)) else PDecided)
  }

  function EntriesAfter(s: System, w: nat, a: Waiter, act: WaiterAct): map<Slot, Option<nat>> {
    match act
    // The RSSI wait inserts, which leaves an existing entry alone; the others assign.
    case Publish => if a.request.RssiRequest? && SlotOf(a) in s.entries then s.entries else s.entries[SlotOf(a) := Some(w)]
    case Null => s.entries[SlotOf(a) := None]
    case Erase => s.entries - {SlotOf(a)}
    case _ => s.entries
  }

  function LocksAfter(s: System, w: nat, a: Waiter, act: WaiterAct): map<Kind, Agent> {
    match act
    case Lock => s.locks[KindOf(a) := WaiterAgent(w)]
    case Unlock => s.locks - {KindOf(a)}
    case _ => s.locks
  }

  /** The callbacks that hold an iterator to this slot without the lock. */
  ghost function IteratorsTo(s: System, slot: Slot): set<nat> {
    set c | c in s.callbacks && s.callbacks[c].pc.CReleased? && CallbackSlot(s.callbacks[c]) == slot
  }

  ghost function AfterWaiter(s: System, w: nat, act: WaiterAct): System
    requires w in s.waiters && WaiterMay(s, s.waiters[w], act)
  {
    var a := s.waiters[w];
    System(EntriesAfter(s, w, a, act), LocksAfter(s, w, a, act), s.waiters[w := WaiterAfter(s, a, act)], s.callbacks,
           if act.Erase? then s.stale + IteratorsTo(s, SlotOf(a)) else s.stale)
  }

  // Callbacks

  predicate CallbackMay(s: System, c: nat, b: Callback, act: CallbackAct) {
    match act
    case Seize => b.kind !in s.locks && (b.pc.CStart? || b.pc.CReleased?)
    case Find => b.pc.CLocked?
    // The GEM callback lets go of the lock between its find and its push.
    case Release => b.pc.CFound? && b.kind == Gem
    // Reading through the iterator of an erased entry is undefined: no step of this model.
    case Test => if b.kind == Gem then b.pc.CRelocked? && c !in s.stale else b.pc.CFound?
    case Push => b.pc.CTested?
    case Leave => b.pc.CUnlocking? || b.pc.CPushed? || b.pc.CMissed?
  }

  /** The queue the callback's entry points to. */
  function PointedTo(s: System, b: Callback): Option<nat> {
    if CallbackSlot(b) in s.entries then s.entries[CallbackSlot(b)] else None
  }

  function CallbackAfter(s: System, b: Callback, act: CallbackAct): Callback {
    match act
    case Seize => b.(pc := if b.pc.CStart? then CLocked else CRelocked)
    case Find => b.(pc := if CallbackSlot(b) in s.entries then CFound else if b.kind == Gem then CMissed else CUnlocking)
    case Release => b.(pc := CReleased)
    case Test => b.(pc := if PointedTo(s, b).Some? then CTested(PointedTo(s, b).value) else CUnlocking)
    // The pointer is read again through the iterator; an ONU-deactivate waiter publishes without the lock.
    case Push => b.(pc := if PointedTo(s, b).Some? then CPushed(PointedTo(s, b).value) else CUnlocking)
    case Leave =>
      if b.pc.CMissed? && b.checks + 1 < MAX_GEM_CFG_KEY_CHECK then b.(pc := CStart, checks := b.checks + 1)
      else b.(pc := CDone)
  }

  function CallbackLocksAfter(s: System, c: nat, b: Callback, act: CallbackAct): map<Kind, Agent> {
    match act
    case Seize => s.locks[b.kind := CallbackAgent(c)]
    case Release => s.locks - {b.kind}
    case Leave => s.locks - {b.kind}
    case _ => s.locks
  }

  function WaitersAfterPush(s: System, b: Callback): map<nat, Waiter> {
    var target := PointedTo(s, b);
    if target.Some? && target.value in s.waiters then
      var a := s.waiters[target.value];
      s.waiters[target.value := a.(queue := a.queue + [b.report])]
    else s.waiters
  }

  function AfterCallback(s: System, c: nat, act: CallbackAct): System
    requires c in s.callbacks
  {
    var b := s.callbacks[c];
    System(s.entries, CallbackLocksAfter(s, c, b, act), if act.Push? then WaitersAfterPush(s, b) else s.waiters,
           s.callbacks[c := CallbackAfter(s, b, act)], s.stale)
  }

  // Steps

  predicate Enabled(s: System, step: Step) {
    match step
    case StartWaiter(w, _, _) => w !in s.waiters
    case StartCallback(c, _, _) => c !in s.callbacks
    case WaiterStep(w, act) => w in s.waiters && WaiterMay(s, s.waiters[w], act)
    case CallbackStep(c, act) => c in s.callbacks && CallbackMay(s, c, s.callbacks[c], act)
  }

  ghost function Apply(s: System, step: Step): System
    requires Enabled(s, step)
  {
    match step
    case StartWaiter(w, request, key) => s.(waiters := s.waiters[w := Waiter(request, key, PStart, [], Nothing)])
    case StartCallback(c, kind, report) => s.(callbacks := s.callbacks[c := Callback(kind, report, CStart, 0)])
    case WaiterStep(w, act) => AfterWaiter(s, w, act)
    case CallbackStep(c, act) => AfterCallback(s, c, act)
  }

  // The invariant

  predicate WaiterOwns(s: System, w: nat) {
    w in s.waiters && WaiterHolds(s.waiters[w].pc) ==>
      KindOf(s.waiters[w]) in s.locks && s.locks[KindOf(s.waiters[w])] == WaiterAgent(w)
  }

  predicate CallbackOwns(s: System, c: nat) {
    c in s.callbacks && CallbackHolds(s.callbacks[c].pc) ==>
      s.callbacks[c].kind in s.locks && s.locks[s.callbacks[c].kind] == CallbackAgent(c)
  }

  /** Each lock is held by the agent whose program counter says so. */
  ghost predicate LocksOwned(s: System) {
    && (forall w | w in s.waiters :: WaiterOwns(s, w))
    && (forall c | c in s.callbacks :: CallbackOwns(s, c))
  }

  /** A pointer to the queue of waiter w may be stored in, or read from, this slot. */
  predicate SafePointer(s: System, slot: Slot, w: nat) {
    w in s.waiters && SlotOf(s.waiters[w]) == slot && Reachable(s.waiters[w].pc)
  }

  ghost predicate EntriesSafe(s: System) {
    forall slot | slot in s.entries && s.entries[slot].Some? :: SafePointer(s, slot, s.entries[slot].value)
  }

  /**
   * The callback's iterator is valid unless stale; once tested the entry and the pointer read from it are non-NULL and
   * safe; and so is the pointer pushed to until the callback has unlocked.
   */
  ghost predicate CallbackSafe(s: System, c: nat) {
    c in s.callbacks &&
    var b := s.callbacks[c];
    var slot := CallbackSlot(b);
    && (b.pc.CFound? || b.pc.CTested? || b.pc.CPushed? ==> slot in s.entries)
    && ((b.pc.CReleased? || b.pc.CRelocked?) && c !in s.stale ==> slot in s.entries)
    && (b.pc.CTested? ==> s.entries[slot].Some? && SafePointer(s, slot, b.pc.seen))
    && (b.pc.CPushed? ==> SafePointer(s, slot, b.pc.into))
  }

  ghost predicate CallbacksSafe(s: System) {
    forall c | c in s.callbacks :: CallbackSafe(s, c)
  }

  /** A callback of this kind brought this report. */
  ghost predicate Reported(s: System, kind: Kind, r: Report) {
    exists c :: c in s.callbacks && s.callbacks[c].kind == kind && s.callbacks[c].report == r
  }

  /** Whatever a waiter has queued or popped was reported for its own key. */
  ghost predicate WaiterHonest(s: System, w: nat) {
    w in s.waiters &&
    var a := s.waiters[w];
    && (forall r | r in a.queue :: r.key == a.key && Reported(s, KindOf(a), r))
    && (a.learnt.Got? ==> a.learnt.report.key == a.key && Reported(s, KindOf(a), a.learnt.report))
    && (a.pc.PReturned? ==> a.pc.err == Verdict(a))
  }

  ghost predicate WaitersHonest(s: System) {
    forall w | w in s.waiters :: WaiterHonest(s, w)
  }

  ghost predicate Invariant(s: System) {
    LocksOwned(s) && EntriesSafe(s) && CallbacksSafe(s) && WaitersHonest(s)
  }

  // Lock ownership

  lemma WaiterStepKeepsLocks(s: System, w: nat, act: WaiterAct)
    requires LocksOwned(s) && Enabled(s, WaiterStep(w, act))
    ensures LocksOwned(AfterWaiter(s, w, act))
  {
    var t := AfterWaiter(s, w, act);
    assert WaiterOwns(s, w);
    forall v | v in t.waiters
      ensures WaiterOwns(t, v)
    {
      assert WaiterOwns(s, v);
    }
    forall c | c in t.callbacks
      ensures CallbackOwns(t, c)
    {
      assert CallbackOwns(s, c);
    }
  }

  lemma CallbackStepKeepsLocks(s: System, c: nat, act: CallbackAct)
    requires LocksOwned(s) && Enabled(s, CallbackStep(c, act))
    ensures LocksOwned(AfterCallback(s, c, act))
  {
    var t := AfterCallback(s, c, act);
    assert CallbackOwns(s, c);
    forall w | w in t.waiters
      ensures WaiterOwns(t, w)
    {
      assert WaiterOwns(s, w);
    }
    forall d | d in t.callbacks
      ensures CallbackOwns(t, d)
    {
      assert CallbackOwns(s, d);
    }
  }

  lemma StepKeepsLocks(s: System, step: Step)
    requires LocksOwned(s) && Enabled(s, step)
    ensures LocksOwned(Apply(s, step))
  {
    match step
    case StartWaiter(_, _, _) =>
    case StartCallback(_, _, _) =>
    case WaiterStep(w, act) => WaiterStepKeepsLocks(s, w, act);
    case CallbackStep(c, act) => CallbackStepKeepsLocks(s, c, act);
  }

  // Pointers

  lemma WaiterStepKeepsEntries(s: System, w: nat, act: WaiterAct)
    requires EntriesSafe(s) && Enabled(s, WaiterStep(w, act))
    ensures EntriesSafe(AfterWaiter(s, w, act))
  {
    var t := AfterWaiter(s, w, act);
    forall slot | slot in t.entries && t.entries[slot].Some?
      ensures SafePointer(t, slot, t.entries[slot].value)
    {
      if slot in s.entries && s.entries[slot] == t.entries[slot] {
        assert SafePointer(s, slot, s.entries[slot].value);
      }
    }
  }

  lemma CallbackStepKeepsPointer(s: System, c: nat, act: CallbackAct, slot: Slot, w: nat)
    requires Enabled(s, CallbackStep(c, act)) && SafePointer(s, slot, w)
    ensures SafePointer(AfterCallback(s, c, act), slot, w)
  {
  }

  lemma StepKeepsEntries(s: System, step: Step)
    requires EntriesSafe(s) && Enabled(s, step)
    ensures EntriesSafe(Apply(s, step))
  {
    match step
    case StartWaiter(_, _, _) =>
    case StartCallback(_, _, _) =>
    case WaiterStep(w, act) => WaiterStepKeepsEntries(s, w, act);
    case CallbackStep(c, act) =>
      var t := Apply(s, step);
      forall slot | slot in t.entries && t.entries[slot].Some?
        ensures SafePointer(t, slot, t.entries[slot].value)
      {
        CallbackStepKeepsPointer(s, c, act, slot, s.entries[slot].value);
      }
  }

  /** A safe pointer into a slot whose lock a callback holds survives every step of a waiter. */
  lemma LockedPointerSurvives(s: System, w: nat, act: WaiterAct, slot: Slot, v: nat, c: nat)
    requires LocksOwned(s) && Enabled(s, WaiterStep(w, act))
    requires slot.kind in s.locks && s.locks[slot.kind] == CallbackAgent(c)
    requires SafePointer(s, slot, v)
    ensures SafePointer(AfterWaiter(s, w, act), slot, v)
  {
    assert WaiterOwns(s, v);
  }

  /** An entry whose lock a callback holds is neither erased nor nulled. */
  lemma LockedEntrySurvives(s: System, w: nat, act: WaiterAct, slot: Slot, c: nat)
    requires LocksOwned(s) && Enabled(s, WaiterStep(w, act))
    requires slot.kind in s.locks && s.locks[slot.kind] == CallbackAgent(c)
    requires slot in s.entries
    ensures slot in AfterWaiter(s, w, act).entries
    ensures s.entries[slot].Some? ==> AfterWaiter(s, w, act).entries[slot].Some?
  {
    assert WaiterOwns(s, w);
  }

  lemma WaiterStepKeepsCallbackSafe(s: System, w: nat, act: WaiterAct, c: nat)
    requires LocksOwned(s) && Enabled(s, WaiterStep(w, act)) && CallbackSafe(s, c)
    ensures CallbackSafe(AfterWaiter(s, w, act), c)
  {
    var b := s.callbacks[c];
    var slot := CallbackSlot(b);
    assert CallbackOwns(s, c);
    if b.pc.CReleased? {
      ReleasedIteratorSurvives(s, w, act, c);
    } else if CallbackHolds(b.pc) && slot in s.entries {
      LockedEntrySurvives(s, w, act, slot, c);
      if b.pc.CTested? {
        LockedPointerSurvives(s, w, act, slot, b.pc.seen, c);
      } else if b.pc.CPushed? {
        LockedPointerSurvives(s, w, act, slot, b.pc.into, c);
      }
    }
  }

  /** An iterator held without the lock is valid until its entry is erased, which makes it stale. */
  lemma ReleasedIteratorSurvives(s: System, w: nat, act: WaiterAct, c: nat)
    requires Enabled(s, WaiterStep(w, act)) && CallbackSafe(s, c) && s.callbacks[c].pc.CReleased?
    ensures CallbackSafe(AfterWaiter(s, w, act), c)
  {
    if act.Erase? && CallbackSlot(s.callbacks[c]) == SlotOf(s.waiters[w]) {
      assert c in IteratorsTo(s, SlotOf(s.waiters[w]));
    }
  }

  lemma CallbackStepKeepsOwnSafe(s: System, c: nat, act: CallbackAct)
    requires EntriesSafe(s) && Enabled(s, CallbackStep(c, act)) && CallbackSafe(s, c)
    ensures CallbackSafe(AfterCallback(s, c, act), c)
  {
    var slot := CallbackSlot(s.callbacks[c]);
    if slot in s.entries && s.entries[slot].Some? {
      CallbackStepKeepsPointer(s, c, act, slot, s.entries[slot].value);
    }
  }

  lemma CallbackStepKeepsOtherSafe(s: System, c: nat, act: CallbackAct, d: nat)
    requires Enabled(s, CallbackStep(c, act)) && CallbackSafe(s, d) && c != d
    ensures CallbackSafe(AfterCallback(s, c, act), d)
  {
    var b := s.callbacks[d];
    if b.pc.CTested? {
      CallbackStepKeepsPointer(s, c, act, CallbackSlot(b), b.pc.seen);
    } else if b.pc.CPushed? {
      CallbackStepKeepsPointer(s, c, act, CallbackSlot(b), b.pc.into);
    }
  }

  lemma StartKeepsCallbackSafe(s: System, step: Step, c: nat)
    requires Enabled(s, step) && (step.StartWaiter? || step.StartCallback?)
    requires c in s.callbacks ==> CallbackSafe(s, c)
    ensures c in Apply(s, step).callbacks ==> CallbackSafe(Apply(s, step), c)
  {
  }

  lemma StepKeepsCallbacks(s: System, step: Step)
    requires LocksOwned(s) && EntriesSafe(s) && CallbacksSafe(s) && Enabled(s, step)
    ensures CallbacksSafe(Apply(s, step))
  {
    var t := Apply(s, step);
    forall d | d in t.callbacks
      ensures CallbackSafe(t, d)
    {
      match step
      case StartWaiter(_, _, _) => StartKeepsCallbackSafe(s, step, d);
      case StartCallback(_, _, _) => StartKeepsCallbackSafe(s, step, d);
      case WaiterStep(w, act) => WaiterStepKeepsCallbackSafe(s, w, act, d);
      case CallbackStep(c, act) =>
        if c == d {
          CallbackStepKeepsOwnSafe(s, c, act);
        } else {
          CallbackStepKeepsOtherSafe(s, c, act, d);
        }
    }
  }

  // Reports

  lemma ReportsPersist(s: System, step: Step, kind: Kind, r: Report)
    requires Enabled(s, step) && Reported(s, kind, r)
    ensures Reported(Apply(s, step), kind, r)
  {
    var c :| c in s.callbacks && s.callbacks[c].kind == kind && s.callbacks[c].report == r;
    var t := Apply(s, step);
    assert c in t.callbacks && t.callbacks[c].kind == kind && t.callbacks[c].report == r;
  }

  lemma WaiterStepKeepsHonest(s: System, w: nat, act: WaiterAct, v: nat)
    requires Enabled(s, WaiterStep(w, act)) && WaiterHonest(s, v)
    ensures WaiterHonest(AfterWaiter(s, w, act), v)
  {
    var t := AfterWaiter(s, w, act);
    forall r | Reported(s, KindOf(s.waiters[v]), r)
      ensures Reported(t, KindOf(s.waiters[v]), r)
    {
      ReportsPersist(s, WaiterStep(w, act), KindOf(s.waiters[v]), r);
    }
  }

  lemma CallbackStepKeepsHonest(s: System, c: nat, act: CallbackAct, v: nat)
    requires EntriesSafe(s) && Enabled(s, CallbackStep(c, act)) && WaiterHonest(s, v)
    ensures WaiterHonest(AfterCallback(s, c, act), v)
  {
    var t := AfterCallback(s, c, act);
    var a, b := s.waiters[v], t.waiters[v];
    forall r | Reported(s, KindOf(a), r)
      ensures Reported(t, KindOf(a), r)
    {
      ReportsPersist(s, CallbackStep(c, act), KindOf(a), r);
    }
    if b.queue != a.queue {
      var r := s.callbacks[c].report;
      assert SafePointer(s, CallbackSlot(s.callbacks[c]), v);
      assert Reported(s, KindOf(a), r);
      assert b.queue == a.queue + [r];
    }
  }

  lemma StartKeepsHonest(s: System, step: Step, v: nat)
    requires Enabled(s, step) && (step.StartWaiter? || step.StartCallback?)
    requires v in s.waiters ==> WaiterHonest(s, v)
    ensures v in Apply(s, step).waiters ==> WaiterHonest(Apply(s, step), v)
  {
    if v in s.waiters {
      forall r | Reported(s, KindOf(s.waiters[v]), r)
        ensures Reported(Apply(s, step), KindOf(s.waiters[v]), r)
      {
        ReportsPersist(s, step, KindOf(s.waiters[v]), r);
      }
    }
  }

  lemma StepKeepsHonesty(s: System, step: Step)
    requires EntriesSafe(s) && WaitersHonest(s) && Enabled(s, step)
    ensures WaitersHonest(Apply(s, step))
  {
    var t := Apply(s, step);
    forall v | v in t.waiters
      ensures WaiterHonest(t, v)
    {
      match step
      case StartWaiter(_, _, _) => StartKeepsHonest(s, step, v);
      case StartCallback(_, _, _) => StartKeepsHonest(s, step, v);
      case WaiterStep(w, act) => WaiterStepKeepsHonest(s, w, act, v);
      case CallbackStep(c, act) => CallbackStepKeepsHonest(s, c, act, v);
    }
  }

  lemma StepKeepsInvariant(s: System, step: Step)
    requires Invariant(s) && Enabled(s, step)
    ensures Invariant(Apply(s, step))
  {
    StepKeepsLocks(s, step);
    StepKeepsEntries(s, step);
    StepKeepsCallbacks(s, step);
    StepKeepsHonesty(s, step);
  }

  // Runs

  /** The system after these steps, if each was enabled when its turn came. */
  ghost function Run(steps: seq<Step>): Option<System> {
    if steps == [] then Some(INITIAL)
    else
      var before := Run(steps[..|steps| - 1]);
      var step := steps[|steps| - 1];
      if before.Some? && Enabled(before.value, step) then Some(Apply(before.value, step)) else None
  }

  lemma {:induction false} EveryRunKeepsInvariant(steps: seq<Step>)
    requires Run(steps).Some?
    ensures Invariant(Run(steps).value)
  {
    if steps != [] {
      var prefix := steps[..|steps| - 1];
      EveryRunKeepsInvariant(prefix);
      StepKeepsInvariant(Run(prefix).value, steps[|steps| - 1]);
    }
  }

  /** The callback may read through its iterator, now or after taking the lock again. */
  predicate HoldsIterator(s: System, c: nat) {
    c in s.callbacks &&
    var pc := s.callbacks[c].pc;
    pc.CFound? || pc.CTested? || ((pc.CReleased? || pc.CRelocked?) && c !in s.stale)
  }

  /** The callback has read this pointer or pushed to it, and not yet unlocked. */
  predicate HoldsPointer(s: System, c: nat, w: nat) {
    c in s.callbacks && (s.callbacks[c].pc == CTested(w) || s.callbacks[c].pc == CPushed(w))
  }

  /**
   * In every interleaving: a non-NULL entry points to the queue of a waiter of that very key which has not returned;
   * an iterator a callback may still read through is valid, unless it is a GEM callback's and its entry was erased
   * while the callback had let go of the lock; and from the moment a callback has read a pointer until it unlocks, past
   * its push and the notification, the queue's waiter has not returned.
   */
  lemma PointersNeverDangle(steps: seq<Step>, s: System)
    requires Run(steps) == Some(s)
    ensures forall slot | slot in s.entries && s.entries[slot].Some? ::
              var w := s.entries[slot].value;
              w in s.waiters && SlotOf(s.waiters[w]) == slot && !s.waiters[w].pc.PReturned?
    ensures forall c | HoldsIterator(s, c) :: CallbackSlot(s.callbacks[c]) in s.entries
    ensures forall c, w | HoldsPointer(s, c, w) ::
              w in s.waiters && SlotOf(s.waiters[w]) == CallbackSlot(s.callbacks[c]) && !s.waiters[w].pc.PReturned?
  {
    EveryRunKeepsInvariant(steps);
    forall slot | slot in s.entries && s.entries[slot].Some?
      ensures SafePointer(s, slot, s.entries[slot].value)
    {
    }
    forall c | c in s.callbacks
      ensures CallbackSafe(s, c)
    {
    }
  }

  /** At most one thread is ever inside a critical section of a kind. */
  lemma MutualExclusion(steps: seq<Step>, s: System, kind: Kind)
    requires Run(steps) == Some(s)
    ensures && (forall v, w | v in s.waiters && w in s.waiters && KindOf(s.waiters[v]) == kind == KindOf(s.waiters[w])
                  && WaiterHolds(s.waiters[v].pc) && WaiterHolds(s.waiters[w].pc) :: v == w)
            && (forall w, c | w in s.waiters && c in s.callbacks && KindOf(s.waiters[w]) == kind == s.callbacks[c].kind ::
                  !(WaiterHolds(s.waiters[w].pc) && CallbackHolds(s.callbacks[c].pc)))
            && (forall c, d | c in s.callbacks && d in s.callbacks && s.callbacks[c].kind == kind == s.callbacks[d].kind
                  && CallbackHolds(s.callbacks[c].pc) && CallbackHolds(s.callbacks[d].pc) :: c == d)
  {
    EveryRunKeepsInvariant(steps);
    forall w | w in s.waiters
      ensures WaiterOwns(s, w)
    {
    }
    forall c | c in s.callbacks
      ensures CallbackOwns(s, c)
    {
    }
  }

  // Return codes

  /** The waiter popped a successful report, brought for its own key, of one of these states. */
  ghost predicate PoppedSuccess(s: System, w: nat, states: set<ActivationState>) {
    w in s.waiters &&
    var a := s.waiters[w];
    && a.learnt.Got? && a.learnt.report.key == a.key && Reported(s, KindOf(a), a.learnt.report)
    && a.learnt.report.success && a.learnt.report.newState in states
  }

  /** The waiter timed out and then read one of these states from the device. */
  predicate ReadOneOf(s: System, w: nat, states: set<ActivationState>) {
    w in s.waiters && s.waiters[w].learnt.Read? && s.waiters[w].learnt.read.ReadState?
    && s.waiters[w].learnt.read.state in states
  }

  const ANY_STATE := {NotConfigured, Inactive, Processing, Active, OtherState}

  lemma AnyStateIsAny(state: ActivationState)
    ensures state in ANY_STATE
  {
    match state
    case NotConfigured =>
    case Inactive =>
    case Processing =>
    case Active =>
    case OtherState =>
  }

  lemma ReturnedVerdict(steps: seq<Step>, s: System, w: nat)
    requires Run(steps) == Some(s) && w in s.waiters && s.waiters[w].pc.PReturned?
    ensures WaiterHonest(s, w) && s.waiters[w].pc.err == Verdict(s.waiters[w])
  {
    EveryRunKeepsInvariant(steps);
    assert WaiterHonest(s, w);
  }

  /**
   * In every interleaving, a create wait for an alloc or GEM object returns OK exactly if it popped a successful ACTIVE
   * report that some callback brought for its own key, or timed out and read the device as ACTIVE.
   */
  lemma CreateReturnsOkIff(steps: seq<Step>, s: System, w: nat)
    requires Run(steps) == Some(s) && w in s.waiters && s.waiters[w].pc.PReturned?
    requires s.waiters[w].request == AllocRequest(AllocCreate) || s.waiters[w].request == GemRequest(GemCreate)
    ensures s.waiters[w].pc.err == Ok <==> PoppedSuccess(s, w, {Active}) || ReadOneOf(s, w, {Active})
  {
    ReturnedVerdict(steps, s, w);
  }

  /** In every interleaving, an encrypt wait returns OK exactly if it popped such a report; a timeout never suffices. */
  lemma EncryptReturnsOkIff(steps: seq<Step>, s: System, w: nat)
    requires Run(steps) == Some(s) && w in s.waiters && s.waiters[w].pc.PReturned?
    requires s.waiters[w].request == GemRequest(GemEncrypt)
    ensures s.waiters[w].pc.err == Ok <==> PoppedSuccess(s, w, {Active})
  {
    ReturnedVerdict(steps, s, w);
  }

  /**
   * In every interleaving, a delete wait for an alloc or GEM object returns OK exactly if it popped a successful report
   * for its own key of NOT_CONFIGURED or of a state the callback does not know, or timed out and the device answered
   * at all, whatever the state.
   */
  lemma DeleteReturnsOkIff(steps: seq<Step>, s: System, w: nat)
    requires Run(steps) == Some(s) && w in s.waiters && s.waiters[w].pc.PReturned?
    requires s.waiters[w].request == AllocRequest(AllocDelete) || s.waiters[w].request == GemRequest(GemDelete)
    ensures s.waiters[w].pc.err == Ok <==> PoppedSuccess(s, w, {NotConfigured, OtherState}) || ReadOneOf(s, w, ANY_STATE)
  {
    ReturnedVerdict(steps, s, w);
    var a := s.waiters[w];
    if a.learnt.Read? && a.learnt.read.ReadState? {
      AnyStateIsAny(a.learnt.read.state);
    }
  }

  /** In every interleaving, an ONU-deactivate wait returns OK exactly if it popped a successful report for its own ONU. */
  lemma DeactivateReturnsOkIff(steps: seq<Step>, s: System, w: nat)
    requires Run(steps) == Some(s) && w in s.waiters && s.waiters[w].pc.PReturned?
    requires s.waiters[w].request == DeactivateRequest
    ensures s.waiters[w].pc.err == Ok <==> PoppedSuccess(s, w, ANY_STATE)
  {
    ReturnedVerdict(steps, s, w);
    var a := s.waiters[w];
    if a.learnt.Got? {
      AnyStateIsAny(a.learnt.report.newState);
    }
  }

  /** In every interleaving, an RSSI wait returns OK exactly if it popped a report for its own ONU, successful or not. */
  lemma RssiReturnsOkIff(steps: seq<Step>, s: System, w: nat)
    requires Run(steps) == Some(s) && w in s.waiters && s.waiters[w].pc.PReturned?
    requires s.waiters[w].request == RssiRequest
    ensures var learnt := s.waiters[w].learnt;
            s.waiters[w].pc.err == Ok <==>
              learnt.Got? && learnt.report.key == s.waiters[w].key && Reported(s, Rssi, learnt.report)
    ensures s.waiters[w].pc.err != Ok ==> s.waiters[w].pc.err == Timeout
  {
    ReturnedVerdict(steps, s, w);
  }

  /** In every interleaving, the other waits fail with the device's own code if it could not be read, or as internal. */
  lemma FailureCodes(steps: seq<Step>, s: System, w: nat)
    requires Run(steps) == Some(s) && w in s.waiters && s.waiters[w].pc.PReturned?
    requires s.waiters[w].pc.err != Ok && s.waiters[w].request != RssiRequest
    ensures var a := s.waiters[w];
            a.pc.err == if AsksDevice(a) && a.learnt.Read? && a.learnt.read.ReadFailed? then DeviceError(a.learnt.read.code)
                        else Internal
  {
    ReturnedVerdict(steps, s, w);
  }

  // Delivery

  /** The callback's entry points to the queue of waiter w. */
  predicate PointsAt(s: System, c: nat, w: nat) {
    c in s.callbacks && PointedTo(s, s.callbacks[c]) == Some(w)
  }

  /** The reports of the callbacks whose push found a pointer to the queue of w, in the order they pushed. */
  ghost function PushedTo(steps: seq<Step>, w: nat): seq<Report> {
    if steps == [] then []
    else
      var prefix, step := steps[..|steps| - 1], steps[|steps| - 1];
      var before := Run(prefix);
      PushedTo(prefix, w) +
      if before.Some? && step.CallbackStep? && step.callbackAct.Push? && PointsAt(before.value, step.c, w)
      then [before.value.callbacks[step.c].report] else []
  }

  function Popped(a: Waiter): seq<Report> {
    if a.learnt.Got? then [a.learnt.report] else []
  }

  /** What the waiter has learnt goes with how far it got. */
  predicate LearntInOrder(a: Waiter) {
    && (a.pc.PStart? || a.pc.PLocked? || a.pc.PPublished? || a.pc.PWaiting? ==> a.learnt == Nothing)
    && (a.pc.PExpired? || a.pc.PExpiredLocked? || a.pc.PNulled? || a.pc.PNullReleased? ==> a.learnt == TimedOut)
  }

  /** What the waiter popped and has queued is what was pushed to it, in order. */
  ghost predicate Received(s: System, w: nat, pushed: seq<Report>) {
    if w in s.waiters then
      LearntInOrder(s.waiters[w]) && Popped(s.waiters[w]) + s.waiters[w].queue == pushed
    else pushed == []
  }

  /** A push with a pointer to w appends just the callback's report to the queue of w, and changes no other waiter. */
  lemma PushDelivers(s: System, c: nat, w: nat)
    requires EntriesSafe(s) && Enabled(s, CallbackStep(c, Push)) && PointsAt(s, c, w)
    ensures w in s.waiters
    ensures var a := s.waiters[w];
            Apply(s, CallbackStep(c, Push)).waiters == s.waiters[w := a.(queue := a.queue + [s.callbacks[c].report])]
  {
    assert SafePointer(s, CallbackSlot(s.callbacks[c]), w);
  }

  lemma WaiterStepKeepsReceived(s: System, v: nat, act: WaiterAct, w: nat, pushed: seq<Report>)
    requires Enabled(s, WaiterStep(v, act)) && Received(s, w, pushed)
    ensures Received(AfterWaiter(s, v, act), w, pushed)
  {
    if v == w && act.Pop? {
      var a := s.waiters[w];
      assert [a.queue[0]] + a.queue[1..] == a.queue;
    }
  }

  lemma CallbackStepKeepsReceived(s: System, c: nat, act: CallbackAct, w: nat, pushed: seq<Report>)
    requires EntriesSafe(s) && Enabled(s, CallbackStep(c, act)) && Received(s, w, pushed)
    ensures var more := if act.Push? && PointsAt(s, c, w) then [s.callbacks[c].report] else [];
            Received(AfterCallback(s, c, act), w, pushed + more)
  {
    var more := if act.Push? && PointsAt(s, c, w) then [s.callbacks[c].report] else [];
    if act.Push? && PointsAt(s, c, w) {
      PushDelivers(s, c, w);
      var a := s.waiters[w];
      assert Popped(a) + (a.queue + more) == Popped(a) + a.queue + more;
    } else {
      assert pushed + more == pushed;
    }
  }

  /**
   * In every interleaving, what a waiter popped, followed by what its queue holds, is the reports of the callbacks that
   * pushed to it, each once and in the order of the pushes.
   */
  lemma {:induction false} EveryPushArrives(steps: seq<Step>, w: nat)
    requires Run(steps).Some?
    ensures Received(Run(steps).value, w, PushedTo(steps, w))
  {
    if steps != [] {
      var prefix, step := steps[..|steps| - 1], steps[|steps| - 1];
      var s := Run(prefix).value;
      EveryPushArrives(prefix, w);
      EveryRunKeepsInvariant(prefix);
      match step
      case StartWaiter(_, _, _) => assert PushedTo(steps, w) == PushedTo(prefix, w);
      case StartCallback(_, _, _) => assert PushedTo(steps, w) == PushedTo(prefix, w);
      case WaiterStep(v, act) =>
        assert PushedTo(steps, w) == PushedTo(prefix, w);
        WaiterStepKeepsReceived(s, v, act, w, PushedTo(prefix, w));
      case CallbackStep(c, act) => CallbackStepKeepsReceived(s, c, act, w, PushedTo(prefix, w));
    }
  }
}
