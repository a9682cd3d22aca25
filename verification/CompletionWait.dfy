/**
 * How a waiter turns the outcome of its wait into a return code (agent/src/core_utils.cc), and how the completion
 * callbacks turn a device report into a queued result (agent/src/indications.cc).
 */
module CompletionWait {

  /** Activation state as the device reports it; OtherState stands for any value outside the four known ones. */
  datatype ActivationState = NotConfigured | Inactive | Processing | Active | OtherState

  datatype ObjectState = StateNotConfigured | StateInactive | StateProcessing | StateActive

  datatype CfgStatus = StatusSuccess | StatusFail

  /** A queued result. */
  datatype CfgResult = CfgResult(state: ObjectState, status: CfgStatus)

  datatype Errno = Ok | Internal | Timeout | DeviceError(code: int)

  /** Reply of the device to a request for the object's state. */
  datatype DeviceRead = ReadFailed(code: int) | ReadState(state: ActivationState)

  /** How the wait on the queue ended; after a timeout the device is asked for the object's state. */
  datatype Outcome = Completed(result: CfgResult) | Expired(read: DeviceRead)

  datatype AllocAction = AllocCreate | AllocDelete

  datatype GemAction = GemCreate | GemDelete | GemEncrypt

  /** What becomes of the waiter's map entry. */
  datatype EntryFate = LeftNull | Erased

  /** The callbacks' translation of a report; an unknown state is logged and queued as not configured. */
  function ToResult(success: bool, newState: ActivationState): CfgResult {
    CfgResult(
      match newState {
        case NotConfigured => StateNotConfigured
        case Inactive => StateInactive
        case Processing => StateProcessing
        case Active => StateActive
        case OtherState => StateNotConfigured
      },
      if success then StatusSuccess else StatusFail)
  }

  /** The value-initialised result a timed-out pop returns. */
  const EMPTY_RESULT := CfgResult(StateNotConfigured, StatusSuccess)

  /** When an operation has taken effect according to a completion. */
  predicate ShowsDone(result: CfgResult, wanted: ObjectState) {
    result.status == StatusSuccess && result.state == wanted
  }

  function AllocVerdict(action: AllocAction, outcome: Outcome): Errno {
    match outcome
    case Completed(result) =>
      if ShowsDone(result, if action == AllocCreate then StateActive else StateNotConfigured) then Ok else Internal
    case Expired(ReadFailed(code)) => DeviceError(code)
    case Expired(ReadState(state)) => if action == AllocDelete || state == Active then Ok else Internal
  }

  function GemVerdict(action: GemAction, outcome: Outcome): Errno {
    match outcome
    case Completed(result) =>
      if ShowsDone(result, if action == GemDelete then StateNotConfigured else StateActive) then Ok else Internal
    case Expired(ReadFailed(code)) => DeviceError(code)
    case Expired(ReadState(state)) =>
      if action == GemDelete || (action == GemCreate && state == Active) then Ok else Internal
  }

  /** An alloc wait that returns before erasing its entry: the read failed, or shows the state wanted. */
  predicate AllocReturnsEarly(action: AllocAction, read: DeviceRead) {
    || read.ReadFailed?
    || (read.state == NotConfigured && action == AllocDelete)
    || (read.state == Active && action == AllocCreate)
  }

  /** The same for a GEM wait. */
  predicate GemReturnsEarly(action: GemAction, read: DeviceRead) {
    || read.ReadFailed?
    || (read.state == NotConfigured && action == GemDelete)
    || (read.state == Active && action == GemCreate)
  }

  method WaitForAllocAction(action: AllocAction, outcome: Outcome) returns (err: Errno, entry: EntryFate)
    requires outcome.Expired? && outcome.read.ReadFailed? ==> outcome.read.code != 0
    ensures err == AllocVerdict(action, outcome)
    ensures entry == LeftNull <==> outcome.Expired? && AllocReturnsEarly(action, outcome.read)
  {
    err := Ok;
    var result := EMPTY_RESULT;
    if outcome.Expired? {
      entry := LeftNull;
      match outcome.read {
        case ReadFailed(code) =>
          return DeviceError(code), entry;
        case ReadState(state) =>
          if (state == NotConfigured && action == AllocDelete) || (state == Active && action == AllocCreate) {
            return Ok, entry;
          }
      }
    } else {
      result := outcome.result;
      if result.status == StatusFail {
        err := Internal;
      }
    }
    if err == Ok {
      if action == AllocCreate {
        if result.state != StateActive {
          err := Internal;
        }
      } else {
        if result.state != StateNotConfigured {
          err := Internal;
        }
      }
    }
    entry := Erased;
  }

  method WaitForGemAction(action: GemAction, outcome: Outcome) returns (err: Errno, entry: EntryFate)
    requires outcome.Expired? && outcome.read.ReadFailed? ==> outcome.read.code != 0
    ensures err == GemVerdict(action, outcome)
    ensures entry == LeftNull <==> outcome.Expired? && GemReturnsEarly(action, outcome.read)
  {
    err := Ok;
    var result := EMPTY_RESULT;
    if outcome.Expired? {
      entry := LeftNull;
      match outcome.read {
        case ReadFailed(code) =>
          return DeviceError(code), entry;
        case ReadState(state) =>
          if (state == NotConfigured && action == GemDelete) || (state == Active && action == GemCreate) {
            return Ok, entry;
          }
      }
    } else {
      result := outcome.result;
      if result.status == StatusFail {
        err := Internal;
      }
    }
    if err == Ok {
      match action {
        case GemCreate =>
          if result.state != StateActive {
            err := Internal;
          }
        case GemEncrypt =>
          if result.state != StateActive {
            err := Internal;
          }
        case GemDelete =>
          if result.state != StateNotConfigured {
            err := Internal;
          }
      }
    }
    entry := Erased;
  }

  /** Creating an alloc or a GEM object is reported done exactly on a successful ACTIVE report or an ACTIVE device. */
  lemma CreateOkMeansActive(success: bool, newState: ActivationState, read: DeviceRead)
    ensures AllocVerdict(AllocCreate, Completed(ToResult(success, newState))) == Ok <==> success && newState == Active
    ensures GemVerdict(GemCreate, Completed(ToResult(success, newState))) == Ok <==> success && newState == Active
    ensures AllocVerdict(AllocCreate, Expired(read)) == Ok <==> read == ReadState(Active)
    ensures GemVerdict(GemCreate, Expired(read)) == Ok <==> read == ReadState(Active)
  {
  }

  /** Encryption is reported done exactly on a successful ACTIVE report: a timed-out wait never succeeds. */
  lemma EncryptOkNeedsCompletion(success: bool, newState: ActivationState, read: DeviceRead)
    ensures GemVerdict(GemEncrypt, Completed(ToResult(success, newState))) == Ok <==> success && newState == Active
    ensures GemVerdict(GemEncrypt, Expired(read)) != Ok
  {
  }

  /**
   * The comment above both waits promises an error when the object is not in the state the action asks for. A deletion
   * is reported done on a successful report of NOT_CONFIGURED or of a state the callback does not know, and after a
   * timeout on any state the device answers with.
   */
  lemma DeleteOkIff(success: bool, newState: ActivationState, read: DeviceRead)
    ensures AllocVerdict(AllocDelete, Completed(ToResult(success, newState))) == Ok
       <==> success && (newState == NotConfigured || newState == OtherState)
    ensures AllocVerdict(AllocDelete, Expired(read)) == Ok <==> read.ReadState?
    ensures forall o :: AllocVerdict(AllocDelete, o) == Ok <==> GemVerdict(GemDelete, o) == Ok
  {
  }

  /** The callbacks keep apart all reports but those of NOT_CONFIGURED and of an unknown state. */
  lemma ReportsStayApart(ok1: bool, ok2: bool, state1: ActivationState, state2: ActivationState)
    ensures ToResult(ok1, state1) == ToResult(ok2, state2)
       <==> ok1 == ok2 && (state1 == state2 || {state1, state2} == {NotConfigured, OtherState})
  {
    assert NotConfigured in {NotConfigured, OtherState} && OtherState in {NotConfigured, OtherState};
    assert state1 in {state1, state2} && state2 in {state1, state2};
  }

  /** A failed read is answered with the device's own code; every other failure is internal, and none is a timeout. */
  lemma FailuresAre(allocAction: AllocAction, gemAction: GemAction, outcome: Outcome, code: int)
    ensures AllocVerdict(allocAction, outcome) == DeviceError(code) <==> outcome == Expired(ReadFailed(code))
    ensures GemVerdict(gemAction, outcome) == DeviceError(code) <==> outcome == Expired(ReadFailed(code))
    ensures AllocVerdict(allocAction, outcome) != Timeout && GemVerdict(gemAction, outcome) != Timeout
  {
  }
}
