/** The MicrovmMachine object, the answers of the services around it, and the outcome of a reconcile. */
module Machines {
  import opened GoStrings
  import opened MachineIDs
  import opened Options

  /** Lifecycle state of a microVM as its host reports it; `OTHER` is any value without a name. */
  datatype HostState = PENDING | CREATED | FAILED | DELETING | OTHER(code: int)

  /** `Status.VMState` */
  datatype VMState = VMRunning | VMPending | VMFailed | VMUnknown

  datatype Reason =
    | WaitingForClusterInfra
    | WaitingForBootstrapData
    | MicrovmPending
    | MicrovmProvisionFailed
    | MicrovmDeleting
    | MicrovmDeleteFailed
    | MicrovmUnknownState

  /** The MicrovmReady condition. */
  datatype Condition = Absent | IsTrue | IsFalse(reason: Reason)

  /** The parts of a MicrovmMachine that the controller reads or writes. */
  datatype Machine = Machine(
    finalizer: bool,
    providerID: Option<string>,
    deleting: bool,
    ready: bool,
    vmState: Option<VMState>,
    condition: Condition)
  {
    function GetProviderID(): string {
      if providerID.Some? then providerID.value else ""
    }

    function WithProviderID(host: string, uid: string): Machine {
      this.(providerID := Some(Print(host, uid)))
    }

    function AsReady(): Machine {
      this.(condition := IsTrue, ready := true)
    }

    function AsNotReady(reason: Reason): Machine {
      this.(condition := IsFalse(reason), ready := false)
    }
  }

  /** A microVM as a host returns it. */
  datatype MicroVM = MicroVM(uid: string, state: HostState)

  /** What a host lookup answers: a microVM, nothing, or an error with a text. */
  datatype GetReply = Found(vm: MicroVM) | Nothing | GetFailed(text: string)

  datatype Error =
    | NoError
    | ReadError
    | NoFailureDomain
    | NoService
    | GetError
    | PatchError
    | CreateError
    | DeleteError
    | ErrMicrovmFailed
    | ErrMicrovmUnknownState

  /** What a reconcile returns: an error, or a request to be called again, or neither. */
  datatype Result = Result(error: Error, requeue: bool)
  {
    predicate Quiet() {
      error == NoError && !requeue
    }
  }

  const DONE := Result(NoError, false)
  const REQUEUE := Result(NoError, true)

  function Fail(e: Error): Result { Result(e, false) }

  /** `isSpecNotFound` recognises a missing microVM by the text of the error. */
  predicate IsSpecNotFound(text: string) {
    Contains(text, "not found")
  }

  /** The host reported that the microVM does not exist. */
  predicate SaysAbsent(reply: GetReply) {
    reply.Nothing? || (reply.GetFailed? && IsSpecNotFound(reply.text))
  }

  lemma NotFoundInside(before: string, after: string)
    ensures IsSpecNotFound(before + "not found" + after)
  {
    var text := before + "not found" + after;
    assert text[|before|..] == "not found" + after;
  }

  /** Any error text with "not found" somewhere in it counts, and no other. */
  lemma NotFoundAnywhere(text: string)
    ensures IsSpecNotFound(text) <==> exists before: string, after: string :: text == before + "not found" + after
  {
    if IsSpecNotFound(text) {
      var k :| 0 <= k <= |text| && "not found" <= text[k..];
      assert text == text[..k] + "not found" + text[k + 9..];
    }
    forall before: string, after: string | text == before + "not found" + after
      ensures IsSpecNotFound(text)
    {
      NotFoundInside(before, after);
    }
  }
}
