/**
 * The notebook API handler of kernel_gateway/services/notebooks/handlers.py:
 * the per-request state that correlates a kernel's IOPub messages with the
 * cell execution a request started, and aggregates them into one response.
 */
module Notebooks {
  import opened Wrappers
  import opened IOPub

  /** The `{'status': ..., 'content': ...}` dict that resolves the execution future. */
  datatype Response = Response(status: int, content: Option<string>)

  /** `execution_future`: not yet created, created and pending, or resolved with a response. */
  datatype Future = Unset | Pending | Resolved(result: Response)

  /** What the method check at the start of a request decides. */
  datatype Gate = Rejected(status: int) | Proceed(source: string)

  /** How a call of `on_recv` ends: normally, or with the exception a missing key or attribute raises. */
  datatype Outcome = Returned | RaisedKeyError | RaisedAttributeError

  /**
   * The handler's fields that `on_recv` reads and writes. `parentHeader` is
   * None until the handler has recorded the msg_id of its cell execution.
   */
  datatype State = State(
    executeResult: Option<Bundle>,
    streamMessages: seq<string>,
    errorMessage: Option<string>,
    parentHeader: Option<string>,
    future: Future)

  const MethodNotAllowed := 405
  const Ok := 200
  const InternalServerError := 500

  /** Python truthiness of an optional string: present and not ''. */
  predicate Truthy(s: Option<string>) {
    s.Some? && s.value != ""
  }

  /** `x and x is not ''` for an optional bundle: present and not an empty dict. */
  predicate HasResult(d: Option<Bundle>) {
    d.Some? && |d.value| > 0
  }

  /** `''.join(parts)`. */
  function Join(parts: seq<string>): (joined: string) {
    if parts == [] then "" else parts[0] + Join(parts[1..])
  }

  /** The text `on_recv` stores for an `error` message. */
  function FormatError(ename: string, evalue: string): (r: string)
    ensures Truthy(Some(r))
  {
    "Error " + ename + ": " + evalue + " \n"
  }

  /**
   * Whether a message belongs to the recorded execution. A message without a
   * parent msg_id, or a handler without a recorded one, makes the comparison
   * raise, so such a message never belongs.
   */
  predicate Owns(parentHeader: Option<string>, m: Msg) {
    m.parentMsgId.Some? && parentHeader.Some? && m.parentMsgId.value == parentHeader.value
  }

  /** How `on_recv` ends for message `m` given the recorded parent header. */
  function OutcomeOf(parentHeader: Option<string>, m: Msg): Outcome {
    if m.parentMsgId.None? then RaisedKeyError
    else if parentHeader.None? then RaisedAttributeError
    else Returned
  }

  /** The response computed when the recorded execution reports idle. */
  function TerminalResult(s: State): (r: Response)
    ensures r.status == Ok || r.status == InternalServerError
  {
    if Truthy(s.errorMessage) then Response(InternalServerError, s.errorMessage)
    else if HasResult(s.executeResult) then Response(Ok, s.errorMessage)
    else Response(Ok, Some(Join(s.streamMessages)))
  }

  /** The check that `_handle_request` makes before it touches the kernel pool. */
  function MethodGate(httpMethod: string, sources: map<string, string>): (g: Gate)
    ensures g.Proceed? <==> httpMethod in sources
    ensures g.Proceed? ==> g.source == sources[httpMethod]
    ensures g.Rejected? ==> g.status == MethodNotAllowed
  {
    if httpMethod !in sources then Rejected(MethodNotAllowed) else Proceed(sources[httpMethod])
  }

  /**
   * The effect of `on_recv(m)` on the handler's state. A matching idle status
   * resolves the future, which the source does exactly once per request: a
   * second matching idle would resolve it again, so the future must be pending.
   */
  function Step(s: State, m: Msg): (next: State)
    requires Owns(s.parentHeader, m) && IsIdle(m) ==> s.future.Pending?
  {
    if !Owns(s.parentHeader, m) then s
    else match m.content
      case Status(state) =>
        if state == "idle" then s.(future := Resolved(TerminalResult(s))) else s
      case ExecuteResult(data) => s.(executeResult := Some(data))
      case Stream(text) => s.(streamMessages := s.streamMessages + [text])
      case Error(ename, evalue) => s.(errorMessage := Some(FormatError(ename, evalue)))
      case Other(_) => s
  }

  /** A tornado request handler serving one notebook-defined HTTP endpoint. */
  class NotebookApiHandler {
    /** HTTP method to the source of the cell that implements it. */
    const sources: map<string, string>
    var executeResult: Option<Bundle>
    var streamMessages: seq<string>
    var errorMessage: Option<string>
    var parentHeader: Option<string>
    var executionFuture: Future

    function Snapshot(): State
      reads this
    {
      State(executeResult, streamMessages, errorMessage, parentHeader, executionFuture)
    }

    /** `initialize`, with the class-level defaults of the accumulation fields. */
    constructor (sources: map<string, string>)
      ensures this.sources == sources
      ensures Snapshot() == State(None, [], None, None, Unset)
    {
      this.sources := sources;
      executeResult := None;
      streamMessages := [];
      errorMessage := None;
      parentHeader := None;
      executionFuture := Unset;
    }

    /**
     * The start of `_handle_request`: reset the accumulation fields, answer a
     * method without a cell with 405, otherwise create the execution future.
     * On 405 the request ends here, before the kernel pool is asked for a kernel.
     */
    method BeginRequest(httpMethod: string) returns (gate: Gate)
      modifies this
      ensures gate == MethodGate(httpMethod, sources)
      ensures executeResult == None && streamMessages == [] && errorMessage == None
      ensures parentHeader == old(parentHeader)
      ensures executionFuture == if gate.Proceed? then Pending else old(executionFuture)
    {
      executeResult := None;
      streamMessages := [];
      errorMessage := None;
      if httpMethod !in sources {
        gate := Rejected(MethodNotAllowed);
        return;
      }
      gate := Proceed(sources[httpMethod]);
      executionFuture := Pending;
    }

    /**
     * The two `execute` calls: first the request code, then the cell source.
     * The kernel returns a msg_id for each; only the second is recorded, so
     * the messages of the request code are not taken for the cell's.
     */
    method RecordExecutions(requestMsgId: string, sourceMsgId: string)
      modifies this`parentHeader
      ensures parentHeader == Some(sourceMsgId)
    {
      parentHeader := Some(sourceMsgId);
    }

    /** `on_recv`: the callback the kernel pool calls with each IOPub message of the kernel. */
    method OnRecv(msg: Msg) returns (outcome: Outcome)
      requires Owns(parentHeader, msg) && IsIdle(msg) ==> executionFuture.Pending?
      modifies this
      ensures Snapshot() == Step(old(Snapshot()), msg)
      ensures outcome == OutcomeOf(old(parentHeader), msg)
    {
      if msg.parentMsgId.None? {
        outcome := RaisedKeyError;
        return;
      }
      if parentHeader.None? {
        outcome := RaisedAttributeError;
        return;
      }
      outcome := Returned;
      if msg.parentMsgId.value == parentHeader.value {
        match msg.content {
          case Status(state) =>
            if state == "idle" {
              executionFuture := Resolved(TerminalResult(Snapshot()));
            }
          case ExecuteResult(data) =>
            executeResult := Some(data);
          case Stream(text) =>
            streamMessages := streamMessages + [text];
          case Error(ename, evalue) =>
            errorMessage := Some(FormatError(ename, evalue));
          case Other(_) =>
        }
      }
    }
  }
}
