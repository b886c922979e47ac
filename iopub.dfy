/**
 * The messages a Jupyter kernel publishes on its IOPub channel, reduced to the
 * parts the notebook API handler reads: the `msg_id` of the parent header (the
 * request that caused the message), the `msg_type` of the header, and the
 * content fields of the four message types the handler distinguishes.
 */
module IOPub {
  import opened Wrappers

  /** A MIME bundle: the `data` dict of an `execute_result`, MIME type to payload. */
  type Bundle = map<string, string>

  /** `msg_type` together with the content fields the handler reads for it. */
  datatype Content =
    | Status(executionState: string)        // `status`: `execution_state` is busy, idle or starting
    | ExecuteResult(data: Bundle)           // `execute_result`: `data`
    | Stream(text: string)                  // `stream`: `text`
    | Error(ename: string, evalue: string)  // `error`: `ename` and `evalue`
    | Other(msgType: string)                // any other `msg_type` (execute_input, display_data, ...);
                                            // a message of one of the four types above is never encoded as Other

  /**
   * One IOPub message. `parentMsgId` is `parent_header['msg_id']`; it is None
   * when the parent header is empty, as for messages no request caused.
   */
  datatype Msg = Msg(parentMsgId: Option<string>, content: Content)

  /** A `status` message reporting `execution_state == 'idle'`. */
  predicate IsIdle(m: Msg) {
    m.content.Status? && m.content.executionState == "idle"
  }
}
