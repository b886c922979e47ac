/**
 * What the handler's state is after the kernel has delivered a whole sequence
 * of IOPub messages, one `on_recv` call each, in order, and what response the
 * idle status of the recorded execution resolves the future with.
 */
module Correlation {
  import opened Wrappers
  import opened IOPub
  import opened Notebooks

  /** Resolutions the future can still take: one while pending, none otherwise. */
  function Slots(f: Future): nat {
    if f.Pending? then 1 else 0
  }

  predicate IsOwnIdle(p: Option<string>, m: Msg) {
    Owns(p, m) && IsIdle(m)
  }

  /** The number of idle statuses of the recorded execution in `msgs`. */
  function IdleCount(p: Option<string>, msgs: seq<Msg>): (n: nat) {
    if msgs == [] then 0
    else (if IsOwnIdle(p, msgs[0]) then 1 else 0) + IdleCount(p, msgs[1..])
  }

  /**
   * The kernel reports the recorded execution idle at most once, and only
   * while the future is pending: the sequences the handler can be given.
   */
  predicate Deliverable(s: State, msgs: seq<Msg>) {
    IdleCount(s.parentHeader, msgs) <= Slots(s.future)
  }

  /** The state after `on_recv` has been called with each of `msgs` in order. */
  function Run(s: State, msgs: seq<Msg>): (r: State)
    requires Deliverable(s, msgs)
    ensures r.parentHeader == s.parentHeader
    ensures Slots(r.future) == Slots(s.future) - IdleCount(s.parentHeader, msgs)
    ensures r.future == s.future <==> IdleCount(s.parentHeader, msgs) == 0
    decreases |msgs|
  {
    if msgs == [] then s else Run(Step(s, msgs[0]), msgs[1..])
  }

  /** The state once a request has passed the method check and recorded its cell's msg_id. */
  function Started(p: string): State {
    State(None, [], None, Some(p), Pending)
  }

  // ---------------------------------------------------------------------------
  // Reference definitions: what each field should hold after a message sequence,
  // stated over the sequence alone.

  /** The messages of the recorded execution, in arrival order. */
  function Own(p: Option<string>, msgs: seq<Msg>): (r: seq<Msg>)
    ensures forall i :: 0 <= i < |r| ==> Owns(p, r[i])
    ensures IdleCount(p, r) == IdleCount(p, msgs)
  {
    if msgs == [] then []
    else if Owns(p, msgs[0]) then [msgs[0]] + Own(p, msgs[1..])
    else Own(p, msgs[1..])
  }

  /** The `text` of each stream message of the recorded execution, in arrival order. */
  function StreamTexts(p: Option<string>, msgs: seq<Msg>): (texts: seq<string>) {
    if msgs == [] then []
    else if Owns(p, msgs[0]) && msgs[0].content.Stream? then [msgs[0].content.text] + StreamTexts(p, msgs[1..])
    else StreamTexts(p, msgs[1..])
  }

  predicate IsOwnError(p: Option<string>, m: Msg) {
    Owns(p, m) && m.content.Error?
  }

  predicate IsOwnResult(p: Option<string>, m: Msg) {
    Owns(p, m) && m.content.ExecuteResult?
  }

  /** The formatted text of the last error message of the recorded execution, if any. */
  function LastError(p: Option<string>, msgs: seq<Msg>): (r: Option<string>)
    ensures r.Some? <==> exists i :: 0 <= i < |msgs| && IsOwnError(p, msgs[i])
    ensures r.Some? ==> Truthy(r)
    decreases |msgs|
  {
    if msgs == [] then None
    else
      var m := msgs[|msgs| - 1];
      if IsOwnError(p, m) then Some(FormatError(m.content.ename, m.content.evalue))
      else
        assert forall i :: 0 <= i < |msgs| - 1 ==> msgs[..|msgs| - 1][i] == msgs[i];
        LastError(p, msgs[..|msgs| - 1])
  }

  /** The `data` of the last execute_result message of the recorded execution, if any. */
  function LastResult(p: Option<string>, msgs: seq<Msg>): (r: Option<Bundle>)
    ensures r.Some? <==> exists i :: 0 <= i < |msgs| && IsOwnResult(p, msgs[i])
    decreases |msgs|
  {
    if msgs == [] then None
    else
      var m := msgs[|msgs| - 1];
      if IsOwnResult(p, m) then Some(m.content.data)
      else
        assert forall i :: 0 <= i < |msgs| - 1 ==> msgs[..|msgs| - 1][i] == msgs[i];
        LastResult(p, msgs[..|msgs| - 1])
  }

  // ---------------------------------------------------------------------------
  // One message.

  /** A message of another execution, or one that makes `on_recv` raise, changes nothing. */
  lemma ForeignMessageIgnored(s: State, m: Msg)
    requires !Owns(s.parentHeader, m)
    ensures Step(s, m) == s
  {
  }

  /** Only an idle status of the recorded execution resolves the future; nothing else touches it. */
  lemma OnlyOwnIdleResolves(s: State, m: Msg)
    requires IsOwnIdle(s.parentHeader, m) ==> s.future.Pending?
    ensures Step(s, m).future != s.future <==> IsOwnIdle(s.parentHeader, m)
    ensures IsOwnIdle(s.parentHeader, m) ==> Step(s, m).future == Resolved(TerminalResult(s))
  {
  }

  /** A stream message of the recorded execution appends its text and touches no other field. */
  lemma StreamAppends(s: State, m: Msg)
    requires Owns(s.parentHeader, m) && m.content.Stream?
    ensures Step(s, m) == s.(streamMessages := s.streamMessages + [m.content.text])
  {
  }

  /** An execute_result of the recorded execution replaces the stored data and touches no other field. */
  lemma ExecuteResultOverwrites(s: State, m: Msg)
    requires IsOwnResult(s.parentHeader, m)
    ensures Step(s, m) == s.(executeResult := Some(m.content.data))
  {
  }

  /** An error of the recorded execution replaces the error text and does not resolve the future. */
  lemma ErrorOverwrites(s: State, m: Msg)
    requires IsOwnError(s.parentHeader, m)
    ensures Step(s, m) == s.(errorMessage := Some("Error " + m.content.ename + ": " + m.content.evalue + " \n"))
    ensures Step(s, m).future == s.future
  {
  }

  /** The three branches of the idle response, the error taking priority over everything else. */
  lemma TerminalResultCases(s: State)
    ensures Truthy(s.errorMessage) ==> TerminalResult(s) == Response(InternalServerError, s.errorMessage)
    ensures !Truthy(s.errorMessage) && HasResult(s.executeResult) ==>
      TerminalResult(s) == Response(Ok, s.errorMessage)
    ensures !Truthy(s.errorMessage) && !HasResult(s.executeResult) ==>
      TerminalResult(s) == Response(Ok, Some(Join(s.streamMessages)))
  {
  }

  // ---------------------------------------------------------------------------
  // Message sequences.

  lemma {:induction false} IdleCountAppend(p: Option<string>, a: seq<Msg>, b: seq<Msg>)
    ensures IdleCount(p, a + b) == IdleCount(p, a) + IdleCount(p, b)
    decreases |a|
  {
    if a != [] {
      assert (a + b)[1..] == a[1..] + b;
      IdleCountAppend(p, a[1..], b);
    } else {
      assert a + b == b;
    }
  }

  /** Delivering one more message is one more `on_recv` step. */
  lemma {:induction false} RunSnoc(s: State, msgs: seq<Msg>, m: Msg)
    requires Deliverable(s, msgs + [m])
    ensures Deliverable(s, msgs)
    ensures IsOwnIdle(s.parentHeader, m) ==> Run(s, msgs).future.Pending?
    ensures Run(s, msgs + [m]) == Step(Run(s, msgs), m)
    decreases |msgs|
  {
    IdleCountAppend(s.parentHeader, msgs, [m]);
    if msgs != [] {
      assert (msgs + [m])[1..] == msgs[1..] + [m];
      RunSnoc(Step(s, msgs[0]), msgs[1..], m);
    }
  }

  /**
   * Messages of other executions, wherever they are interleaved, make no
   * difference: the state is what the recorded execution's messages alone give.
   */
  lemma {:induction false} RunIgnoresForeign(s: State, msgs: seq<Msg>)
    requires Deliverable(s, msgs)
    ensures Deliverable(s, Own(s.parentHeader, msgs))
    ensures Run(s, msgs) == Run(s, Own(s.parentHeader, msgs))
    decreases |msgs|
  {
    if msgs != [] {
      if Owns(s.parentHeader, msgs[0]) {
        var own := Own(s.parentHeader, msgs);
        assert own[0] == msgs[0] && own[1..] == Own(s.parentHeader, msgs[1..]);
      }
      RunIgnoresForeign(Step(s, msgs[0]), msgs[1..]);
    }
  }

  /** The messages of the execution whose msg_id was discarded never change the state. */
  lemma {:induction false} RequestCodeIgnored(s: State, requestMsgId: string, msgs: seq<Msg>)
    requires s.parentHeader.Some? && s.parentHeader.value != requestMsgId
    requires forall i :: 0 <= i < |msgs| ==> msgs[i].parentMsgId == Some(requestMsgId)
    ensures Deliverable(s, msgs)
    ensures Run(s, msgs) == s
    decreases |msgs|
  {
    if msgs != [] {
      RequestCodeIgnored(s, requestMsgId, msgs[1..]);
    }
  }

  /** The stream buffer ends with the recorded execution's stream texts, in arrival order. */
  lemma {:induction false} RunStreams(s: State, msgs: seq<Msg>)
    requires Deliverable(s, msgs)
    ensures Run(s, msgs).streamMessages == s.streamMessages + StreamTexts(s.parentHeader, msgs)
    decreases |msgs|
  {
    if msgs != [] {
      RunStreams(Step(s, msgs[0]), msgs[1..]);
    }
  }

  /** The error text is that of the last error message; without one it is unchanged. */
  lemma {:induction false} RunLastError(s: State, msgs: seq<Msg>)
    requires Deliverable(s, msgs)
    ensures Run(s, msgs).errorMessage ==
      if LastError(s.parentHeader, msgs).Some? then LastError(s.parentHeader, msgs) else s.errorMessage
    decreases |msgs|
  {
    if msgs != [] {
      var init, m := msgs[..|msgs| - 1], msgs[|msgs| - 1];
      assert msgs == init + [m];
      RunSnoc(s, init, m);
      RunLastError(s, init);
    }
  }

  /** The stored data is that of the last execute_result: the last write wins. */
  lemma {:induction false} RunLastResult(s: State, msgs: seq<Msg>)
    requires Deliverable(s, msgs)
    ensures Run(s, msgs).executeResult ==
      if LastResult(s.parentHeader, msgs).Some? then LastResult(s.parentHeader, msgs) else s.executeResult
    decreases |msgs|
  {
    if msgs != [] {
      var init, m := msgs[..|msgs| - 1], msgs[|msgs| - 1];
      assert msgs == init + [m];
      RunSnoc(s, init, m);
      RunLastResult(s, init);
    }
  }

  /**
   * A request that passed the method check and recorded msg_id `p` is resolved
   * by the idle status of `p`, with: status 500 and the last error's text when
   * an error of `p` came first; otherwise status 200 and no content when the
   * last execute_result of `p` carried a non-empty bundle; otherwise status 200
   * and the stream texts of `p` joined in arrival order.
   */
  lemma ResolvesOnIdle(p: string, pre: seq<Msg>, idle: Msg)
    requires IdleCount(Some(p), pre) == 0
    requires IsOwnIdle(Some(p), idle)
    ensures Deliverable(Started(p), pre + [idle])
    ensures Run(Started(p), pre + [idle]).future == Resolved(
      if LastError(Some(p), pre).Some? then Response(500, LastError(Some(p), pre))
      else if HasResult(LastResult(Some(p), pre)) then Response(200, None)
      else Response(200, Some(Join(StreamTexts(Some(p), pre)))))
  {
    var s := Started(p);
    IdleCountAppend(Some(p), pre, [idle]);
    RunSnoc(s, pre, idle);
    RunStreams(s, pre);
    RunLastError(s, pre);
    RunLastResult(s, pre);
    var before := Run(s, pre);
    assert before.future == Pending;
    assert before.streamMessages == StreamTexts(Some(p), pre);
    assert Run(s, pre + [idle]).future == Resolved(TerminalResult(before));
  }

  /**
   * Once resolved, the future keeps its response through any messages other
   * than a second idle status of the recorded execution. That second idle,
   * on which `on_recv` would call `set_result` again, is excluded here.
   */
  lemma ResolutionIsFinal(s: State, msgs: seq<Msg>)
    requires s.future.Resolved? && IdleCount(s.parentHeader, msgs) == 0
    ensures Deliverable(s, msgs)
    ensures Run(s, msgs).future == s.future
  {
  }

  /**
   * With a non-empty execute_result and no error the response content is
   * None: neither the result nor the stream text reaches the client.
   */
  lemma ResultBranchCarriesNoContent(p: string, data: Bundle, text: string)
    requires |data| > 0
    ensures Deliverable(Started(p), [Msg(Some(p), ExecuteResult(data)), Msg(Some(p), Stream(text)), Msg(Some(p), Status("idle"))])
    ensures Run(Started(p), [Msg(Some(p), ExecuteResult(data)), Msg(Some(p), Stream(text)), Msg(Some(p), Status("idle"))]).future
      == Resolved(Response(200, None))
  {
    var pre := [Msg(Some(p), ExecuteResult(data)), Msg(Some(p), Stream(text))];
    assert pre + [Msg(Some(p), Status("idle"))] == [Msg(Some(p), ExecuteResult(data)), Msg(Some(p), Stream(text)), Msg(Some(p), Status("idle"))];
    assert pre[1..] == [pre[1]] && pre[1..][1..] == [];
    assert IdleCount(Some(p), pre[1..]) == 0 by {
      assert IdleCount(Some(p), pre[1..][1..]) == 0;
    }
    assert LastResult(Some(p), pre) == Some(data) by {
      assert pre[..1] == [pre[0]];
    }
    ResolvesOnIdle(p, pre, Msg(Some(p), Status("idle")));
  }
}

