/**
 * One endpoint, `GET` answered by the cell `print(1+1)`, driven through the
 * handler's methods: the kernel's messages for the request code and for
 * another request are dropped, the cell's stream output becomes the body.
 */
module Scenario {
  import opened Wrappers
  import opened IOPub
  import opened Notebooks
  import opened Correlation

  /** A `PUT` is refused with 405; a `GET` is served with the text the cell printed. */
  lemma PrintScenario(p: string)
    ensures MethodGate("PUT", map["GET" := "print(1+1)"]) == Rejected(405)
    ensures MethodGate("GET", map["GET" := "print(1+1)"]) == Proceed("print(1+1)")
    ensures Deliverable(Started(p), [Msg(Some(p), Stream("2")), Msg(Some(p), Status("idle"))])
    ensures Run(Started(p), [Msg(Some(p), Stream("2")), Msg(Some(p), Status("idle"))]).future
      == Resolved(Response(200, Some("2")))
  {
    var pre := [Msg(Some(p), Stream("2"))];
    assert pre + [Msg(Some(p), Status("idle"))] == [Msg(Some(p), Stream("2")), Msg(Some(p), Status("idle"))];
    assert pre[1..] == [];
    assert LastError(Some(p), pre) == None && LastResult(Some(p), pre) == None;
    assert Join(StreamTexts(Some(p), pre)) == "2" by {
      assert StreamTexts(Some(p), pre) == ["2"];
      assert Join(["2"]) == "2" + Join([]);
    }
    ResolvesOnIdle(p, pre, Msg(Some(p), Status("idle")));
  }

  method ServeGet() {
    var handler := new NotebookApiHandler(map["GET" := "print(1+1)"]);
    var gate := handler.BeginRequest("PUT");
    assert gate == Rejected(405) && handler.executionFuture == Unset;
    gate := handler.BeginRequest("GET");
    assert gate == Proceed("print(1+1)") && handler.executionFuture == Pending;
    handler.RecordExecutions("request", "cell");
    var outcome := handler.OnRecv(Msg(Some("request"), Status("idle")));
    outcome := handler.OnRecv(Msg(Some("other"), Stream("3")));
    outcome := handler.OnRecv(Msg(None, Status("starting")));
    assert outcome == RaisedKeyError;
    outcome := handler.OnRecv(Msg(Some("cell"), Stream("2")));
    assert handler.Snapshot() == State(None, ["2"], None, Some("cell"), Pending);
    outcome := handler.OnRecv(Msg(Some("cell"), Status("idle")));
    assert Join(["2"]) == "2" by {
      assert ["2"][1..] == [];
    }
    assert TerminalResult(State(None, ["2"], None, Some("cell"), Pending)) == Response(200, Some("2"));
    assert handler.executionFuture == Resolved(Response(200, Some("2")));
  }
}
