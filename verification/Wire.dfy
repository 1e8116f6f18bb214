// The messages the control plane and a runner exchange on one connection
// (internal/runnerproto/message.go), and what one terminal stream looks like to whoever
// reads the runner's messages in order.

module Wire {
  import opened StreamFrames

  type CallId = nat

  // Stream ids are taken to be fresh: the runner's 32-bit counter does not wrap here.
  type StreamId = nat

  datatype Method = OpenTerminal | CloseTerminal(stream: StreamId) | OtherMethod

  datatype Value = Opened(stream: StreamId) | Plain | Failed

  datatype Result = Result(id: CallId, value: Value)

  // Control plane to runner.
  datatype Down = Call(id: CallId, kind: Method) | Cancel(id: CallId) | Input(stream: StreamId, data: bytes)

  // Runner to control plane.
  datatype Up =
    | Answer(result: Result)
    | Progress(id: CallId)
    | Ping
    | Output(stream: StreamId, data: bytes)
    | StreamClosed(stream: StreamId)

  // One stream seen through a prefix of the runner's messages: not announced yet; or
  // announced by a result, with the output up to its stream_closed report; or out of
  // order, when output or the report comes before the result or either comes twice.
  datatype StreamView = Unopened | Open(data: bytes, closed: bool) | Disordered

  function See(v: StreamView, m: Up, sid: StreamId): StreamView {
    match m
    case Answer(Result(_, Opened(s))) =>
      if s != sid then v else if v.Unopened? then Open([], false) else Disordered
    case Output(s, data) =>
      if s != sid then v else if v.Open? then (if v.closed then v else Open(v.data + data, false)) else Disordered
    case StreamClosed(s) =>
      if s != sid then v else if v.Open? && !v.closed then Open(v.data, true) else Disordered
    case _ => v
  }

  function View(log: seq<Up>, sid: StreamId): StreamView {
    if log == [] then Unopened else See(View(log[..|log| - 1], sid), log[|log| - 1], sid)
  }

  lemma ViewSnoc(log: seq<Up>, m: Up, sid: StreamId)
    ensures View(log + [m], sid) == See(View(log, sid), m, sid)
  {
    assert (log + [m])[..|log|] == log;
  }

  // An early view and a late view of the same orderly stream: output only grows, and
  // not at all once the stream was reported closed.
  ghost predicate Precedes(early: StreamView, late: StreamView) {
    && !early.Disordered?
    && !late.Disordered?
    && (early.Open? ==> late.Open? && early.data <= late.data)
    && (early.Open? && early.closed ==> late == early)
  }

  lemma {:induction false} ViewGrows(log: seq<Up>, n: nat, sid: StreamId)
    requires n <= |log| && !View(log, sid).Disordered?
    ensures Precedes(View(log[..n], sid), View(log, sid))
    decreases |log|
  {
    if n == |log| {
      assert log[..n] == log;
    } else {
      ViewGrows(log[..|log| - 1], n, sid);
      assert log[..|log| - 1][..n] == log[..n];
    }
  }

  // Membership facts about an orderly log, in terms of its view.
  lemma {:induction false} ViewHolds(log: seq<Up>, sid: StreamId)
    requires !View(log, sid).Disordered?
    ensures View(log, sid).Open? <==> exists id :: Answer(Result(id, Opened(sid))) in log
    ensures StreamClosed(sid) in log <==> View(log, sid).Open? && View(log, sid).closed
    ensures forall data :: Output(sid, data) in log ==> View(log, sid).Open?
  {
    if log != [] {
      var init, last := log[..|log| - 1], log[|log| - 1];
      assert log == init + [last];
      ViewHolds(init, sid);
      if View(log, sid).Open? && View(init, sid).Open? {
        var id :| Answer(Result(id, Opened(sid))) in init;
        assert Answer(Result(id, Opened(sid))) in log;
      } else if View(log, sid).Open? {
        assert Answer(Result(last.result.id, Opened(sid))) in log;
      }
    }
  }

  ghost predicate DistinctAnswers(log: seq<Up>) {
    forall i, j :: 0 <= i < j < |log| && log[i].Answer? && log[j].Answer? ==> log[i].result.id != log[j].result.id
  }

  // Call ids are used once, and no stream is told to close twice.
  ghost predicate DistinctCalls(log: seq<Down>) {
    forall i, j :: 0 <= i < j < |log| && log[i].Call? && log[j].Call? ==>
      && log[i].id != log[j].id
      && (log[i].kind.CloseTerminal? ==> log[i].kind != log[j].kind)
  }

  // The bytes the control plane typed into one stream.
  function Typed(log: seq<Down>, sid: StreamId): bytes {
    if log == [] then []
    else
      var m := log[|log| - 1];
      Typed(log[..|log| - 1], sid) + (if m.Input? && m.stream == sid then m.data else [])
  }

  lemma TypedSnoc(log: seq<Down>, m: Down, sid: StreamId)
    ensures Typed(log + [m], sid) == Typed(log, sid) + (if m.Input? && m.stream == sid then m.data else [])
  {
    assert (log + [m])[..|log|] == log;
  }

  lemma {:induction false} TypedGrows(log: seq<Down>, n: nat, sid: StreamId)
    requires n <= |log|
    ensures Typed(log[..n], sid) <= Typed(log, sid)
    decreases |log|
  {
    if n == |log| {
      assert log[..n] == log;
    } else {
      TypedGrows(log[..|log| - 1], n, sid);
      assert log[..|log| - 1][..n] == log[..n];
    }
  }

  lemma {:induction false} TypedNothing(log: seq<Down>, sid: StreamId)
    requires forall data :: Input(sid, data) !in log
    ensures Typed(log, sid) == []
  {
    if log != [] {
      var m := log[|log| - 1];
      assert m in log;
      TypedNothing(log[..|log| - 1], sid);
    }
  }
}
