// The runner's half of the connection (internal/runnerclient/session.go).
//
// Once a write to the socket fails the socket is gone, so `broken` is for good: every
// later write fails too.

module RunnerClient {
  import opened Wrappers
  import opened StreamFrames
  import opened Wire

  const STREAM_INPUT_FRAMES := 256

  datatype Phase = Dispatching | Computed(value: Value)

  datatype ClientCall = ClientCall(kind: Method, cancelled: bool, phase: Phase)

  // Where pumpOutput stands; `Holding` is between its Read and its write.
  datatype Pump = NotStarted | Reading | Holding(data: bytes, eof: bool) | AtEnd | Stopped

  // How the stream left the session's map: by its pump at the end of the PTY, or early.
  datatype Ending = Live | PtyEnded | Early

  // `produced` is all the PTY ever gave out, `queue` the input channel, `typed` all that
  // pumpInput wrote to the PTY.
  datatype Pty = Pty(call: CallId, pump: Pump, ending: Ending, produced: bytes, queue: seq<bytes>, typed: bytes)

  // `toReport` holds the streams closed by this side whose stream_closed is still to be
  // sent; `answered` remembers the value computed for each finished call.
  datatype Client = Client(
    calls: map<CallId, ClientCall>,
    streams: set<StreamId>,
    nextStream: StreamId,
    closed: bool,
    broken: bool,
    ptys: map<StreamId, Pty>,
    toReport: set<StreamId>,
    answered: map<CallId, Value>)

  const NEW_CLIENT := Client(map[], {}, 0, false, false, map[], {}, map[])

  // ----- steps

  function Sent(c: Client, m: Up): seq<Up> {
    if c.broken then [] else [m]
  }

  function Concat(chunks: seq<bytes>): bytes {
    if chunks == [] then [] else Concat(chunks[..|chunks| - 1]) + chunks[|chunks| - 1]
  }

  function AfterStart(c: Client, id: CallId, kind: Method): Client {
    c.(calls := c.calls[id := ClientCall(kind, false, Dispatching)])
  }

  function AfterCancel(c: Client, id: CallId): Client {
    if id in c.calls then c.(calls := c.calls[id := c.calls[id].(cancelled := true)]) else c
  }

  function AfterCloseStream(c: Client, sid: StreamId, ending: Ending): Client {
    if sid !in c.streams || sid !in c.ptys then c
    else c.(streams := c.streams - {sid}, ptys := c.ptys[sid := c.ptys[sid].(ending := ending)])
  }

  function AfterInput(c: Client, sid: StreamId, data: bytes): Client {
    if sid !in c.streams || sid !in c.ptys then c
    else if |c.ptys[sid].queue| < STREAM_INPUT_FRAMES then
      c.(ptys := c.ptys[sid := c.ptys[sid].(queue := c.ptys[sid].queue + [data])])
    else
      AfterCloseStream(c, sid, Early).(toReport := c.toReport + {sid})
  }

  predicate CanDispatch(c: Client, id: CallId) {
    id in c.calls && c.calls[id].phase.Dispatching?
  }

  function AfterComputed(c: Client, id: CallId, value: Value): Client
    requires id in c.calls
  {
    c.(calls := c.calls[id := c.calls[id].(phase := Computed(value))])
  }

  // openTerminal, once the provider has opened the PTY.
  function AfterOpenTerminal(c: Client, id: CallId): Client
    requires CanDispatch(c, id)
  {
    if c.calls[id].cancelled || c.closed then AfterComputed(c, id, Failed)
    else
      var sid := c.nextStream + 1;
      var pty := Pty(id, NotStarted, Live, [], [], []);
      AfterComputed(c.(nextStream := sid, streams := c.streams + {sid}, ptys := c.ptys[sid := pty]), id, Opened(sid))
  }

  // Any other method that succeeded, and the one of them that touches a stream.
  function AfterOtherMethod(c: Client, id: CallId): Client
    requires CanDispatch(c, id)
  {
    var c' := if c.calls[id].kind.CloseTerminal? then AfterCloseStream(c, c.calls[id].kind.stream, Early) else c;
    AfterComputed(c', id, Plain)
  }

  predicate CanAnswer(c: Client, id: CallId) {
    id in c.calls && c.calls[id].phase.Computed?
  }

  // The result is written first and only then do the pumps start.
  function AfterAnswer(c: Client, id: CallId): (Client, seq<Up>)
    requires CanAnswer(c, id)
  {
    var value := c.calls[id].phase.value;
    var c' := c.(calls := c.calls - {id}, answered := c.answered[id := value]);
    (if value.Opened? && value.stream in c.ptys
     then c'.(ptys := c.ptys[value.stream := c.ptys[value.stream].(pump := Reading)])
     else c',
     Sent(c, Answer(Wire.Result(id, value))))
  }

  predicate Pumping(c: Client, sid: StreamId, pump: Pump) {
    sid in c.ptys && c.ptys[sid].pump == pump
  }

  function WithPump(c: Client, sid: StreamId, pump: Pump): Client
    requires sid in c.ptys
  {
    c.(ptys := c.ptys[sid := c.ptys[sid].(pump := pump)])
  }

  function AfterPtyRead(c: Client, sid: StreamId, data: bytes, eof: bool): Client
    requires Pumping(c, sid, Reading)
  {
    var p := c.ptys[sid];
    c.(ptys := c.ptys[sid := p.(produced := p.produced + data, pump := Holding(data, eof))])
  }

  function AfterPumpWrite(c: Client, sid: StreamId): (Client, seq<Up>)
    requires sid in c.ptys && c.ptys[sid].pump.Holding?
  {
    var pump := c.ptys[sid].pump;
    var next := if pump.eof then AtEnd else Reading;
    if pump.data == [] then (WithPump(c, sid, next), [])
    else if c.broken then (AfterCloseStream(WithPump(c, sid, Stopped), sid, Early), [])
    else (WithPump(c, sid, next), [Output(sid, pump.data)])
  }

  function AfterPumpEnd(c: Client, sid: StreamId): Client
    requires Pumping(c, sid, AtEnd)
  {
    var c' := WithPump(c, sid, Stopped);
    if sid in c.streams then AfterCloseStream(c', sid, PtyEnded).(toReport := c.toReport + {sid}) else c'
  }

  function AfterReport(c: Client, sid: StreamId): (Client, seq<Up>) {
    (c.(toReport := c.toReport - {sid}), Sent(c, StreamClosed(sid)))
  }

  function AfterPumpInput(c: Client, sid: StreamId): Client
    requires sid in c.ptys && c.ptys[sid].queue != []
  {
    var p := c.ptys[sid];
    c.(ptys := c.ptys[sid := p.(queue := p.queue[1..], typed := p.typed + p.queue[0])])
  }

  function AfterCloseStreams(c: Client): Client {
    c.(closed := true, streams := {},
       ptys := map sid | sid in c.ptys :: if sid in c.streams then c.ptys[sid].(ending := Early) else c.ptys[sid])
  }

  // ----- what every step keeps
  //
  // `up` is everything this side has written and `got` everything it has read.

  function Shown(v: StreamView): bytes {
    if v.Open? then v.data else []
  }

  ghost predicate Reported(v: StreamView) {
    v.Open? && v.closed
  }

  ghost predicate PtyOk(c: Client, v: StreamView, sid: StreamId) {
    && !v.Disordered?
    && (sid !in c.ptys ==> v.Unopened? && sid !in c.streams && sid !in c.toReport)
    && (sid in c.ptys ==>
          var p := c.ptys[sid];
          && 0 < sid <= c.nextStream
          && Shown(v) <= p.produced
          && (p.ending.Live? <==> sid in c.streams)
          && (p.pump.NotStarted? ==>
                && v.Unopened? && p.produced == []
                && p.call in c.calls && c.calls[p.call].phase == Computed(Opened(sid)))
          && (!p.pump.NotStarted? ==> v.Open? || c.broken)
          && (p.ending.PtyEnded? ==> p.pump.Stopped? && Shown(v) == p.produced)
          && (p.ending.Live? ==> !p.pump.Stopped?)
          && (Reported(v) ==> !p.ending.Live? && sid !in c.toReport)
          && (sid in c.toReport ==> !p.ending.Live? && (v.Open? || c.broken))
          && (!Reported(v) ==>
                match p.pump
                case Holding(data, _) => Shown(v) + data == p.produced
                case Stopped => true
                case _ => Shown(v) == p.produced))
  }

  ghost predicate PtysOk(c: Client, up: seq<Up>) {
    forall sid :: PtyOk(c, View(up, sid), sid)
  }

  ghost predicate CallOk(c: Client, got: seq<Down>, id: CallId)
    requires id in c.calls
  {
    var call := c.calls[id];
    && Call(id, call.kind) in got
    && id !in c.answered
    && (call.phase.Computed? && call.phase.value.Opened? ==>
          var sid := call.phase.value.stream;
          call.kind.OpenTerminal? && sid in c.ptys && c.ptys[sid].call == id && c.ptys[sid].pump.NotStarted?)
  }

  ghost predicate AnswersOk(c: Client, up: seq<Up>, got: seq<Down>) {
    && DistinctAnswers(up)
    && (forall m | m in up && m.Answer? :: m.result.id in c.answered && c.answered[m.result.id] == m.result.value)
    && (forall id | id in c.answered ::
          exists kind :: Call(id, kind) in got && (c.answered[id].Opened? ==> kind.OpenTerminal?))
    && (forall id | id in c.calls :: CallOk(c, got, id))
  }

  ghost predicate ClientOk(c: Client, up: seq<Up>, got: seq<Down>) {
    PtysOk(c, up) && AnswersOk(c, up, got)
  }

  lemma NewClientOk()
    ensures ClientOk(NEW_CLIENT, [], [])
  {
  }

  // c' is c with one stream's record changed, and perhaps that stream out of the map.
  ghost predicate Touches(c: Client, c': Client, sid: StreamId) {
    && sid in c.ptys && sid in c'.ptys
    && c' == c.(streams := c'.streams, ptys := c.ptys[sid := c'.ptys[sid]], toReport := c'.toReport)
    && (c'.streams == c.streams || c'.streams == c.streams - {sid})
    && c'.toReport - {sid} == c.toReport - {sid}
    && c'.ptys[sid].call == c.ptys[sid].call
    && (c'.ptys[sid].pump.NotStarted? <==> c.ptys[sid].pump.NotStarted?)
  }

  // Exactly one stream's record, and the flags that go with it, change.
  lemma PtyKeeps(c: Client, c': Client, up: seq<Up>, up': seq<Up>, got: seq<Down>, sid: StreamId)
    requires ClientOk(c, up, got) && Touches(c, c', sid)
    requires up' == up || up' == up + [StreamClosed(sid)] || exists data :: up' == up + [Output(sid, data)]
    requires PtyOk(c', View(up', sid), sid)
    ensures ClientOk(c', up', got)
  {
    forall k ensures PtyOk(c', View(up', k), k) {
      if k != sid {
        assert PtyOk(c, View(up, k), k);
        assert View(up', k) == View(up, k) by {
          if up' != up {
            assert up' == up + [up'[|up|]];
            ViewSnoc(up, up'[|up|], k);
          }
        }
        assert k in c.toReport <==> k in c'.toReport - {sid};
      }
    }
    forall id | id in c'.calls ensures CallOk(c', got, id) {
      assert CallOk(c, got, id);
    }
  }

  lemma PtyReadKeeps(c: Client, up: seq<Up>, got: seq<Down>, sid: StreamId, data: bytes, eof: bool)
    requires ClientOk(c, up, got) && Pumping(c, sid, Reading)
    ensures ClientOk(AfterPtyRead(c, sid, data, eof), up, got)
  {
    assert PtyOk(c, View(up, sid), sid);
    PtyKeeps(c, AfterPtyRead(c, sid, data, eof), up, up, got, sid);
  }

  lemma PumpWriteOne(c: Client, v: StreamView, sid: StreamId)
    requires PtyOk(c, v, sid) && sid in c.ptys && c.ptys[sid].pump.Holding?
    ensures var (c', sent) := AfterPumpWrite(c, sid);
      && Touches(c, c', sid)
      && (sent == [] || (|sent| == 1 && sent[0] == Output(sid, c.ptys[sid].pump.data)))
      && PtyOk(c', if sent == [] then v else See(v, sent[0], sid), sid)
  {
    var c', sent := AfterPumpWrite(c, sid).0, AfterPumpWrite(c, sid).1;
    assert c'.ptys == c.ptys[sid := c'.ptys[sid]];
  }

  lemma PumpWriteKeeps(c: Client, up: seq<Up>, got: seq<Down>, sid: StreamId)
    requires ClientOk(c, up, got) && sid in c.ptys && c.ptys[sid].pump.Holding?
    ensures ClientOk(AfterPumpWrite(c, sid).0, up + AfterPumpWrite(c, sid).1, got)
  {
    var c', sent := AfterPumpWrite(c, sid).0, AfterPumpWrite(c, sid).1;
    PumpWriteOne(c, View(up, sid), sid);
    if sent == [] {
      assert up + sent == up;
    } else {
      assert sent == [Output(sid, c.ptys[sid].pump.data)];
      ViewSnoc(up, sent[0], sid);
    }
    PtyKeeps(c, c', up, up + sent, got, sid);
  }

  lemma PumpEndOne(c: Client, v: StreamView, sid: StreamId)
    requires PtyOk(c, v, sid) && Pumping(c, sid, AtEnd)
    ensures Touches(c, AfterPumpEnd(c, sid), sid)
    ensures PtyOk(AfterPumpEnd(c, sid), v, sid)
  {
    var c' := AfterPumpEnd(c, sid);
    assert c'.ptys == c.ptys[sid := c'.ptys[sid]];
  }

  lemma PumpEndKeeps(c: Client, up: seq<Up>, got: seq<Down>, sid: StreamId)
    requires ClientOk(c, up, got) && Pumping(c, sid, AtEnd)
    ensures ClientOk(AfterPumpEnd(c, sid), up, got)
  {
    PumpEndOne(c, View(up, sid), sid);
    PtyKeeps(c, AfterPumpEnd(c, sid), up, up, got, sid);
  }

  lemma ReportKeeps(c: Client, up: seq<Up>, got: seq<Down>, sid: StreamId)
    requires ClientOk(c, up, got) && sid in c.toReport
    ensures ClientOk(AfterReport(c, sid).0, up + AfterReport(c, sid).1, got)
  {
    assert PtyOk(c, View(up, sid), sid);
    assert up + [] == up;
    if !c.broken {
      ViewSnoc(up, StreamClosed(sid), sid);
    }
    PtyKeeps(c, AfterReport(c, sid).0, up, up + AfterReport(c, sid).1, got, sid);
  }

  lemma CloseStreamKeeps(c: Client, up: seq<Up>, got: seq<Down>, sid: StreamId)
    requires ClientOk(c, up, got)
    ensures ClientOk(AfterCloseStream(c, sid, Early), up, got)
  {
    assert PtyOk(c, View(up, sid), sid);
    if sid in c.streams {
      PtyKeeps(c, AfterCloseStream(c, sid, Early), up, up, got, sid);
    }
  }

  // A step that leaves every stream's record alone.
  lemma PtysFrame(c: Client, c': Client, up: seq<Up>)
    requires PtysOk(c, up)
    requires c'.streams == c.streams && c'.nextStream == c.nextStream && c'.ptys == c.ptys && c'.toReport == c.toReport
    requires c.broken ==> c'.broken
    requires forall id | id in c.calls && c.calls[id].phase.Computed? :: id in c'.calls && c'.calls[id].phase == c.calls[id].phase
    ensures PtysOk(c', up)
  {
    forall sid ensures PtyOk(c', View(up, sid), sid) {
      assert PtyOk(c, View(up, sid), sid);
    }
  }

  // A step that leaves every call's progress alone.
  lemma CallsFrame(c: Client, c': Client, up: seq<Up>, got: seq<Down>)
    requires AnswersOk(c, up, got)
    requires c'.answered == c.answered && c'.calls.Keys == c.calls.Keys
    requires forall id | id in c.calls :: c'.calls[id].kind == c.calls[id].kind && c'.calls[id].phase == c.calls[id].phase
    requires forall sid | sid in c.ptys ::
      sid in c'.ptys && c'.ptys[sid].call == c.ptys[sid].call && c'.ptys[sid].pump == c.ptys[sid].pump
    ensures AnswersOk(c', up, got)
  {
    forall id | id in c'.calls ensures CallOk(c', got, id) {
      assert CallOk(c, got, id);
    }
  }

  lemma StartKeeps(c: Client, up: seq<Up>, got: seq<Down>, id: CallId, kind: Method)
    requires ClientOk(c, up, got) && DistinctCalls(got + [Call(id, kind)])
    ensures ClientOk(AfterStart(c, id, kind), up, got + [Call(id, kind)])
  {
    var c', got' := AfterStart(c, id, kind), got + [Call(id, kind)];
    forall k | k in got && k.Call? ensures k.id != id && k in got' {
      var i :| 0 <= i < |got| && got[i] == k;
      assert got'[i] == k && got'[|got|] == Call(id, kind);
    }
    assert Call(id, kind) in got';
    assert id !in c.calls by {
      assert forall i | i in c.calls :: CallOk(c, got, i) ==> Call(i, c.calls[i].kind) in got;
    }
    PtysFrame(c, c', up);
    forall i | i in c'.calls ensures CallOk(c', got', i) {
      assert i != id ==> CallOk(c, got, i);
    }
  }

  lemma MoreGot(c: Client, up: seq<Up>, got: seq<Down>, m: Down)
    requires AnswersOk(c, up, got)
    ensures AnswersOk(c, up, got + [m])
  {
    var got' := got + [m];
    assert forall k | k in got :: k in got';
    forall id | id in c.calls ensures CallOk(c, got', id) {
      assert CallOk(c, got, id);
    }
    forall id | id in c.answered
      ensures exists kind :: Call(id, kind) in got' && (c.answered[id].Opened? ==> kind.OpenTerminal?) {
      var kind :| Call(id, kind) in got && (c.answered[id].Opened? ==> kind.OpenTerminal?);
      assert Call(id, kind) in got';
    }
  }

  lemma CancelKeepsAnswers(c: Client, up: seq<Up>, got: seq<Down>, id: CallId)
    requires AnswersOk(c, up, got)
    ensures AnswersOk(AfterCancel(c, id), up, got + [Cancel(id)])
  {
    MoreGot(c, up, got, Cancel(id));
    CallsFrame(c, AfterCancel(c, id), up, got + [Cancel(id)]);
  }

  lemma CancelKeeps(c: Client, up: seq<Up>, got: seq<Down>, id: CallId)
    requires ClientOk(c, up, got)
    ensures ClientOk(AfterCancel(c, id), up, got + [Cancel(id)])
  {
    CancelKeepsAnswers(c, up, got, id);
    PtysFrame(c, AfterCancel(c, id), up);
  }

  lemma ComputedKeeps(c: Client, up: seq<Up>, got: seq<Down>, id: CallId, value: Value)
    requires ClientOk(c, up, got) && CanDispatch(c, id) && !value.Opened?
    ensures ClientOk(AfterComputed(c, id, value), up, got)
  {
    var c' := AfterComputed(c, id, value);
    PtysFrame(c, c', up);
    forall i | i in c'.calls ensures CallOk(c', got, i) {
      assert CallOk(c, got, i);
    }
  }

  lemma OtherMethodKeeps(c: Client, up: seq<Up>, got: seq<Down>, id: CallId)
    requires ClientOk(c, up, got) && CanDispatch(c, id)
    ensures ClientOk(AfterOtherMethod(c, id), up, got)
  {
    if c.calls[id].kind.CloseTerminal? {
      CloseStreamKeeps(c, up, got, c.calls[id].kind.stream);
      ComputedKeeps(AfterCloseStream(c, c.calls[id].kind.stream, Early), up, got, id, Plain);
    } else {
      ComputedKeeps(c, up, got, id, Plain);
    }
  }

  lemma OpenTerminalKeepsPtys(c: Client, up: seq<Up>, got: seq<Down>, id: CallId)
    requires PtysOk(c, up) && CanDispatch(c, id) && !c.calls[id].cancelled && !c.closed
    ensures PtysOk(AfterOpenTerminal(c, id), up)
    ensures c.nextStream + 1 !in c.ptys
  {
    var c', sid := AfterOpenTerminal(c, id), c.nextStream + 1;
    assert PtyOk(c, View(up, sid), sid);
    forall k ensures PtyOk(c', View(up, k), k) {
      assert PtyOk(c, View(up, k), k);
    }
  }

  lemma OpenTerminalKeepsAnswers(c: Client, up: seq<Up>, got: seq<Down>, id: CallId)
    requires AnswersOk(c, up, got) && CanDispatch(c, id) && c.calls[id].kind.OpenTerminal?
    requires !c.calls[id].cancelled && !c.closed && c.nextStream + 1 !in c.ptys
    ensures AnswersOk(AfterOpenTerminal(c, id), up, got)
  {
    var c' := AfterOpenTerminal(c, id);
    forall i | i in c'.calls ensures CallOk(c', got, i) {
      assert CallOk(c, got, i);
    }
  }

  lemma OpenTerminalKeeps(c: Client, up: seq<Up>, got: seq<Down>, id: CallId)
    requires ClientOk(c, up, got) && CanDispatch(c, id) && c.calls[id].kind.OpenTerminal?
    ensures ClientOk(AfterOpenTerminal(c, id), up, got)
  {
    if c.calls[id].cancelled || c.closed {
      ComputedKeeps(c, up, got, id, Failed);
    } else {
      OpenTerminalKeepsPtys(c, up, got, id);
      OpenTerminalKeepsAnswers(c, up, got, id);
    }
  }

  lemma AnswerKeeps(c: Client, up: seq<Up>, got: seq<Down>, id: CallId)
    requires ClientOk(c, up, got) && CanAnswer(c, id)
    ensures ClientOk(AfterAnswer(c, id).0, up + AfterAnswer(c, id).1, got)
  {
    assert CallOk(c, got, id);
    AnswerKeepsPtys(c, up, got, id);
    AnswerKeepsAnswers(c, up, got, id);
  }

  lemma AnswerKeepsAnswers(c: Client, up: seq<Up>, got: seq<Down>, id: CallId)
    requires AnswersOk(c, up, got) && CanAnswer(c, id)
    ensures AnswersOk(AfterAnswer(c, id).0, up + AfterAnswer(c, id).1, got)
  {
    var c', sent := AfterAnswer(c, id).0, AfterAnswer(c, id).1;
    var value, up' := c.calls[id].phase.value, up + sent;
    assert CallOk(c, got, id);
    forall m | m in up' && m.Answer?
      ensures m.result.id in c'.answered && c'.answered[m.result.id] == m.result.value {
      assert m in up || m in sent;
    }
    forall i, j | 0 <= i < j < |up'| && up'[i].Answer? && up'[j].Answer?
      ensures up'[i].result.id != up'[j].result.id {
      assert up'[i] in up;
    }
    forall i | i in c'.calls ensures CallOk(c', got, i) {
      assert CallOk(c, got, i);
    }
  }

  lemma AnswerKeepsPtys(c: Client, up: seq<Up>, got: seq<Down>, id: CallId)
    requires PtysOk(c, up) && CanAnswer(c, id) && CallOk(c, got, id)
    ensures PtysOk(AfterAnswer(c, id).0, up + AfterAnswer(c, id).1)
  {
    var c', sent := AfterAnswer(c, id).0, AfterAnswer(c, id).1;
    forall sid ensures PtyOk(c', View(up + sent, sid), sid) {
      assert PtyOk(c, View(up, sid), sid);
      if c.broken {
        assert up + sent == up;
      } else {
        ViewSnoc(up, sent[0], sid);
      }
    }
  }

  lemma PumpInputKeeps(c: Client, up: seq<Up>, got: seq<Down>, sid: StreamId)
    requires ClientOk(c, up, got) && sid in c.ptys && c.ptys[sid].queue != []
    ensures ClientOk(AfterPumpInput(c, sid), up, got)
  {
    var p, c' := c.ptys[sid], AfterPumpInput(c, sid);
    assert PtyOk(c, View(up, sid), sid);
    PtyKeeps(c, c', up, up, got, sid);
  }

  lemma InputKeepsAnswers(c: Client, up: seq<Up>, got: seq<Down>, sid: StreamId, data: bytes)
    requires AnswersOk(c, up, got)
    ensures AnswersOk(AfterInput(c, sid, data), up, got + [Input(sid, data)])
  {
    MoreGot(c, up, got, Input(sid, data));
    CallsFrame(c, AfterInput(c, sid, data), up, got + [Input(sid, data)]);
  }

  // Input arrives only for a stream already announced, so its PTY is known.
  lemma InputKeeps(c: Client, up: seq<Up>, got: seq<Down>, sid: StreamId, data: bytes)
    requires ClientOk(c, up, got) && View(up, sid).Open?
    ensures ClientOk(AfterInput(c, sid, data), up, got + [Input(sid, data)])
  {
    assert sid in c.ptys by {
      assert PtyOk(c, View(up, sid), sid);
    }
    InputKeepsAnswers(c, up, got, sid, data);
    InputKeepsPtys(c, up, sid, data);
  }

  lemma InputKeepsPtys(c: Client, up: seq<Up>, sid: StreamId, data: bytes)
    requires PtysOk(c, up) && View(up, sid).Open?
    ensures PtysOk(AfterInput(c, sid, data), up)
  {
    var c' := AfterInput(c, sid, data);
    forall k ensures PtyOk(c', View(up, k), k) {
      assert PtyOk(c, View(up, k), k);
      if k != sid {
        assert k in c'.ptys <==> k in c.ptys;
        assert k in c.ptys ==> c'.ptys[k] == c.ptys[k];
      }
    }
  }

  lemma CloseStreamsKeeps(c: Client, up: seq<Up>, got: seq<Down>)
    requires ClientOk(c, up, got)
    ensures ClientOk(AfterCloseStreams(c), up, got)
  {
    var c' := AfterCloseStreams(c);
    forall k ensures PtyOk(c', View(up, k), k) {
      assert PtyOk(c, View(up, k), k);
    }
    forall i | i in c'.calls ensures CallOk(c', got, i) {
      assert CallOk(c, got, i);
    }
  }

  // Pings, progress and a socket that breaks change nothing above.
  lemma ChatterKeeps(c: Client, up: seq<Up>, got: seq<Down>, m: Up)
    requires ClientOk(c, up, got) && (m.Ping? || m.Progress?)
    ensures ClientOk(c, up + [m], got)
    ensures ClientOk(c.(broken := true), up, got)
  {
    forall k ensures View(up + [m], k) == View(up, k) {
      ViewSnoc(up, m, k);
    }
    assert PtysOk(c, up + [m]) by {
      forall k ensures PtyOk(c, View(up + [m], k), k) {
        assert PtyOk(c, View(up, k), k);
      }
    }
    PtysFrame(c, c.(broken := true), up);
    forall i | i in c.calls ensures CallOk(c.(broken := true), got, i) {
      assert CallOk(c, got, i);
    }
  }

  // ----- whole steps

  // What the runner's goroutines do between two messages.
  datatype Local =
    | OpenPty(id: CallId)
    | RunOther(id: CallId)
    | FailCall(id: CallId)
    | SendAnswer(id: CallId)
    | SendProgress(id: CallId)
    | SendPing
    | ReadPty(stream: StreamId, data: bytes, eof: bool)
    | PumpWrite(stream: StreamId)
    | PumpEnd(stream: StreamId)
    | PumpInput(stream: StreamId)
    | Report(stream: StreamId)
    | BreakSocket
    | CloseStreams

  ghost predicate Enabled(c: Client, e: Local) {
    match e
    case OpenPty(id) => CanDispatch(c, id) && c.calls[id].kind.OpenTerminal?
    case RunOther(id) => CanDispatch(c, id) && !c.calls[id].kind.OpenTerminal?
    case FailCall(id) => CanDispatch(c, id)
    case SendAnswer(id) => CanAnswer(c, id)
    case SendProgress(id) => id in c.calls
    case SendPing => true
    case ReadPty(sid, _, _) => Pumping(c, sid, Reading)
    case PumpWrite(sid) => sid in c.ptys && c.ptys[sid].pump.Holding?
    case PumpEnd(sid) => Pumping(c, sid, AtEnd)
    case PumpInput(sid) => sid in c.ptys && c.ptys[sid].queue != []
    case Report(sid) => sid in c.toReport
    case BreakSocket => true
    case CloseStreams => true
  }

  ghost function AfterLocal(c: Client, e: Local): (Client, seq<Up>)
    requires Enabled(c, e)
  {
    match e
    case OpenPty(id) => (AfterOpenTerminal(c, id), [])
    case RunOther(id) => (AfterOtherMethod(c, id), [])
    case FailCall(id) => (AfterComputed(c, id, Failed), [])
    case SendAnswer(id) => AfterAnswer(c, id)
    case SendProgress(id) => (c, Sent(c, Progress(id)))
    case SendPing => (c, Sent(c, Ping))
    case ReadPty(sid, data, eof) => (AfterPtyRead(c, sid, data, eof), [])
    case PumpWrite(sid) => AfterPumpWrite(c, sid)
    case PumpEnd(sid) => (AfterPumpEnd(c, sid), [])
    case PumpInput(sid) => (AfterPumpInput(c, sid), [])
    case Report(sid) => AfterReport(c, sid)
    case BreakSocket => (c.(broken := true), [])
    case CloseStreams => (AfterCloseStreams(c), [])
  }

  lemma LocalKeeps(c: Client, up: seq<Up>, got: seq<Down>, e: Local)
    requires ClientOk(c, up, got) && Enabled(c, e)
    ensures ClientOk(AfterLocal(c, e).0, up + AfterLocal(c, e).1, got)
  {
    assert up + [] == up;
    match e
    case OpenPty(id) => OpenTerminalKeeps(c, up, got, id);
    case RunOther(id) => OtherMethodKeeps(c, up, got, id);
    case FailCall(id) => ComputedKeeps(c, up, got, id, Failed);
    case SendAnswer(id) => AnswerKeeps(c, up, got, id);
    case SendProgress(id) => ChatterKeeps(c, up, got, Progress(id));
    case SendPing => ChatterKeeps(c, up, got, Ping);
    case ReadPty(sid, data, eof) => PtyReadKeeps(c, up, got, sid, data, eof);
    case PumpWrite(sid) => PumpWriteKeeps(c, up, got, sid);
    case PumpEnd(sid) => PumpEndKeeps(c, up, got, sid);
    case PumpInput(sid) => PumpInputKeeps(c, up, got, sid);
    case Report(sid) => ReportKeeps(c, up, got, sid);
    case BreakSocket => ChatterKeeps(c, up, got, Ping);
    case CloseStreams => CloseStreamsKeeps(c, up, got);
  }

  // One message taken by the session's read loop.
  function AfterMessage(c: Client, m: Down): Client {
    match m
    case Call(id, kind) => AfterStart(c, id, kind)
    case Cancel(id) => AfterCancel(c, id)
    case Input(sid, data) => AfterInput(c, sid, data)
  }

  lemma MessageKeeps(c: Client, up: seq<Up>, got: seq<Down>, m: Down)
    requires ClientOk(c, up, got) && DistinctCalls(got + [m])
    requires m.Input? ==> View(up, m.stream).Open?
    ensures ClientOk(AfterMessage(c, m), up, got + [m])
  {
    match m
    case Call(id, kind) => StartKeeps(c, up, got, id, kind);
    case Cancel(id) => CancelKeeps(c, up, got, id);
    case Input(sid, data) => InputKeeps(c, up, got, sid, data);
  }

  // ----- how a stream ends

  // A stream leaves the session's map by a close call, a failed write, the end of its PTY
  // or the end of the session.
  ghost predicate EndsBy(c: Client, e: Local, sid: StreamId)
    requires Enabled(c, e) && sid in c.ptys
  {
    match e
    case RunOther(id) => c.calls[id].kind == CloseTerminal(sid)
    case PumpWrite(k) => k == sid && c.broken && c.ptys[sid].pump.data != []
    case PumpEnd(k) => k == sid
    case CloseStreams => true
    case _ => false
  }

  lemma LocalEnds(c: Client, e: Local, sid: StreamId)
    requires Enabled(c, e) && sid in c.streams && sid in c.ptys
    ensures var c' := AfterLocal(c, e).0;
            && (sid !in c'.streams <==> EndsBy(c, e, sid))
            && sid in c'.ptys
            && (sid !in c'.streams ==> c'.ptys[sid].ending == if e.PumpEnd? then PtyEnded else Early)
  {
  }

  // Or by input that finds its queue full.
  lemma MessageEnds(c: Client, m: Down, sid: StreamId)
    requires sid in c.streams && sid in c.ptys
    ensures var c' := AfterMessage(c, m);
            && (sid !in c'.streams <==> m.Input? && m.stream == sid && |c.ptys[sid].queue| >= STREAM_INPUT_FRAMES)
            && sid in c'.ptys
            && (sid !in c'.streams ==> c'.ptys[sid].ending.Early?)
  {
  }

  // A stream out of the map never comes back, and one that is new is in it.
  lemma LocalKeepsEnded(c: Client, e: Local, sid: StreamId)
    requires Enabled(c, e) && c.nextStream + 1 !in c.ptys
    ensures var c' := AfterLocal(c, e).0;
            if sid in c.ptys then
              sid in c'.ptys && (sid !in c.streams ==> sid !in c'.streams && c'.ptys[sid].ending == c.ptys[sid].ending)
            else sid in c'.ptys ==> sid in c'.streams
  {
  }

  lemma MessageKeepsEnded(c: Client, m: Down, sid: StreamId)
    ensures var c' := AfterMessage(c, m);
            if sid in c.ptys then
              sid in c'.ptys && (sid !in c.streams ==> sid !in c'.streams && c'.ptys[sid].ending == c.ptys[sid].ending)
            else sid !in c'.ptys
  {
  }

  // ----- keystrokes

  lemma ConcatSnoc(chunks: seq<bytes>, chunk: bytes)
    ensures Concat(chunks + [chunk]) == Concat(chunks) + chunk
  {
    assert (chunks + [chunk])[..|chunks|] == chunks;
  }

  lemma {:induction false} ConcatCons(chunks: seq<bytes>)
    requires chunks != []
    ensures Concat(chunks) == chunks[0] + Concat(chunks[1..])
  {
    var init := chunks[..|chunks| - 1];
    var rest, last := chunks[1..], chunks[|chunks| - 1];
    if init != [] {
      ConcatCons(init);
      assert init[1..] == rest[..|rest| - 1] && rest[|rest| - 1] == last;
      assert (chunks[0] + Concat(init[1..])) + last == chunks[0] + (Concat(init[1..]) + last);
    } else {
      assert rest == [] && [] + last == last == last + [];
    }
  }

  // What pumpInput typed, with what waits in the queue, is what the control plane typed,
  // up to the frame that found the stream gone or the queue full.
  ghost predicate InputOne(c: Client, got: seq<Down>, sid: StreamId) {
    if sid in c.ptys then
      var p := c.ptys[sid];
      && p.typed + Concat(p.queue) <= Typed(got, sid)
      && (sid in c.streams ==> p.typed + Concat(p.queue) == Typed(got, sid))
    else
      Typed(got, sid) == []
  }

  ghost predicate InputOk(c: Client, got: seq<Down>) {
    forall sid :: InputOne(c, got, sid)
  }

  // A step that neither queues nor types: streams may go, and one may be opened.
  ghost predicate QuietOn(c: Client, c': Client, sid: StreamId) {
    if sid in c.ptys then
      && sid in c'.ptys && (sid in c'.streams ==> sid in c.streams)
      && c'.ptys[sid].typed == c.ptys[sid].typed && c'.ptys[sid].queue == c.ptys[sid].queue
    else
      sid in c'.ptys ==> c'.ptys[sid].typed == [] && c'.ptys[sid].queue == []
  }

  lemma CloseIsQuiet(c: Client, k: StreamId, ending: Ending, sid: StreamId)
    ensures QuietOn(c, AfterCloseStream(c, k, ending), sid)
    ensures AfterCloseStream(c, k, ending).ptys.Keys == c.ptys.Keys
  {
  }

  lemma PumpIsQuiet(c: Client, k: StreamId, sid: StreamId)
    requires k in c.ptys
    ensures c.ptys[k].pump.Holding? ==> QuietOn(c, AfterPumpWrite(c, k).0, sid)
    ensures c.ptys[k].pump.AtEnd? ==> QuietOn(c, AfterPumpEnd(c, k), sid)
  {
    CloseIsQuiet(WithPump(c, k, Stopped), k, Early, sid);
    CloseIsQuiet(WithPump(c, k, Stopped), k, PtyEnded, sid);
  }

  lemma LocalIsQuiet(c: Client, e: Local, sid: StreamId)
    requires Enabled(c, e) && e != PumpInput(sid)
    requires c.nextStream + 1 !in c.ptys
    ensures QuietOn(c, AfterLocal(c, e).0, sid)
  {
    match e
    case RunOther(id) => if c.calls[id].kind.CloseTerminal? { CloseIsQuiet(c, c.calls[id].kind.stream, Early, sid); }
    case PumpWrite(k) => PumpIsQuiet(c, k, sid);
    case PumpEnd(k) => PumpIsQuiet(c, k, sid);
    case _ =>
  }

  lemma PumpInputMoves(p: Pty)
    requires p.queue != []
    ensures (p.typed + p.queue[0]) + Concat(p.queue[1..]) == p.typed + Concat(p.queue)
  {
    ConcatCons(p.queue);
  }

  lemma InputQueues(p: Pty, data: bytes)
    ensures p.typed + Concat(p.queue + [data]) == (p.typed + Concat(p.queue)) + data
  {
    ConcatSnoc(p.queue, data);
    assert p.typed + (Concat(p.queue) + data) == (p.typed + Concat(p.queue)) + data;
  }

  lemma LocalKeepsInput(c: Client, got: seq<Down>, e: Local)
    requires InputOk(c, got) && Enabled(c, e)
    requires c.nextStream + 1 !in c.ptys
    ensures InputOk(AfterLocal(c, e).0, got)
  {
    var c' := AfterLocal(c, e).0;
    forall sid ensures InputOne(c', got, sid) {
      assert InputOne(c, got, sid);
      if e == PumpInput(sid) {
        PumpInputMoves(c.ptys[sid]);
      } else {
        LocalIsQuiet(c, e, sid);
      }
    }
  }

  // Input is queued, or finds the stream gone, or finds the queue full and ends it.
  lemma InputKeepsOne(c: Client, got: seq<Down>, sid: StreamId, data: bytes)
    requires InputOne(c, got, sid) && sid in c.ptys
    ensures InputOne(AfterInput(c, sid, data), got + [Input(sid, data)], sid)
  {
    TypedSnoc(got, Input(sid, data), sid);
    InputQueues(c.ptys[sid], data);
    var p' := AfterInput(c, sid, data).ptys[sid];
    if sid in c.streams && |c.ptys[sid].queue| < STREAM_INPUT_FRAMES {
      assert p'.queue == c.ptys[sid].queue + [data];
    } else {
      assert p'.queue == c.ptys[sid].queue && p'.typed == c.ptys[sid].typed;
    }
  }

  lemma MessageIsQuiet(c: Client, m: Down, sid: StreamId)
    requires !(m.Input? && m.stream == sid)
    ensures QuietOn(c, AfterMessage(c, m), sid)
    ensures sid in AfterMessage(c, m).ptys <==> sid in c.ptys
  {
  }

  lemma MessageKeepsInput(c: Client, got: seq<Down>, m: Down)
    requires InputOk(c, got)
    requires m.Input? ==> m.stream in c.ptys
    ensures InputOk(AfterMessage(c, m), got + [m])
  {
    forall sid ensures InputOne(AfterMessage(c, m), got + [m], sid) {
      assert InputOne(c, got, sid);
      if m.Input? && m.stream == sid {
        InputKeepsOne(c, got, sid, m.data);
      } else {
        TypedSnoc(got, m, sid);
        MessageIsQuiet(c, m, sid);
      }
    }
  }
}
