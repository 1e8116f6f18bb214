// The control plane's half of a runner connection (internal/runnerserver/conn.go).
//
// Every function below is one critical section of the connection, or the few that run
// back to back in one goroutine. Handling a result takes the read loop two of them, and so
// does output that its stream's buffer refuses; other goroutines run in between.

module RunnerServer {
  import opened Wrappers
  import opened StreamFrames
  import opened TerminalBuffer
  import opened Wire

  datatype Reply = Reply(result: Wire.Result, stream: Option<StreamId>)

  datatype Outcome = Waiting | Got(reply: Reply) | GaveUp | SendFailed | Disconnected

  // Whether the reply channel was filled, and whether its caller was still there.
  datatype Fill = Unfilled | InTime | Late

  // A roundTrip: its one-place reply channel and how it came out.
  datatype Caller = Caller(kind: Method, slot: Option<Reply>, outcome: Outcome, filled: Fill)

  // What the read loop has in hand between two critical sections: a reply whose call it
  // has taken, or a stream whose buffer refused its output.
  datatype Loop = Idle | Filling(reply: Reply) | Closing(stream: StreamId)

  datatype Terminal = Terminal(owner: CallId, buffer: Buffer)

  // `streams` and `closedStreams` are the keys of the connection's two maps; `terminals`
  // keeps every stream ever opened, for a reader may hold one that is registered no more.
  datatype Server = Server(
    nextId: CallId,
    done: bool,
    cancelled: bool,
    outboxOpen: bool,
    pending: set<CallId>,
    callers: map<CallId, Caller>,
    streams: set<StreamId>,
    closedStreams: set<StreamId>,
    terminals: map<StreamId, Terminal>,
    loop: Loop)

  const NEW_SERVER := Server(0, false, false, true, {}, map[], {}, {}, map[], Idle)

  // ----- steps

  function Sent(s: Server, m: Down): seq<Down> {
    if s.outboxOpen then [m] else []
  }

  function AfterNotify(s: Server, sid: StreamId): (Server, seq<Down>) {
    (s.(nextId := s.nextId + 1), Sent(s, Call(s.nextId + 1, CloseTerminal(sid))))
  }

  // roundTrip up to its wait.
  function AfterStartCall(s: Server, kind: Method): (Server, seq<Down>) {
    var id := s.nextId + 1;
    if s.done then
      (s.(nextId := id, callers := s.callers[id := Caller(kind, None, Disconnected, Unfilled)]), [])
    else if !s.outboxOpen then
      (s.(nextId := id, callers := s.callers[id := Caller(kind, None, SendFailed, Unfilled)]), [])
    else
      (s.(nextId := id, pending := s.pending + {id}, callers := s.callers[id := Caller(kind, None, Waiting, Unfilled)]),
       [Call(id, kind)])
  }

  predicate CanTakeReply(s: Server, id: CallId) {
    id in s.callers && s.callers[id].outcome.Waiting? && s.callers[id].slot.Some?
  }

  function AfterTakeReply(s: Server, id: CallId): Server
    requires CanTakeReply(s, id)
  {
    var c := s.callers[id];
    s.(callers := s.callers[id := c.(slot := None, outcome := Got(c.slot.value))])
  }

  function AfterCloseStream(s: Server, sid: StreamId): (Server, seq<Down>) {
    var s' := s.(streams := s.streams - {sid}, closedStreams := s.closedStreams + {sid});
    if sid in s.streams && !s.done then AfterNotify(s', sid) else (s', [])
  }

  // stream.Close, which runs its body once.
  function AfterClose(s: Server, sid: StreamId): (Server, seq<Down>)
    requires sid in s.terminals
  {
    var t := s.terminals[sid];
    if t.buffer.closed then (s, [])
    else AfterCloseStream(s.(terminals := s.terminals[sid := t.(buffer := AfterShut(t.buffer))]), sid)
  }

  ghost predicate SlotStreamsKnown(s: Server, id: CallId) {
    id in s.callers && s.callers[id].slot.Some? && s.callers[id].slot.value.stream.Some? ==>
      s.callers[id].slot.value.stream.value in s.terminals
  }

  // The caller's context ended: forget the call, release what is in the slot, tell the
  // runner.
  function AfterGiveUp(s: Server, id: CallId): (Server, seq<Down>)
    requires id in s.callers && s.callers[id].outcome.Waiting?
    requires SlotStreamsKnown(s, id)
  {
    var c := s.callers[id];
    var s' := s.(pending := s.pending - {id}, callers := s.callers[id := c.(slot := None, outcome := GaveUp)]);
    var (s'', sent) :=
      if c.slot.Some? && c.slot.value.stream.Some? then AfterClose(s', c.slot.value.stream.value) else (s', []);
    (s'', sent + Sent(s'', Cancel(id)))
  }

  // The connection's context ended first: a reply already in the slot is still taken.
  function AfterConnectionLost(s: Server, id: CallId): Server
    requires id in s.callers && s.callers[id].outcome.Waiting? && s.cancelled
  {
    var c := s.callers[id];
    if c.slot.Some? then AfterTakeReply(s, id)
    else s.(callers := s.callers[id := c.(outcome := Disconnected)])
  }

  // handleResult up to its unlock: the call is taken and its stream registered.
  function AfterTakeCall(s: Server, result: Wire.Result): Server {
    if result.id !in s.pending || result.id !in s.callers then s
    else
      var s' := s.(pending := s.pending - {result.id});
      if s.callers[result.id].kind.OpenTerminal? && result.value.Opened? then
        var sid := result.value.stream;
        s'.(streams := s.streams + {sid},
            terminals := s.terminals[sid := Terminal(result.id, EMPTY)],
            loop := Filling(Reply(result, Some(sid))))
      else
        s'.(loop := Filling(Reply(result, None)))
  }

  // And its send on the reply channel, whether or not the caller still listens.
  function AfterFill(s: Server): Server
    requires s.loop.Filling? && s.loop.reply.result.id in s.callers
  {
    var id := s.loop.reply.result.id;
    var c := s.callers[id];
    s.(loop := Idle,
       callers := s.callers[id := c.(slot := Some(s.loop.reply), filled := if c.outcome.Waiting? then InTime else Late)])
  }

  function AfterOutput(s: Server, sid: StreamId, data: bytes): (Server, seq<Down>)
    requires sid in s.streams ==> sid in s.terminals
  {
    if sid in s.streams then
      var t := s.terminals[sid];
      var (buffer, fits) := AfterPush(t.buffer, data);
      if fits then (s.(terminals := s.terminals[sid := t.(buffer := buffer)]), [])
      else (s.(loop := Closing(sid)), [])
    else if sid in s.closedStreams then (s, [])
    else AfterNotify(s.(closedStreams := s.closedStreams + {sid}), sid)
  }

  // The close of a stream whose buffer refused its output.
  function AfterCloseFull(s: Server): (Server, seq<Down>)
    requires s.loop.Closing? && s.loop.stream in s.terminals
  {
    AfterClose(s.(loop := Idle), s.loop.stream)
  }

  function AfterStreamClosed(s: Server, sid: StreamId): Server
    requires sid in s.streams ==> sid in s.terminals
  {
    var s' := s.(streams := s.streams - {sid}, closedStreams := s.closedStreams + {sid});
    if sid in s.streams then
      var t := s.terminals[sid];
      s'.(terminals := s.terminals[sid := t.(buffer := AfterEnd(t.buffer))])
    else s'
  }

  ghost predicate StreamsKnown(s: Server) {
    s.streams <= s.terminals.Keys
  }

  // One message taken by the read loop.
  function AfterMessage(s: Server, m: Up): (Server, seq<Down>)
    requires StreamsKnown(s)
  {
    match m
    case Answer(result) => (AfterTakeCall(s, result), [])
    case Output(sid, data) => AfterOutput(s, sid, data)
    case StreamClosed(sid) => (AfterStreamClosed(s, sid), [])
    case Progress(_) => (s, [])
    case Ping => (s, [])
  }

  function EndedAll(terminals: map<StreamId, Terminal>, sids: set<StreamId>): map<StreamId, Terminal> {
    map sid | sid in terminals ::
      if sid in sids then terminals[sid].(buffer := AfterEnd(terminals[sid].buffer)) else terminals[sid]
  }

  function AfterTeardown(s: Server): Server {
    s.(done := true, cancelled := true, outboxOpen := false, pending := {}, streams := {},
       terminals := EndedAll(s.terminals, s.streams))
  }

  predicate CanReadTerminal(s: Server, sid: StreamId) {
    sid in s.terminals && CanRead(s.terminals[sid].buffer)
  }

  function AfterReadTerminal(s: Server, sid: StreamId, room: nat): Server
    requires CanReadTerminal(s, sid)
  {
    var t := s.terminals[sid];
    s.(terminals := s.terminals[sid := t.(buffer := AfterRead(t.buffer, room).0)])
  }

  // stream.Write.
  function Wrote(s: Server, sid: StreamId, data: bytes): seq<Down>
    requires sid in s.terminals
  {
    var b := s.terminals[sid].buffer;
    if b.closed || b.ended then [] else Sent(s, Input(sid, data))
  }

  // ----- what every step keeps
  //
  // `handled` is the sequence of messages the read loop has taken so far and `down` the
  // sequence of messages this side has queued for the runner.

  ghost predicate StreamOk(s: Server, v: StreamView, sid: StreamId) {
    && !v.Disordered?
    && (v.Unopened? ==> sid !in s.streams && sid !in s.closedStreams && sid !in s.terminals)
    && (sid in s.streams ==>
          && !s.done && sid in s.terminals && sid !in s.closedStreams && !v.closed
          && !s.terminals[sid].buffer.ended && !s.terminals[sid].buffer.closed
          && (if s.loop == Closing(sid) then s.terminals[sid].buffer.accepted <= v.data
              else s.terminals[sid].buffer.accepted == v.data))
    && (sid in s.terminals ==>
          var b := s.terminals[sid].buffer;
          && BufferOk(b) && b.accepted <= v.data
          && (sid !in s.streams ==> b.closed || (b.ended && (s.done || v.closed)))
          && (b.closed ==> sid in s.closedStreams)
          && (v.closed && !b.closed ==> b.ended && b.accepted == v.data))
    && (v.Open? && v.closed ==> sid in s.closedStreams)
    && (v.Open? && v.data != [] && sid !in s.terminals ==> sid in s.closedStreams)
  }

  ghost predicate StreamsOk(s: Server, handled: seq<Up>) {
    forall sid :: StreamOk(s, View(handled, sid), sid)
  }

  ghost predicate ReplyOk(s: Server, handled: seq<Up>, id: CallId, r: Reply) {
    && r.result.id == id
    && Answer(r.result) in handled
    && (r.stream.Some? ==>
          && r.result.value == Opened(r.stream.value)
          && r.stream.value in s.terminals
          && s.terminals[r.stream.value].owner == id)
  }

  predicate IsFilling(s: Server, id: CallId) {
    s.loop.Filling? && s.loop.reply.result.id == id
  }

  ghost predicate CallerOk(s: Server, handled: seq<Up>, id: CallId)
    requires id in s.callers
  {
    var c := s.callers[id];
    && 0 < id <= s.nextId
    && !c.kind.CloseTerminal?
    && (id in s.pending ==> c.filled.Unfilled? && (c.outcome.Waiting? || c.outcome.Disconnected?))
    && (c.slot.Some? ==> ReplyOk(s, handled, id, c.slot.value))
    && (c.outcome.Got? ==> c.filled.InTime? && ReplyOk(s, handled, id, c.outcome.reply))
    && (c.outcome.SendFailed? ==> c.filled.Unfilled?)
    && (c.outcome.Disconnected? ==> s.cancelled)
    && (id !in s.pending && (c.outcome.Waiting? || c.outcome.Disconnected?) && !s.done ==> c.slot.Some? || IsFilling(s, id))
    && match c.filled
       case Unfilled => c.slot.None?
       case InTime => if c.slot.Some? then c.outcome.Waiting? else c.outcome.Got? || c.outcome.GaveUp?
       case Late => c.slot.Some? && (c.outcome.Disconnected? || c.outcome.GaveUp?)
  }

  // The stream is its caller's to take, was taken, or was closed when the caller gave up.
  predicate Owned(s: Server, sid: StreamId)
    requires sid in s.terminals
  {
    var t := s.terminals[sid];
    && t.owner in s.callers
    && var c := s.callers[t.owner];
       || (c.outcome.Waiting? && c.slot.Some? && c.slot.value.stream == Some(sid))
       || (c.outcome.Got? && c.outcome.reply.stream == Some(sid))
       || (c.outcome.GaveUp? && c.slot.None? && t.buffer.closed)
  }

  // The stream is in the reply of a caller that will never look.
  predicate Lost(s: Server, sid: StreamId)
    requires sid in s.terminals
  {
    var owner := s.terminals[sid].owner;
    && owner in s.callers
    && var c := s.callers[owner];
       !c.outcome.Waiting? && c.slot.Some? && c.slot.value.stream == Some(sid)
  }

  ghost predicate OwnerOk(s: Server, sid: StreamId)
    requires sid in s.terminals
  {
    var owner := s.terminals[sid].owner;
    && owner in s.callers && s.callers[owner].kind.OpenTerminal?
    && match s.callers[owner].filled
       case Unfilled => IsFilling(s, owner) && s.loop.reply.stream == Some(sid)
       case InTime => Owned(s, sid)
       case Late => Lost(s, sid)
  }

  ghost predicate LoopOk(s: Server, handled: seq<Up>) {
    match s.loop
    case Idle => true
    case Filling(r) =>
      && !s.done && r.result.id in s.callers && r.result.id !in s.pending
      && s.callers[r.result.id].filled.Unfilled?
      && !s.callers[r.result.id].outcome.SendFailed?
      && ReplyOk(s, handled, r.result.id, r)
    case Closing(sid) => !s.done && sid in s.terminals
  }

  ghost predicate CallsOk(s: Server, handled: seq<Up>) {
    && s.pending <= s.callers.Keys
    && (forall id | id in s.callers :: CallerOk(s, handled, id))
    && (forall sid | sid in s.terminals :: OwnerOk(s, sid))
    && LoopOk(s, handled)
    && (s.done ==> s.pending == {} && !s.outboxOpen && s.cancelled)
  }

  ghost predicate DownOk(s: Server, down: seq<Down>) {
    && DistinctCalls(down)
    && (forall m | m in down && m.Call? ::
          && m.id <= s.nextId
          && (if m.kind.CloseTerminal? then m.id !in s.callers && m.kind.stream in s.closedStreams
              else m.id in s.callers && s.callers[m.id].kind == m.kind && !s.callers[m.id].outcome.SendFailed?))
    && (forall m | m in down && m.Input? :: m.stream in s.terminals)
  }

  // An announced stream that was never opened here answered a call nobody waits for.
  ghost predicate AnswersOk(s: Server, handled: seq<Up>) {
    forall m | m in handled && m.Answer? ::
      && m.result.id <= s.nextId
      && m.result.id !in s.pending
      && (m.result.value.Opened? && m.result.value.stream !in s.terminals
            && m.result.id in s.callers && s.callers[m.result.id].kind.OpenTerminal? ==>
            s.callers[m.result.id].outcome.GaveUp? || s.callers[m.result.id].outcome.SendFailed?)
  }

  ghost predicate ServerOk(s: Server, handled: seq<Up>, down: seq<Down>) {
    StreamsOk(s, handled) && CallsOk(s, handled) && DownOk(s, down) && AnswersOk(s, handled)
  }

  lemma NewServerOk()
    ensures ServerOk(NEW_SERVER, [], [])
  {
  }

  lemma StreamsAreKnown(s: Server, handled: seq<Up>)
    requires StreamsOk(s, handled)
    ensures StreamsKnown(s)
  {
    forall sid | sid in s.streams
      ensures sid in s.terminals
    {
      assert StreamOk(s, View(handled, sid), sid);
    }
  }

  ghost predicate SameClosing(s: Server, s': Server) {
    forall sid :: s.loop == Closing(sid) <==> s'.loop == Closing(sid)
  }

  // The stream half of the invariant does not look at calls.
  lemma StreamsFrame(s: Server, s': Server, handled: seq<Up>)
    requires StreamsOk(s, handled)
    requires s'.streams == s.streams && s'.closedStreams == s.closedStreams && s'.terminals == s.terminals
    requires s'.done == s.done && SameClosing(s, s')
    ensures StreamsOk(s', handled)
  {
    forall sid ensures StreamOk(s', View(handled, sid), sid) {
      assert StreamOk(s, View(handled, sid), sid);
    }
  }

  lemma NotifyKeeps(s: Server, handled: seq<Up>, down: seq<Down>, sid: StreamId)
    requires ServerOk(s, handled, down)
    requires sid in s.closedStreams && forall m | m in down && m.Call? :: m.kind != CloseTerminal(sid)
    ensures ServerOk(AfterNotify(s, sid).0, handled, down + AfterNotify(s, sid).1)
  {
    StreamsFrame(s, AfterNotify(s, sid).0, handled);
  }

  // A caller's own record changes; nothing else does but the ids in use.
  lemma CallerKeeps(s: Server, s': Server, handled: seq<Up>, id: CallId, c: Caller)
    requires StreamsOk(s, handled) && CallsOk(s, handled) && AnswersOk(s, handled)
    requires s' == s.(nextId := s'.nextId, pending := s'.pending, callers := s.callers[id := c])
    requires s.nextId <= s'.nextId
    requires s'.pending == s.pending - {id} ||
             (s'.pending == s.pending + {id} && !s.done && forall m | m in handled && m.Answer? :: m.result.id != id)
    requires CallerOk(s', handled, id) && LoopOk(s', handled)
    requires if id in s.callers then c.kind == s.callers[id].kind && !s.callers[id].outcome.GaveUp? && !s.callers[id].outcome.SendFailed?
             else s.nextId < id && !c.outcome.GaveUp?
    requires forall sid | sid in s.terminals && s.terminals[sid].owner == id :: OwnerOk(s', sid)
    ensures StreamsOk(s', handled) && CallsOk(s', handled) && AnswersOk(s', handled)
  {
    StreamsFrame(s, s', handled);
    forall i | i in s'.callers ensures CallerOk(s', handled, i) {
      if i != id { assert CallerOk(s, handled, i); assert i in s.pending <==> i in s'.pending; }
    }
    forall sid | sid in s'.terminals ensures OwnerOk(s', sid) {
      assert OwnerOk(s, sid);
    }
  }

  lemma StartCallKeeps(s: Server, handled: seq<Up>, down: seq<Down>, kind: Method)
    requires ServerOk(s, handled, down) && !kind.CloseTerminal?
    ensures ServerOk(AfterStartCall(s, kind).0, handled, down + AfterStartCall(s, kind).1)
  {
    var s', id := AfterStartCall(s, kind).0, s.nextId + 1;
    forall i | i in s.callers ensures i < id {
      assert CallerOk(s, handled, i);
    }
    CallerKeeps(s, s', handled, id, s'.callers[id]);
  }

  lemma TakeReplyKeeps(s: Server, handled: seq<Up>, down: seq<Down>, id: CallId)
    requires ServerOk(s, handled, down) && CanTakeReply(s, id)
    ensures ServerOk(AfterTakeReply(s, id), handled, down)
  {
    var s' := AfterTakeReply(s, id);
    assert CallerOk(s, handled, id);
    CallerKeeps(s, s', handled, id, s'.callers[id]);
  }

  lemma ConnectionLostKeeps(s: Server, handled: seq<Up>, down: seq<Down>, id: CallId)
    requires ServerOk(s, handled, down)
    requires id in s.callers && s.callers[id].outcome.Waiting? && s.cancelled
    ensures ServerOk(AfterConnectionLost(s, id), handled, down)
  {
    var s' := AfterConnectionLost(s, id);
    assert CallerOk(s, handled, id);
    if s.callers[id].slot.Some? {
      TakeReplyKeeps(s, handled, down, id);
    } else {
      CallerKeeps(s, s', handled, id, s'.callers[id]);
    }
  }

  // The messages the read loop can take about one stream without opening it.
  ghost predicate AtMostOneMore(handled: seq<Up>, handled': seq<Up>, sid: StreamId) {
    || handled' == handled
    || handled' == handled + [StreamClosed(sid)]
    || (|handled'| == |handled| + 1 && handled'[..|handled|] == handled && handled'[|handled|].Output?
        && handled'[|handled|].stream == sid)
  }

  lemma OtherViews(handled: seq<Up>, handled': seq<Up>, sid: StreamId)
    requires AtMostOneMore(handled, handled', sid)
    ensures forall k | k != sid :: View(handled', k) == View(handled, k)
    ensures handled' != handled ==> View(handled', sid) == See(View(handled, sid), handled'[|handled|], sid)
  {
    if handled' != handled {
      var m := handled'[|handled|];
      assert handled' == handled + [m];
      forall k ensures View(handled', k) == See(View(handled, k), m, k) {
        ViewSnoc(handled, m, k);
      }
    }
  }

  // One stream changes, or is seen to have gone on; no other stream and no call does.
  ghost predicate OneStream(s: Server, s': Server, sid: StreamId) {
    && s' == s.(streams := s'.streams, closedStreams := s'.closedStreams, terminals := s'.terminals, loop := s'.loop)
    && (s'.loop == s.loop || {s.loop, s'.loop} <= {Idle, Closing(sid)})
    && s'.streams - {sid} == s.streams - {sid} && s'.closedStreams - {sid} == s.closedStreams - {sid}
    && s'.terminals.Keys == s.terminals.Keys
    && (forall k | k in s.terminals && k != sid :: s'.terminals[k] == s.terminals[k])
    && (sid in s.terminals ==>
          && s'.terminals[sid].owner == s.terminals[sid].owner
          && (s.terminals[sid].buffer.closed ==> s'.terminals[sid].buffer.closed))
  }

  lemma StreamKeepsStreams(s: Server, s': Server, handled: seq<Up>, handled': seq<Up>, sid: StreamId)
    requires StreamsOk(s, handled) && OneStream(s, s', sid) && AtMostOneMore(handled, handled', sid)
    requires StreamOk(s', View(handled', sid), sid)
    ensures StreamsOk(s', handled')
  {
    OtherViews(handled, handled', sid);
    forall k ensures StreamOk(s', View(handled', k), k) {
      assert StreamOk(s, View(handled, k), k);
      if k != sid {
        assert k in s.streams <==> k in s'.streams - {sid};
        assert k in s.closedStreams <==> k in s'.closedStreams - {sid};
      }
    }
  }

  lemma StreamKeeps(s: Server, s': Server, handled: seq<Up>, handled': seq<Up>, sid: StreamId)
    requires StreamsOk(s, handled) && CallsOk(s, handled) && AnswersOk(s, handled)
    requires OneStream(s, s', sid) && AtMostOneMore(handled, handled', sid)
    requires s'.loop != s.loop ==> LoopOk(s', handled')
    requires StreamOk(s', View(handled', sid), sid)
    ensures StreamsOk(s', handled') && CallsOk(s', handled') && AnswersOk(s', handled')
  {
    StreamKeepsStreams(s, s', handled, handled', sid);
    assert forall m | m in handled :: m in handled';
    forall i | i in s'.callers ensures CallerOk(s', handled', i) {
      assert CallerOk(s, handled, i);
    }
    forall k | k in s'.terminals ensures OwnerOk(s', k) {
      assert OwnerOk(s, k);
    }
  }

  function WithShut(s: Server, sid: StreamId): Server
    requires sid in s.terminals
  {
    var t := s.terminals[sid];
    s.(terminals := s.terminals[sid := t.(buffer := AfterShut(t.buffer))],
       streams := s.streams - {sid}, closedStreams := s.closedStreams + {sid})
  }

  lemma ShutKeeps(s: Server, handled: seq<Up>, handled': seq<Up>, down: seq<Down>, sid: StreamId)
    requires ServerOk(s, handled, down) && sid in s.terminals && !s.terminals[sid].buffer.closed
    requires AtMostOneMore(handled, handled', sid) && handled' != handled + [StreamClosed(sid)]
    requires !View(handled', sid).Disordered?
    ensures ServerOk(WithShut(s, sid), handled', down)
  {
    assert StreamOk(s, View(handled, sid), sid);
    OtherViews(handled, handled', sid);
    StreamKeeps(s, WithShut(s, sid), handled, handled', sid);
  }

  lemma CloseKeeps(s: Server, handled: seq<Up>, handled': seq<Up>, down: seq<Down>, sid: StreamId)
    requires ServerOk(s, handled, down) && sid in s.terminals
    requires AtMostOneMore(handled, handled', sid) && handled' != handled + [StreamClosed(sid)]
    requires !View(handled', sid).Disordered?
    requires handled' != handled ==> !s.terminals[sid].buffer.closed
    ensures ServerOk(AfterClose(s, sid).0, handled', down + AfterClose(s, sid).1)
  {
    if s.terminals[sid].buffer.closed {
      assert down + [] == down;
    } else {
      var s' := WithShut(s, sid);
      ShutKeeps(s, handled, handled', down, sid);
      if sid in s.streams && !s.done {
        NotifyKeeps(s', handled', down, sid);
      } else {
        assert down + [] == down;
      }
    }
  }

  function Dropped(s: Server, id: CallId): Server
    requires id in s.callers
  {
    s.(pending := s.pending - {id}, callers := s.callers[id := s.callers[id].(slot := None, outcome := GaveUp)])
  }

  // Giving up is closing the stream in the slot, if any, and then dropping the call.
  lemma GiveUpIsCloseThenDrop(s: Server, id: CallId, closed: Server, sent: seq<Down>)
    requires id in s.callers && s.callers[id].outcome.Waiting? && SlotStreamsKnown(s, id)
    requires var slot := s.callers[id].slot;
      (closed, sent) == if slot.Some? && slot.value.stream.Some? then AfterClose(s, slot.value.stream.value) else (s, [])
    ensures closed.callers == s.callers && AfterGiveUp(s, id) == (Dropped(closed, id), sent + Sent(closed, Cancel(id)))
  {
  }

  // The stream in the slot is closed first.
  lemma SlotClosedKeeps(s: Server, handled: seq<Up>, down: seq<Down>, id: CallId) returns (closed: Server, sent: seq<Down>)
    requires ServerOk(s, handled, down)
    requires id in s.callers && s.callers[id].outcome.Waiting?
    ensures SlotStreamsKnown(s, id) && ServerOk(closed, handled, down + sent) && closed.callers == s.callers
    ensures var slot := s.callers[id].slot;
      && (closed, sent) == (if slot.Some? && slot.value.stream.Some? then AfterClose(s, slot.value.stream.value) else (s, []))
      && (slot.Some? && slot.value.stream.Some? ==>
            slot.value.stream.value in closed.terminals && closed.terminals[slot.value.stream.value].buffer.closed)
  {
    var c := s.callers[id];
    assert CallerOk(s, handled, id);
    closed, sent := s, [];
    if c.slot.Some? && c.slot.value.stream.Some? {
      var sid := c.slot.value.stream.value;
      closed, sent := AfterClose(s, sid).0, AfterClose(s, sid).1;
      CloseKeeps(s, handled, handled, down, sid);
    } else {
      assert down + sent == down;
    }
  }

  lemma GiveUpKeeps(s: Server, handled: seq<Up>, down: seq<Down>, id: CallId)
    requires ServerOk(s, handled, down)
    requires id in s.callers && s.callers[id].outcome.Waiting?
    ensures SlotStreamsKnown(s, id)
    ensures ServerOk(AfterGiveUp(s, id).0, handled, down + AfterGiveUp(s, id).1)
  {
    var s1, sent := SlotClosedKeeps(s, handled, down, id);
    GiveUpIsCloseThenDrop(s, id, s1, sent);
    DropKeeps(s1, handled, down + sent, id);
    assert down + AfterGiveUp(s, id).1 == (down + sent) + Sent(s1, Cancel(id));
  }

  lemma DropKeeps(s: Server, handled: seq<Up>, down: seq<Down>, id: CallId)
    requires ServerOk(s, handled, down)
    requires id in s.callers && s.callers[id].outcome.Waiting?
    requires var slot := s.callers[id].slot;
      slot.Some? && slot.value.stream.Some? ==>
        slot.value.stream.value in s.terminals && s.terminals[slot.value.stream.value].buffer.closed
    ensures ServerOk(Dropped(s, id), handled, down + Sent(s, Cancel(id)))
  {
    var s' := Dropped(s, id);
    assert CallerOk(s, handled, id);
    CallerKeeps(s, s', handled, id, s'.callers[id]);
  }

  lemma OutputKeeps(s: Server, handled: seq<Up>, down: seq<Down>, sid: StreamId, data: bytes)
    requires ServerOk(s, handled, down) && StreamsKnown(s) && !s.done && s.loop.Idle?
    requires !View(handled + [Output(sid, data)], sid).Disordered?
    ensures ServerOk(AfterOutput(s, sid, data).0, handled + [Output(sid, data)], down + AfterOutput(s, sid, data).1)
  {
    var handled' := handled + [Output(sid, data)];
    assert StreamOk(s, View(handled, sid), sid);
    assert handled'[..|handled|] == handled;
    OtherViews(handled, handled', sid);
    if sid in s.streams {
      var t := s.terminals[sid];
      if AfterPush(t.buffer, data).1 {
        PushKeeps(t.buffer, data);
        StreamKeeps(s, AfterOutput(s, sid, data).0, handled, handled', sid);
        assert down + [] == down;
      } else {
        StreamKeeps(s, AfterOutput(s, sid, data).0, handled, handled', sid);
        assert down + [] == down;
      }
    } else if sid in s.closedStreams {
      StreamKeeps(s, s, handled, handled', sid);
      assert down + [] == down;
    } else {
      var s' := s.(closedStreams := s.closedStreams + {sid});
      StreamKeeps(s, s', handled, handled', sid);
      NotifyKeeps(s', handled', down, sid);
    }
  }

  lemma StreamClosedKeeps(s: Server, handled: seq<Up>, down: seq<Down>, sid: StreamId)
    requires ServerOk(s, handled, down) && StreamsKnown(s) && !s.done && s.loop.Idle?
    requires !View(handled + [StreamClosed(sid)], sid).Disordered?
    ensures ServerOk(AfterStreamClosed(s, sid), handled + [StreamClosed(sid)], down)
  {
    assert StreamOk(s, View(handled, sid), sid);
    OtherViews(handled, handled + [StreamClosed(sid)], sid);
    StreamKeeps(s, AfterStreamClosed(s, sid), handled, handled + [StreamClosed(sid)], sid);
  }

  lemma ReadKeepsServer(s: Server, handled: seq<Up>, down: seq<Down>, sid: StreamId, room: nat)
    requires ServerOk(s, handled, down) && CanReadTerminal(s, sid)
    ensures ServerOk(AfterReadTerminal(s, sid, room), handled, down)
  {
    assert StreamOk(s, View(handled, sid), sid);
    ReadKeeps(s.terminals[sid].buffer, room);
    StreamKeeps(s, AfterReadTerminal(s, sid, room), handled, handled, sid);
  }

  lemma WriteKeeps(s: Server, handled: seq<Up>, down: seq<Down>, sid: StreamId, data: bytes)
    requires ServerOk(s, handled, down) && sid in s.terminals
    ensures ServerOk(s, handled, down + Wrote(s, sid, data))
  {
  }

  lemma TeardownKeeps(s: Server, handled: seq<Up>, down: seq<Down>)
    requires ServerOk(s, handled, down) && s.loop.Idle?
    ensures ServerOk(AfterTeardown(s), handled, down)
  {
    var s' := AfterTeardown(s);
    forall k ensures StreamOk(s', View(handled, k), k) {
      assert StreamOk(s, View(handled, k), k);
    }
    forall i | i in s'.callers ensures CallerOk(s', handled, i) {
      assert CallerOk(s, handled, i);
    }
    forall k | k in s'.terminals ensures OwnerOk(s', k) {
      assert OwnerOk(s, k);
    }
  }

  // The stream half of taking a call: an announced stream is new on every map.
  lemma ResultKeepsStreams(s: Server, handled: seq<Up>, result: Wire.Result)
    requires StreamsOk(s, handled) && !s.done && s.loop.Idle?
    requires forall sid :: !View(handled + [Answer(result)], sid).Disordered?
    ensures StreamsOk(AfterTakeCall(s, result), handled + [Answer(result)])
    ensures result.value.Opened? ==> result.value.stream !in s.terminals
  {
    var m, s', handled' := Answer(result), AfterTakeCall(s, result), handled + [Answer(result)];
    forall sid ensures StreamOk(s', View(handled', sid), sid) {
      ViewSnoc(handled, m, sid);
      assert StreamOk(s, View(handled, sid), sid);
    }
    if result.value.Opened? {
      ViewSnoc(handled, m, result.value.stream);
      assert StreamOk(s, View(handled, result.value.stream), result.value.stream);
    }
  }

  lemma ResultKeepsCaller(s: Server, handled: seq<Up>, result: Wire.Result, i: CallId)
    requires CallsOk(s, handled) && !s.done && s.loop.Idle? && i in s.callers
    requires result.value.Opened? ==> result.value.stream !in s.terminals
    ensures CallerOk(AfterTakeCall(s, result), handled + [Answer(result)], i)
  {
    var m, s', handled' := Answer(result), AfterTakeCall(s, result), handled + [Answer(result)];
    assert m in handled' && forall k | k in handled :: k in handled';
    assert CallerOk(s, handled, i);
    assert s'.callers == s.callers;
    if i == result.id && i in s.pending {
      assert IsFilling(s', i);
    } else {
      assert i in s'.pending <==> i in s.pending;
    }
  }

  lemma ResultKeepsLoop(s: Server, handled: seq<Up>, result: Wire.Result)
    requires CallsOk(s, handled) && !s.done && s.loop.Idle?
    ensures LoopOk(AfterTakeCall(s, result), handled + [Answer(result)])
  {
    assert Answer(result) in handled + [Answer(result)];
    if result.id in s.callers { assert CallerOk(s, handled, result.id); }
  }

  lemma ResultKeepsOwner(s: Server, handled: seq<Up>, result: Wire.Result, sid: StreamId)
    requires CallsOk(s, handled) && !s.done && s.loop.Idle? && sid in AfterTakeCall(s, result).terminals
    requires result.value.Opened? ==> result.value.stream !in s.terminals
    ensures OwnerOk(AfterTakeCall(s, result), sid)
  {
    if sid in s.terminals {
      assert OwnerOk(s, sid);
      assert CallerOk(s, handled, s.terminals[sid].owner);
    } else {
      assert CallerOk(s, handled, result.id);
    }
  }

  lemma ResultKeepsCalls(s: Server, handled: seq<Up>, result: Wire.Result)
    requires CallsOk(s, handled) && !s.done && s.loop.Idle?
    requires result.value.Opened? ==> result.value.stream !in s.terminals
    ensures CallsOk(AfterTakeCall(s, result), handled + [Answer(result)])
  {
    var s', handled' := AfterTakeCall(s, result), handled + [Answer(result)];
    forall i | i in s'.callers ensures CallerOk(s', handled', i) {
      ResultKeepsCaller(s, handled, result, i);
    }
    forall sid | sid in s'.terminals ensures OwnerOk(s', sid) {
      ResultKeepsOwner(s, handled, result, sid);
    }
    ResultKeepsLoop(s, handled, result);
  }

  lemma ResultKeepsAnswers(s: Server, handled: seq<Up>, result: Wire.Result)
    requires AnswersOk(s, handled) && CallsOk(s, handled) && !s.done && s.loop.Idle?
    requires DistinctAnswers(handled + [Answer(result)]) && result.id <= s.nextId
    requires result.value.Opened? ==> result.value.stream !in s.terminals
    ensures AnswersOk(AfterTakeCall(s, result), handled + [Answer(result)])
  {
    var m, s', handled' := Answer(result), AfterTakeCall(s, result), handled + [Answer(result)];
    forall k | k in handled && k.Answer? ensures k.result.id != result.id {
      var i :| 0 <= i < |handled| && handled[i] == k;
      assert handled'[i] == k && handled'[|handled|] == m;
    }
    if result.id in s.callers {
      assert CallerOk(s, handled, result.id);
    }
    forall k | k in handled' && k.Answer? && k.result.value.Opened? && k.result.value.stream !in s'.terminals
               && k.result.id in s'.callers && s'.callers[k.result.id].kind.OpenTerminal?
      ensures s'.callers[k.result.id].outcome.GaveUp? || s'.callers[k.result.id].outcome.SendFailed? {
      assert k in handled || k == m;
    }
  }

  lemma ResultKeeps(s: Server, handled: seq<Up>, down: seq<Down>, result: Wire.Result)
    requires ServerOk(s, handled, down) && !s.done && s.loop.Idle?
    requires forall sid :: !View(handled + [Answer(result)], sid).Disordered?
    requires DistinctAnswers(handled + [Answer(result)])
    requires exists kind :: Call(result.id, kind) in down
    ensures ServerOk(AfterTakeCall(s, result), handled + [Answer(result)], down)
  {
    ResultKeepsStreams(s, handled, result);
    ResultKeepsCalls(s, handled, result);
    ResultKeepsAnswers(s, handled, result);
  }

  lemma FillKeeps(s: Server, handled: seq<Up>, down: seq<Down>)
    requires ServerOk(s, handled, down) && s.loop.Filling?
    ensures s.loop.reply.result.id in s.callers && ServerOk(AfterFill(s), handled, down)
  {
    var s', id := AfterFill(s), s.loop.reply.result.id;
    StreamsFrame(s, s', handled);
    forall i | i in s'.callers ensures CallerOk(s', handled, i) {
      assert CallerOk(s, handled, i);
    }
    forall sid | sid in s'.terminals ensures OwnerOk(s', sid) {
      assert OwnerOk(s, sid);
    }
  }

  lemma CloseFullIs(s: Server)
    requires s.loop.Closing? && s.loop.stream in s.terminals
    ensures AfterCloseFull(s) == (AfterClose(s, s.loop.stream).0.(loop := Idle), AfterClose(s, s.loop.stream).1)
    ensures s.loop.stream in AfterClose(s, s.loop.stream).0.terminals
    ensures AfterClose(s, s.loop.stream).0.terminals[s.loop.stream].buffer.closed && AfterClose(s, s.loop.stream).0.loop == s.loop
  {
  }

  lemma IdleKeeps(s: Server, handled: seq<Up>, down: seq<Down>, sid: StreamId)
    requires ServerOk(s, handled, down) && s.loop == Closing(sid) && s.terminals[sid].buffer.closed
    ensures ServerOk(s.(loop := Idle), handled, down)
  {
    assert StreamOk(s, View(handled, sid), sid);
    StreamKeeps(s, s.(loop := Idle), handled, handled, sid);
  }

  lemma CloseFullKeeps(s: Server, handled: seq<Up>, down: seq<Down>)
    requires ServerOk(s, handled, down) && s.loop.Closing?
    ensures s.loop.stream in s.terminals
    ensures ServerOk(AfterCloseFull(s).0, handled, down + AfterCloseFull(s).1)
  {
    CloseFullIs(s);
    CloseKeeps(s, handled, handled, down, s.loop.stream);
    IdleKeeps(AfterClose(s, s.loop.stream).0, handled, down + AfterClose(s, s.loop.stream).1, s.loop.stream);
  }

  // The reply of a caller that still waits when its slot is filled is there to be taken,
  // and the result taken is the one the runner gave for its own call; one that came too
  // late is not.
  lemma FillReachesCaller(s: Server, handled: seq<Up>, down: seq<Down>, id: CallId)
    requires ServerOk(s, handled, down) && IsFilling(s, id)
    ensures id in s.callers && s.callers[id].slot.None?
    ensures CanTakeReply(AfterFill(s), id) <==> s.callers[id].outcome.Waiting?
    ensures s.callers[id].outcome.Waiting? ==>
              AfterTakeReply(AfterFill(s), id).callers[id].outcome == Got(s.loop.reply) && Answer(s.loop.reply.result) in handled
    ensures forall sid | s.loop.reply.stream == Some(sid) ::
              sid in s.terminals && (Owned(AfterFill(s), sid) <==> s.callers[id].outcome.Waiting?)
                                 && (Lost(AfterFill(s), sid) <==> !s.callers[id].outcome.Waiting?)
  {
    assert CallerOk(s, handled, id);
  }

  // How a stream's slot was filled, and that it is never undone.
  lemma FillDecides(s: Server, handled: seq<Up>, sid: StreamId)
    requires CallsOk(s, handled) && s.loop.Filling? && s.loop.reply.stream == Some(sid)
    ensures sid in s.terminals && s.terminals[sid].owner in s.callers
    ensures s.loop.reply.result.id == s.terminals[sid].owner
    ensures AfterFill(s).callers[s.terminals[sid].owner].filled
              == if s.callers[s.terminals[sid].owner].outcome.Waiting? then InTime else Late
    ensures AfterFill(s).terminals == s.terminals
  {
    assert LoopOk(s, handled);
  }

  lemma FillIsForGood(s: Server, handled: seq<Up>, sid: StreamId)
    requires CallsOk(s, handled) && StreamsOk(s, handled) && sid in s.terminals
    requires s.terminals[sid].owner in s.callers && !s.callers[s.terminals[sid].owner].filled.Unfilled?
    ensures Owned(s, sid) <==> s.callers[s.terminals[sid].owner].filled.InTime?
    ensures Lost(s, sid) <==> s.callers[s.terminals[sid].owner].filled.Late?
    ensures s.done ==> s.terminals[sid].buffer.ended || s.terminals[sid].buffer.closed
  {
    assert OwnerOk(s, sid);
    assert CallerOk(s, handled, s.terminals[sid].owner);
    assert StreamOk(s, View(handled, sid), sid);
  }

  // ----- whole steps

  // What the control plane does between two messages; FillSlot and CloseFull are the read
  // loop's own second halves, Teardown its end.
  datatype Local =
    | StartCall(kind: Method)
    | TakeReply(id: CallId)
    | GiveUp(id: CallId)
    | LoseConnection(id: CallId)
    | ReadTerminal(stream: StreamId, room: nat)
    | WriteTerminal(stream: StreamId, data: bytes)
    | CloseStream(stream: StreamId)
    | FillSlot
    | CloseFull
    | CancelContext
    | CloseOutbox
    | Teardown

  ghost predicate Enabled(s: Server, e: Local) {
    match e
    case StartCall(kind) => !kind.CloseTerminal?
    case TakeReply(id) => CanTakeReply(s, id)
    case GiveUp(id) => id in s.callers && s.callers[id].outcome.Waiting? && SlotStreamsKnown(s, id)
    case LoseConnection(id) => id in s.callers && s.callers[id].outcome.Waiting? && s.cancelled
    case ReadTerminal(sid, _) => CanReadTerminal(s, sid)
    case WriteTerminal(sid, _) => sid in s.terminals
    case CloseStream(sid) => sid in s.terminals
    case FillSlot => s.loop.Filling? && s.loop.reply.result.id in s.callers
    case CloseFull => s.loop.Closing? && s.loop.stream in s.terminals
    case CancelContext => true
    case CloseOutbox => true
    case Teardown => s.loop.Idle?
  }

  ghost function AfterLocal(s: Server, e: Local): (Server, seq<Down>)
    requires Enabled(s, e)
  {
    match e
    case StartCall(kind) => AfterStartCall(s, kind)
    case TakeReply(id) => (AfterTakeReply(s, id), [])
    case GiveUp(id) => AfterGiveUp(s, id)
    case LoseConnection(id) => (AfterConnectionLost(s, id), [])
    case ReadTerminal(sid, room) => (AfterReadTerminal(s, sid, room), [])
    case WriteTerminal(sid, data) => (s, Wrote(s, sid, data))
    case CloseStream(sid) => AfterClose(s, sid)
    case FillSlot => (AfterFill(s), [])
    case CloseFull => AfterCloseFull(s)
    case CancelContext => (s.(cancelled := true), [])
    case CloseOutbox => (s.(outboxOpen := false), [])
    case Teardown => (AfterTeardown(s), [])
  }

  lemma FlagKeeps(s: Server, handled: seq<Up>, down: seq<Down>)
    requires ServerOk(s, handled, down)
    ensures ServerOk(s.(cancelled := true), handled, down)
    ensures ServerOk(s.(outboxOpen := false), handled, down)
  {
    var s1, s2 := s.(cancelled := true), s.(outboxOpen := false);
    StreamsFrame(s, s1, handled);
    StreamsFrame(s, s2, handled);
    forall i | i in s.callers ensures CallerOk(s1, handled, i) && CallerOk(s2, handled, i) {
      assert CallerOk(s, handled, i);
    }
    forall k | k in s.terminals ensures OwnerOk(s1, k) && OwnerOk(s2, k) {
      assert OwnerOk(s, k);
    }
  }

  // Every local step keeps the invariant, whatever the runner has sent.
  lemma LocalKeeps(s: Server, handled: seq<Up>, down: seq<Down>, e: Local)
    requires ServerOk(s, handled, down) && Enabled(s, e)
    ensures ServerOk(AfterLocal(s, e).0, handled, down + AfterLocal(s, e).1)
  {
    assert down + [] == down;
    match e
    case StartCall(kind) => StartCallKeeps(s, handled, down, kind);
    case TakeReply(id) => TakeReplyKeeps(s, handled, down, id);
    case GiveUp(id) => GiveUpKeeps(s, handled, down, id);
    case LoseConnection(id) => ConnectionLostKeeps(s, handled, down, id);
    case ReadTerminal(sid, room) => ReadKeepsServer(s, handled, down, sid, room);
    case WriteTerminal(sid, data) => WriteKeeps(s, handled, down, sid, data);
    case CloseStream(sid) => CloseKeeps(s, handled, handled, down, sid);
    case FillSlot => FillKeeps(s, handled, down);
    case CloseFull => CloseFullKeeps(s, handled, down);
    case CancelContext => FlagKeeps(s, handled, down);
    case CloseOutbox => FlagKeeps(s, handled, down);
    case Teardown => TeardownKeeps(s, handled, down);
  }

  // Every message keeps it too, when the runner's messages are orderly.
  lemma MessageKeeps(s: Server, handled: seq<Up>, down: seq<Down>, m: Up)
    requires ServerOk(s, handled, down) && !s.done && s.loop.Idle?
    requires forall sid :: !View(handled + [m], sid).Disordered?
    requires DistinctAnswers(handled + [m])
    requires m.Answer? ==> exists kind :: Call(m.result.id, kind) in down
    ensures StreamsKnown(s)
    ensures ServerOk(AfterMessage(s, m).0, handled + [m], down + AfterMessage(s, m).1)
  {
    StreamsAreKnown(s, handled);
    assert down + [] == down;
    match m
    case Answer(result) => ResultKeeps(s, handled, down, result);
    case Output(sid, data) => OutputKeeps(s, handled, down, sid, data);
    case StreamClosed(sid) => StreamClosedKeeps(s, handled, down, sid);
    case _ =>
      forall k ensures StreamOk(s, View(handled + [m], k), k) {
        ViewSnoc(handled, m, k);
        assert StreamOk(s, View(handled, k), k);
      }
      forall i | i in s.callers ensures CallerOk(s, handled + [m], i) {
        assert CallerOk(s, handled, i);
      }
  }

  // ----- what a step never undoes

  // An outcome, once reached, is final, a tombstone stays, a closed reader stays closed.
  ghost predicate Later(s: Server, s': Server) {
    && (forall id | id in s.callers ::
          && id in s'.callers && s'.callers[id].kind == s.callers[id].kind
          && (!s.callers[id].outcome.Waiting? ==> s'.callers[id].outcome == s.callers[id].outcome)
          && (!s.callers[id].filled.Unfilled? ==> s'.callers[id].filled == s.callers[id].filled))
    && s.closedStreams <= s'.closedStreams
    && (forall sid | sid in s.terminals ::
          && sid in s'.terminals
          && s'.terminals[sid].owner == s.terminals[sid].owner
          && s.terminals[sid].buffer.delivered <= s'.terminals[sid].buffer.delivered
          && (s.terminals[sid].buffer.closed ==> s'.terminals[sid].buffer.closed))
  }

  lemma LaterChains(s: Server, s': Server, s'': Server)
    requires Later(s, s') && Later(s', s'')
    ensures Later(s, s'')
  {
    forall id | id in s.callers
      ensures id in s''.callers && s''.callers[id].kind == s.callers[id].kind {
      assert id in s'.callers;
    }
    forall sid | sid in s.terminals
      ensures sid in s''.terminals
      ensures s.terminals[sid].buffer.delivered <= s''.terminals[sid].buffer.delivered {
      assert sid in s'.terminals;
    }
  }

  lemma CloseIsLater(s: Server, sid: StreamId)
    requires sid in s.terminals
    ensures Later(s, AfterClose(s, sid).0)
    ensures AfterClose(s, sid).0.callers == s.callers
  {
  }

  lemma GiveUpIsLater(s: Server, id: CallId)
    requires id in s.callers && s.callers[id].outcome.Waiting? && SlotStreamsKnown(s, id)
    ensures Later(s, AfterGiveUp(s, id).0)
  {
    var slot := s.callers[id].slot;
    var closed, sent := s, [];
    if slot.Some? && slot.value.stream.Some? {
      closed, sent := AfterClose(s, slot.value.stream.value).0, AfterClose(s, slot.value.stream.value).1;
      CloseIsLater(s, slot.value.stream.value);
    }
    GiveUpIsCloseThenDrop(s, id, closed, sent);
  }

  lemma LocalIsLater(s: Server, e: Local)
    requires Enabled(s, e) && forall id | id in s.callers :: id <= s.nextId
    requires s.loop.Filling? && s.loop.reply.result.id in s.callers ==> s.callers[s.loop.reply.result.id].filled.Unfilled?
    ensures Later(s, AfterLocal(s, e).0)
  {
    match e
    case GiveUp(id) => GiveUpIsLater(s, id);
    case CloseStream(sid) => CloseIsLater(s, sid);
    case CloseFull =>
      CloseFullIs(s);
      CloseIsLater(s, s.loop.stream);
    case _ =>
  }

  lemma ResultIsLater(s: Server, result: Wire.Result)
    requires result.value.Opened? ==> result.value.stream !in s.terminals
    ensures Later(s, AfterTakeCall(s, result))
  {
  }

  lemma OutputIsLater(s: Server, sid: StreamId, data: bytes)
    requires StreamsKnown(s)
    ensures Later(s, AfterOutput(s, sid, data).0)
  {
    if sid in s.streams && AfterPush(s.terminals[sid].buffer, data).1 {
      PushIsLater(s, sid, data);
    }
  }

  lemma PushIsLater(s: Server, sid: StreamId, data: bytes)
    requires sid in s.terminals
    ensures var t := s.terminals[sid]; Later(s, s.(terminals := s.terminals[sid := t.(buffer := AfterPush(t.buffer, data).0)]))
  {
  }

  lemma MessageIsLater(s: Server, m: Up)
    requires StreamsKnown(s)
    requires m.Answer? && m.result.value.Opened? ==> m.result.value.stream !in s.terminals
    ensures Later(s, AfterMessage(s, m).0)
  {
    match m
    case Answer(result) => ResultIsLater(s, result);
    case Output(sid, data) => OutputIsLater(s, sid, data);
    case _ =>
  }
}
