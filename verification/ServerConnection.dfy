// The connection object of the control plane (internal/runnerserver/conn.go). Each
// method updates the fields in place, in the order the code does, and comes out at the
// state RunnerServer's step defines, with that step's messages queued in `out`. `loop` is
// what the read loop holds in local variables while it is not under the lock.

module ServerConnection {
  import opened Wrappers
  import opened StreamFrames
  import opened TerminalBuffer
  import opened Wire
  import opened RunnerServer

  class Conn {
    var nextId: CallId
    var done: bool
    var cancelled: bool
    var outboxOpen: bool
    var pending: set<CallId>
    var callers: map<CallId, Caller>
    var streams: set<StreamId>
    var closedStreams: set<StreamId>
    var terminals: map<StreamId, Terminal>
    var loop: Loop
    var out: seq<Down>

    function View(): Server
      reads this
    {
      Server(nextId, done, cancelled, outboxOpen, pending, callers, streams, closedStreams, terminals, loop)
    }

    // The connection is now where `after` says, having queued what `after` says.
    twostate predicate Made(after: (Server, seq<Down>))
      reads this
    {
      View() == after.0 && out == old(out) + after.1
    }

    constructor ()
      ensures View() == NEW_SERVER && out == []
    {
      nextId, done, cancelled, outboxOpen := 0, false, false, true;
      pending, callers, streams, closedStreams, terminals, out := {}, map[], {}, {}, map[], [];
      loop := Idle;
    }

    method Send(m: Down)
      modifies this`out
      ensures out == old(out) + Sent(View(), m)
    {
      if outboxOpen {
        out := out + [m];
      }
    }

    method Notify(sid: StreamId)
      modifies this`nextId, this`out
      ensures Made(AfterNotify(old(View()), sid))
      ensures nextId == old(nextId) + 1 && out == old(out) + (if outboxOpen then [Call(nextId, CloseTerminal(sid))] else [])
    {
      nextId := nextId + 1;
      Send(Call(nextId, CloseTerminal(sid)));
    }

    // roundTrip up to its select.
    method StartCall(kind: Method) returns (id: CallId)
      requires nextId + 1 !in pending
      modifies this
      ensures id == old(nextId) + 1
      ensures Made(AfterStartCall(old(View()), kind))
      ensures nextId == id && id in callers && callers == old(callers)[id := callers[id]]
      ensures var waits := !done && outboxOpen;
              && pending == old(pending) + (if waits then {id} else {})
              && out == old(out) + (if waits then [Call(id, kind)] else [])
              && callers[id] == Caller(kind, None, if waits then Waiting else if done then Disconnected else SendFailed, Unfilled)
    {
      nextId := nextId + 1;
      id := nextId;
      if done {
        callers := callers[id := Caller(kind, None, Disconnected, Unfilled)];
        return;
      }
      callers := callers[id := Caller(kind, None, Waiting, Unfilled)];
      pending := pending + {id};
      if outboxOpen {
        Send(Call(id, kind));
      } else {
        Forget(id);
        callers := callers[id := callers[id].(outcome := SendFailed)];
        assert pending == old(pending);
      }
    }

    method Forget(id: CallId)
      modifies this`pending
      ensures pending == old(pending) - {id}
    {
      pending := pending - {id};
    }

    method TakeReply(id: CallId) returns (reply: Reply)
      requires CanTakeReply(View(), id)
      modifies this`callers
      ensures View() == AfterTakeReply(old(View()), id) && reply == old(callers)[id].slot.value
      ensures callers == old(callers)[id := old(callers)[id].(slot := None, outcome := Got(reply))]
    {
      reply := callers[id].slot.value;
      callers := callers[id := callers[id].(slot := None, outcome := Got(reply))];
    }

    method CloseStream(sid: StreamId)
      modifies this`streams, this`closedStreams, this`nextId, this`out
      ensures Made(AfterCloseStream(old(View()), sid))
      ensures streams == old(streams) - {sid} && closedStreams == old(closedStreams) + {sid}
      ensures out == old(out) + (if sid in old(streams) && !done && outboxOpen then [Call(nextId, CloseTerminal(sid))] else [])
    {
      var ok := sid in streams;
      streams := streams - {sid};
      closedStreams := closedStreams + {sid};
      if ok && !done {
        Notify(sid);
      }
    }

    // stream.Close, called by a reader or by the connection itself.
    method Close(sid: StreamId)
      requires sid in terminals
      modifies this`terminals, this`streams, this`closedStreams, this`nextId, this`out
      ensures Made(AfterClose(old(View()), sid))
      ensures terminals == old(terminals)[sid := terminals[sid]] && terminals[sid].buffer.closed
      ensures old(terminals)[sid].buffer.closed ==> View() == old(View()) && out == old(out)
      ensures !old(terminals)[sid].buffer.closed ==>
                && terminals[sid].buffer.buf == [] && sid !in streams && sid in closedStreams
                && out == old(out) + (if sid in old(streams) && !done && outboxOpen then [Call(nextId, CloseTerminal(sid))] else [])
    {
      var t := terminals[sid];
      if !t.buffer.closed {
        terminals := terminals[sid := t.(buffer := AfterShut(t.buffer))];
        CloseStream(sid);
      }
    }

    // The caller's context ended: forget, abandon, and the cancel message.
    method GiveUp(id: CallId)
      requires id in callers && callers[id].outcome.Waiting? && SlotStreamsKnown(View(), id)
      modifies this
      ensures Made(AfterGiveUp(old(View()), id))
      ensures pending == old(pending) - {id} && callers == old(callers)[id := old(callers)[id].(slot := None, outcome := GaveUp)]
      ensures var slot := old(callers)[id].slot;
              && (outboxOpen ==> |out| > |old(out)| && out[|out| - 1] == Cancel(id))
              && (slot.Some? && slot.value.stream.Some? ==>
                    slot.value.stream.value in terminals && terminals[slot.value.stream.value].buffer.closed)
    {
      Forget(id);
      var slot := callers[id].slot;
      callers := callers[id := callers[id].(slot := None, outcome := GaveUp)];
      if slot.Some? && slot.value.stream.Some? {
        Close(slot.value.stream.value);
      }
      Send(Cancel(id));
    }

    // handleResult, under the lock.
    method TakeCall(result: Wire.Result)
      modifies this
      ensures Made((AfterTakeCall(old(View()), result), []))
      ensures result.id !in old(pending) * old(callers).Keys ==> View() == old(View())
      ensures result.id in old(pending) * old(callers).Keys ==>
                && pending == old(pending) - {result.id} && callers == old(callers)
                && loop == Filling(Reply(result, if callers[result.id].kind.OpenTerminal? && result.value.Opened? then Some(result.value.stream) else None))
                && (loop.reply.stream.Some? ==>
                      streams == old(streams) + {result.value.stream}
                      && terminals == old(terminals)[result.value.stream := Terminal(result.id, EMPTY)])
                && (loop.reply.stream.None? ==> streams == old(streams) && terminals == old(terminals))
    {
      if result.id in pending && result.id in callers {
        pending := pending - {result.id};
        var stream := None;
        if callers[result.id].kind.OpenTerminal? && result.value.Opened? {
          stream := Some(result.value.stream);
          terminals := terminals[result.value.stream := Terminal(result.id, EMPTY)];
          streams := streams + {result.value.stream};
        }
        loop := Filling(Reply(result, stream));
      }
    }

    // handleResult, after it: the send on the reply channel.
    method Fill()
      requires loop.Filling? && loop.reply.result.id in callers
      modifies this
      ensures Made((AfterFill(old(View())), []))
      ensures var id := old(loop).reply.result.id;
              loop.Idle? && id in callers && callers[id].slot == Some(old(loop).reply)
              && callers == old(callers)[id := old(callers)[id].(slot := callers[id].slot, filled := callers[id].filled)]
    {
      var id, call := loop.reply.result.id, callers[loop.reply.result.id];
      callers := callers[id := call.(slot := Some(loop.reply), filled := if call.outcome.Waiting? then InTime else Late)];
      loop := Idle;
    }

    method HandleFrame(frame: bytes)
      requires StreamsKnown(View())
      modifies this
      ensures match DecodeStreamFrame(frame)
              case Err(_) => Made((old(View()), []))
              case Ok((sid, payload)) =>
                && Made(AfterOutput(old(View()), sid, payload))
                && (if sid in old(streams) then
                      && streams == old(streams) && out == old(out)
                      && var b := old(terminals)[sid].buffer;
                         if b.closed || b.ended then terminals == old(terminals)
                         else if |b.buf| + |payload| <= 0x10_0000 then
                           && loop == old(loop)
                           && terminals == old(terminals)[sid := terminals[sid]] && terminals[sid].buffer.buf == b.buf + payload
                         else terminals == old(terminals) && loop == Closing(sid)
                    else
                      && terminals == old(terminals) && closedStreams == old(closedStreams) + {sid}
                      && out == old(out) + (if sid !in old(closedStreams) && outboxOpen then [Call(nextId, CloseTerminal(sid))] else []))
    {
      match DecodeStreamFrame(frame) {
        case Err(_) =>
        case Ok((sid, payload)) =>
          var ok, closed := sid in streams, sid in closedStreams;
          if !ok && !closed {
            closedStreams := closedStreams + {sid};
          }
          if ok {
            var t := terminals[sid];
            var (buffer, fits) := AfterPush(t.buffer, payload);
            if fits {
              terminals := terminals[sid := t.(buffer := buffer)];
            } else {
              loop := Closing(sid);
            }
          } else if !closed {
            Notify(sid);
          }
      }
    }

    // The close of a stream whose buffer refused a frame.
    method CloseFull()
      requires loop.Closing? && loop.stream in terminals
      modifies this
      ensures Made(AfterCloseFull(old(View())))
    {
      var sid := loop.stream;
      loop := Idle;
      Close(sid);
    }

    method HandleStreamClosed(sid: StreamId)
      requires StreamsKnown(View())
      modifies this`streams, this`closedStreams, this`terminals
      ensures Made((AfterStreamClosed(old(View()), sid), []))
      ensures streams == old(streams) - {sid} && closedStreams == old(closedStreams) + {sid}
      ensures sid in old(streams) ==> sid in terminals && terminals[sid].buffer == old(terminals)[sid].buffer.(ended := true)
    {
      var ok := sid in streams;
      streams := streams - {sid};
      closedStreams := closedStreams + {sid};
      if ok {
        var t := terminals[sid];
        terminals := terminals[sid := t.(buffer := AfterEnd(t.buffer))];
      }
    }

    // Ends every registered stream once the maps are cleared.
    method Teardown()
      requires StreamsKnown(View())
      modifies this
      ensures Made((AfterTeardown(old(View())), []))
      ensures done && !outboxOpen && pending == {} && streams == {} && terminals.Keys == old(terminals).Keys
      ensures forall sid | sid in terminals ::
                terminals[sid] == if sid in old(streams) then old(terminals)[sid].(buffer := old(terminals)[sid].buffer.(ended := true))
                                  else old(terminals)[sid]
    {
      var left := streams;
      done, cancelled, outboxOpen := true, true, false;
      streams, pending := {}, {};
      assert terminals == EndedAll(old(terminals), {});
      while left != {}
        invariant left <= old(streams)
        invariant View() == AfterTeardown(old(View())).(terminals := EndedAll(old(terminals), old(streams) - left))
        invariant out == old(out)
        decreases left
      {
        var sid :| sid in left;
        var t := terminals[sid];
        terminals := terminals[sid := t.(buffer := AfterEnd(t.buffer))];
        left := left - {sid};
        assert terminals == EndedAll(old(terminals), old(streams) - left);
      }
      assert old(streams) - left == old(streams);
    }
  }
}
