// The runner's session object (internal/runnerclient/session.go). Each method updates
// the fields in place and comes out at the state RunnerClient's step defines, with that
// step's messages written to the socket, of which `out` is the log.

module ClientSession {
  import opened StreamFrames
  import opened Wire
  import opened RunnerClient

  class Session {
    var calls: map<CallId, ClientCall>
    var streams: set<StreamId>
    var nextStream: StreamId
    var closed: bool
    var broken: bool
    var ptys: map<StreamId, Pty>
    var toReport: set<StreamId>
    var answered: map<CallId, Value>
    var out: seq<Up>

    function View(): Client
      reads this
    {
      Client(calls, streams, nextStream, closed, broken, ptys, toReport, answered)
    }

    twostate predicate Made(after: (Client, seq<Up>))
      reads this
    {
      View() == after.0 && out == old(out) + after.1
    }

    constructor ()
      ensures View() == NEW_CLIENT && out == []
    {
      calls, streams, nextStream, closed, broken := map[], {}, 0, false, false;
      ptys, toReport, answered, out := map[], {}, map[], [];
    }

    // The outcome false is a failed write.
    method Write(m: Up) returns (ok: bool)
      modifies this`out
      ensures out == old(out) + Sent(View(), m) && ok == !broken
    {
      ok := !broken;
      if ok {
        out := out + [m];
      }
    }

    method Start(id: CallId, kind: Method)
      modifies this`calls
      ensures Made((AfterStart(old(View()), id, kind), []))
      ensures calls == old(calls)[id := ClientCall(kind, false, Dispatching)]
    {
      calls := calls[id := ClientCall(kind, false, Dispatching)];
    }

    method Cancel(id: CallId)
      modifies this`calls
      ensures Made((AfterCancel(old(View()), id), []))
      ensures calls.Keys == old(calls).Keys && (id in calls ==> calls == old(calls)[id := old(calls)[id].(cancelled := true)])
    {
      if id in calls {
        calls := calls[id := calls[id].(cancelled := true)];
      }
    }

    // Returns whether the stream was still in the map, which only one closer ever sees.
    method CloseStream(sid: StreamId, ending: Ending) returns (won: bool)
      requires streams <= ptys.Keys
      modifies this`streams, this`ptys
      ensures Made((AfterCloseStream(old(View()), sid, ending), [])) && won == (sid in old(streams))
      ensures streams == old(streams) - {sid}
      ensures ptys == if won then old(ptys)[sid := old(ptys)[sid].(ending := ending)] else old(ptys)
    {
      won := sid in streams;
      if won {
        streams := streams - {sid};
        ptys := ptys[sid := ptys[sid].(ending := ending)];
      }
    }

    method Input(frame: bytes)
      requires streams <= ptys.Keys
      modifies this`streams, this`ptys, this`toReport
      ensures match DecodeStreamFrame(frame)
              case Err(_) => Made((old(View()), []))
              case Ok((sid, data)) =>
                && Made((AfterInput(old(View()), sid, data), []))
                && (if sid !in old(streams) then View() == old(View())
                    else if |old(ptys)[sid].queue| < 256 then
                      streams == old(streams) && ptys == old(ptys)[sid := old(ptys)[sid].(queue := old(ptys)[sid].queue + [data])]
                    else
                      streams == old(streams) - {sid} && toReport == old(toReport) + {sid})
    {
      match DecodeStreamFrame(frame) {
        case Err(_) =>
        case Ok((sid, data)) =>
          if sid in streams {
            var p := ptys[sid];
            if |p.queue| < STREAM_INPUT_FRAMES {
              ptys := ptys[sid := p.(queue := p.queue + [data])];
            } else {
              var won := CloseStream(sid, Early);
              if won {
                toReport := toReport + {sid};
              }
            }
          }
      }
    }

    method OpenTerminal(id: CallId)
      requires CanDispatch(View(), id)
      modifies this
      ensures Made((AfterOpenTerminal(old(View()), id), []))
      ensures if old(calls)[id].cancelled || closed then
                streams == old(streams) && ptys == old(ptys) && calls == old(calls)[id := old(calls)[id].(phase := Computed(Failed))]
              else
                && nextStream == old(nextStream) + 1 && streams == old(streams) + {nextStream}
                && ptys == old(ptys)[nextStream := Pty(id, NotStarted, Live, [], [], [])]
                && calls == old(calls)[id := old(calls)[id].(phase := Computed(Opened(nextStream)))]
    {
      var value := Failed;
      if !calls[id].cancelled && !closed {
        nextStream := nextStream + 1;
        streams := streams + {nextStream};
        ptys := ptys[nextStream := Pty(id, NotStarted, Live, [], [], [])];
        value := Opened(nextStream);
      }
      calls := calls[id := calls[id].(phase := Computed(value))];
    }

    method CloseTerminal(id: CallId)
      requires CanDispatch(View(), id) && calls[id].kind.CloseTerminal? && streams <= ptys.Keys
      modifies this`streams, this`ptys, this`calls
      ensures Made((AfterOtherMethod(old(View()), id), []))
      ensures streams == old(streams) - {old(calls)[id].kind.stream} && calls == old(calls)[id := old(calls)[id].(phase := Computed(Plain))]
    {
      var _ := CloseStream(calls[id].kind.stream, Early);
      calls := calls[id := calls[id].(phase := Computed(Plain))];
    }

    // The result goes out before the pumps start.
    method Answer(id: CallId)
      requires CanAnswer(View(), id)
      modifies this
      ensures Made(AfterAnswer(old(View()), id))
      ensures var value := old(calls)[id].phase.value;
              && out == old(out) + (if broken then [] else [Up.Answer(Result(id, value))])
              && calls == old(calls) - {id} && streams == old(streams)
              && (value.Opened? && value.stream in old(ptys) ==>
                    ptys == old(ptys)[value.stream := old(ptys)[value.stream].(pump := Reading)])
    {
      var value := calls[id].phase.value;
      var _ := Write(Up.Answer(Result(id, value)));
      if value.Opened? && value.stream in ptys {
        ptys := ptys[value.stream := ptys[value.stream].(pump := Reading)];
      }
      answered := answered[id := value];
      calls := calls - {id};
    }

    // pumpOutput, from one Read of the PTY to the next or to its return.
    method PumpOnce(sid: StreamId)
      requires sid in ptys && ptys[sid].pump.Holding? && streams <= ptys.Keys
      modifies this`ptys, this`streams, this`out
      ensures Made(AfterPumpWrite(old(View()), sid))
      ensures var p := old(ptys)[sid];
              if p.pump.data == [] || !broken then
                && out == old(out) + (if p.pump.data == [] then [] else [Output(sid, p.pump.data)])
                && streams == old(streams) && ptys == old(ptys)[sid := p.(pump := if p.pump.eof then AtEnd else Reading)]
              else
                out == old(out) && streams == old(streams) - {sid} && ptys[sid].pump.Stopped?
    {
      var pump := ptys[sid].pump;
      var next := if pump.eof then AtEnd else Reading;
      if |pump.data| > 0 {
        var ok := Write(Output(sid, pump.data));
        if !ok {
          ptys := ptys[sid := ptys[sid].(pump := Stopped)];
          var _ := CloseStream(sid, Early);
          return;
        }
      }
      ptys := ptys[sid := ptys[sid].(pump := next)];
    }

    method PumpEnd(sid: StreamId)
      requires Pumping(View(), sid, AtEnd) && streams <= ptys.Keys
      modifies this`ptys, this`streams, this`toReport
      ensures Made((AfterPumpEnd(old(View()), sid), []))
      ensures streams == old(streams) - {sid} && ptys[sid].pump.Stopped?
      ensures toReport == old(toReport) + (if sid in old(streams) then {sid} else {})
    {
      ptys := ptys[sid := ptys[sid].(pump := Stopped)];
      var won := CloseStream(sid, PtyEnded);
      if won {
        toReport := toReport + {sid};
      }
    }

    // Marks the session closed, then closes the streams that were in the map one by one.
    method CloseStreams()
      requires streams <= ptys.Keys
      modifies this`closed, this`streams, this`ptys
      ensures Made((AfterCloseStreams(old(View())), []))
      ensures closed && streams == {}
    {
      closed := true;
      var ids := streams;
      while ids != {}
        invariant ids == streams <= old(streams)
        invariant ptys.Keys == old(ptys).Keys
        invariant forall sid | sid in ptys ::
          ptys[sid] == if sid in old(streams) - streams then old(ptys)[sid].(ending := Early) else old(ptys)[sid]
        invariant View() == old(View()).(closed := true, streams := streams, ptys := ptys) && out == old(out)
        decreases ids
      {
        var sid :| sid in ids;
        var _ := CloseStream(sid, Early);
        ids := ids - {sid};
      }
      assert ptys == AfterCloseStreams(old(View())).ptys;
    }
  }
}
