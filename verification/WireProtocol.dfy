// The two halves of a runner connection together: one ordered, reliable channel each
// way, and every interleaving of their steps.
//
// A channel is the sequence of everything written to it and how much of that the other
// side has read.

module WireProtocol {
  import opened Wrappers
  import opened StreamFrames
  import opened TerminalBuffer
  import opened Wire
  import Server = RunnerServer
  import Client = RunnerClient

  datatype System = System(
    server: Server.Server,
    client: Client.Client,
    up: seq<Up>,
    upRead: nat,
    down: seq<Down>,
    downRead: nat)

  datatype Event =
    | ServerStep(s: Server.Local)
    | ClientStep(c: Client.Local)
    | ServerReads
    | ClientReads

  const START := System(Server.NEW_SERVER, Client.NEW_CLIENT, [], 0, [], 0)

  ghost predicate Enabled(w: System, e: Event) {
    match e
    case ServerStep(s) => Server.Enabled(w.server, s)
    case ClientStep(c) => Client.Enabled(w.client, c)
    case ServerReads => w.upRead < |w.up| && !w.server.done && w.server.loop.Idle? && Server.StreamsKnown(w.server)
    case ClientReads => w.downRead < |w.down| && !w.client.closed
  }

  ghost function After(w: System, e: Event): System
    requires Enabled(w, e)
  {
    match e
    case ServerStep(s) =>
      var (server, sent) := Server.AfterLocal(w.server, s);
      w.(server := server, down := w.down + sent)
    case ClientStep(c) =>
      var (client, sent) := Client.AfterLocal(w.client, c);
      w.(client := client, up := w.up + sent)
    case ServerReads =>
      var (server, sent) := Server.AfterMessage(w.server, w.up[w.upRead]);
      w.(server := server, down := w.down + sent, upRead := w.upRead + 1)
    case ClientReads =>
      w.(client := Client.AfterMessage(w.client, w.down[w.downRead]), downRead := w.downRead + 1)
  }

  ghost predicate Step(w: System, w': System) {
    exists e :: Enabled(w, e) && w' == After(w, e)
  }

  // A run of the protocol: states from the start, each one step after the one before.
  ghost predicate IsRun(run: seq<System>) {
    && |run| > 0
    && run[0] == START
    && forall i | 0 <= i < |run| - 1 :: StepAt(run, i)
  }

  ghost predicate StepAt(run: seq<System>, i: nat)
    requires i + 1 < |run|
  {
    Step(run[i], run[i + 1])
  }

  // ----- the invariant

  function Handled(w: System): seq<Up> {
    if w.upRead <= |w.up| then w.up[..w.upRead] else w.up
  }

  function Received(w: System): seq<Down> {
    if w.downRead <= |w.down| then w.down[..w.downRead] else w.down
  }

  ghost predicate Sound(w: System) {
    && w.upRead <= |w.up|
    && w.downRead <= |w.down|
    && Server.ServerOk(w.server, Handled(w), w.down)
    && Client.ClientOk(w.client, w.up, Received(w))
    && Client.InputOk(w.client, Received(w))
  }

  lemma StartIsSound()
    ensures Sound(START)
  {
    Server.NewServerOk();
    Client.NewClientOk();
  }

  lemma PtyIdsAreUsed(w: System)
    requires Client.PtysOk(w.client, w.up)
    ensures w.client.nextStream + 1 !in w.client.ptys
    ensures forall sid :: !View(w.up, sid).Disordered?
  {
    var next := w.client.nextStream + 1;
    assert Client.PtyOk(w.client, View(w.up, next), next);
    forall sid ensures !View(w.up, sid).Disordered? {
      assert Client.PtyOk(w.client, View(w.up, sid), sid);
    }
  }

  lemma DistinctPrefix(w: System, n: nat)
    requires n <= |w.up| && DistinctAnswers(w.up)
    ensures DistinctAnswers(w.up[..n])
  {
  }

  // The read loop may take the next message: it is orderly and answers a call sent.
  lemma NextUpIsFit(w: System)
    requires Sound(w) && w.upRead < |w.up|
    ensures var m, handled := w.up[w.upRead], Handled(w) + [w.up[w.upRead]];
      && handled == w.up[..w.upRead + 1]
      && (forall sid :: !View(handled, sid).Disordered?)
      && DistinctAnswers(handled)
      && (m.Answer? ==> exists kind :: Call(m.result.id, kind) in w.down)
  {
    var m := w.up[w.upRead];
    PtyIdsAreUsed(w);
    assert Handled(w) + [m] == w.up[..w.upRead + 1];
    forall sid ensures !View(Handled(w) + [m], sid).Disordered? {
      ViewGrows(w.up, w.upRead + 1, sid);
    }
    DistinctPrefix(w, w.upRead + 1);
    if m.Answer? {
      assert m in w.up;
      var kind :| Call(m.result.id, kind) in Received(w);
      assert Call(m.result.id, kind) in w.down;
    }
  }

  lemma NextDownIsFit(w: System)
    requires Sound(w) && w.downRead < |w.down|
    ensures var m, got := w.down[w.downRead], Received(w) + [w.down[w.downRead]];
      && got == w.down[..w.downRead + 1]
      && DistinctCalls(got)
      && (m.Input? ==> View(w.up, m.stream).Open? && m.stream in w.client.ptys)
  {
    var m := w.down[w.downRead];
    assert Received(w) + [m] == w.down[..w.downRead + 1];
    if m.Input? {
      assert m in w.down;
      PtyIdsAreUsed(w);
      assert Server.StreamOk(w.server, View(Handled(w), m.stream), m.stream);
      ViewGrows(w.up, w.upRead, m.stream);
      assert Client.PtyOk(w.client, View(w.up, m.stream), m.stream);
    }
  }

  lemma ServerStepKeepsSound(w: System, s: Server.Local)
    requires Sound(w) && Enabled(w, ServerStep(s))
    ensures Sound(After(w, ServerStep(s)))
  {
    var w' := After(w, ServerStep(s));
    Server.LocalKeeps(w.server, Handled(w), w.down, s);
    assert Received(w') == Received(w) && Handled(w') == Handled(w);
  }

  lemma ClientStepKeepsSound(w: System, c: Client.Local)
    requires Sound(w) && Enabled(w, ClientStep(c))
    ensures Sound(After(w, ClientStep(c)))
  {
    var w' := After(w, ClientStep(c));
    ClientHalfKeeps(w, c);
    assert Received(w') == Received(w) && Handled(w') == Handled(w);
  }

  lemma ClientHalfKeeps(w: System, c: Client.Local)
    requires Client.ClientOk(w.client, w.up, Received(w)) && Client.InputOk(w.client, Received(w)) && Client.Enabled(w.client, c)
    ensures var (client, sent) := Client.AfterLocal(w.client, c);
            Client.ClientOk(client, w.up + sent, Received(w)) && Client.InputOk(client, Received(w))
  {
    PtyIdsAreUsed(w);
    Client.LocalKeeps(w.client, w.up, Received(w), c);
    Client.LocalKeepsInput(w.client, Received(w), c);
  }

  lemma ServerReadKeepsSound(w: System)
    requires Sound(w) && Enabled(w, ServerReads)
    ensures Sound(After(w, ServerReads))
  {
    NextUpIsFit(w);
    Server.MessageKeeps(w.server, Handled(w), w.down, w.up[w.upRead]);
    assert Received(After(w, ServerReads)) == Received(w);
  }

  lemma ClientReadKeepsSound(w: System)
    requires Sound(w) && Enabled(w, ClientReads)
    ensures Sound(After(w, ClientReads))
  {
    NextDownIsFit(w);
    Client.MessageKeeps(w.client, w.up, Received(w), w.down[w.downRead]);
    Client.MessageKeepsInput(w.client, Received(w), w.down[w.downRead]);
    assert Handled(After(w, ClientReads)) == Handled(w);
  }

  lemma StepKeepsSound(w: System, e: Event)
    requires Sound(w) && Enabled(w, e)
    ensures Sound(After(w, e))
  {
    match e
    case ServerStep(s) => ServerStepKeepsSound(w, s);
    case ClientStep(c) => ClientStepKeepsSound(w, c);
    case ServerReads => ServerReadKeepsSound(w);
    case ClientReads => ClientReadKeepsSound(w);
  }

  lemma {:induction false} RunIsSound(run: seq<System>, n: nat)
    requires IsRun(run) && n < |run|
    ensures Sound(run[n])
  {
    if n == 0 {
      StartIsSound();
    } else {
      RunIsSound(run, n - 1);
      assert StepAt(run, n - 1);
      var e :| Enabled(run[n - 1], e) && run[n] == After(run[n - 1], e);
      StepKeepsSound(run[n - 1], e);
    }
  }

  lemma StepIsLater(w: System, e: Event)
    requires Sound(w) && Enabled(w, e)
    ensures Server.Later(w.server, After(w, e).server)
  {
    match e
    case ServerStep(s) =>
      forall id | id in w.server.callers ensures id <= w.server.nextId {
        assert Server.CallerOk(w.server, Handled(w), id);
      }
      assert Server.LoopOk(w.server, Handled(w));
      Server.LocalIsLater(w.server, s);
    case ServerReads =>
      var m := w.up[w.upRead];
      NextUpIsFit(w);
      if m.Answer? {
        Server.ResultKeepsStreams(w.server, Handled(w), m.result);
      }
      forall id | id in w.server.pending && id in w.server.callers ensures w.server.callers[id].slot.None? {
        assert Server.CallerOk(w.server, Handled(w), id);
      }
      Server.MessageIsLater(w.server, m);
    case _ =>
  }

  lemma {:induction false} LaterAll(servers: seq<Server.Server>, i: nat, j: nat)
    requires i <= j < |servers|
    requires forall k | i <= k < j :: Server.Later(servers[k], servers[k + 1])
    ensures Server.Later(servers[i], servers[j])
  {
    if i < j {
      LaterAll(servers, i, j - 1);
      assert Server.Later(servers[j - 1], servers[j - 1 + 1]);
      Server.LaterChains(servers[i], servers[j - 1], servers[j]);
    }
  }

  lemma RunIsLater(run: seq<System>, i: nat, j: nat)
    requires IsRun(run) && i <= j < |run|
    ensures Server.Later(run[i].server, run[j].server)
  {
    var servers := seq(|run|, k requires 0 <= k < |run| => run[k].server);
    forall k | i <= k < j
      ensures Server.Later(servers[k], servers[k + 1])
    {
      NextIsLater(run, k);
    }
    LaterAll(servers, i, j);
  }

  lemma NextIsLater(run: seq<System>, k: nat)
    requires IsRun(run) && k + 1 < |run|
    ensures Server.Later(run[k].server, run[k + 1].server)
  {
    RunIsSound(run, k);
    assert StepAt(run, k);
    var e :| Enabled(run[k], e) && run[k + 1] == After(run[k], e);
    StepIsLater(run[k], e);
  }

  // ----- what holds in every run

  // The bytes a reader got are a prefix, in order, of the bytes the runner's PTY gave out.
  lemma ReaderGetsPrefix(run: seq<System>, n: nat, sid: StreamId)
    requires IsRun(run) && n < |run| && sid in run[n].server.terminals
    ensures sid in run[n].client.ptys
    ensures run[n].server.terminals[sid].buffer.delivered <= run[n].client.ptys[sid].produced
  {
    var w := run[n];
    RunIsSound(run, n);
    assert Server.StreamOk(w.server, View(Handled(w), sid), sid);
    assert Client.PtyOk(w.client, View(w.up, sid), sid);
    ViewGrows(w.up, w.upRead, sid);
    var b := w.server.terminals[sid].buffer;
    assert b.delivered <= b.accepted;
  }

  // When the pump reached the end of the PTY and its report has been handled, a reader
  // that nobody closed has, or will still be given, every byte, and it meets the end of
  // the stream only after the last of them.
  lemma ReaderGetsAll(run: seq<System>, n: nat, sid: StreamId)
    requires IsRun(run) && n < |run|
    requires var w := run[n];
      && sid in w.server.terminals && !w.server.terminals[sid].buffer.closed
      && StreamClosed(sid) in Handled(w)
      && sid in w.client.ptys && w.client.ptys[sid].ending.PtyEnded?
    ensures var b, p := run[n].server.terminals[sid].buffer, run[n].client.ptys[sid];
      && b.ended
      && b.delivered + b.buf == p.produced
      && forall room :: AfterRead(b, room).1.Eof? <==> b.delivered == p.produced
  {
    var w := run[n];
    RunIsSound(run, n);
    assert Server.StreamOk(w.server, View(Handled(w), sid), sid);
    assert Client.PtyOk(w.client, View(w.up, sid), sid);
    ViewHolds(Handled(w), sid);
    ViewGrows(w.up, w.upRead, sid);
  }

  // ----- how a stream ends

  // The PTY ran out: every byte it gave out has been written.
  ghost predicate RanOut(w: System, sid: StreamId) {
    sid in w.client.ptys && w.client.ptys[sid].pump.AtEnd?
  }

  // A failed write, a close call, a full input queue, or the end of the session.
  ghost predicate CutOff(w: System, w': System, sid: StreamId) {
    && sid in w.client.ptys
    && var p := w.client.ptys[sid];
       || (w.client.broken && p.pump.Holding? && p.pump.data != [])
       || (exists id :: Call(id, CloseTerminal(sid)) in Received(w))
       || (|p.queue| >= 256 && w.downRead < |w.down| && w.down[w.downRead].Input? && w.down[w.downRead].stream == sid)
       || w'.client.closed
  }

  // The stream leaves the session's map at step k.
  ghost predicate EndsAt(run: seq<System>, k: nat, sid: StreamId, ending: Client.Ending) {
    && k + 1 < |run|
    && sid in run[k].client.streams && sid !in run[k + 1].client.streams
    && (if ending.PtyEnded? then RanOut(run[k], sid) else CutOff(run[k], run[k + 1], sid))
  }

  lemma StepEnds(w: System, e: Event, sid: StreamId)
    requires Sound(w) && Enabled(w, e) && sid in w.client.streams
    ensures sid in w.client.ptys && sid in After(w, e).client.ptys
    ensures var w' := After(w, e);
            sid !in w'.client.streams ==>
              if w'.client.ptys[sid].ending.PtyEnded? then RanOut(w, sid) else CutOff(w, w', sid)
  {
    assert Client.PtyOk(w.client, View(w.up, sid), sid);
    match e
    case ClientStep(c) =>
      Client.LocalEnds(w.client, c, sid);
      if c.RunOther? { assert Client.CallOk(w.client, Received(w), c.id); }
    case ClientReads => Client.MessageEnds(w.client, w.down[w.downRead], sid);
    case _ =>
  }

  lemma StepKeepsEnded(w: System, e: Event, sid: StreamId)
    requires Sound(w) && Enabled(w, e)
    ensures var c, c' := w.client, After(w, e).client;
            if sid in c.ptys then
              sid in c'.ptys && (sid !in c.streams ==> sid !in c'.streams && c'.ptys[sid].ending == c.ptys[sid].ending)
            else sid in c'.ptys ==> sid in c'.streams
  {
    PtyIdsAreUsed(w);
    match e
    case ClientStep(c) => Client.LocalKeepsEnded(w.client, c, sid);
    case ClientReads => Client.MessageKeepsEnded(w.client, w.down[w.downRead], sid);
    case _ =>
  }

  // A stream of the runner ends for a cause: its PTY ran out, or it was cut off by a
  // failed write, a close call, a full input queue or the end of the session.
  lemma {:induction false} StreamsEndForCause(run: seq<System>, n: nat, sid: StreamId) returns (k: nat)
    requires IsRun(run) && n < |run|
    requires sid in run[n].client.ptys && sid !in run[n].client.streams
    ensures k < n && EndsAt(run, k, sid, run[n].client.ptys[sid].ending)
    decreases n
  {
    assert n > 0;
    RunIsSound(run, n - 1);
    assert StepAt(run, n - 1);
    var e :| Enabled(run[n - 1], e) && run[n] == After(run[n - 1], e);
    StepKeepsEnded(run[n - 1], e, sid);
    if sid in run[n - 1].client.streams {
      StepEnds(run[n - 1], e, sid);
      k := n - 1;
    } else {
      k := StreamsEndForCause(run, n - 1, sid);
    }
  }

  // On a socket that works a pump that holds output writes it in one frame, stays with
  // its stream, and reads on, or is at its end if that was the end of the PTY.
  lemma PumpGoesOn(run: seq<System>, n: nat, sid: StreamId)
    requires IsRun(run) && n < |run| && !run[n].client.broken
    requires sid in run[n].client.ptys && run[n].client.ptys[sid].pump.Holding?
    ensures Enabled(run[n], ClientStep(Client.PumpWrite(sid)))
    ensures var w, w' := run[n], After(run[n], ClientStep(Client.PumpWrite(sid)));
            var p := w.client.ptys[sid];
      && w'.up == w.up + (if p.pump.data == [] then [] else [Output(sid, p.pump.data)])
      && w'.client == w.client.(ptys := w.client.ptys[sid := p.(pump := if p.pump.eof then Client.AtEnd else Client.Reading)])
  {
  }

  // The bytes pumpInput wrote to the PTY are a prefix of those the control plane wrote.
  lemma PtyGetsPrefix(run: seq<System>, n: nat, sid: StreamId)
    requires IsRun(run) && n < |run| && sid in run[n].client.ptys
    ensures run[n].client.ptys[sid].typed <= Typed(run[n].down, sid)
  {
    var w := run[n];
    RunIsSound(run, n);
    assert Client.InputOne(w.client, Received(w), sid);
    TypedGrows(w.down, w.downRead, sid);
  }

  // Every call id is sent once and answered at most once.
  lemma CallIdsAreUsedOnce(run: seq<System>, n: nat)
    requires IsRun(run) && n < |run|
    ensures DistinctCalls(run[n].down)
    ensures DistinctAnswers(run[n].up)
  {
    RunIsSound(run, n);
  }

  ghost predicate OwnReply(w: System, id: CallId, r: Server.Reply) {
    && r.result.id == id
    && id in w.client.answered
    && w.client.answered[id] == r.result.value
  }

  // A reply in a slot or in a caller's hands is the one the runner computed for that
  // caller's own call, and the read loop always finds a pending call's slot empty.
  lemma RepliesAreOwn(run: seq<System>, n: nat, id: CallId)
    requires IsRun(run) && n < |run| && id in run[n].server.callers
    ensures var c := run[n].server.callers[id];
      && (c.slot.Some? ==> OwnReply(run[n], id, c.slot.value))
      && (c.outcome.Got? ==> OwnReply(run[n], id, c.outcome.reply))
      && (id in run[n].server.pending ==> c.slot.None?)
  {
    var w := run[n];
    RunIsSound(run, n);
    assert Server.CallerOk(w.server, Handled(w), id);
    forall r: Wire.Result | Answer(r) in Handled(w) ensures r.id in w.client.answered && w.client.answered[r.id] == r.value {
      assert Answer(r) in w.up;
    }
  }

  // A caller that has its reply, or gave up, never gets another.
  lemma OutcomeIsFinal(run: seq<System>, i: nat, j: nat, id: CallId)
    requires IsRun(run) && i <= j < |run|
    requires id in run[i].server.callers && !run[i].server.callers[id].outcome.Waiting?
    ensures id in run[j].server.callers
    ensures run[j].server.callers[id].outcome == run[i].server.callers[id].outcome
  {
    RunIsLater(run, i, j);
  }

  // Until the connection goes down, a caller is waiting for an answer that can still come,
  // or the read loop has it in hand, or it is in the caller's slot already.
  lemma NoCallIsLost(run: seq<System>, n: nat, id: CallId)
    requires IsRun(run) && n < |run| && id in run[n].server.callers
    requires !run[n].server.done && run[n].server.callers[id].outcome.Waiting?
    ensures var s := run[n].server;
      && (id in s.pending <==> s.callers[id].slot.None? && !Server.IsFilling(s, id))
      && (Server.IsFilling(s, id) ==> s.callers[id].slot.None?)
  {
    RunIsSound(run, n);
    assert Server.CallerOk(run[n].server, Handled(run[n]), id);
  }

  // From the moment the read loop fills its caller's slot on, a stream is the caller's to
  // take, taken by it, or closed for it, if and only if the caller was still waiting at
  // that moment. Otherwise it is in a reply nobody will look at, until the connection
  // ends and the stream with it.
  lemma StreamsAreOwned(run: seq<System>, k: nat, n: nat, sid: StreamId)
    requires IsRun(run) && k < n < |run|
    requires var s := run[k].server; s.loop.Filling? && s.loop.reply.stream == Some(sid) && !run[k + 1].server.loop.Filling?
    ensures sid in run[k].server.terminals && run[k].server.terminals[sid].owner in run[k].server.callers && sid in run[n].server.terminals
    ensures var waiting := run[k].server.callers[run[k].server.terminals[sid].owner].outcome.Waiting?;
      && (Server.Owned(run[n].server, sid) <==> waiting)
      && (Server.Lost(run[n].server, sid) <==> !waiting)
    ensures var b := run[n].server.terminals[sid].buffer; run[n].server.done ==> b.ended || b.closed
  {
    FillStays(run, k, n, sid);
    RunIsSound(run, n);
    Server.FillIsForGood(run[n].server, Handled(run[n]), sid);
  }

  lemma FillStays(run: seq<System>, k: nat, n: nat, sid: StreamId)
    requires IsRun(run) && k < n < |run|
    requires var s := run[k].server; s.loop.Filling? && s.loop.reply.stream == Some(sid) && !run[k + 1].server.loop.Filling?
    ensures sid in run[k].server.terminals && run[k].server.terminals[sid].owner in run[k].server.callers
    ensures var id := run[k].server.terminals[sid].owner;
      && sid in run[n].server.terminals && run[n].server.terminals[sid].owner == id && id in run[n].server.callers
      && run[n].server.callers[id].filled == if run[k].server.callers[id].outcome.Waiting? then Server.InTime else Server.Late
  {
    RunIsSound(run, k);
    FillsSlot(run, k);
    Server.FillDecides(run[k].server, Handled(run[k]), sid);
    RunIsLater(run, k + 1, n);
  }

  // And at every state of every run a stream is in the read loop's hands, or its caller's,
  // or lost, and lost only to a caller that gave up or to an ending connection.
  lemma StreamsAreAccountedFor(run: seq<System>, n: nat, sid: StreamId)
    requires IsRun(run) && n < |run| && sid in run[n].server.terminals
    ensures var s := run[n].server; var owner := s.terminals[sid].owner;
      && owner in s.callers && s.callers[owner].kind.OpenTerminal?
      && (if s.callers[owner].filled.Unfilled? then Server.IsFilling(s, owner) && s.loop.reply.stream == Some(sid)
          else Server.Owned(s, sid) <==> !Server.Lost(s, sid))
      && (Server.Lost(s, sid) ==> s.callers[owner].outcome.GaveUp? || (s.callers[owner].outcome.Disconnected? && s.cancelled))
  {
    var s := run[n].server;
    RunIsSound(run, n);
    assert Server.OwnerOk(s, sid);
    assert Server.CallerOk(s, Handled(run[n]), s.terminals[sid].owner);
    if !s.callers[s.terminals[sid].owner].filled.Unfilled? {
      Server.FillIsForGood(s, Handled(run[n]), sid);
    }
  }

  // A run in which a stream is lost: the runner opens a terminal for a call whose caller gives up
  // between the two halves of handleResult. The PTY is live and registered on both sides,
  // no close was queued, and nobody holds the stream.
  lemma StreamCanBeLost() returns (run: seq<System>)
    ensures IsRun(run)
    ensures var w := run[|run| - 1];
      && 1 in w.server.terminals && 1 in w.server.streams && !w.server.done
      && Server.Lost(w.server, 1) && !Server.Owned(w.server, 1)
      && w.server.loop.Idle? && w.server.callers.Keys == {1}
      && !w.server.terminals[1].buffer.ended && !w.server.terminals[1].buffer.closed
      && 1 in w.client.ptys && w.client.ptys[1].ending.Live? && 1 in w.client.streams
      && w.down == [Call(1, OpenTerminal), Cancel(1)]
  {
    run := [START];
    run := Extended(run, ServerStep(Server.StartCall(OpenTerminal)));
    run := Extended(run, ClientReads);
    run := Extended(run, ClientStep(Client.OpenPty(1)));
    run := Extended(run, ClientStep(Client.SendAnswer(1)));
    run := Extended(run, ServerReads);
    run := Extended(run, ServerStep(Server.GiveUp(1)));
    run := Extended(run, ServerStep(Server.FillSlot));
  }

  lemma Extended(run: seq<System>, e: Event) returns (longer: seq<System>)
    requires IsRun(run) && Enabled(run[|run| - 1], e)
    ensures IsRun(longer) && longer == run + [After(run[|run| - 1], e)]
  {
    longer := run + [After(run[|run| - 1], e)];
    forall i | 0 <= i < |longer| - 1
      ensures StepAt(longer, i)
    {
      if i < |run| - 1 {
        assert StepAt(run, i);
      } else {
        assert Step(run[i], After(run[i], e));
      }
    }
  }

  // The read loop lets go of a reply in no other way than by filling the slot.
  lemma FillsSlot(run: seq<System>, k: nat)
    requires IsRun(run) && k + 1 < |run| && run[k].server.loop.Filling? && !run[k + 1].server.loop.Filling?
    ensures run[k].server.loop.reply.result.id in run[k].server.callers
    ensures run[k + 1].server == Server.AfterFill(run[k].server)
  {
    RunIsSound(run, k);
    assert StepAt(run, k);
    var e :| Enabled(run[k], e) && run[k + 1] == After(run[k], e);
    assert Server.LoopOk(run[k].server, Handled(run[k]));
    if e.ServerStep? {
      KeepsFilling(run[k].server, e.s);
    }
  }

  lemma KeepsFilling(s: Server.Server, e: Server.Local)
    requires Server.Enabled(s, e) && s.loop.Filling?
    ensures Server.AfterLocal(s, e).0.loop == s.loop || e.FillSlot?
  {
  }

  // No stream is both registered and a tombstone, and a tombstone is for good.
  lemma ClosedStreamsStayClosed(run: seq<System>, i: nat, j: nat, sid: StreamId)
    requires IsRun(run) && i <= j < |run| && sid in run[i].server.closedStreams
    ensures sid in run[j].server.closedStreams && sid !in run[j].server.streams
  {
    RunIsLater(run, i, j);
    RunIsSound(run, j);
    assert Server.StreamOk(run[j].server, View(Handled(run[j]), sid), sid);
  }

  // The runner is told at most once to close a stream.
  lemma OneCloseCall(run: seq<System>, n: nat, i: nat, j: nat, sid: StreamId)
    requires IsRun(run) && n < |run|
    requires i < |run[n].down| && j < |run[n].down|
    requires run[n].down[i].Call? && run[n].down[i].kind == CloseTerminal(sid)
    requires run[n].down[j].Call? && run[n].down[j].kind == CloseTerminal(sid)
    ensures i == j
    ensures sid in run[n].server.closedStreams
  {
    RunIsSound(run, n);
    assert run[n].down[i] in run[n].down;
  }

  // An announced stream that never reached a reader belongs to a call whose caller had
  // already gone; it is closed, if not before, by its first output.
  lemma ForgottenStreams(run: seq<System>, n: nat, id: CallId, sid: StreamId, data: bytes)
    requires IsRun(run) && n < |run|
    requires var w := run[n]; Answer(Wire.Result(id, Opened(sid))) in Handled(w) && sid !in w.server.terminals
    ensures id in run[n].server.callers && run[n].server.callers[id].kind.OpenTerminal?
    ensures run[n].server.callers[id].outcome.GaveUp?
    ensures data != [] && Output(sid, data) in Handled(run[n]) ==> sid in run[n].server.closedStreams
  {
    var w := run[n];
    RunIsSound(run, n);
    var m := Answer(Wire.Result(id, Opened(sid)));
    assert m in w.up;
    var kind :| Call(id, kind) in Received(w) && kind.OpenTerminal?;
    assert Call(id, kind) in w.down;
    assert Server.StreamOk(w.server, View(Handled(w), sid), sid);
    if Output(sid, data) in Handled(w) && data != [] && sid !in w.server.closedStreams {
      OutputShows(Handled(w), sid, data);
    }
  }

  // Output handled before any report of the close is in the view.
  lemma {:induction false} OutputShows(log: seq<Up>, sid: StreamId, data: bytes)
    requires !View(log, sid).Disordered? && Output(sid, data) in log
    ensures View(log, sid).Open?
    ensures !View(log, sid).closed && data != [] ==> View(log, sid).data != []
  {
    var init, last := log[..|log| - 1], log[|log| - 1];
    assert log == init + [last];
    if Output(sid, data) in init {
      OutputShows(init, sid, data);
    }
  }

  // The step in which that happens: the first output of such a stream queues exactly one
  // close_terminal for it, and later output queues nothing.
  lemma FirstOutputCloses(run: seq<System>, n: nat, sid: StreamId, data: bytes)
    requires IsRun(run) && n < |run| && Enabled(run[n], ServerReads)
    requires run[n].up[run[n].upRead] == Output(sid, data) && sid !in run[n].server.terminals
    ensures var w, w' := run[n], After(run[n], ServerReads);
      && sid in w'.server.closedStreams
      && w'.down == w.down + (if sid in w.server.closedStreams || !w.server.outboxOpen then []
                              else [Call(w.server.nextId + 1, CloseTerminal(sid))])
  {
    RunIsSound(run, n);
    assert Server.StreamOk(run[n].server, View(Handled(run[n]), sid), sid);
    assert run[n].down + [] == run[n].down;
  }

  // ----- a terminal that works

  // A caller has its stream, the PTY is read and neither side has said anything on it.
  ghost predicate IsOpen(w: System) {
    && !w.server.done && w.server.outboxOpen && w.server.loop.Idle? && w.server.nextId == 1
    && w.server.streams == {1} && w.server.terminals == map[1 := Server.Terminal(1, EMPTY)] && w.server.closedStreams == {}
    && 1 in w.server.callers && w.server.callers[1].outcome == Server.Got(Server.Reply(Wire.Result(1, Opened(1)), Some(1)))
    && !w.client.broken && !w.client.closed && w.client.streams == {1} && w.client.calls == map[] && w.client.toReport == {}
    && w.client.ptys == map[1 := Client.Pty(1, Client.Reading, Client.Live, [], [], [])]
    && w.upRead == |w.up| && w.downRead == |w.down|
  }

  lemma OpenTerminalRun() returns (run: seq<System>)
    ensures IsRun(run) && IsOpen(run[|run| - 1])
  {
    run := [START];
    run := Extended(run, ServerStep(Server.StartCall(OpenTerminal)));
    run := Extended(run, ClientReads);
    run := Extended(run, ClientStep(Client.OpenPty(1)));
    run := Extended(run, ClientStep(Client.SendAnswer(1)));
    run := Extended(run, ServerReads);
    run := Extended(run, ServerStep(Server.FillSlot));
    run := Extended(run, ServerStep(Server.TakeReply(1)));
  }

  lemma InputIsTyped(c: Client.Client, data: bytes)
    requires c.streams == {1} && c.ptys == map[1 := Client.Pty(1, Client.Reading, Client.Live, [], [], [])]
    ensures var c' := Client.AfterInput(c, 1, data);
      && 1 in c'.ptys && c'.ptys[1].queue == [data]
      && Client.AfterPumpInput(c', 1) == c.(ptys := map[1 := c.ptys[1].(typed := data)])
  {
    assert [] + [data] == [data] && [data][1..] == [] && [] + data == data;
  }

  // What the control plane writes on the stream is typed into the PTY.
  lemma Types(run: seq<System>, data: bytes) returns (longer: seq<System>)
    requires IsRun(run) && IsOpen(run[|run| - 1])
    ensures IsRun(longer) && run <= longer
    ensures var w, w' := run[|run| - 1], longer[|longer| - 1];
      && w'.server == w.server && w'.up == w.up && w'.upRead == w.upRead && w'.downRead == |w'.down|
      && w'.client == w.client.(ptys := map[1 := w.client.ptys[1].(typed := data)])
  {
    InputIsTyped(run[|run| - 1].client, data);
    longer := Extended(run, ServerStep(Server.WriteTerminal(1, data)));
    longer := Extended(longer, ClientReads);
    longer := Extended(longer, ClientStep(Client.PumpInput(1)));
  }

  lemma PtyIsWritten(c: Client.Client, typed: bytes, data: bytes)
    requires c.ptys == map[1 := Client.Pty(1, Client.Reading, Client.Live, [], [], typed)] && !c.broken && data != []
    ensures var c' := Client.AfterPtyRead(c, 1, data, true);
      && 1 in c'.ptys && c'.ptys[1].pump.Holding?
      && Client.AfterPumpWrite(c', 1)
         == (c.(ptys := map[1 := Client.Pty(1, Client.AtEnd, Client.Live, data, [], typed)]), [Output(1, data)])
  {
    var held := Client.Pty(1, Client.Holding(data, true), Client.Live, data, [], typed);
    assert [] + data == data;
    OnlyKey(c.ptys[1], held);
    OnlyKey(held, held.(pump := Client.AtEnd));
    assert Client.AfterPtyRead(c, 1, data, true) == c.(ptys := map[1 := held]);
  }

  lemma OnlyKey<V>(v: V, v': V)
    ensures map[1 := v][1 := v'] == map[1 := v']
  {
  }

  lemma OutputIsRead(s: Server.Server, data: bytes)
    requires s.terminals == map[1 := Server.Terminal(1, EMPTY)] && s.streams == {1} && s.loop.Idle?
    requires 0 < |data| <= MAX_STREAM_BUFFER
    ensures var (s', sent) := Server.AfterOutput(s, 1, data);
      && sent == [] && Server.CanReadTerminal(s', 1)
      && Server.AfterReadTerminal(s', 1, |data|) == s.(terminals := map[1 := Server.Terminal(1, Buffer([], false, false, data, data))])
  {
    assert [] + data == data && data[..|data|] == data && data[|data|..] == [];
  }

  lemma Delivers(run: seq<System>, typed: bytes, data: bytes) returns (longer: seq<System>)
    requires IsRun(run) && 0 < |data| <= MAX_STREAM_BUFFER
    requires var w := run[|run| - 1];
      && IsOpen(w.(client := w.client.(ptys := map[1 := Client.Pty(1, Client.Reading, Client.Live, [], [], [])])))
      && w.client.ptys == map[1 := Client.Pty(1, Client.Reading, Client.Live, [], [], typed)]
    ensures IsRun(longer) && run <= longer
    ensures var w, w' := run[|run| - 1], longer[|longer| - 1];
      && w'.server == w.server.(terminals := map[1 := Server.Terminal(1, Buffer([], false, false, data, data))])
      && w'.client == w.client.(ptys := map[1 := Client.Pty(1, Client.AtEnd, Client.Live, data, [], typed)])
      && w'.upRead == |w'.up|
  {
    PtyIsWritten(run[|run| - 1].client, typed, data);
    OutputIsRead(run[|run| - 1].server, data);
    longer := Extended(run, ClientStep(Client.ReadPty(1, data, true)));
    longer := Extended(longer, ClientStep(Client.PumpWrite(1)));
    longer := Extended(longer, ServerReads);
    longer := Extended(longer, ServerStep(Server.ReadTerminal(1, |data|)));
  }

  // What the PTY gives out reaches the reader, and after it the end.
  lemma Shows(run: seq<System>, typed: bytes, data: bytes) returns (longer: seq<System>)
    requires IsRun(run) && 0 < |data| <= MAX_STREAM_BUFFER
    requires var w := run[|run| - 1];
      && IsOpen(w.(client := w.client.(ptys := map[1 := Client.Pty(1, Client.Reading, Client.Live, [], [], [])])))
      && w.client.ptys == map[1 := Client.Pty(1, Client.Reading, Client.Live, [], [], typed)]
    ensures IsRun(longer) && run <= longer
    ensures var w := longer[|longer| - 1];
      && 1 in w.server.terminals && w.server.terminals[1].buffer == Buffer([], true, false, data, data)
      && 1 in w.client.ptys && w.client.ptys[1] == Client.Pty(1, Client.Stopped, Client.PtyEnded, data, [], typed)
      && w.server.streams == {} && w.client.streams == {} && !w.server.done && !w.client.broken && !w.client.closed
  {
    longer := Delivers(run, typed, data);
    longer := Extended(longer, ClientStep(Client.PumpEnd(1)));
    longer := Extended(longer, ClientStep(Client.Report(1)));
    longer := Extended(longer, ServerReads);
  }

  // Whatever is typed and whatever is shown, there is a run in which a terminal is opened,
  // the one arrives at the PTY and the other, and then the end, at the reader.
  lemma TerminalsWork(typed: bytes, shown: bytes) returns (run: seq<System>)
    requires 0 < |shown| <= MAX_STREAM_BUFFER
    ensures IsRun(run)
    ensures var w := run[|run| - 1];
      && 1 in w.server.callers && w.server.callers[1].outcome.Got? && w.server.callers[1].outcome.reply.stream == Some(1)
      && 1 in w.server.terminals && w.server.terminals[1].buffer.delivered == shown
      && CanRead(w.server.terminals[1].buffer) && AfterRead(w.server.terminals[1].buffer, 1).1.Eof?
      && 1 in w.client.ptys && w.client.ptys[1].typed == typed && w.client.ptys[1].produced == shown
  {
    var atOpen := OpenTerminalRun();
    var written := Types(atOpen, typed);
    run := Shows(written, typed, shown);
    var n := |atOpen| - 1;
    RunIsLater(run, n, |run| - 1);
  }

  // And a reader that closes its stream has it closed on the runner.
  lemma CloseReachesRunner() returns (run: seq<System>)
    ensures IsRun(run)
    ensures var w := run[|run| - 1];
      && w.server.streams == {} && 1 in w.server.terminals && w.server.terminals[1].buffer.closed
      && 1 in w.client.ptys && w.client.ptys[1].ending.Early? && w.client.streams == {}
      && w.down != [] && w.down[|w.down| - 1] == Call(2, CloseTerminal(1))
  {
    run := OpenTerminalRun();
    run := Extended(run, ServerStep(Server.CloseStream(1)));
    run := Extended(run, ClientReads);
    run := Extended(run, ClientStep(Client.RunOther(2)));
  }
}
