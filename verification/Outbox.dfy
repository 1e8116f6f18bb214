// The bounded queue of frames to a runner (internal/runnerserver/outbox.go): senders
// account for count and bytes under a lock, one writer drains a channel.

module OutboxModel {
  import opened Wrappers
  import opened StreamFrames

  const MAX_OUTBOX_FRAMES := 4096

  type Frame = bytes

  // `queue` is the channel's buffer, `flight` the frame taken by the writer and not yet
  // accounted for. `accepted` and `written` record the frames send took and the socket
  // took; `closings` counts the times the channel was closed.
  datatype Outbox = Outbox(
    queue: seq<Frame>,
    flight: Option<Frame>,
    count: int,
    bytes: int,
    closed: bool,
    closings: nat,
    stopped: bool,
    accepted: seq<Frame>,
    written: seq<Frame>)

  const NEW_OUTBOX := Outbox([], None, 0, 0, false, 0, false, [], [])

  datatype SendResult = Sent | Closed | Full

  function AfterClose(o: Outbox): Outbox {
    o.(closed := true, closings := o.closings + 1)
  }

  function AfterSend(o: Outbox, maxBytes: nat, f: Frame): (Outbox, SendResult) {
    if o.closed then (o, Closed)
    else if o.count + 1 > MAX_OUTBOX_FRAMES || o.bytes + |f| > maxBytes then (AfterClose(o), Full)
    else (o.(count := o.count + 1, bytes := o.bytes + |f|, queue := o.queue + [f], accepted := o.accepted + [f]), Sent)
  }

  function AfterFinish(o: Outbox): Outbox {
    if o.closed then o else AfterClose(o)
  }

  predicate CanTake(o: Outbox) {
    !o.stopped && o.flight.None? && o.queue != []
  }

  function AfterTake(o: Outbox): Outbox
    requires CanTake(o)
  {
    o.(queue := o.queue[1..], flight := Some(o.queue[0]))
  }

  // The socket write returns, with or without an error, and the frame is accounted for.
  function AfterWrite(o: Outbox, ok: bool): Outbox
    requires o.flight.Some?
  {
    var f := o.flight.value;
    o.(flight := None, count := o.count - 1, bytes := o.bytes - |f|, stopped := !ok,
       written := if ok then o.written + [f] else o.written)
  }

  // The writer returns: its context ended, or the channel is closed and drained.
  function AfterStop(o: Outbox): Outbox {
    o.(stopped := true)
  }

  datatype Event = Send(frame: Frame) | Finish | Take | Write(ok: bool) | Stop

  predicate Enabled(o: Outbox, e: Event) {
    match e
    case Take => CanTake(o)
    case Write(_) => o.flight.Some?
    case Stop => o.flight.None?
    case _ => true
  }

  function After(o: Outbox, maxBytes: nat, e: Event): Outbox
    requires Enabled(o, e)
  {
    match e
    case Send(f) => AfterSend(o, maxBytes, f).0
    case Finish => AfterFinish(o)
    case Take => AfterTake(o)
    case Write(ok) => AfterWrite(o, ok)
    case Stop => AfterStop(o)
  }

  // ----- the invariant

  function Size(frames: seq<Frame>): nat {
    if frames == [] then 0 else |frames[0]| + Size(frames[1..])
  }

  function InFlight(o: Outbox): seq<Frame> {
    if o.flight.Some? then [o.flight.value] else []
  }

  ghost predicate OutboxOk(o: Outbox, maxBytes: nat) {
    && o.count == |InFlight(o)| + |o.queue| <= MAX_OUTBOX_FRAMES
    && o.bytes == Size(InFlight(o)) + Size(o.queue) <= maxBytes
    && o.closings == (if o.closed then 1 else 0)
    && (o.stopped ==> o.flight.None? && o.written <= o.accepted)
    && (!o.stopped ==> o.written + InFlight(o) + o.queue == o.accepted)
  }

  lemma {:induction false} SizeSnoc(frames: seq<Frame>, f: Frame)
    ensures Size(frames + [f]) == Size(frames) + |f|
  {
    if frames != [] {
      SizeSnoc(frames[1..], f);
      assert (frames + [f])[1..] == frames[1..] + [f];
    }
  }

  lemma StepKeepsOk(o: Outbox, maxBytes: nat, e: Event)
    requires OutboxOk(o, maxBytes) && Enabled(o, e)
    ensures OutboxOk(After(o, maxBytes, e), maxBytes)
  {
    match e
    case Send(f) =>
      SizeSnoc(o.queue, f);
      assert o.written + InFlight(o) + (o.queue + [f]) == (o.written + InFlight(o) + o.queue) + [f];
    case Take =>
      assert o.queue == [o.queue[0]] + o.queue[1..];
      assert o.written + [] + o.queue == o.written + [o.queue[0]] + o.queue[1..];
    case Write(ok) =>
      assert [o.flight.value][1..] == [];
      assert o.written + InFlight(o) + o.queue == (o.written + [o.flight.value]) + [] + o.queue;
      assert o.written <= o.written + InFlight(o) + o.queue;
    case Stop =>
      assert o.stopped || o.written <= o.written + InFlight(o) + o.queue;
    case Finish =>
  }

  ghost predicate IsRun(run: seq<Outbox>, maxBytes: nat) {
    && |run| > 0
    && run[0] == NEW_OUTBOX
    && forall i | 0 <= i < |run| - 1 :: exists e :: Enabled(run[i], e) && run[i + 1] == After(run[i], maxBytes, e)
  }

  lemma {:induction false} RunIsOk(run: seq<Outbox>, maxBytes: nat, n: nat)
    requires IsRun(run, maxBytes) && n < |run|
    ensures OutboxOk(run[n], maxBytes)
  {
    if n > 0 {
      RunIsOk(run, maxBytes, n - 1);
      var e :| Enabled(run[n - 1], e) && run[n] == After(run[n - 1], maxBytes, e);
      StepKeepsOk(run[n - 1], maxBytes, e);
    }
  }

  // In every run the accounting is exact and within its limits, a send that gets as far
  // as the channel finds room in it, the channel is closed at most once, and what the
  // socket took is, in order, a prefix of what send took.
  lemma OutboxIsSafe(run: seq<Outbox>, maxBytes: nat, n: nat, f: Frame)
    requires IsRun(run, maxBytes) && n < |run|
    ensures var o := run[n];
      && o.count == |InFlight(o)| + |o.queue| && 0 <= o.count <= MAX_OUTBOX_FRAMES
      && o.bytes == Size(InFlight(o)) + Size(o.queue) && 0 <= o.bytes <= maxBytes
      && (AfterSend(o, maxBytes, f).1.Sent? ==> |o.queue| < MAX_OUTBOX_FRAMES && !o.closed)
      && o.closings <= 1
      && o.written <= o.accepted
  {
    RunIsOk(run, maxBytes, n);
    var o := run[n];
    assert !o.stopped ==> o.written <= o.written + InFlight(o) + o.queue;
  }

  // A frame is refused as too much exactly when one of the limits would be passed, and
  // everything after that is refused as closed.
  lemma FullIsForGood(o: Outbox, maxBytes: nat, f: Frame, g: Frame)
    requires OutboxOk(o, maxBytes)
    ensures AfterSend(o, maxBytes, f).1 == Full <==>
            !o.closed && (|InFlight(o)| + |o.queue| == MAX_OUTBOX_FRAMES
                          || Size(InFlight(o) + o.queue) + |f| > maxBytes)
    ensures AfterSend(o, maxBytes, f).1 == Full ==>
            AfterSend(AfterSend(o, maxBytes, f).0, maxBytes, g) == (AfterSend(o, maxBytes, f).0, Closed)
  {
    assert InFlight(o) != [] ==> (InFlight(o) + o.queue)[1..] == o.queue;
    assert InFlight(o) == [] ==> InFlight(o) + o.queue == o.queue;
    assert Size(InFlight(o) + o.queue) == Size(InFlight(o)) + Size(o.queue);
  }

  // A frame is taken exactly when send says so, and then it is the next to be written
  // after those before it.
  lemma SentIsAccepted(o: Outbox, maxBytes: nat, f: Frame)
    requires OutboxOk(o, maxBytes)
    ensures var (o', r) := AfterSend(o, maxBytes, f);
      && o'.accepted == (if r.Sent? then o.accepted + [f] else o.accepted)
      && o'.queue == (if r.Sent? then o.queue + [f] else o.queue)
      && o'.flight == o.flight && o'.written == o.written
      && (r.Closed? <==> o.closed) && (o'.closed <==> !r.Sent?)
  {
  }

  // While the socket takes frames the writer gets through the queue: each take and write
  // moves the next frame accepted to those written, until none is left.
  lemma WriterGoesOn(o: Outbox, maxBytes: nat)
    requires OutboxOk(o, maxBytes) && CanTake(o)
    ensures var taken := After(o, maxBytes, Take);
      && Enabled(taken, Write(true))
      && var o' := After(taken, maxBytes, Write(true));
         && o'.written == o.accepted[..|o.written| + 1] && o'.queue == o.queue[1..] && o'.accepted == o.accepted && !o'.stopped
  {
    assert o.written + [] + o.queue == o.accepted;
    assert o.written + o.queue == o.accepted;
    assert o.accepted[..|o.written| + 1] == o.written + [o.queue[0]];
  }

  // Nothing is left exactly when everything accepted has been written.
  lemma DrainedIsWritten(o: Outbox, maxBytes: nat)
    requires OutboxOk(o, maxBytes) && !o.stopped
    ensures o.flight.None? && o.queue == [] <==> o.written == o.accepted
  {
    assert |o.accepted| == |o.written| + |InFlight(o)| + |o.queue|;
    assert o.written + [] + [] == o.written;
  }
}

module OutboxQueue {
  import opened Wrappers
  import opened OutboxModel

  class Queue {
    const maxBytes: nat
    var frames: seq<Frame>
    var flight: Option<Frame>
    var count: int
    var bytes: int
    var closed: bool
    var stopped: bool
    ghost var closings: nat
    ghost var accepted: seq<Frame>
    ghost var sent: seq<Frame>

    ghost function View(): Outbox
      reads this
    {
      Outbox(frames, flight, count, bytes, closed, closings, stopped, accepted, sent)
    }

    constructor (maxBytes: nat)
      ensures this.maxBytes == maxBytes && View() == NEW_OUTBOX
    {
      this.maxBytes := maxBytes;
      frames, flight, count, bytes, closed, stopped := [], None, 0, 0, false, false;
      closings, accepted, sent := 0, [], [];
    }

    method Send(data: Frame) returns (result: SendResult)
      modifies this
      ensures (View(), result) == AfterSend(old(View()), maxBytes, data)
      ensures result.Closed? <==> old(closed)
      ensures result.Full? <==> !old(closed) && (old(count) + 1 > 4096 || old(bytes) + |data| > maxBytes)
      ensures result.Sent? ==> frames == old(frames) + [data] && count == old(count) + 1 && bytes == old(bytes) + |data| && !closed
      ensures !result.Sent? ==> frames == old(frames) && count == old(count) && bytes == old(bytes) && closed
    {
      if closed {
        return Closed;
      }
      if count + 1 > MAX_OUTBOX_FRAMES || bytes + |data| > maxBytes {
        closed, closings := true, closings + 1;
        return Full;
      }
      count := count + 1;
      bytes := bytes + |data|;
      frames, accepted := frames + [data], accepted + [data];
      return Sent;
    }

    method Finish()
      modifies this`closed, this`closings
      ensures View() == AfterFinish(old(View())) && closed
    {
      if !closed {
        closed, closings := true, closings + 1;
      }
    }

    // The writer's receive from the channel.
    method Take()
      requires CanTake(View())
      modifies this`frames, this`flight
      ensures View() == AfterTake(old(View()))
      ensures flight.Some? && [flight.value] + frames == old(frames)
    {
      frames, flight := frames[1..], Some(frames[0]);
    }

    // The writer after its socket write returned.
    method Written(ok: bool)
      requires flight.Some?
      modifies this
      ensures View() == AfterWrite(old(View()), ok)
      ensures flight.None? && count == old(count) - 1 && bytes == old(bytes) - |old(flight).value|
      ensures sent == if ok then old(sent) + [old(flight).value] else old(sent)
    {
      count := count - 1;
      bytes := bytes - |flight.value|;
      if ok {
        sent := sent + [flight.value];
      }
      flight, stopped := None, !ok;
    }
  }
}
