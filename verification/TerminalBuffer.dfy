// The bounded byte buffer behind a remote terminal (internal/runnerserver/pty.go).

module TerminalBuffer {
  import opened StreamFrames

  const MAX_STREAM_BUFFER := 0x10_0000

  // `accepted` and `delivered` record the whole life of the stream: every byte push
  // took in and every byte Read gave out.
  datatype Buffer = Buffer(buf: bytes, ended: bool, closed: bool, accepted: bytes, delivered: bytes)

  const EMPTY := Buffer([], false, false, [], [])

  ghost predicate BufferOk(b: Buffer) {
    && |b.buf| <= MAX_STREAM_BUFFER
    && (!b.closed ==> b.delivered + b.buf == b.accepted)
    && (b.closed ==> b.buf == [] && b.delivered <= b.accepted)
  }

  // The outcome false is the overflow that makes the read loop close the stream.
  function AfterPush(b: Buffer, data: bytes): (Buffer, bool) {
    if b.closed || b.ended then (b, true)
    else if |b.buf| + |data| > MAX_STREAM_BUFFER then (b, false)
    else (b.(buf := b.buf + data, accepted := b.accepted + data), true)
  }

  function AfterEnd(b: Buffer): Buffer {
    b.(ended := true)
  }

  function AfterShut(b: Buffer): Buffer {
    b.(closed := true, buf := [])
  }

  datatype ReadResult = Data(data: bytes) | Eof

  // Read waits on its condition variable until this holds.
  predicate CanRead(b: Buffer) {
    b.buf != [] || b.ended || b.closed
  }

  function AfterRead(b: Buffer, room: nat): (Buffer, ReadResult)
    requires CanRead(b)
  {
    if b.closed || b.buf == [] then (b, Eof)
    else
      var n := if room < |b.buf| then room else |b.buf|;
      (b.(buf := b.buf[n..], delivered := b.delivered + b.buf[..n]), Data(b.buf[..n]))
  }

  lemma PushKeeps(b: Buffer, data: bytes)
    requires BufferOk(b)
    ensures BufferOk(AfterPush(b, data).0)
    ensures var (b', fits) := AfterPush(b, data);
            if b.closed || b.ended then fits && b' == b
            else if fits then b'.delivered + b'.buf == (b.delivered + b.buf) + data
            else b' == b && |b.buf| + |data| > MAX_STREAM_BUFFER
  {
    assert b.delivered + (b.buf + data) == (b.delivered + b.buf) + data;
  }

  lemma ReadKeeps(b: Buffer, room: nat)
    requires BufferOk(b) && CanRead(b)
    ensures BufferOk(AfterRead(b, room).0)
    ensures AfterRead(b, room).1.Data? ==> AfterRead(b, room).0.delivered == b.delivered + AfterRead(b, room).1.data
    ensures AfterRead(b, room).1.Data? ==>
              var data := AfterRead(b, room).1.data;
              data + AfterRead(b, room).0.buf == b.buf && (|data| == room <= |b.buf| || (data == b.buf && |data| < room))
  {
    if !b.closed && b.buf != [] {
      var n := if room < |b.buf| then room else |b.buf|;
      assert b.buf == b.buf[..n] + b.buf[n..];
      assert (b.delivered + b.buf[..n]) + b.buf[n..] == b.delivered + b.buf;
    }
  }

  // A reader meets the end of an unclosed stream exactly when it has taken every byte
  // that push ever accepted; after Close it may miss a suffix but never sees a gap.
  lemma EofMeansDrained(b: Buffer, room: nat)
    requires BufferOk(b) && CanRead(b)
    ensures b.delivered <= b.accepted
    ensures AfterRead(b, room).1.Eof? <==> b.closed || b.delivered == b.accepted
  {
    if b.buf == [] {
      assert b.delivered + [] == b.delivered;
    }
  }

  class Stream {
    var buf: bytes
    var ended: bool
    var closed: bool
    ghost var accepted: bytes
    ghost var delivered: bytes

    ghost function View(): Buffer
      reads this
    {
      Buffer(buf, ended, closed, accepted, delivered)
    }

    constructor ()
      ensures View() == EMPTY && BufferOk(View())
    {
      buf, ended, closed, accepted, delivered := [], false, false, [], [];
    }

    method Push(data: bytes) returns (fits: bool)
      requires BufferOk(View())
      modifies this
      ensures BufferOk(View())
      ensures (View(), fits) == AfterPush(old(View()), data)
      ensures fits <==> closed || ended || |old(buf)| + |data| <= 0x10_0000
      ensures buf == if fits && !closed && !ended then old(buf) + data else old(buf)
    {
      PushKeeps(View(), data);
      if closed || ended {
        return true;
      }
      if |buf| + |data| > MAX_STREAM_BUFFER {
        return false;
      }
      buf := buf + data;
      accepted := accepted + data;
      return true;
    }

    method End()
      requires BufferOk(View())
      modifies this`ended
      ensures BufferOk(View()) && View() == AfterEnd(old(View())) && ended
    {
      ended := true;
    }

    // The part of Read after its wait.
    method Read(room: nat) returns (result: ReadResult)
      requires BufferOk(View()) && CanRead(View())
      modifies this
      ensures BufferOk(View())
      ensures (View(), result) == AfterRead(old(View()), room)
      ensures result.Eof? <==> closed || old(buf) == []
      ensures result.Data? ==>
                result.data + buf == old(buf) && (|result.data| == room <= |old(buf)| || buf == [])
    {
      ReadKeeps(View(), room);
      if closed {
        return Eof;
      }
      if |buf| > 0 {
        var n := if room < |buf| then room else |buf|;
        result := Data(buf[..n]);
        delivered := delivered + buf[..n];
        buf := buf[n..];
        return;
      }
      return Eof;
    }

    // The part of Close that once.Do guards, before it calls back into the connection.
    method Shut()
      requires BufferOk(View())
      modifies this`closed, this`buf
      ensures BufferOk(View()) && View() == AfterShut(old(View())) && closed && buf == []
    {
      assert !closed ==> delivered <= accepted;
      closed, buf := true, [];
    }
  }
}
