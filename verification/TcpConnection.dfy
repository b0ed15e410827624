/**
 * The TcpConnection class, over the Buffer and Channel objects it owns; each method is proved
 * against ConnectionModel, with the retrieveAll() that handleWrite calls.
 */
module TcpConnectionClass {
  import Bytes = ByteBuffer
  import opened BufferClass
  import opened PollerClasses
  import opened ConnectionModel

  class TcpConnection {
    var state: StateE
    var reading: bool
    const channel: Channel
    const inputBuffer: Buffer
    const outputBuffer: Buffer
    const highWaterMark: nat
    const wantsComplete: bool
    const wantsHighWater: bool

    // The world: what shutdown(2) and write(2) have been given, and what the loop has been handed.
    var halfClosed: bool
    var queued: seq<Callback>
    var closeQueued: bool
    ghost var wire: seq<Bytes.byte>
    ghost var accepted: seq<Bytes.byte>
    ghost var dropped: nat

    ghost function Abs(): Connection
      requires outputBuffer.Ok()
      reads this, channel, outputBuffer
    {
      Connection(state, channel.IsWriting(), channel.IsReading(), reading, outputBuffer.Bytes(), halfClosed,
                 highWaterMark, wantsComplete, wantsHighWater, queued, wire, accepted, dropped)
    }

    ghost predicate Ok()
      reads this, channel, outputBuffer, inputBuffer
    {
      inputBuffer != outputBuffer && inputBuffer.Ok() && outputBuffer.Ok() && Inv(Abs())
    }

    constructor (fd: nat, highWaterMark: nat, wantsComplete: bool, wantsHighWater: bool)
      ensures Ok() && Abs() == Fresh(highWaterMark, wantsComplete, wantsHighWater)
      ensures fresh(channel) && fresh(inputBuffer) && fresh(outputBuffer)
    {
      state, reading := Connecting, true;
      channel := new Channel(fd);
      inputBuffer := new Buffer(Bytes.INITIAL_SIZE);
      outputBuffer := new Buffer(Bytes.INITIAL_SIZE);
      this.highWaterMark, this.wantsComplete, this.wantsHighWater := highWaterMark, wantsComplete, wantsHighWater;
      halfClosed, queued, closeQueued, wire, accepted, dropped := false, [], false, [], [], 0;
    }

    method ConnectEstablished()
      requires Ok() && state.Connecting?
      modifies this, channel
      ensures Ok() && Abs() == Do(old(Abs()), Establish, RetrieveEverything)
    {
      DoKeepsInv(Abs(), Establish, RetrieveEverything);
      state := Connected;
      channel.EnableReading();
    }

    /** send: refused silently unless connected. */
    method Send(data: seq<Bytes.byte>, r: WriteResult)
      requires Ok() && Possible(Abs(), Action.Send(data, r))
      modifies this, channel, outputBuffer
      ensures Ok() && Abs() == Do(old(Abs()), Action.Send(data, r), RetrieveEverything)
      ensures var a := Action.Send(data, r);
              && accepted == old(accepted) + AcceptedIn(old(Abs()), a)
              && wire == old(wire) + WrittenIn(old(Abs()), a)
              && queued == old(queued) + CallbacksIn(old(Abs()), a, RetrieveEverything)
    {
      LogStep(Abs(), Action.Send(data, r), RetrieveEverything);
      CallbacksExactly(Abs(), Action.Send(data, r), RetrieveEverything);
      hide AcceptedIn, WrittenIn, CallbacksIn;
      if state == Connected {
        SendInLoop(data, r);
      }
    }

    method SendInLoop(data: seq<Bytes.byte>, r: WriteResult)
      requires Ok() && state.Connected? && (r.Wrote? ==> r.n <= |data|)
      modifies this, channel, outputBuffer
      ensures Ok() && Abs() == ConnectionModel.SendInLoop(old(Abs()), data, r)
      ensures var a := Action.Send(data, r);
              && accepted == old(accepted) + AcceptedIn(old(Abs()), a)
              && wire == old(wire) + WrittenIn(old(Abs()), a)
              && wire + outputBuffer.Bytes() == old(wire) + old(outputBuffer.Bytes()) + AcceptedIn(old(Abs()), a)
    {
      SendStream(Abs(), data, r);
      hide AcceptedIn, WrittenIn;
      hide Inv, TryWrite, ConnectionModel.WriteDirectly, ConnectionModel.Enqueue, Bytes.Valid, Bytes.Contents;
      SendKeepsInv(Abs(), data, r);
      var nwrote, faultError := WriteDirectly(data, r);
      var remaining := |data| - nwrote;
      if !faultError {
        accepted := accepted + data;
      }
      if !faultError && remaining > 0 {
        Enqueue(data[nwrote..]);
      }
    }

    /** If nothing is in the output queue, write at once. */
    method WriteDirectly(data: seq<Bytes.byte>, r: WriteResult) returns (nwrote: nat, faultError: bool)
      requires outputBuffer.Ok() && (r.Wrote? ==> r.n <= |data|)
      modifies this`queued, this`wire
      ensures (nwrote, faultError) == TryWrite(old(Abs()), r) && nwrote <= |data|
      ensures Abs() == ConnectionModel.WriteDirectly(old(Abs()), data, r)
    {
      nwrote, faultError := 0, false;
      var waiting := outputBuffer.ReadableBytes();
      if !channel.IsWriting() && waiting == 0 {
        if r.Wrote? {
          nwrote := r.n;
          if nwrote == |data| && wantsComplete {
            queued := queued + [WriteComplete];
          }
        } else {
          faultError := r.Fault?;
        }
      }
      wire := wire + data[..nwrote];
    }

    /** The bytes the kernel did not take wait in the buffer, and the channel asks for writability. */
    method Enqueue(rest: seq<Bytes.byte>)
      requires outputBuffer.Ok() && rest != []
      modifies this`queued, channel, outputBuffer
      ensures outputBuffer.Ok() && Abs() == ConnectionModel.Enqueue(old(Abs()), rest)
    {
      hide Inv, Bytes.Valid, Bytes.Contents, Bytes.Append;
      hide Channel.IsNoneEvent, Channel.IsReading, Channel.IsWriting, Covers, SameBut;
      var waiting := outputBuffer.ReadableBytes();
      if waiting + |rest| >= highWaterMark && waiting < highWaterMark && wantsHighWater {
        queued := queued + [HighWaterMark(waiting + |rest|)];
      }
      outputBuffer.Append(rest);
      if !channel.IsWriting() {
        channel.EnableWriting();
      }
    }

    method Shutdown()
      requires Ok()
      modifies this
      ensures Ok() && Abs() == Do(old(Abs()), Action.Shutdown, RetrieveEverything)
      ensures old(state).Connected? ==> state.Disconnecting? && (halfClosed <==> outputBuffer.Bytes() == [])
      ensures !old(state).Connected? ==> state == old(state) && halfClosed == old(halfClosed)
    {
      DoKeepsInv(Abs(), Action.Shutdown, RetrieveEverything);
      if state == Connected {
        state := Disconnecting;
        ShutdownInLoop();
      }
    }

    /** shutdownWrite, but only once nothing waits. */
    method ShutdownInLoop()
      requires outputBuffer.Ok()
      modifies this`halfClosed
      ensures Abs() == ConnectionModel.ShutdownInLoop(old(Abs()))
      ensures halfClosed == (old(halfClosed) || !channel.IsWriting())
    {
      if !channel.IsWriting() {
        halfClosed := true;
      }
    }

    method ForceClose()
      requires Ok()
      modifies this
      ensures Ok() && Abs() == Do(old(Abs()), Action.ForceClose, RetrieveEverything)
      ensures closeQueued == (old(closeQueued) || old(state).Connected? || old(state).Disconnecting?)
    {
      DoKeepsInv(Abs(), Action.ForceClose, RetrieveEverything);
      if state == Connected || state == Disconnecting {
        state := Disconnecting;
        closeQueued := true;
      }
    }

    method ForceCloseInLoop()
      requires Ok()
      modifies this, channel
      ensures Ok() && Abs() == Do(old(Abs()), Close, RetrieveEverything)
    {
      if state == Connected || state == Disconnecting {
        HandleClose();
      }
    }

    method HandleClose()
      requires Ok() && Open(Abs())
      modifies this, channel
      ensures Ok() && Abs() == Do(old(Abs()), Close, RetrieveEverything)
    {
      DoKeepsInv(Abs(), Close, RetrieveEverything);
      state := Disconnected;
      channel.DisableAll();
    }

    /** handleRead, up to the message callback; an empty read is the end of file, where handleClose asserts. */
    method HandleRead(result: ReadResult) returns (n: int)
      requires Ok() && (result.Got? && result.data == [] ==> Open(Abs()))
      requires result.Got? ==> |result.data| <= Bytes.ReadCapacity(inputBuffer.Abs())
      modifies this, channel, inputBuffer
      ensures Ok()
      ensures result.Got? ==> inputBuffer.Bytes() == old(inputBuffer.Bytes()) + result.data
      ensures result.Failed? ==> inputBuffer.Bytes() == old(inputBuffer.Bytes())
      ensures Abs() == if result.Got? && result.data == [] then Do(old(Abs()), Close, RetrieveEverything)
                       else old(Abs())
    {
      var savedErrno;
      n, savedErrno := inputBuffer.ReadFd(result);
      if n == 0 {
        HandleClose();
      }
    }

    method StartReadInLoop()
      requires Ok()
      modifies this, channel
      ensures Ok() && Abs() == Do(old(Abs()), StartRead, RetrieveEverything)
    {
      DoKeepsInv(Abs(), StartRead, RetrieveEverything);
      if !reading || !channel.IsReading() {
        channel.EnableReading();
        reading := true;
      }
    }

    method StopReadInLoop()
      requires Ok()
      modifies this, channel
      ensures Ok() && Abs() == Do(old(Abs()), StopRead, RetrieveEverything)
    {
      DoKeepsInv(Abs(), StopRead, RetrieveEverything);
      if reading || channel.IsReading() {
        channel.DisableReading();
        reading := false;
      }
    }

    method HandleWrite(r: WriteResult)
      requires Ok() && (r.Wrote? ==> r.n <= |outputBuffer.Bytes()|)
      modifies this, channel, outputBuffer
      ensures Ok() && Abs() == ConnectionModel.HandleWrite(old(Abs()), r, RetrieveEverything)
      ensures wire == old(wire) + WrittenIn(old(Abs()), Writable(r))
      ensures queued == old(queued) + CallbacksIn(old(Abs()), Writable(r), RetrieveEverything)
      ensures old(state).Disconnecting? && WrittenIn(old(Abs()), Writable(r)) != [] ==> halfClosed
    {
      LogStep(Abs(), Writable(r), RetrieveEverything);
      CallbacksExactly(Abs(), Writable(r), RetrieveEverything);
      DrainHalfCloses(Abs(), r);
      hide WrittenIn, CallbacksIn;
      WriteKeepsInv(Abs(), r, RetrieveEverything);
      hide Inv;
      if channel.IsWriting() && r.Wrote? && r.n > 0 {
        wire := wire + outputBuffer.Bytes()[..r.n];
        dropped := dropped + |outputBuffer.Bytes()| - r.n;
        outputBuffer.RetrieveAll();
        var waiting := outputBuffer.ReadableBytes();
        if waiting == 0 {
          channel.DisableWriting();
          if wantsComplete {
            queued := queued + [WriteComplete];
          }
          if state == Disconnecting {
            ShutdownInLoop();
          }
        }
      }
    }

    /** The last byte out of a disconnecting connection half-closes it. */
    static lemma DrainHalfCloses(c: Connection, r: WriteResult)
      requires Inv(c) && (r.Wrote? ==> r.n <= |c.output|)
      ensures c.state.Disconnecting? && WrittenIn(c, Writable(r)) != [] ==>
                ConnectionModel.HandleWrite(c, r, RetrieveEverything).halfClosed
    {}

    static lemma SendStream(c: Connection, data: seq<Bytes.byte>, r: WriteResult)
      requires Inv(c) && c.state.Connected? && (r.Wrote? ==> r.n <= |data|)
      ensures var a, d := Action.Send(data, r), ConnectionModel.SendInLoop(c, data, r);
              && d.accepted == c.accepted + AcceptedIn(c, a)
              && d.wire == c.wire + WrittenIn(c, a)
              && d.wire + d.output == c.wire + c.output + AcceptedIn(c, a)
    {
      LogStep(c, Action.Send(data, r), RetrieveEverything);
      SendBytes(c, data, r);
      var (n, fault) := TryWrite(c, r);
      SendJoins(c.wire, c.output, data, n);
      if fault { assert c.wire + data[..0] == c.wire; }
      hide ConnectionModel.SendInLoop;
    }
  }
}
