/**
 * The output side of a connection as a value: src/TcpConnection.cpp, with all calls made in the
 * loop thread. What write(2) returns is the kernel's choice.
 */
module ConnectionModel {
  import opened ByteBuffer

  datatype StateE = Disconnected | Connecting | Connected | Disconnecting

  datatype Callback = WriteComplete | HighWaterMark(size: nat)

  datatype WriteResult =
    | Wrote(n: nat)
    | WouldBlock
    | Fault           // EPIPE or ECONNRESET
    | OtherError

  datatype Connection = Connection(
    state: StateE,              // M_state
    writing: bool,              // the channel's write bit
    channelReads: bool,         // the channel's read bit
    reading: bool,              // M_reading
    output: seq<byte>,          // the contents of M_outputBuffer
    halfClosed: bool,           // shutdownWrite has run
    highWaterMark: nat,
    wantsComplete: bool,        // M_writeCompleteCallback is set
    wantsHighWater: bool,       // M_highWaterMarkCallback is set
    queued: seq<Callback>,      // callbacks handed to queueInLoop so far
    wire: seq<byte>,            // what write(2) has taken
    accepted: seq<byte>,        // the messages sent, but for those refused or dropped on a fault
    dropped: nat                // bytes that left the buffer without being written
  )

  function Fresh(highWaterMark: nat, wantsComplete: bool, wantsHighWater: bool): Connection {
    Connection(Connecting, false, false, true, [], false, highWaterMark, wantsComplete, wantsHighWater, [], [], [], 0)
  }

  /** What handleWrite takes out of the buffer after a write: all of it, or what was written. */
  datatype Policy = RetrieveEverything | RetrieveWritten

  datatype Action =
    | Establish
    | Send(data: seq<byte>, r: WriteResult)
    | Writable(r: WriteResult)
    | Shutdown
    | ForceClose
    | Close                 // the close queued by ForceClose, or an end of file while open
    | StartRead
    | StopRead

  /** write(2) takes no more than it is given. */
  predicate Possible(c: Connection, a: Action) {
    match a
    case Establish => c.state.Connecting?
    case Send(data, r) => r.Wrote? ==> r.n <= |data|
    case Writable(r) => r.Wrote? ==> r.n <= |c.output|
    case _ => true
  }

  function Queue(c: Connection, on: bool, callback: Callback): Connection {
    if on then c.(queued := c.queued + [callback]) else c
  }

  function ShutdownInLoop(c: Connection): Connection {
    if !c.writing then c.(halfClosed := true) else c
  }

  function HandleClose(c: Connection): Connection {
    c.(state := Disconnected, writing := false, channelReads := false)
  }

  /** The direct write that sendInLoop tries when nothing is waiting: bytes taken, and whether it was a fault. */
  function TryWrite(c: Connection, r: WriteResult): (nat, bool) {
    if c.writing || c.output != [] then (0, false)
    else if r.Wrote? then (r.n, false)
    else (0, r.Fault?)
  }

  function WriteDirectly(c: Connection, data: seq<byte>, r: WriteResult): Connection
    requires r.Wrote? ==> r.n <= |data|
  {
    var nwrote := TryWrite(c, r).0;
    Queue(c.(wire := c.wire + data[..nwrote]),
          !c.writing && c.output == [] && r.Wrote? && nwrote == |data| && c.wantsComplete, WriteComplete)
  }

  /** What the kernel did not take waits in the buffer, and the channel asks for writability. */
  function Enqueue(c: Connection, rest: seq<byte>): Connection {
    var size := |c.output| + |rest|;
    Queue(c, size >= c.highWaterMark && |c.output| < c.highWaterMark && c.wantsHighWater, HighWaterMark(size))
      .(output := c.output + rest, writing := true)
  }

  function SendInLoop(c: Connection, data: seq<byte>, r: WriteResult): Connection
    requires r.Wrote? ==> r.n <= |data|
  {
    if c.state.Disconnected? then c
    else
      var (nwrote, fault) := TryWrite(c, r);
      var c1 := WriteDirectly(c, data, r);
      if fault then c1
      else
        var c2 := c1.(accepted := c.accepted + data);
        if nwrote == |data| then c2 else Enqueue(c2, data[nwrote..])
  }

  function HandleWrite(c: Connection, r: WriteResult, policy: Policy): Connection
    requires r.Wrote? ==> r.n <= |c.output|
  {
    if !c.writing || !r.Wrote? || r.n == 0 then c
    else
      var left := if policy.RetrieveEverything? then [] else c.output[r.n..];
      var c1 := c.(wire := c.wire + c.output[..r.n], output := left, dropped := c.dropped + |c.output| - r.n - |left|);
      if left != [] then c1
      else
        var c2 := Queue(c1.(writing := false), c.wantsComplete, WriteComplete);
        if c.state.Disconnecting? then ShutdownInLoop(c2) else c2
  }

  function Do(c: Connection, a: Action, policy: Policy): Connection {
    if !Possible(c, a) then c
    else
      match a
      case Establish => c.(state := Connected, channelReads := true)
      case Send(data, r) => if c.state.Connected? then SendInLoop(c, data, r) else c
      case Writable(r) => HandleWrite(c, r, policy)
      case Shutdown => if c.state.Connected? then ShutdownInLoop(c.(state := Disconnecting)) else c
      case ForceClose => if c.state.Connected? then c.(state := Disconnecting) else c
      case Close => if c.state.Connected? || c.state.Disconnecting? then HandleClose(c) else c
      case StartRead => if !c.reading || !c.channelReads then c.(reading := true, channelReads := true) else c
      case StopRead => if c.reading || c.channelReads then c.(reading := false, channelReads := false) else c
  }

  function Run(c: Connection, acts: seq<Action>, policy: Policy): Connection {
    if acts == [] then c else Do(Run(c, acts[..|acts| - 1], policy), acts[|acts| - 1], policy)
  }

  // ---------------------------------------------------------------------
  // What every step keeps
  // ---------------------------------------------------------------------

  predicate Inv(c: Connection) {
    // the gate: the channel asks for writability exactly while bytes wait
    && (if c.state.Disconnected? then !c.writing else c.writing <==> c.output != [])
    && (c.state.Connecting? ==> c.output == [] && c.wire == [] && c.accepted == [] && c.dropped == 0)
    // the half-close comes after the last byte
    && (c.halfClosed ==> c.output == [] && (c.state.Disconnecting? || c.state.Disconnected?))
    // the stream, up to what was dropped
    && |c.wire| + |c.output| + c.dropped == |c.accepted|
    && (c.dropped == 0 ==> c.wire + c.output == c.accepted)
  }

  /** What sendInLoop does to the bytes. */
  lemma SendBytes(c: Connection, data: seq<byte>, r: WriteResult)
    requires Inv(c) && c.state.Connected? && (r.Wrote? ==> r.n <= |data|)
    ensures var d := SendInLoop(c, data, r);
            var (n, fault) := TryWrite(c, r);
            && n <= |data| && (fault ==> n == 0 && d.output == c.output) && (n > 0 ==> c.output == [])
            && d == c.(wire := c.wire + data[..n], queued := d.queued,
                       accepted := if fault then c.accepted else c.accepted + data,
                       output := if fault then c.output else c.output + data[n..],
                       writing := c.writing || (!fault && n < |data|))
  {}

  lemma SendKeepsInv(c: Connection, data: seq<byte>, r: WriteResult)
    requires Inv(c) && c.state.Connected? && (r.Wrote? ==> r.n <= |data|)
    ensures Inv(SendInLoop(c, data, r))
  {
    SendBytes(c, data, r);
    var (n, fault) := TryWrite(c, r);
    hide SendInLoop, TryWrite;
    SendJoins(c.wire, c.output, data, n);
    assert data[..n] == if n == 0 then [] else data[..n];
    assert c.wire + [] == c.wire;
  }

  lemma SendJoins(wire: seq<byte>, output: seq<byte>, data: seq<byte>, n: nat)
    requires n <= |data| && (n > 0 ==> output == [])
    ensures (wire + data[..n]) + (output + data[n..]) == (wire + output) + data
  {
    assert data[..n] + data[n..] == data;
    if n > 0 {
      assert output + data[n..] == data[n..] && wire + output == wire;
    } else {
      assert wire + data[..0] == wire && data[0..] == data;
    }
  }

  lemma WriteKeepsInv(c: Connection, r: WriteResult, policy: Policy)
    requires Inv(c) && (r.Wrote? ==> r.n <= |c.output|)
    ensures Inv(HandleWrite(c, r, policy))
  {
    if r.Wrote? {
      assert (c.wire + c.output[..r.n]) + c.output[r.n..] == c.wire + c.output;
    }
  }

  lemma DoKeepsInv(c: Connection, a: Action, policy: Policy)
    requires Inv(c)
    ensures Inv(Do(c, a, policy))
  {
    hide SendInLoop, HandleWrite;
    match a
    case Send(data, r) => if Possible(c, a) && c.state.Connected? { SendKeepsInv(c, data, r); }
    case Writable(r) => if Possible(c, a) { WriteKeepsInv(c, r, policy); }
    case _ =>
  }

  lemma {:induction false} RunKeepsInv(c: Connection, acts: seq<Action>, policy: Policy)
    requires Inv(c)
    ensures Inv(Run(c, acts, policy))
  {
    if acts != [] {
      RunKeepsInv(c, acts[..|acts| - 1], policy);
      DoKeepsInv(Run(c, acts[..|acts| - 1], policy), acts[|acts| - 1], policy);
    }
  }

  // ---------------------------------------------------------------------
  // Main results, for every run of a new connection
  // ---------------------------------------------------------------------

  /** The state by the calls and events alone: what is written has no part in it. */
  function StateAfter(state: StateE, a: Action): StateE {
    match a
    case Establish => if state.Connecting? then Connected else state
    case Shutdown => if state.Connected? then Disconnecting else state
    case ForceClose => if state.Connected? then Disconnecting else state
    case Close => if state.Connected? || state.Disconnecting? then Disconnected else state
    case _ => state
  }

  function StateBy(acts: seq<Action>): StateE {
    if acts == [] then Connecting else StateAfter(StateBy(acts[..|acts| - 1]), acts[|acts| - 1])
  }

  /** Whether the channel reads, by the latest of them that had a say. */
  function ReadsBy(acts: seq<Action>): bool {
    if acts == [] then false
    else
      var before := acts[..|acts| - 1];
      match acts[|acts| - 1]
      case Establish => StateBy(before).Connecting? || ReadsBy(before)
      case StartRead => true
      case StopRead => false
      case Close => ReadsBy(before) && !StateBy(before).Connected? && !StateBy(before).Disconnecting?
      case _ => ReadsBy(before)
  }

  /** Whether the user wants to read: M_reading. */
  function ReadingBy(acts: seq<Action>): bool {
    if acts == [] then true
    else if acts[|acts| - 1].StartRead? then true
    else if acts[|acts| - 1].StopRead? then false
    else ReadingBy(acts[..|acts| - 1])
  }

  lemma {:induction false} StateFollowsCalls(c: Connection, acts: seq<Action>, policy: Policy)
    requires Inv(c) && c.state.Connecting? && !c.channelReads && c.reading
    ensures var d := Run(c, acts, policy);
            d.state == StateBy(acts) && d.channelReads == ReadsBy(acts) && d.reading == ReadingBy(acts)
  {
    if acts != [] {
      var before, a := acts[..|acts| - 1], acts[|acts| - 1];
      StateFollowsCalls(c, before, policy);
      RunKeepsInv(c, before, policy);
      StateStep(Run(c, before, policy), a, policy);
      hide Inv, Do;
    }
  }

  lemma StateStep(c: Connection, a: Action, policy: Policy)
    requires Inv(c)
    ensures var d := Do(c, a, policy);
            && d.state == StateAfter(c.state, a)
            && d.reading == (a.StartRead? || (!a.StopRead? && c.reading))
            && d.channelReads == match a
                                 case Establish => c.state.Connecting? || c.channelReads
                                 case StartRead => true
                                 case StopRead => false
                                 case Close => c.channelReads && !c.state.Connected? && !c.state.Disconnecting?
                                 case _ => c.channelReads
  {
    match a
    case Send(data, r) => if Possible(c, a) && c.state.Connected? { SendBytes(c, data, r); }
    case _ => hide SendInLoop;
  }

  /** The message a send has accepted: all of it, but for one that met a fault with nothing waiting before it. */
  function AcceptedIn(c: Connection, a: Action): seq<byte> {
    match a
    case Send(data, r) =>
      if c.state.Connected? && (r.Wrote? ==> r.n <= |data|) && !(c.output == [] && r.Fault?) then data else []
    case _ => []
  }

  /** What the kernel takes: of a message with nothing waiting before it, or of what waits. */
  function WrittenIn(c: Connection, a: Action): seq<byte> {
    match a
    case Send(data, r) =>
      if c.state.Connected? && c.output == [] && r.Wrote? && r.n <= |data| then data[..r.n] else []
    case Writable(r) =>
      if !c.state.Disconnected? && r.Wrote? && r.n <= |c.output| then c.output[..r.n] else []
    case _ => []
  }

  function AcceptedBy(start: Connection, acts: seq<Action>, policy: Policy): seq<byte> {
    if acts == [] then []
    else
      var n := |acts| - 1;
      AcceptedBy(start, acts[..n], policy) + AcceptedIn(Run(start, acts[..n], policy), acts[n])
  }

  function WrittenBy(start: Connection, acts: seq<Action>, policy: Policy): seq<byte> {
    if acts == [] then []
    else
      var n := |acts| - 1;
      WrittenBy(start, acts[..n], policy) + WrittenIn(Run(start, acts[..n], policy), acts[n])
  }

  lemma LogStep(c: Connection, a: Action, policy: Policy)
    requires Inv(c)
    ensures Do(c, a, policy).accepted == c.accepted + AcceptedIn(c, a)
    ensures Do(c, a, policy).wire == c.wire + WrittenIn(c, a)
  {
    hide SendInLoop, HandleWrite, Inv;
    match a
    case Send(data, r) => if Possible(c, a) && c.state.Connected? { SendLogs(c, data, r); }
    case Writable(r) => if Possible(c, a) { WriteLogs(c, r, policy); }
    case _ =>
  }

  lemma SendLogs(c: Connection, data: seq<byte>, r: WriteResult)
    requires Inv(c) && c.state.Connected? && (r.Wrote? ==> r.n <= |data|)
    ensures SendInLoop(c, data, r).accepted == c.accepted + AcceptedIn(c, Send(data, r))
    ensures SendInLoop(c, data, r).wire == c.wire + WrittenIn(c, Send(data, r))
  {
    SendBytes(c, data, r);
    hide SendInLoop;
    assert data[..0] == [];
  }

  lemma WriteLogs(c: Connection, r: WriteResult, policy: Policy)
    requires Inv(c) && (r.Wrote? ==> r.n <= |c.output|)
    ensures HandleWrite(c, r, policy).accepted == c.accepted
    ensures HandleWrite(c, r, policy).wire == c.wire + WrittenIn(c, Writable(r))
  {}

  lemma {:induction false} LogsFollowCalls(start: Connection, acts: seq<Action>, policy: Policy)
    requires Inv(start) && start.accepted == [] && start.wire == []
    ensures var c := Run(start, acts, policy);
            c.accepted == AcceptedBy(start, acts, policy) && c.wire == WrittenBy(start, acts, policy)
  {
    if acts != [] {
      var n := |acts| - 1;
      LogsFollowCalls(start, acts[..n], policy);
      RunKeepsInv(start, acts[..n], policy);
      LogStep(Run(start, acts[..n], policy), acts[n], policy);
      hide Inv, Do, AcceptedIn, WrittenIn;
    }
  }

  /** Until it is disconnected, a connection waits for writability exactly while output waits. */
  lemma OutputGate(highWaterMark: nat, wantsComplete: bool, wantsHighWater: bool, acts: seq<Action>, policy: Policy)
    ensures var c := Run(Fresh(highWaterMark, wantsComplete, wantsHighWater), acts, policy);
            !c.state.Disconnected? ==> (c.writing <==> c.output != [])
  {
    RunKeepsInv(Fresh(highWaterMark, wantsComplete, wantsHighWater), acts, policy);
  }

  /** Some writable event of the run took a part of the buffer and left the rest. */
  ghost predicate HadPartialWrite(c: Connection, acts: seq<Action>, policy: Policy) {
    exists i :: 0 <= i < |acts| && PartialWrite(Run(c, acts[..i], policy), acts[i])
  }

  predicate PartialWrite(c: Connection, a: Action) {
    a.Writable? && a.r.Wrote? && c.writing && 0 < a.r.n < |c.output|
  }

  lemma {:induction false} DroppedMeansPartial(c: Connection, acts: seq<Action>, policy: Policy)
    requires Inv(c) && c.dropped == 0
    ensures Run(c, acts, policy).dropped == 0
            <==> (policy.RetrieveWritten? || !HadPartialWrite(c, acts, policy))
  {
    hide Do, Inv, PartialWrite;
    if acts != [] {
      var n := |acts| - 1;
      var before := acts[..n];
      DroppedMeansPartial(c, before, policy);
      RunKeepsInv(c, before, policy);
      DropStep(Run(c, before, policy), acts[n], policy);
      PartialWriteSplits(c, acts, policy);
    }
  }

  lemma PartialWriteSplits(c: Connection, acts: seq<Action>, policy: Policy)
    requires acts != []
    ensures var before := acts[..|acts| - 1];
            HadPartialWrite(c, acts, policy)
            <==> HadPartialWrite(c, before, policy) || PartialWrite(Run(c, before, policy), acts[|acts| - 1])
  {
    hide PartialWrite, Run;
    var n := |acts| - 1;
    var before := acts[..n];
    forall i | 0 <= i < n
      ensures before[..i] == acts[..i] && before[i] == acts[i]
    {}
    if HadPartialWrite(c, acts, policy) {
      var i :| 0 <= i < |acts| && PartialWrite(Run(c, acts[..i], policy), acts[i]);
      if i < n { assert PartialWrite(Run(c, before[..i], policy), before[i]); }
    }
    if HadPartialWrite(c, before, policy) {
      var i :| 0 <= i < n && PartialWrite(Run(c, before[..i], policy), before[i]);
      assert PartialWrite(Run(c, acts[..i], policy), acts[i]);
    }
    if PartialWrite(Run(c, before, policy), acts[n]) {
      assert PartialWrite(Run(c, acts[..n], policy), acts[n]);
    }
  }

  lemma DropStep(c: Connection, a: Action, policy: Policy)
    requires Inv(c)
    ensures var d := Do(c, a, policy);
            && d.dropped >= c.dropped
            && (d.dropped > c.dropped <==> policy.RetrieveEverything? && Possible(c, a) && PartialWrite(c, a))
            && (PartialWrite(c, a) ==> Possible(c, a))
  {
    match a
    case Send(data, r) => if Possible(c, a) && c.state.Connected? { SendBytes(c, data, r); }
    case _ => hide SendInLoop;
  }

  /**
   * The stream. What was accepted is every message sent while connected, but for those that met a
   * fault with nothing waiting. With retrieve(n) what was written and what waits is what was accepted,
   * in every state; with the retrieveAll() the code calls, exactly in the runs without a partial write.
   */
  lemma StreamIntegrity(highWaterMark: nat, wantsComplete: bool, wantsHighWater: bool,
                        acts: seq<Action>, policy: Policy)
    ensures var start := Fresh(highWaterMark, wantsComplete, wantsHighWater);
            var c := Run(start, acts, policy);
            && c.accepted == AcceptedBy(start, acts, policy) && c.wire == WrittenBy(start, acts, policy)
            && (c.wire + c.output == c.accepted
                <==> (policy.RetrieveWritten? || !HadPartialWrite(start, acts, policy)))
  {
    var start := Fresh(highWaterMark, wantsComplete, wantsHighWater);
    LogsFollowCalls(start, acts, policy);
    RunKeepsInv(start, acts, policy);
    DroppedMeansPartial(start, acts, policy);
  }

  /** It happens: any message whose first write is refused and whose second is partial. */
  lemma PartialWriteDrops(highWaterMark: nat, wantsComplete: bool, wantsHighWater: bool, data: seq<byte>, n: nat)
    requires 0 < n < |data|
    ensures var acts := [Establish, Send(data, WouldBlock), Writable(Wrote(n))];
            var c := Run(Fresh(highWaterMark, wantsComplete, wantsHighWater), acts, RetrieveEverything);
            c.accepted == data && c.wire == data[..n] && c.output == []
  {
    var start := Fresh(highWaterMark, wantsComplete, wantsHighWater);
    var policy := RetrieveEverything;
    var send, writable := Send(data, WouldBlock), Writable(Wrote(n));
    assert [Establish, send, writable][..2] == [Establish, send] && [Establish, send][..1] == [Establish];
    var c1 := Do(start, Establish, policy);
    assert Run(start, [Establish], policy) == c1 by { assert Run(start, [], policy) == start; }
    var c2 := Do(c1, send, policy);
    SendBytes(c1, data, WouldBlock);
    assert [] + data == data && data[0..] == data && [] + data[..n] == data[..n];
    assert c2.output == data && c2.accepted == data && c2.wire == [] && c2.writing;
    assert Run(start, [Establish, send], policy) == c2;
  }

  /** shutdownWrite comes after every accepted byte that was not dropped, and no byte comes after it. */
  lemma HalfCloseIsLast(highWaterMark: nat, wantsComplete: bool, wantsHighWater: bool,
                        acts: seq<Action>, more: seq<Action>, policy: Policy)
    requires Run(Fresh(highWaterMark, wantsComplete, wantsHighWater), acts, policy).halfClosed
    ensures var c := Run(Fresh(highWaterMark, wantsComplete, wantsHighWater), acts, policy);
            var d := Run(c, more, policy);
            && c.output == [] && |c.wire| + c.dropped == |c.accepted|
            && (c.dropped == 0 ==> c.wire == c.accepted)
            && d.wire == c.wire && d.accepted == c.accepted
  {
    var c := Run(Fresh(highWaterMark, wantsComplete, wantsHighWater), acts, policy);
    RunKeepsInv(Fresh(highWaterMark, wantsComplete, wantsHighWater), acts, policy);
    assert c.wire + [] == c.wire;
    SilentAfterHalfClose(c, more, policy);
  }

  /** shutdown() was called while connected. */
  ghost predicate ShutDown(acts: seq<Action>) {
    exists i :: 0 <= i < |acts| && acts[i].Shutdown? && StateBy(acts[..i]).Connected?
  }

  /** While it is disconnecting after that, a connection is half-closed exactly when nothing waits. */
  predicate HalfClosedInTime(c: Connection) {
    c.state.Disconnected? || (c.state.Disconnecting? && (c.halfClosed <==> c.output == []))
  }

  lemma ShutdownStep(c: Connection, a: Action, policy: Policy)
    requires Inv(c)
    ensures HalfClosedInTime(c) || (a.Shutdown? && c.state.Connected?) ==> HalfClosedInTime(Do(c, a, policy))
  {
    hide SendInLoop;
  }

  lemma ShutDownSplits(acts: seq<Action>)
    requires acts != []
    ensures var n := |acts| - 1;
            ShutDown(acts) <==> ShutDown(acts[..n]) || (acts[n].Shutdown? && StateBy(acts[..n]).Connected?)
  {
    hide StateBy;
    var n := |acts| - 1;
    forall i | 0 <= i < n
      ensures acts[..n][..i] == acts[..i] && acts[..n][i] == acts[i]
    {}
    if ShutDown(acts[..n]) {
      var i :| 0 <= i < n && acts[..n][i].Shutdown? && StateBy(acts[..n][..i]).Connected?;
      assert acts[i].Shutdown? && StateBy(acts[..i]).Connected?;
    }
    if acts[n].Shutdown? && StateBy(acts[..n]).Connected? { assert ShutDown(acts); }
  }

  /** shutdown() is honoured: the half-close comes at once if nothing waits, and else with the last byte. */
  lemma {:induction false} ShutdownIsHonoured(highWaterMark: nat, wantsComplete: bool, wantsHighWater: bool,
                                              acts: seq<Action>, policy: Policy)
    requires ShutDown(acts)
    ensures var c := Run(Fresh(highWaterMark, wantsComplete, wantsHighWater), acts, policy);
            c.state.Disconnected? || (c.state.Disconnecting? && (c.halfClosed <==> c.output == []))
  {
    hide Do, Inv;
    var start := Fresh(highWaterMark, wantsComplete, wantsHighWater);
    var n := |acts| - 1;
    FreshIsGood(highWaterMark, wantsComplete, wantsHighWater);
    RunKeepsInv(start, acts[..n], policy);
    StateFollowsCalls(start, acts[..n], policy);
    ShutDownSplits(acts);
    if ShutDown(acts[..n]) { ShutdownIsHonoured(highWaterMark, wantsComplete, wantsHighWater, acts[..n], policy); }
    ShutdownStep(Run(start, acts[..n], policy), acts[n], policy);
  }

  lemma FreshIsGood(highWaterMark: nat, wantsComplete: bool, wantsHighWater: bool)
    ensures Inv(Fresh(highWaterMark, wantsComplete, wantsHighWater))
  {}

  lemma {:induction false} SilentAfterHalfClose(c: Connection, acts: seq<Action>, policy: Policy)
    requires Inv(c) && c.halfClosed
    ensures var d := Run(c, acts, policy);
            d.halfClosed && d.wire == c.wire && d.accepted == c.accepted
  {
    if acts != [] {
      SilentAfterHalfClose(c, acts[..|acts| - 1], policy);
      RunKeepsInv(c, acts[..|acts| - 1], policy);
    }
  }

  /** A write-complete callback is queued only when nothing waits any more. */
  lemma CompleteMeansDrained(c: Connection, a: Action, policy: Policy)
    requires Inv(c)
    ensures var d := Do(c, a, policy);
            && |c.queued| <= |d.queued|
            && (WriteComplete in d.queued[|c.queued|..] ==>
                  d.output == [] && |d.wire| + d.dropped == |d.accepted| && (d.dropped == 0 ==> d.wire == d.accepted))
  {
    DoKeepsInv(c, a, policy);
    var d := Do(c, a, policy);
    assert d.wire + [] == d.wire;
  }

  /** The callbacks due to a call or event. */
  function CallbacksIn(c: Connection, a: Action, policy: Policy): seq<Callback> {
    match a
    case Send(data, r) =>
      var taken := WrittenIn(c, a);
      if !c.state.Connected? || (r.Wrote? && r.n > |data|) || (c.output == [] && r.Fault?) then []
      else if c.output == [] && r.Wrote? && r.n == |data| then (if c.wantsComplete then [WriteComplete] else [])
      else
        var size := |c.output| + |data| - |taken|;
        if |c.output| < c.highWaterMark <= size && c.wantsHighWater then [HighWaterMark(size)] else []
    case Writable(r) =>
      var taken := WrittenIn(c, a);
      if taken != [] && c.wantsComplete && (policy.RetrieveEverything? || taken == c.output)
      then [WriteComplete]
      else []
    case _ => []
  }

  /** These and no others are handed to the loop. */
  lemma CallbacksExactly(c: Connection, a: Action, policy: Policy)
    requires Inv(c)
    ensures Do(c, a, policy).queued == c.queued + CallbacksIn(c, a, policy)
  {
    match a
    case Send(data, r) =>
      if Possible(c, a) && c.state.Connected? { SendCallbacks(c, data, r, policy); }
    case Writable(r) =>
      hide SendInLoop;
      if r.Wrote? && r.n <= |c.output| && !c.state.Disconnected? {
        assert c.output[..r.n] == c.output <==> r.n == |c.output|;
        assert c.output[r.n..] == [] <==> r.n == |c.output|;
      }
    case _ => hide SendInLoop;
  }

  lemma SendCallbacks(c: Connection, data: seq<byte>, r: WriteResult, policy: Policy)
    requires Inv(c) && c.state.Connected? && (r.Wrote? ==> r.n <= |data|)
    ensures SendInLoop(c, data, r).queued == c.queued + CallbacksIn(c, Send(data, r), policy)
  {
    var (n, fault) := TryWrite(c, r);
    var c1 := WriteDirectly(c, data, r);
    if !fault && n < |data| {
      assert c1.queued == c.queued && |c1.output| == |c.output|;
      assert |data[n..]| == |data| - n == |data| - |WrittenIn(c, Send(data, r))|;
    }
  }

  /** The high-water callback is queued exactly when a send takes the buffer from below the mark to it or past it. */
  lemma HighWaterExactly(c: Connection, data: seq<byte>, r: WriteResult)
    requires Inv(c) && c.state.Connected? && (r.Wrote? ==> r.n <= |data|)
    ensures var d := SendInLoop(c, data, r);
            && |c.queued| <= |d.queued|
            && (HighWaterMark(|d.output|) in d.queued[|c.queued|..]
                <==> c.wantsHighWater && |c.output| < c.highWaterMark <= |d.output|)
  {
    var (n, fault) := TryWrite(c, r);
    var c1 := WriteDirectly(c, data, r);
    if !fault && n < |data| {
      assert c1.queued == c.queued && |c1.output| == |c.output|;
      var d := Enqueue(c1.(accepted := c.accepted + data), data[n..]);
      assert |d.output| == |c.output| + |data| - n;
    } else {
      var d := SendInLoop(c, data, r);
      assert d.output == c.output && d.queued == c1.queued;
      assert HighWaterMark(|d.output|) !in c1.queued[|c.queued|..];
    }
  }

  // ---------------------------------------------------------------------
  // The assertion of handleClose
  // ---------------------------------------------------------------------

  predicate Open(c: Connection) { c.state.Connected? || c.state.Disconnecting? }

  /** Reading while not open: an end of file would fail the assertion. */
  predicate EndOfFileFails(c: Connection) { c.channelReads && !Open(c) }

  /** startRead was called before the connection was established or after it was closed. */
  ghost predicate ReadStartedUnopened(start: Connection, acts: seq<Action>, policy: Policy) {
    exists i :: 0 <= i < |acts| && StartsUnopened(Run(start, acts[..i], policy), acts[i])
  }

  predicate StartsUnopened(c: Connection, a: Action) { a.StartRead? && !Open(c) }

  lemma StepFails(c: Connection, a: Action, policy: Policy)
    requires !EndOfFileFails(c)
    ensures EndOfFileFails(Do(c, a, policy)) <==> StartsUnopened(c, a)
  {}

  lemma StartingFails(c: Connection, a: Action, policy: Policy)
    requires StartsUnopened(c, a)
    ensures EndOfFileFails(Do(c, a, policy))
  {}

  /** The assertion holds whenever it is reached, in exactly the runs that never start to read unopened. */
  lemma CloseAssertionHolds(highWaterMark: nat, wantsComplete: bool, wantsHighWater: bool,
                            acts: seq<Action>, policy: Policy)
    ensures var start := Fresh(highWaterMark, wantsComplete, wantsHighWater);
            (forall k :: 0 <= k <= |acts| ==> !EndOfFileFails(Run(start, acts[..k], policy)))
            <==> !ReadStartedUnopened(start, acts, policy)
  {
    hide Do;
    var start := Fresh(highWaterMark, wantsComplete, wantsHighWater);
    if ReadStartedUnopened(start, acts, policy) {
      var i :| 0 <= i < |acts| && StartsUnopened(Run(start, acts[..i], policy), acts[i]);
      assert acts[..i + 1][..i] == acts[..i];
      StartingFails(Run(start, acts[..i], policy), acts[i], policy);
      assert EndOfFileFails(Run(start, acts[..i + 1], policy));
    } else {
      forall k | 0 <= k <= |acts|
        ensures !EndOfFileFails(Run(start, acts[..k], policy))
      {
        NoFailureSoFar(start, acts, k, policy);
      }
    }
  }

  lemma {:induction false} NoFailureSoFar(start: Connection, acts: seq<Action>, k: nat, policy: Policy)
    requires k <= |acts| && !EndOfFileFails(start) && !ReadStartedUnopened(start, acts, policy)
    ensures !EndOfFileFails(Run(start, acts[..k], policy))
  {
    hide Do;
    if k > 0 {
      NoFailureSoFar(start, acts, k - 1, policy);
      assert acts[..k][..k - 1] == acts[..k - 1];
      StepFails(Run(start, acts[..k - 1], policy), acts[k - 1], policy);
    }
  }
}
