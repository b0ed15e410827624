/** The prependable byte buffer: include/Buffer.h and src/Buffer.cpp. */
module ByteBuffer {
  import opened Numbers

  newtype byte = b: int | 0 <= b < 256

  const CHEAP_PREPEND: nat := 8
  const INITIAL_SIZE: nat := 1024
  const EXTRA_SIZE: nat := 65536

  // ---------------------------------------------------------------------
  // The buffer as a value
  // ---------------------------------------------------------------------

  /** The vector and the two indexes into it. */
  datatype State = State(buf: seq<byte>, reader: nat, writer: nat)

  predicate Valid(s: State) {
    CHEAP_PREPEND <= |s.buf| && s.reader <= s.writer <= |s.buf|
  }

  function Contents(s: State): seq<byte>
    requires Valid(s)
  {
    s.buf[s.reader..s.writer]
  }

  function Readable(s: State): nat
    requires Valid(s)
  {
    s.writer - s.reader
  }

  function Writable(s: State): nat
    requires Valid(s)
  {
    |s.buf| - s.writer
  }

  /** std::vector::resize to a larger size. */
  function Resize(buf: seq<byte>, size: nat): seq<byte>
    requires |buf| <= size
  {
    buf + seq(size - |buf|, _ => 0)
  }

  /** std::copy of src onto buf at position at. */
  function Overwrite(buf: seq<byte>, at: nat, src: seq<byte>): seq<byte>
    requires at + |src| <= |buf|
  {
    buf[..at] + src + buf[at + |src|..]
  }

  function New(initialSize: nat): State {
    State(Resize([], CHEAP_PREPEND + initialSize), CHEAP_PREPEND, CHEAP_PREPEND)
  }

  function MakeSpace(s: State, len: nat): State
    requires Valid(s) && Writable(s) < len
  {
    if Writable(s) + s.reader < len + CHEAP_PREPEND then
      s.(buf := Resize(s.buf, s.writer + len))
    else
      State(Overwrite(s.buf, CHEAP_PREPEND, Contents(s)), CHEAP_PREPEND, CHEAP_PREPEND + Readable(s))
  }

  function EnsureWritable(s: State, len: nat): State
    requires Valid(s)
  {
    if Writable(s) < len then MakeSpace(s, len) else s
  }

  /** Bytes stored behind the readable part, which then cover them. */
  function Fill(s: State, data: seq<byte>): State
    requires Valid(s) && |data| <= Writable(s)
  {
    State(Overwrite(s.buf, s.writer, data), s.reader, s.writer + |data|)
  }

  /** The compaction or growth leaves the contents alone, and the assertion inside makeSpace holds. */
  lemma EnsureWritableKeeps(s: State, len: nat)
    requires Valid(s)
    ensures var t := EnsureWritable(s, len);
            Valid(t) && Writable(t) >= len && Contents(t) == Contents(s)
    ensures Writable(s) < len && Writable(s) + s.reader >= len + CHEAP_PREPEND ==> CHEAP_PREPEND < s.reader
  {}

  function Append(s: State, data: seq<byte>): (t: State)
    requires Valid(s)
  {
    EnsureWritableKeeps(s, |data|);
    Fill(EnsureWritable(s, |data|), data)
  }

  function Prepend(s: State, data: seq<byte>): State
    requires Valid(s) && |data| <= s.reader
  {
    State(Overwrite(s.buf, s.reader - |data|, data), s.reader - |data|, s.writer)
  }

  function RetrieveAll(s: State): State {
    s.(reader := CHEAP_PREPEND, writer := CHEAP_PREPEND)
  }

  function Retrieve(s: State, len: nat): State
    requires Valid(s) && len <= Readable(s)
  {
    if len < Readable(s) then s.(reader := s.reader + len) else RetrieveAll(s)
  }

  function Unwrite(s: State, len: nat): State
    requires Valid(s) && len <= Readable(s)
  {
    s.(writer := s.writer - len)
  }

  function Shrink(s: State, reserve: nat): State
    requires Valid(s)
  {
    EnsureWritableKeeps(New(INITIAL_SIZE), Readable(s) + reserve);
    Append(EnsureWritable(New(INITIAL_SIZE), Readable(s) + reserve), Contents(s))
  }

  /** How many bytes one readv can deliver: the stack area is offered only when it is the larger one. */
  function ReadCapacity(s: State): nat
    requires Valid(s)
  {
    Writable(s) + if Writable(s) < EXTRA_SIZE then EXTRA_SIZE else 0
  }

  function ReadFd(s: State, got: seq<byte>): State
    requires Valid(s) && |got| <= ReadCapacity(s)
  {
    if |got| <= Writable(s) then Fill(s, got)
    else Append(Fill(s, got[..Writable(s)]), got[Writable(s)..])
  }

  // ---------------------------------------------------------------------
  // Refinement of a byte queue
  // ---------------------------------------------------------------------

  datatype Op =
    | OpAppend(data: seq<byte>)
    | OpPrepend(data: seq<byte>)
    | OpRetrieve(len: nat)
    | OpRetrieveAll
    | OpUnwrite(len: nat)
    | OpEnsureWritable(len: nat)
    | OpShrink(reserve: nat)
    | OpReadFd(got: seq<byte>)

  /** What the assertions in the code ask of a caller, and readv of the kernel. */
  predicate Allowed(s: State, op: Op)
    requires Valid(s)
  {
    match op
    case OpPrepend(data) => |data| <= s.reader
    case OpRetrieve(len) => len <= Readable(s)
    case OpUnwrite(len) => len <= Readable(s)
    case OpReadFd(got) => |got| <= ReadCapacity(s)
    case _ => true
  }

  function Do(s: State, op: Op): State
    requires Valid(s) && Allowed(s, op)
  {
    match op
    case OpAppend(data) => Append(s, data)
    case OpPrepend(data) => Prepend(s, data)
    case OpRetrieve(len) => Retrieve(s, len)
    case OpRetrieveAll => RetrieveAll(s)
    case OpUnwrite(len) => Unwrite(s, len)
    case OpEnsureWritable(len) => EnsureWritable(s, len)
    case OpShrink(reserve) => Shrink(s, reserve)
    case OpReadFd(got) => ReadFd(s, got)
  }

  /** The same operation on a plain queue of bytes, which has no indexes and no spare room. */
  function QueueDo(q: seq<byte>, op: Op): seq<byte> {
    match op
    case OpAppend(data) => q + data
    case OpPrepend(data) => data + q
    case OpRetrieve(len) => if len <= |q| then q[len..] else []
    case OpRetrieveAll => []
    case OpUnwrite(len) => if len <= |q| then q[..|q| - len] else []
    case OpEnsureWritable(_) => q
    case OpShrink(_) => q
    case OpReadFd(got) => q + got
  }

  lemma FillAppends(s: State, data: seq<byte>)
    requires Valid(s) && |data| <= Writable(s)
    ensures Valid(Fill(s, data)) && Contents(Fill(s, data)) == Contents(s) + data
  {}

  lemma AppendAppends(s: State, data: seq<byte>)
    requires Valid(s)
    ensures Valid(Append(s, data)) && Contents(Append(s, data)) == Contents(s) + data
  {
    EnsureWritableKeeps(s, |data|);
    FillAppends(EnsureWritable(s, |data|), data);
  }

  lemma PrependPrepends(s: State, data: seq<byte>)
    requires Valid(s) && |data| <= s.reader
    ensures Valid(Prepend(s, data)) && Contents(Prepend(s, data)) == data + Contents(s)
  {
    var t := Prepend(s, data);
    assert t.buf[t.reader..s.reader] == data;
    assert t.buf[s.reader..] == s.buf[s.reader..];
    assert Contents(t) == t.buf[t.reader..s.reader] + t.buf[s.reader..][..Readable(s)];
  }

  lemma ShrinkKeeps(s: State, reserve: nat)
    requires Valid(s)
    ensures var t := Shrink(s, reserve);
            Valid(t) && Contents(t) == Contents(s) && Writable(t) >= reserve
  {
    var spare := EnsureWritable(New(INITIAL_SIZE), Readable(s) + reserve);
    EnsureWritableKeeps(New(INITIAL_SIZE), Readable(s) + reserve);
    AppendAppends(spare, Contents(s));
  }

  lemma ReadFdAppends(s: State, got: seq<byte>)
    requires Valid(s) && |got| <= ReadCapacity(s)
    ensures Valid(ReadFd(s, got)) && Contents(ReadFd(s, got)) == Contents(s) + got
  {
    if |got| <= Writable(s) {
      FillAppends(s, got);
    } else {
      var here, there := got[..Writable(s)], got[Writable(s)..];
      FillAppends(s, here);
      AppendAppends(Fill(s, here), there);
      assert here + there == got;
      assert (Contents(s) + here) + there == Contents(s) + (here + there);
    }
  }

  lemma RetrieveDrops(s: State, len: nat)
    requires Valid(s) && len <= Readable(s)
    ensures Valid(Retrieve(s, len)) && Contents(Retrieve(s, len)) == Contents(s)[len..]
  {
    assert s.buf[s.reader..s.writer][len..] == s.buf[s.reader + len..s.writer];
  }

  lemma UnwriteDrops(s: State, len: nat)
    requires Valid(s) && len <= Readable(s)
    ensures Valid(Unwrite(s, len)) && Contents(Unwrite(s, len)) == Contents(s)[..Readable(s) - len]
  {
    assert s.buf[s.reader..s.writer][..Readable(s) - len] == s.buf[s.reader..s.writer - len];
  }

  /** Every operation keeps the buffer valid and does to its contents what the queue operation does. */
  lemma DoRefinesQueue(s: State, op: Op)
    requires Valid(s) && Allowed(s, op)
    ensures Valid(Do(s, op)) && Contents(Do(s, op)) == QueueDo(Contents(s), op)
  {
    hide Append, Prepend, EnsureWritable, Shrink, ReadFd, Retrieve, Unwrite;
    match op
    case OpAppend(data) => AppendAppends(s, data);
    case OpPrepend(data) => PrependPrepends(s, data);
    case OpEnsureWritable(len) => EnsureWritableKeeps(s, len);
    case OpShrink(reserve) => ShrinkKeeps(s, reserve);
    case OpReadFd(got) => ReadFdAppends(s, got);
    case OpRetrieve(len) => RetrieveDrops(s, len);
    case OpUnwrite(len) => UnwriteDrops(s, len);
    case OpRetrieveAll =>
  }

  /** Every operation of the run is one its caller may make when its turn comes. */
  predicate AllAllowed(s: State, ops: seq<Op>)
    requires Valid(s)
    decreases ops
  {
    ops != [] ==> Allowed(s, ops[0]) && (DoRefinesQueue(s, ops[0]); AllAllowed(Do(s, ops[0]), ops[1..]))
  }

  function Run(s: State, ops: seq<Op>): State
    requires Valid(s) && AllAllowed(s, ops)
    decreases ops
  {
    if ops == [] then s else DoRefinesQueue(s, ops[0]); Run(Do(s, ops[0]), ops[1..])
  }

  function QueueRun(q: seq<byte>, ops: seq<Op>): seq<byte>
    decreases ops
  {
    if ops == [] then q else QueueRun(QueueDo(q, ops[0]), ops[1..])
  }

  /** Main result: over any run, the readable bytes are those of a plain byte queue. */
  lemma {:induction false} RunRefinesQueue(s: State, ops: seq<Op>)
    requires Valid(s) && AllAllowed(s, ops)
    ensures Valid(Run(s, ops)) && Contents(Run(s, ops)) == QueueRun(Contents(s), ops)
    decreases ops
  {
    if ops != [] {
      DoRefinesQueue(s, ops[0]);
      RunRefinesQueue(Do(s, ops[0]), ops[1..]);
    }
  }

  // ---------------------------------------------------------------------
  // Space
  // ---------------------------------------------------------------------

  /** The largest readable + len that one operation passes to ensureWritableBytes. */
  function Demand(s: State, op: Op): nat
    requires Valid(s)
  {
    match op
    case OpAppend(data) => Readable(s) + |data|
    case OpEnsureWritable(len) => Readable(s) + len
    case OpShrink(reserve) => Readable(s) + reserve
    case OpReadFd(got) => if |got| <= Writable(s) then 0 else Readable(s) + |got|
    case _ => 0
  }

  function PeakDemand(s: State, ops: seq<Op>): nat
    requires Valid(s) && AllAllowed(s, ops)
    decreases ops
  {
    if ops == [] then 0
    else DoRefinesQueue(s, ops[0]); Max(Demand(s, ops[0]), PeakDemand(Do(s, ops[0]), ops[1..]))
  }

  /** The size a fresh buffer starts with, when the run makes one by shrinking. */
  function FreshSize(ops: seq<Op>): nat {
    if exists op <- ops :: op.OpShrink? then CHEAP_PREPEND + INITIAL_SIZE else 0
  }

  /** Growth happens only when compaction could not help, so the size stays within twice the demand. */
  lemma EnsureWritableSize(s: State, len: nat)
    requires Valid(s)
    ensures |EnsureWritable(s, len).buf| <= Max(|s.buf|, 2 * (Readable(s) + len) + 7)
  {}

  lemma AppendSize(s: State, data: seq<byte>)
    requires Valid(s)
    ensures |Append(s, data).buf| == |EnsureWritable(s, |data|).buf|
    ensures |Append(s, data).buf| <= Max(|s.buf|, 2 * (Readable(s) + |data|) + 7)
  {
    EnsureWritableKeeps(s, |data|);
    EnsureWritableSize(s, |data|);
    hide EnsureWritable;
  }

  lemma ShrinkSize(s: State, reserve: nat)
    requires Valid(s)
    ensures |Shrink(s, reserve).buf| == CHEAP_PREPEND + Max(INITIAL_SIZE, Readable(s) + reserve)
  {
    var spare := EnsureWritable(New(INITIAL_SIZE), Readable(s) + reserve);
    EnsureWritableKeeps(New(INITIAL_SIZE), Readable(s) + reserve);
    assert EnsureWritable(spare, Readable(s)) == spare;
    AppendSize(spare, Contents(s));
    hide Append;
  }

  lemma ReadFdSize(s: State, got: seq<byte>)
    requires Valid(s) && |got| <= ReadCapacity(s)
    ensures |ReadFd(s, got).buf| <= Max(|s.buf|, if |got| <= Writable(s) then 0 else 2 * (Readable(s) + |got|) + 7)
  {
    if |got| > Writable(s) {
      var here, there := got[..Writable(s)], got[Writable(s)..];
      FillAppends(s, here);
      AppendSize(Fill(s, here), there);
      hide Append;
    }
  }

  lemma DoSize(s: State, op: Op)
    requires Valid(s) && Allowed(s, op)
    ensures |Do(s, op).buf| <= Max(Max(|s.buf|, FreshSize([op])), 2 * Demand(s, op) + CHEAP_PREPEND)
  {
    hide Append, Shrink, ReadFd, EnsureWritable;
    match op
    case OpAppend(data) => AppendSize(s, data);
    case OpEnsureWritable(len) => EnsureWritableSize(s, len);
    case OpShrink(reserve) =>
      ShrinkSize(s, reserve);
      assert [op][0].OpShrink?;
    case OpReadFd(got) => ReadFdSize(s, got);
    case _ =>
  }

  lemma FreshSizeSplit(ops: seq<Op>)
    requires ops != []
    ensures FreshSize([ops[0]]) <= FreshSize(ops) && FreshSize(ops[1..]) <= FreshSize(ops)
  {
    assert ops[0] in ops;
  }

  /**
   * Main result: the vector never outgrows the larger of its starting size and twice the peak
   * demand plus eight; shrink brings in the default size of the buffer it builds.
   */
  lemma {:induction false} SpaceBound(s: State, ops: seq<Op>)
    requires Valid(s) && AllAllowed(s, ops)
    ensures |Run(s, ops).buf| <= Max(Max(|s.buf|, FreshSize(ops)), 2 * PeakDemand(s, ops) + CHEAP_PREPEND)
    decreases ops
  {
    hide Do, Demand, FreshSize, Allowed;
    if ops != [] {
      DoRefinesQueue(s, ops[0]);
      DoSize(s, ops[0]);
      SpaceBound(Do(s, ops[0]), ops[1..]);
      FreshSizeSplit(ops);
    }
  }

  /** Only prepending uses up the room in front, beyond what is less than the eight bytes kept for it. */
  lemma FrontRoom(s: State, op: Op)
    requires Valid(s) && Allowed(s, op)
    ensures op.OpPrepend? ==> Do(s, op).reader == s.reader - |op.data|
    ensures !op.OpPrepend? ==> Do(s, op).reader >= s.reader || Do(s, op).reader >= CHEAP_PREPEND
    ensures op.OpRetrieveAll? || op.OpShrink? || (op.OpRetrieve? && op.len == Readable(s)) ==>
              Do(s, op).reader == CHEAP_PREPEND
  {
    match op
    case OpAppend(data) => AppendRoom(s, data);
    case OpShrink(reserve) =>
      var spare := EnsureWritable(New(INITIAL_SIZE), Readable(s) + reserve);
      EnsureWritableKeeps(New(INITIAL_SIZE), Readable(s) + reserve);
      AppendRoom(spare, Contents(s));
      assert EnsureWritable(spare, Readable(s)) == spare;
    case OpReadFd(got) =>
      if |got| > Writable(s) {
        var here, there := got[..Writable(s)], got[Writable(s)..];
        FillAppends(s, here);
        AppendRoom(Fill(s, here), there);
      }
    case _ =>
  }

  lemma AppendRoom(s: State, data: seq<byte>)
    requires Valid(s)
    ensures Append(s, data).reader == EnsureWritable(s, |data|).reader
    ensures Append(s, data).reader >= s.reader || Append(s, data).reader >= CHEAP_PREPEND
  {
    EnsureWritableKeeps(s, |data|);
  }

  /** How many bytes a run prepends. */
  function Prepended(ops: seq<Op>): nat {
    if ops == [] then 0 else (if ops[0].OpPrepend? then |ops[0].data| else 0) + Prepended(ops[1..])
  }

  /** So over any run, up to eight bytes in all can be prepended, whatever else is done in between. */
  lemma {:induction false} RoomInFront(s: State, ops: seq<Op>)
    requires Valid(s) && AllAllowed(s, ops) && s.reader >= CHEAP_PREPEND
    ensures Run(s, ops).reader + Prepended(ops) >= CHEAP_PREPEND
    decreases ops
  {
    RoomBesides(s, ops, 0);
  }

  lemma {:induction false} RoomBesides(s: State, ops: seq<Op>, used: nat)
    requires Valid(s) && AllAllowed(s, ops) && s.reader + used >= CHEAP_PREPEND
    ensures Run(s, ops).reader + Prepended(ops) + used >= CHEAP_PREPEND
    decreases ops
  {
    hide Do, Allowed;
    if ops != [] {
      DoRefinesQueue(s, ops[0]);
      FrontRoom(s, ops[0]);
      RoomBesides(Do(s, ops[0]), ops[1..], used + if ops[0].OpPrepend? then |ops[0].data| else 0);
    }
  }

  // ---------------------------------------------------------------------
  // Line ends
  // ---------------------------------------------------------------------

  predicate CrlfAt(q: seq<byte>, i: nat) { i + 1 < |q| && q[i] == 13 && q[i + 1] == 10 }

  /** The first line end at or after start, or the size if there is none. */
  predicate IsFirstCrlf(q: seq<byte>, start: nat, pos: nat) {
    && start <= pos <= |q|
    && (forall i | start <= i < pos :: !CrlfAt(q, i))
    && (pos < |q| ==> CrlfAt(q, pos))
  }

  /**
   * Line framing: a line that holds no line end, even one that ends in a carriage return, is cut off
   * at its own length, and retrieving through its line end leaves what follows.
   */
  lemma LineIsFound(s: State, line: seq<byte>, rest: seq<byte>, pos: nat)
    requires Valid(s) && Contents(s) == line + [13, 10] + rest && forall i | 0 <= i < |line| :: !CrlfAt(line, i)
    requires IsFirstCrlf(Contents(s), 0, pos)
    ensures pos == |line| && pos + 2 <= Readable(s)
    ensures Valid(Retrieve(s, pos + 2)) && Contents(s)[..pos] == line && Contents(Retrieve(s, pos + 2)) == rest
  {
    var q := Contents(s);
    assert |q| == Readable(s) && CrlfAt(q, |line|);
    forall i | 0 <= i < |line|
      ensures !CrlfAt(q, i)
    {
      assert q[|line|] == 13 && line[i] == q[i];
      if i + 1 < |line| { assert line[i + 1] == q[i + 1] && !CrlfAt(line, i); }
    }
    DoRefinesQueue(s, OpRetrieve(pos + 2));
    assert q[pos + 2..] == rest;
  }
}
