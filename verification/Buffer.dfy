/** The Buffer class itself, each method proved against its function on values. */
module BufferClass {
  import opened ByteBuffer
  import opened IntegerCodec

  datatype ReadResult = Failed(errno: int) | Got(data: seq<byte>)

  class Buffer {
    var data: seq<byte>
    var reader: nat
    var writer: nat

    ghost function Abs(): State
      reads this
    {
      State(data, reader, writer)
    }

    ghost predicate Ok()
      reads this
    {
      ByteBuffer.Valid(Abs())
    }

    ghost function Bytes(): seq<byte>
      requires Ok()
      reads this
    {
      Contents(Abs())
    }

    constructor (initialSize: nat)
      ensures Ok() && Abs() == New(initialSize) && Bytes() == []
      ensures reader == CHEAP_PREPEND && Writable(Abs()) == initialSize
    {
      data := seq(CHEAP_PREPEND + initialSize, _ => 0);
      reader, writer := CHEAP_PREPEND, CHEAP_PREPEND;
    }

    method Swap(rhs: Buffer)
      modifies this, rhs
      ensures Abs() == old(rhs.Abs()) && rhs.Abs() == old(Abs())
    {
      data, rhs.data := rhs.data, data;
      reader, rhs.reader := rhs.reader, reader;
      writer, rhs.writer := rhs.writer, writer;
    }

    method ReadableBytes() returns (n: nat)
      requires Ok()
      ensures n == |Bytes()|
    {
      n := writer - reader;
    }

    method MakeSpace(len: nat)
      requires Ok() && Writable(Abs()) < len
      modifies this
      ensures Ok() && Abs() == ByteBuffer.MakeSpace(old(Abs()), len)
    {
      if |data| - writer + reader < len + CHEAP_PREPEND {
        data := Resize(data, writer + len);
      } else {
        assert CHEAP_PREPEND < reader;
        var readable := writer - reader;
        data := Overwrite(data, CHEAP_PREPEND, data[reader..writer]);
        reader := CHEAP_PREPEND;
        writer := reader + readable;
      }
    }

    method EnsureWritableBytes(len: nat)
      requires Ok()
      modifies this
      ensures Ok() && Abs() == EnsureWritable(old(Abs()), len)
      ensures Writable(Abs()) >= len && Bytes() == old(Bytes())
    {
      EnsureWritableKeeps(Abs(), len);
      if |data| - writer < len {
        MakeSpace(len);
      }
    }

    method Append(bytes: seq<byte>)
      requires Ok()
      modifies this
      ensures Ok() && Abs() == ByteBuffer.Append(old(Abs()), bytes)
      ensures Bytes() == old(Bytes()) + bytes
    {
      AppendAppends(Abs(), bytes);
      EnsureWritableBytes(|bytes|);
      data := Overwrite(data, writer, bytes);
      writer := writer + |bytes|;
    }

    method Prepend(bytes: seq<byte>)
      requires Ok() && |bytes| <= reader
      modifies this
      ensures Ok() && Abs() == ByteBuffer.Prepend(old(Abs()), bytes)
      ensures Bytes() == bytes + old(Bytes())
    {
      PrependPrepends(Abs(), bytes);
      reader := reader - |bytes|;
      data := Overwrite(data, reader, bytes);
    }

    method RetrieveAll()
      requires Ok()
      modifies this
      ensures Ok() && Abs() == ByteBuffer.RetrieveAll(old(Abs())) && Bytes() == [] && reader == CHEAP_PREPEND
    {
      reader := CHEAP_PREPEND;
      writer := CHEAP_PREPEND;
    }

    method Retrieve(len: nat)
      requires Ok() && len <= |Bytes()|
      modifies this
      ensures Ok() && Abs() == ByteBuffer.Retrieve(old(Abs()), len)
      ensures Bytes() == old(Bytes())[len..]
      ensures if Bytes() == [] then reader == CHEAP_PREPEND else reader == old(reader) + len
    {
      if len < writer - reader {
        reader := reader + len;
      } else {
        RetrieveAll();
      }
    }

    method RetrieveAsString(len: nat) returns (result: seq<byte>)
      requires Ok() && len <= |Bytes()|
      modifies this
      ensures Ok() && result + Bytes() == old(Bytes()) && |result| == len
    {
      result := data[reader..reader + len];
      Retrieve(len);
    }

    method Unwrite(len: nat)
      requires Ok() && len <= |Bytes()|
      modifies this
      ensures Ok() && Abs() == ByteBuffer.Unwrite(old(Abs()), len)
      ensures Bytes() == old(Bytes())[..|old(Bytes())| - len]
    {
      ghost var all := data[reader..writer];
      writer := writer - len;
      assert all[..|all| - len] == data[reader..writer];
    }

    method Shrink(reserve: nat)
      requires Ok()
      modifies this
      ensures Ok() && Abs() == ByteBuffer.Shrink(old(Abs()), reserve)
      ensures Bytes() == old(Bytes()) && Writable(Abs()) >= reserve
    {
      ShrinkKeeps(Abs(), reserve);
      var other := new Buffer(INITIAL_SIZE);
      other.EnsureWritableBytes(writer - reader + reserve);
      other.Append(data[reader..writer]);
      Swap(other);
    }

    /** findCRLF, as an offset into the readable bytes; no line end is None. */
    method FindCrlf(start: nat) returns (found: bool, pos: nat)
      requires Ok() && start <= |Bytes()|
      ensures IsFirstCrlf(Bytes(), start, pos) && (found <==> pos < |Bytes()|)
    {
      var q := data[reader..writer];
      pos := start;
      while pos < |q|
        invariant start <= pos <= |q| && forall i | start <= i < pos :: !CrlfAt(q, i)
      {
        if pos + 1 < |q| && q[pos] == 13 && q[pos + 1] == 10 {
          return true, pos;
        }
        pos := pos + 1;
      }
      found := false;
    }

    /** retrieveUntil, to an offset into the readable bytes. */
    method RetrieveUntil(end: nat)
      requires Ok() && end <= |Bytes()|
      modifies this
      ensures Ok() && Bytes() == old(Bytes())[end..]
    {
      Retrieve(end);
    }

    /** The readv result is the kernel's choice: an errno, or no more bytes than it was offered room for. */
    method ReadFd(result: ReadResult) returns (n: int, savedErrno: int)
      requires Ok() && (result.Got? ==> |result.data| <= ReadCapacity(Abs()))
      modifies this
      ensures Ok()
      ensures result.Failed? ==> n == -1 && savedErrno == result.errno && Abs() == old(Abs())
      ensures result.Got? ==> n == |result.data| && Abs() == ByteBuffer.ReadFd(old(Abs()), result.data)
      ensures result.Got? ==> Bytes() == old(Bytes()) + result.data
    {
      savedErrno := 0;
      if result.Failed? {
        return -1, result.errno;
      }
      var got := result.data;
      ReadFdAppends(Abs(), got);
      n := |got|;
      var writable := |data| - writer;
      if n <= writable {
        data := Overwrite(data, writer, got);
        writer := writer + n;
      } else {
        data := Overwrite(data, writer, got[..writable]);
        writer := |data|;
        Append(got[writable..]);
      }
    }

    method AppendInt(build: Build, v: Value)
      requires Ok() && IsValue(v)
      modifies this
      ensures Ok() && Bytes() == old(Bytes()) + AppendBytes(build, v)
    {
      var w := Width(v.kind);
      var be := HostToNetwork(build.order, Unsigned(v.x, w), w);
      Append(Memory(build.order, be, AppendVariable(build, v.kind))[..w]);
    }

    method ReadInt(build: Build, kind: Kind) returns (x: int)
      requires Ok() && Width(kind) <= |Bytes()|
      modifies this
      ensures Ok() && x == PeekBytes(build, old(Bytes())[..Width(kind)], kind)
      ensures Bytes() == old(Bytes())[Width(kind)..]
    {
      ghost var bytes := Bytes();
      var w := Width(kind);
      FirstBytes(data, reader, writer, w);
      x := PeekBytes(build, data[reader..reader + w], kind);
      Retrieve(w);
    }

    static lemma FirstBytes(data: seq<byte>, reader: nat, writer: nat, w: nat)
      requires reader + w <= writer <= |data|
      ensures data[reader..writer][..w] == data[reader..reader + w]
    {}

    method PrependInt(build: Build, v: Value)
      requires Ok() && IsValue(v) && v.kind != Int64 && PrependVariable(build, v.kind) <= reader
      modifies this
      ensures Ok() && Abs() == ByteBuffer.Prepend(old(Abs()), PrependBytes(build, v))
    {
      var w := Width(v.kind);
      var be := HostToNetwork(build.order, Unsigned(v.x, w), w);
      Prepend(Memory(build.order, be, PrependVariable(build, v.kind)));
    }
  }
}
