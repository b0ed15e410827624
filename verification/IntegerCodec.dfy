/** Integers in network byte order inside a buffer: include/Buffer.h and include/Endian.h. */
module IntegerCodec {
  import opened ByteBuffer

  /** The byte order of the machine's own integers. */
  datatype HostOrder = LittleEndian | BigEndian

  datatype Kind = Int8 | Int16 | Int32 | Int64

  datatype Value = Value(kind: Kind, x: int)

  function Width(kind: Kind): (w: nat)
    ensures w in {1, 2, 4, 8}
  {
    match kind
    case Int8 => 1
    case Int16 => 2
    case Int32 => 4
    case Int64 => 8
  }

  function Pow256(w: nat): (p: nat)
    ensures p > 0
  {
    if w == 0 then 1 else 256 * Pow256(w - 1)
  }

  predicate InRange(x: int, w: nat) {
    0 <= 2 * x + Pow256(w) < 2 * Pow256(w)
  }

  /** Two's complement, both ways. */
  function Unsigned(x: int, w: nat): (u: nat)
    requires InRange(x, w)
    ensures u < Pow256(w)
  {
    if x < 0 then x + Pow256(w) else x
  }

  function Signed(u: nat, w: nat): int {
    if 2 * u < Pow256(w) then u else u - Pow256(w)
  }

  // ---------------------------------------------------------------------
  // Bytes of an unsigned number
  // ---------------------------------------------------------------------

  function ToBig(u: nat, w: nat): (bytes: seq<byte>)
    ensures |bytes| == w
  {
    if w == 0 then [] else ToBig(u / 256, w - 1) + [(u % 256) as byte]
  }

  function FromBig(bytes: seq<byte>): nat {
    if bytes == [] then 0
    else FromBig(bytes[..|bytes| - 1]) * 256 + bytes[|bytes| - 1] as nat
  }

  function ToLittle(u: nat, w: nat): (bytes: seq<byte>)
    ensures |bytes| == w
  {
    if w == 0 then [] else [(u % 256) as byte] + ToLittle(u / 256, w - 1)
  }

  function FromLittle(bytes: seq<byte>): nat {
    if bytes == [] then 0 else bytes[0] as nat + 256 * FromLittle(bytes[1..])
  }

  /** An integer variable of w bytes as it lies in memory. */
  function Memory(order: HostOrder, u: nat, w: nat): (bytes: seq<byte>)
    ensures |bytes| == w
  {
    if order == LittleEndian then ToLittle(u, w) else ToBig(u, w)
  }

  function FromMemory(order: HostOrder, bytes: seq<byte>): nat {
    if order == LittleEndian then FromLittle(bytes) else FromBig(bytes)
  }

  /** htobeNN: the number whose memory image is the big-endian form of u. */
  function HostToNetwork(order: HostOrder, u: nat, w: nat): nat {
    FromMemory(order, ToBig(u, w))
  }

  /** beNNtoh: the number whose big-endian form is the memory image of net. */
  function NetworkToHost(order: HostOrder, net: nat, w: nat): nat {
    FromBig(Memory(order, net, w))
  }

  lemma {:induction false} BigRoundTrip(u: nat, w: nat)
    requires u < Pow256(w)
    ensures FromBig(ToBig(u, w)) == u
  {
    if w > 0 {
      BigRoundTrip(u / 256, w - 1);
      assert ToBig(u, w)[..w - 1] == ToBig(u / 256, w - 1);
    }
  }

  lemma {:induction false} BigOfFromBig(bytes: seq<byte>)
    ensures FromBig(bytes) < Pow256(|bytes|) && ToBig(FromBig(bytes), |bytes|) == bytes
  {
    if bytes != [] {
      BigOfFromBig(bytes[..|bytes| - 1]);
    }
  }

  lemma {:induction false} LittleOfFromLittle(bytes: seq<byte>)
    ensures FromLittle(bytes) < Pow256(|bytes|) && ToLittle(FromLittle(bytes), |bytes|) == bytes
  {
    if bytes != [] {
      LittleOfFromLittle(bytes[1..]);
    }
  }

  lemma MemoryOfFromMemory(order: HostOrder, bytes: seq<byte>)
    ensures FromMemory(order, bytes) < Pow256(|bytes|)
    ensures Memory(order, FromMemory(order, bytes), |bytes|) == bytes
  {
    if order == LittleEndian { LittleOfFromLittle(bytes); } else { BigOfFromBig(bytes); }
  }

  /** In a wider variable the little-endian image keeps its low bytes in front ... */
  lemma {:induction false} WiderLittle(u: nat, w: nat, wide: nat)
    requires w <= wide && u < Pow256(w)
    ensures ToLittle(u, wide)[..w] == ToLittle(u, w)
    ensures forall i :: w <= i < wide ==> ToLittle(u, wide)[i] == 0
  {
    if wide > 0 {
      WiderLittle(u / 256, if w == 0 then 0 else w - 1, wide - 1);
    }
  }

  /** ... and the big-endian image moves them to the end. */
  lemma {:induction false} WiderBig(u: nat, w: nat, wide: nat)
    requires w <= wide && u < Pow256(w)
    ensures ToBig(u, wide)[wide - w..] == ToBig(u, w)
    ensures forall i :: 0 <= i < wide - w ==> ToBig(u, wide)[i] == 0
  {
    if wide > 0 {
      WiderBig(u / 256, if w == 0 then 0 else w - 1, wide - 1);
    }
  }

  // ---------------------------------------------------------------------
  // append, peek, read and prepend
  // ---------------------------------------------------------------------

  /** The C++ types of the variables in between: those written, or those of the value itself. */
  datatype Types = AsWritten | AsMeant

  datatype Build = Build(order: HostOrder, types: Types)

  /** The variable handed to append: be16 is written int64_t, the others are as wide as the value. */
  function AppendVariable(build: Build, kind: Kind): nat {
    if build.types.AsWritten? && kind == Int16 then 8 else Width(kind)
  }

  /** The variable handed to prepend, in full: be16 is written int32_t. */
  function PrependVariable(build: Build, kind: Kind): nat {
    if build.types.AsWritten? && kind == Int16 then 4 else Width(kind)
  }

  predicate IsValue(v: Value) { InRange(v.x, Width(v.kind)) }

  function AppendBytes(build: Build, v: Value): (bytes: seq<byte>)
    requires IsValue(v)
    ensures |bytes| == Width(v.kind)
  {
    var w := Width(v.kind);
    Memory(build.order, HostToNetwork(build.order, Unsigned(v.x, w), w), AppendVariable(build, v.kind))[..w]
  }

  function PrependBytes(build: Build, v: Value): (bytes: seq<byte>)
    requires IsValue(v)
    ensures |bytes| == PrependVariable(build, v.kind)
  {
    var w := Width(v.kind);
    Memory(build.order, HostToNetwork(build.order, Unsigned(v.x, w), w), PrependVariable(build, v.kind))
  }

  /** peekInt64 is written to return int32_t, which cuts its result to 32 bits; the others keep theirs. */
  function PeekBytes(build: Build, bytes: seq<byte>, kind: Kind): int
    requires |bytes| == Width(kind)
  {
    var u := NetworkToHost(build.order, FromMemory(build.order, bytes), Width(kind));
    if build.types.AsWritten? && kind == Int64 then Signed(u % Pow256(4), 4) else Signed(u, Width(kind))
  }

  function Peek(build: Build, s: State, kind: Kind): int
    requires Valid(s) && Width(kind) <= Readable(s)
  {
    PeekBytes(build, Contents(s)[..Width(kind)], kind)
  }

  // ---------------------------------------------------------------------
  // One value
  // ---------------------------------------------------------------------

  lemma NarrowAppend(build: Build, v: Value)
    requires IsValue(v)
    ensures AppendBytes(build, v)
            == if build == Build(BigEndian, AsWritten) && v.kind == Int16 then [0, 0]
               else ToBig(Unsigned(v.x, Width(v.kind)), Width(v.kind))
  {
    var w := Width(v.kind);
    var bytes := ToBig(Unsigned(v.x, w), w);
    MemoryOfFromMemory(build.order, bytes);
    if build.types.AsWritten? && v.kind == Int16 {
      var net := FromMemory(build.order, bytes);
      if build.order == LittleEndian { WiderLittle(net, 2, 8); } else { WiderBig(net, 2, 8); }
    }
  }

  lemma QuotientOfQuotient(x: int, p: nat)
    requires p > 0
    ensures x / 256 / p == x / (256 * p)
  {
    var q := x / 256 / p;
    var low := x - 256 * p * q;
    assert x == 256 * (x / 256) + x % 256 && x / 256 == p * q + x / 256 % p;
    assert low == 256 * (x / 256 % p) + x % 256;
    assert 0 <= low < 256 * p;
    QuotientIs(x, 256 * p, q);
  }

  lemma QuotientIs(x: int, d: nat, q: int)
    requires d > 0 && 0 <= x - d * q < d
    ensures x / d == q
  {
    var k := q - x / d;
    assert d * k == x % d - (x - d * q);
    MultipleOf(d, k);
  }

  lemma MultipleOf(d: nat, k: int)
    ensures k >= 1 ==> d * k >= d
    ensures k <= -1 ==> d * k + d <= 0
  {
    if k >= 1 {
      assert d * (k - 1) >= 0;
    } else if k <= -1 {
      assert d * (-1 - k) >= 0;
    }
  }

  /** Byte by byte, the big-endian form is the two's complement digits of the number, highest first. */
  lemma {:induction false} BigByte(x: int, w: nat, i: nat)
    requires i < w
    ensures ToBig(x % Pow256(w), w)[i] as int == x / Pow256(w - 1 - i) % 256
    decreases w
  {
    var p := Pow256(w - 1);
    LowDigits(x, p);
    if i < w - 1 {
      BigByte(x / 256, w - 1, i);
      QuotientOfQuotient(x, Pow256(w - 2 - i));
    }
  }

  /** A number and its digits above the lowest, both cut to so many digits. */
  lemma LowDigits(x: int, p: nat)
    requires p > 0
    ensures x % (256 * p) / 256 == x / 256 % p && x % (256 * p) % 256 == x % 256
  {
    var q := x / (256 * p);
    QuotientOfQuotient(x, p);
    assert x % (256 * p) == x - 256 * p * q;
    assert x == 256 * (x / 256) + x % 256 && x / 256 == p * q + x / 256 % p;
    assert x % (256 * p) == 256 * (x / 256 % p) + x % 256;
    QuotientIs(x % (256 * p), 256, x / 256 % p);
  }

  /** The i-th byte append writes is the i-th of the number in network byte order, but for NarrowAppend's exception. */
  lemma AppendedByte(build: Build, v: Value, i: nat)
    requires IsValue(v) && i < Width(v.kind) && !(build == Build(BigEndian, AsWritten) && v.kind == Int16)
    ensures AppendBytes(build, v)[i] as int == v.x / Pow256(Width(v.kind) - 1 - i) % 256
  {
    var w := Width(v.kind);
    NarrowAppend(build, v);
    BigByte(v.x, w, i);
    UnsignedIsModulo(v.x, w);
    hide AppendBytes, ToBig, Unsigned, Pow256;
  }

  lemma UnsignedIsModulo(x: int, w: nat)
    requires InRange(x, w)
    ensures Unsigned(x, w) == x % Pow256(w)
  {
    QuotientIs(x, Pow256(w), if x < 0 then -1 else 0);
  }

  lemma WidePrepend(build: Build, v: Value)
    requires IsValue(v)
    ensures var bytes := ToBig(Unsigned(v.x, Width(v.kind)), Width(v.kind));
            PrependBytes(build, v)
            == if build.types.AsMeant? || v.kind != Int16 then bytes
               else if build.order == LittleEndian then bytes + [0, 0] else [0, 0] + bytes
  {
    var w := Width(v.kind);
    var bytes := ToBig(Unsigned(v.x, w), w);
    MemoryOfFromMemory(build.order, bytes);
    if build.types.AsWritten? && v.kind == Int16 {
      var net := FromMemory(build.order, bytes);
      if build.order == LittleEndian { WiderLittle(net, 2, 4); } else { WiderBig(net, 2, 4); }
    }
  }

  lemma PeekOfBig(build: Build, u: nat, kind: Kind)
    requires u < Pow256(Width(kind))
    ensures PeekBytes(build, ToBig(u, Width(kind)), kind)
            == if build.types.AsWritten? && kind == Int64 then Signed(u % Pow256(4), 4) else Signed(u, Width(kind))
  {
    MemoryOfFromMemory(build.order, ToBig(u, Width(kind)));
    BigRoundTrip(u, Width(kind));
  }

  /** The values carried faithfully: with the types meant, all of them. */
  predicate Faithful(build: Build, v: Value) {
    build.types.AsWritten? ==>
      && (v.kind == Int64 ==> InRange(v.x, 4))
      && (v.kind == Int16 ==> build.order == LittleEndian || v.x == 0)
  }

  lemma Powers()
    ensures Pow256(1) == 0x100 && Pow256(2) == 0x1_0000 && Pow256(4) == 0x1_0000_0000
    ensures Pow256(8) == 0x1_0000_0000_0000_0000
  {
    assert Pow256(3) == 0x100_0000;
    assert Pow256(6) == 0x1_0000_0000_0000 by { assert Pow256(5) == 0x100_0000_0000; }
  }

  /** A value read back is the value appended exactly when it is one of those. */
  lemma ReadBack(build: Build, v: Value)
    requires IsValue(v)
    ensures PeekBytes(build, AppendBytes(build, v), v.kind) == v.x <==> Faithful(build, v)
  {
    hide AppendBytes, PeekBytes, ToBig, Pow256;
    Powers();
    var w := Width(v.kind);
    NarrowAppend(build, v);
    PeekOfBig(build, Unsigned(v.x, w), v.kind);
    PeekOfBig(build, 0, v.kind);
    if v.kind == Int16 { assert ToBig(0, 2) == [0, 0] by { ZeroBytes(); } }
  }

  lemma ZeroBytes()
    ensures ToBig(0, 2) == [0, 0]
  {}

  // ---------------------------------------------------------------------
  // Lists of values
  // ---------------------------------------------------------------------

  predicate AreValues(vs: seq<Value>) { forall v <- vs :: IsValue(v) }

  function AppendAll(build: Build, s: State, vs: seq<Value>): (t: State)
    requires Valid(s) && AreValues(vs)
    ensures Valid(t)
    decreases vs
  {
    if vs == [] then s
    else
      AppendAppends(s, AppendBytes(build, vs[0]));
      AppendAll(build, Append(s, AppendBytes(build, vs[0])), vs[1..])
  }

  function TotalWidth(vs: seq<Value>): nat {
    if vs == [] then 0 else Width(vs[0].kind) + TotalWidth(vs[1..])
  }

  /** Reads one value of each listed kind, front to back. */
  function ReadAll(build: Build, s: State, vs: seq<Value>): (r: (seq<int>, State))
    requires Valid(s) && TotalWidth(vs) <= Readable(s)
    ensures Valid(r.1) && |r.0| == |vs|
    decreases vs
  {
    if vs == [] then ([], s)
    else
      var w := Width(vs[0].kind);
      var (xs, t) := ReadAll(build, Retrieve(s, w), vs[1..]);
      ([Peek(build, s, vs[0].kind)] + xs, t)
  }

  function Encode(build: Build, vs: seq<Value>): (bytes: seq<byte>)
    requires AreValues(vs)
    ensures |bytes| == TotalWidth(vs)
  {
    if vs == [] then [] else AppendBytes(build, vs[0]) + Encode(build, vs[1..])
  }

  lemma {:induction false} AppendAllContents(build: Build, s: State, vs: seq<Value>)
    requires Valid(s) && AreValues(vs)
    ensures Contents(AppendAll(build, s, vs)) == Contents(s) + Encode(build, vs)
    decreases vs
  {
    hide AppendBytes, Append;
    if vs != [] {
      AppendAppends(s, AppendBytes(build, vs[0]));
      AppendAllContents(build, Append(s, AppendBytes(build, vs[0])), vs[1..]);
    }
  }

  lemma {:induction false} ReadAllEncoded(build: Build, s: State, vs: seq<Value>, tail: seq<byte>)
    requires Valid(s) && AreValues(vs) && Contents(s) == Encode(build, vs) + tail
    ensures TotalWidth(vs) <= Readable(s)
    ensures var (xs, t) := ReadAll(build, s, vs);
            && Contents(t) == tail
            && forall i :: 0 <= i < |vs| ==> (xs[i] == vs[i].x <==> Faithful(build, vs[i]))
    decreases vs
  {
    hide AppendBytes, PeekBytes, Faithful;
    assert |Contents(s)| == Readable(s);
    if vs != [] {
      var w := Width(vs[0].kind);
      var rest := Encode(build, vs[1..]) + tail;
      assert Contents(s) == AppendBytes(build, vs[0]) + rest;
      assert Contents(s)[..w] == AppendBytes(build, vs[0]);
      ReadBack(build, vs[0]);
      assert Contents(Retrieve(s, w)) == rest by { DoRefinesQueue(s, OpRetrieve(w)); }
      ReadAllEncoded(build, Retrieve(s, w), vs[1..], tail);
    }
  }

  /**
   * Main result: append any list of integers and then any bytes, whatever compactions that takes;
   * once the older contents are gone the matching reads consume the integers alone and give the
   * same numbers back, exactly when every one of them is faithful in this build.
   */
  lemma CodecRoundTrip(build: Build, s: State, vs: seq<Value>, tail: seq<byte>)
    requires Valid(s) && AreValues(vs)
    ensures
      var written := AppendAll(build, s, vs);
      && Valid(Append(written, tail)) && Readable(s) + TotalWidth(vs) <= Readable(Append(written, tail))
      && var ready := Retrieve(Append(written, tail), Readable(s));
      && TotalWidth(vs) <= Readable(ready)
      && var (xs, t) := ReadAll(build, ready, vs);
      && Contents(t) == tail
      && (xs == seq(|vs|, i requires 0 <= i < |vs| => vs[i].x)
          <==> forall v <- vs :: Faithful(build, v))
  {
    hide AppendBytes, PeekBytes, Faithful, Append, IsValue;
    var written := AppendAll(build, s, vs);
    AppendAllContents(build, s, vs);
    AppendAppends(written, tail);
    var full := Append(written, tail);
    assert Contents(full) == Contents(s) + (Encode(build, vs) + tail);
    assert |Contents(full)| == Readable(full);
    var ready := Retrieve(full, Readable(s));
    DoRefinesQueue(full, OpRetrieve(Readable(s)));
    assert Contents(ready) == Encode(build, vs) + tail;
    ReadAllEncoded(build, ready, vs, tail);
    var xs := ReadAll(build, ready, vs).0;
    var expected := seq(|vs|, i requires 0 <= i < |vs| => vs[i].x);
    if forall v <- vs :: Faithful(build, v) {
      assert xs == expected;
    } else {
      var i :| 0 <= i < |vs| && !Faithful(build, vs[i]);
      assert xs[i] != expected[i];
    }
  }

  /**
   * Prepending an integer and reading it is the identity; with the types written, for 8 and 32 bits,
   * while for 16 the contents never come back, and the value does from a little-endian host or if 0.
   */
  lemma PrependRoundTrip(build: Build, s: State, v: Value)
    requires Valid(s) && IsValue(v) && v.kind != Int64 && PrependVariable(build, v.kind) <= s.reader
    ensures
      var t := Prepend(s, PrependBytes(build, v));
      && Valid(t) && Width(v.kind) <= Readable(t)
      && (Contents(Retrieve(t, Width(v.kind))) == Contents(s) <==> build.types.AsMeant? || v.kind != Int16)
      && (Peek(build, t, v.kind) == v.x
          <==> build.types.AsMeant? || v.kind != Int16 || build.order == LittleEndian || v.x == 0)
  {
    hide AppendBytes, PeekBytes, PrependBytes, ToBig, Pow256;
    Powers();
    var w := Width(v.kind);
    var bytes := PrependBytes(build, v);
    PrependPrepends(s, bytes);
    var t := Prepend(s, bytes);
    assert |Contents(t)| == Readable(t);
    WidePrepend(build, v);
    DoRefinesQueue(t, OpRetrieve(w));
    if build.types.AsWritten? && v.kind == Int16 {
      assert |Contents(Retrieve(t, w))| == |Contents(s)| + 2;
      var u := if build.order == LittleEndian then Unsigned(v.x, w) else 0;
      if build.order == BigEndian { ZeroBytes(); }
      assert Contents(t)[..2] == bytes[..2] == ToBig(u, 2);
      PeekOfBig(build, u, v.kind);
    } else {
      assert Contents(t)[..w] == bytes;
      PeekOfBig(build, Unsigned(v.x, w), v.kind);
    }
  }
}
