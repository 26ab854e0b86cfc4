/** The growable byte buffer with cheap prepend (muduo/net/Buffer.h, muduo/net/Buffer.cc).

    A Buffer is specified by Readable(), the bytes between the two indices. Positions that the C++ class
    hands out as pointers are offsets from peek() here; NULL is None. */
module Buffers {

  import opened Common

  type Byte = c: char | c as int < 256

  const CHEAP_PREPEND: nat := 8
  const INITIAL_SIZE: nat := 1024
  const EXTRA_BUF: nat := 65536

  // ----- Searching -----

  /** std::find over s[from..]: the position of the first c, or |s|. */
  function Find(s: string, c: char, from: nat): (i: nat)
    requires from <= |s|
    ensures from <= i <= |s|
    ensures forall k :: from <= k < i ==> s[k] != c
    ensures i < |s| ==> s[i] == c
    decreases |s| - from
  {
    if from == |s| || s[from] == c then from else Find(s, c, from + 1)
  }

  predicate CRLFAt(s: string, i: nat) {
    i + 1 < |s| && s[i] == '\r' && s[i + 1] == '\n'
  }

  /** std::search for "\r\n" over s[from..]. */
  function FindCRLF(s: string, from: nat): (r: Option<nat>)
    requires from <= |s|
    ensures r.Some? ==> from <= r.value && CRLFAt(s, r.value) && forall k :: from <= k < r.value ==> !CRLFAt(s, k)
    ensures r.None? ==> forall k :: from <= k ==> !CRLFAt(s, k)
    decreases |s| - from
  {
    if from == |s| then None
    else if CRLFAt(s, from) then Some(from)
    else FindCRLF(s, from + 1)
  }

  // ----- Integers in network byte order -----

  function Pow256(n: nat): nat {
    if n == 0 then 1 else 256 * Pow256(n - 1)
  }

  /** The signed integers of n bytes. */
  predicate FitsSigned(x: int, n: nat) {
    n > 0 && -(Pow256(n) / 2) <= x < Pow256(n) / 2
  }

  /** The low n bytes of a non-negative integer, most significant first. */
  function Bytes(u: nat, n: nat): (s: seq<Byte>)
    ensures |s| == n
  {
    if n == 0 then [] else Bytes(u / 256, n - 1) + [(u % 256) as char]
  }

  function Unsigned(s: seq<Byte>): nat {
    if s == [] then 0 else 256 * Unsigned(s[..|s| - 1]) + s[|s| - 1] as int
  }

  /** Two's complement, most significant byte first: what hostToNetwork lays out in memory. */
  function ToNetwork(x: int, n: nat): (s: seq<Byte>)
    requires FitsSigned(x, n)
    ensures |s| == n
  {
    Bytes(if x < 0 then x + Pow256(n) else x, n)
  }

  function FromNetwork(s: seq<Byte>): int {
    var u := Unsigned(s);
    if 2 * u < Pow256(|s|) then u else u - Pow256(|s|)
  }

  lemma {:induction false} UnsignedOfBytes(u: nat, n: nat)
    requires u < Pow256(n)
    ensures Unsigned(Bytes(u, n)) == u
  {
    if n > 0 {
      UnsignedOfBytes(u / 256, n - 1);
      assert Bytes(u, n)[..n - 1] == Bytes(u / 256, n - 1);
    }
  }

  lemma {:induction false} BytesOfUnsigned(s: seq<Byte>)
    ensures Unsigned(s) < Pow256(|s|)
    ensures Bytes(Unsigned(s), |s|) == s
  {
    if s != [] {
      BytesOfUnsigned(s[..|s| - 1]);
      assert s == s[..|s| - 1] + [s[|s| - 1]];
    }
  }

  /** Every signed value is read back unchanged. */
  lemma NetworkRoundTrip(x: int, n: nat)
    requires FitsSigned(x, n)
    ensures FromNetwork(ToNetwork(x, n)) == x
  {
    UnsignedOfBytes(if x < 0 then x + Pow256(n) else x, n);
  }

  /** Every n bytes denote a signed value of that width whose encoding they are. */
  lemma NetworkRoundTripBytes(s: seq<Byte>)
    requires s != []
    ensures FitsSigned(FromNetwork(s), |s|)
    ensures ToNetwork(FromNetwork(s), |s|) == s
  {
    BytesOfUnsigned(s);
    assert Pow256(|s|) == 2 * (128 * Pow256(|s| - 1));
  }

  /** The value of the bytes, each with its weight: the first of n counts 256^(n - 1) times, the last once. */
  function Weighted(s: seq<Byte>): nat {
    if s == [] then 0 else s[0] as int * Pow256(|s| - 1) + Weighted(s[1..])
  }

  lemma {:induction false} WeightedSnoc(s: seq<Byte>, b: Byte)
    ensures Weighted(s + [b]) == 256 * Weighted(s) + b as int
  {
    if s == [] {
      assert ([] + [b])[1..] == [];
    } else {
      assert (s + [b])[1..] == s[1..] + [b];
      WeightedSnoc(s[1..], b);
      var h, p := s[0] as int, Pow256(|s| - 1);
      assert h * (256 * p) == 256 * (h * p);
    }
  }

  lemma {:induction false} UnsignedIsWeighted(s: seq<Byte>)
    ensures Unsigned(s) == Weighted(s)
  {
    if s != [] {
      var n := |s| - 1;
      UnsignedIsWeighted(s[..n]);
      WeightedSnoc(s[..n], s[n]);
      assert s == s[..n] + [s[n]];
    }
  }

  /** The most significant byte comes first, in two's complement. */
  lemma BigEndian(x: int, n: nat)
    requires FitsSigned(x, n)
    ensures Weighted(ToNetwork(x, n)) == if x < 0 then x + Pow256(n) else x
  {
    var u := if x < 0 then x + Pow256(n) else x;
    UnsignedOfBytes(u, n);
    UnsignedIsWeighted(Bytes(u, n));
  }

  /** What readv returned: an errno, or the bytes it stored across the segments. */
  datatype ReadResult = ReadError(errno: int) | ReadBytes(bytes: seq<Byte>)

  function Zeros(n: nat): (s: seq<Byte>)
    ensures |s| == n
  {
    seq(n, _ => 0 as char)
  }

  class Buffer {
    var data: seq<Byte>
    var readerIndex: nat
    var writerIndex: nat

    ghost predicate Valid()
      reads this
    {
      CHEAP_PREPEND <= |data| && readerIndex <= writerIndex <= |data|
    }

    ghost function Readable(): seq<Byte>
      requires Valid()
      reads this
    {
      data[readerIndex..writerIndex]
    }

    function ReadableBytes(): nat
      requires Valid()
      reads this
    {
      writerIndex - readerIndex
    }

    function WritableBytes(): nat
      requires Valid()
      reads this
    {
      |data| - writerIndex
    }

    function PrependableBytes(): nat
      requires Valid()
      reads this
    {
      readerIndex
    }

    constructor (initialSize: nat)
      ensures Valid() && Readable() == []
      ensures WritableBytes() == initialSize && PrependableBytes() == CHEAP_PREPEND
    {
      data := Zeros(CHEAP_PREPEND + initialSize);
      readerIndex := CHEAP_PREPEND;
      writerIndex := CHEAP_PREPEND;
    }

    method Swap(rhs: Buffer)
      requires Valid() && rhs.Valid()
      modifies this, rhs
      ensures Valid() && rhs.Valid()
      ensures Readable() == old(rhs.Readable()) && rhs.Readable() == old(Readable())
      ensures WritableBytes() == old(rhs.WritableBytes()) && PrependableBytes() == old(rhs.PrependableBytes())
      ensures rhs.WritableBytes() == old(WritableBytes()) && rhs.PrependableBytes() == old(PrependableBytes())
    {
      var d, r, w := data, readerIndex, writerIndex;
      data, readerIndex, writerIndex := rhs.data, rhs.readerIndex, rhs.writerIndex;
      rhs.data, rhs.readerIndex, rhs.writerIndex := d, r, w;
    }

    /** Offset of the first CRLF in the readable bytes, at or after start. */
    method FindCRLFFrom(start: nat) returns (r: Option<nat>)
      requires Valid() && start <= ReadableBytes()
      ensures r == FindCRLF(Readable(), start)
    {
      r := FindCRLF(data[readerIndex..writerIndex], start);
    }

    method FindEOLFrom(start: nat) returns (r: Option<nat>)
      requires Valid() && start <= ReadableBytes()
      ensures r.Some? ==> start <= r.value < |Readable()| && Readable()[r.value] == '\n'
      ensures r.Some? ==> '\n' !in Readable()[start..r.value]
      ensures r.None? ==> '\n' !in Readable()[start..]
    {
      var s := data[readerIndex..writerIndex];
      var i := Find(s, '\n', start);
      r := if i < |s| then Some(i) else None;
    }

    method Peek() returns (s: seq<Byte>)
      requires Valid()
      ensures s == Readable()
    {
      s := data[readerIndex..writerIndex];
    }

    method RetrieveAll()
      requires Valid()
      modifies this
      ensures Valid() && Readable() == []
      ensures PrependableBytes() == CHEAP_PREPEND && |data| == old(|data|)
    {
      readerIndex := CHEAP_PREPEND;
      writerIndex := CHEAP_PREPEND;
    }

    method Retrieve(len: nat)
      requires Valid() && len <= ReadableBytes()
      modifies this
      ensures Valid() && Readable() == old(Readable())[len..]
      ensures |data| == old(|data|)
    {
      if len < ReadableBytes() {
        readerIndex := readerIndex + len;
      } else {
        RetrieveAll();
      }
    }

    method RetrieveAsString(len: nat) returns (result: seq<Byte>)
      requires Valid() && len <= ReadableBytes()
      modifies this
      ensures Valid() && result == old(Readable())[..len] && Readable() == old(Readable())[len..]
    {
      result := data[readerIndex..readerIndex + len];
      assert result == Readable()[..len];
      Retrieve(len);
    }

    /** Growth or compaction: the readable bytes stay, the room is there, the cheap prepend space is kept. */
    method MakeSpace(len: nat)
      requires Valid() && WritableBytes() < len
      modifies this
      ensures Valid() && Readable() == old(Readable()) && WritableBytes() >= len
      ensures PrependableBytes() == old(PrependableBytes()) || PrependableBytes() == CHEAP_PREPEND
    {
      if WritableBytes() + PrependableBytes() < len + CHEAP_PREPEND {
        data := data + Zeros(writerIndex + len - |data|);
        assert Readable() == old(Readable());
      } else {
        assert CHEAP_PREPEND < readerIndex;
        var readable := ReadableBytes();
        data := data[..CHEAP_PREPEND] + data[readerIndex..writerIndex] + data[CHEAP_PREPEND + readable..];
        readerIndex := CHEAP_PREPEND;
        writerIndex := readerIndex + readable;
        assert Readable() == old(Readable());
      }
    }

    method EnsureWritableBytes(len: nat)
      requires Valid()
      modifies this
      ensures Valid() && Readable() == old(Readable()) && WritableBytes() >= len
      ensures old(WritableBytes()) >= len ==> unchanged(this)
      ensures PrependableBytes() == old(PrependableBytes()) || PrependableBytes() == CHEAP_PREPEND
    {
      if WritableBytes() < len {
        MakeSpace(len);
      }
    }

    /** Bytes that the caller stored through beginWrite() become readable. */
    method HasWritten(len: nat)
      requires Valid() && len <= WritableBytes()
      modifies this
      ensures Valid() && Readable() == old(Readable()) + old(data[writerIndex..writerIndex + len])
      ensures data == old(data) && readerIndex == old(readerIndex)
    {
      writerIndex := writerIndex + len;
    }

    /** Somebody writes at beginWrite(). */
    method Deposit(bytes: seq<Byte>)
      requires Valid() && |bytes| <= WritableBytes()
      modifies this`data
      ensures Valid() && Readable() == old(Readable()) && |data| == old(|data|)
      ensures data[writerIndex..writerIndex + |bytes|] == bytes
    {
      data := data[..writerIndex] + bytes + data[writerIndex + |bytes|..];
    }

    /** User code writes there and then says so with hasWritten. */
    method Fill(bytes: seq<Byte>)
      requires Valid() && |bytes| <= WritableBytes()
      modifies this
      ensures Valid() && Readable() == old(Readable()) + bytes
    {
      Deposit(bytes);
      HasWritten(|bytes|);
    }

    method Unwrite(len: nat)
      requires Valid() && len <= ReadableBytes()
      modifies this
      ensures Valid() && Readable() == old(Readable())[..old(ReadableBytes()) - len]
    {
      writerIndex := writerIndex - len;
    }

    method Append(bytes: seq<Byte>)
      requires Valid()
      modifies this
      ensures Valid() && Readable() == old(Readable()) + bytes
      ensures PrependableBytes() == old(PrependableBytes()) || PrependableBytes() == CHEAP_PREPEND
      ensures old(WritableBytes()) >= |bytes| ==> WritableBytes() == old(WritableBytes()) - |bytes|
    {
      EnsureWritableBytes(|bytes|);
      ghost var before := Readable();
      data := data[..writerIndex] + bytes + data[writerIndex + |bytes|..];
      assert Readable() == before;
      assert data[writerIndex..writerIndex + |bytes|] == bytes;
      HasWritten(|bytes|);
    }

    method Prepend(bytes: seq<Byte>)
      requires Valid() && |bytes| <= PrependableBytes()
      modifies this
      ensures Valid() && Readable() == bytes + old(Readable())
      ensures PrependableBytes() == old(PrependableBytes()) - |bytes|
    {
      readerIndex := readerIndex - |bytes|;
      data := data[..readerIndex] + bytes + data[readerIndex + |bytes|..];
      assert data[readerIndex + |bytes|..writerIndex] == old(data[readerIndex..writerIndex]);
      assert Readable() == bytes + data[readerIndex + |bytes|..writerIndex];
    }

    /** Reallocation to the size of the content plus a reserve. */
    method Shrink(reserve: nat)
      requires Valid()
      modifies this
      ensures Valid() && Readable() == old(Readable()) && WritableBytes() >= reserve
      ensures PrependableBytes() == CHEAP_PREPEND
    {
      var other := new Buffer(INITIAL_SIZE);
      other.EnsureWritableBytes(ReadableBytes() + reserve);
      other.Append(data[readerIndex..writerIndex]);
      Swap(other);
    }

    /** Scatter read into the writable bytes and, when they are fewer than 65536, a stack buffer. */
    method ReadFd(result: ReadResult) returns (n: int, savedErrno: Option<int>)
      requires Valid()
      requires result.ReadBytes? ==>
                 |result.bytes| <= WritableBytes() + (if WritableBytes() < EXTRA_BUF then EXTRA_BUF else 0)
      modifies this
      ensures Valid()
      ensures result.ReadError? ==> n == -1 && savedErrno == Some(result.errno) && Readable() == old(Readable())
      ensures result.ReadBytes? ==>
              n == |result.bytes| && savedErrno.None? && Readable() == old(Readable()) + result.bytes
    {
      var writable := WritableBytes();
      match result
      case ReadError(errno) =>
        return -1, Some(errno);
      case ReadBytes(bytes) =>
        n, savedErrno := |bytes|, None;
        // the kernel fills the first segment, then the second
        var first := if n <= writable then bytes else bytes[..writable];
        var extrabuf := bytes[|first|..];
        Deposit(first);
        if n <= writable {
          writerIndex := writerIndex + n;
        } else {
          writerIndex := |data|;
          assert Readable() == old(Readable()) + first;
          assert bytes == first + extrabuf;
          Append(extrabuf);
        }
    }

    method AppendInt(x: int, width: nat)
      requires Valid() && width in {1, 2, 4, 8} && FitsSigned(x, width)
      modifies this
      ensures Valid() && Readable() == old(Readable()) + ToNetwork(x, width)
      ensures PrependableBytes() == old(PrependableBytes()) || PrependableBytes() == CHEAP_PREPEND
    {
      Append(ToNetwork(x, width));
    }

    method PrependInt(x: int, width: nat)
      requires Valid() && width in {1, 2, 4, 8} && FitsSigned(x, width) && width <= PrependableBytes()
      modifies this
      ensures Valid() && Readable() == ToNetwork(x, width) + old(Readable())
    {
      Prepend(ToNetwork(x, width));
    }

    method PeekInt(width: nat) returns (x: int)
      requires Valid() && width in {1, 2, 4, 8} && width <= ReadableBytes()
      ensures FitsSigned(x, width) && x == FromNetwork(Readable()[..width])
    {
      var s := data[readerIndex..readerIndex + width];
      assert s == Readable()[..width];
      NetworkRoundTripBytes(s);
      x := FromNetwork(s);
    }

    method ReadInt(width: nat) returns (x: int)
      requires Valid() && width in {1, 2, 4, 8} && width <= ReadableBytes()
      modifies this
      ensures Valid() && FitsSigned(x, width) && x == FromNetwork(old(Readable())[..width])
      ensures Readable() == old(Readable())[width..]
    {
      x := PeekInt(width);
      Retrieve(width);
    }
  }

  /** Integers appended and prepended to a drained buffer are read back, in order. */
  method WriteThenReadInts(b: Buffer, x: int, y: int, width: nat) returns (x': int, y': int)
    requires b.Valid() && b.Readable() == [] && b.PrependableBytes() >= CHEAP_PREPEND
    requires width in {1, 2, 4, 8} && FitsSigned(x, width) && FitsSigned(y, width)
    modifies b
    ensures b.Valid() && b.Readable() == [] && x' == x && y' == y
  {
    NetworkRoundTrip(x, width);
    NetworkRoundTrip(y, width);
    b.AppendInt(y, width);
    b.PrependInt(x, width);
    assert b.Readable()[..width] == ToNetwork(x, width) && b.Readable()[width..] == ToNetwork(y, width);
    x' := b.ReadInt(width);
    assert b.Readable()[..width] == ToNetwork(y, width);
    y' := b.ReadInt(width);
  }
}
