/** A byte buffer that compacts and grows, with a zone in front for prepending. */
module Buffers {
  import opened Agendas
  import opened Codec

  const CHEAP_PREPEND: nat := 8

  /** The most storage a buffer needs that was built for `initial` bytes and never held more than `peak`:
      what it was built with, as long as that holds the content. */
  function StorageBound(initial: nat, peak: nat): nat {
    if peak <= initial then CHEAP_PREPEND + initial else Max(CHEAP_PREPEND + peak, 2 * peak + 6)
  }

  /** Length of the storage and the two indices, which callers see as the prependable and writable
      space. */
  datatype Shape = Shape(size: nat, read: nat, write: nat) {

    predicate Valid() { read <= write <= size }

    /** The shape with room for `len` more bytes: only if the space on both sides does not suffice is
        storage added; otherwise the content moves down to the prepend zone. */
    function WithRoom(len: nat): Shape
      requires Valid()
    {
      if len <= size - write then this
      else if size - write + read < len + CHEAP_PREPEND then this.(size := write + len)
      else Shape(size, CHEAP_PREPEND, CHEAP_PREPEND + (write - read))
    }
  }

  class Buffer {
    var data: seq<byte>
    var readIdx: nat
    var writeIdx: nat

    ghost const initial: nat
    ghost var peak: nat   // the largest readable content so far

    ghost predicate Valid()
      reads this
    {
      && readIdx <= writeIdx <= |data|
      && CHEAP_PREPEND + initial <= |data|
      && (CHEAP_PREPEND < readIdx ==> readIdx < writeIdx)
      && writeIdx - readIdx <= peak
      && |data| <= StorageBound(initial, peak)
    }

    function GetShape(): Shape
      reads this
    {
      Shape(|data|, readIdx, writeIdx)
    }

    /** What a reader sees. */
    function Peek(): seq<byte>
      requires Valid()
      reads this
    {
      data[readIdx..writeIdx]
    }

    constructor (size: nat)
      ensures Valid() && Peek() == [] && initial == size && peak == 0
      ensures GetShape() == Shape(CHEAP_PREPEND + size, CHEAP_PREPEND, CHEAP_PREPEND)
      ensures |data| == 8 + size && readIdx == writeIdx == 8
    {
      data := seq(CHEAP_PREPEND + size, _ => 0);
      readIdx := CHEAP_PREPEND;
      writeIdx := CHEAP_PREPEND;
      initial := size;
      peak := 0;
    }

    function ReadableBytes(): (n: nat)
      requires Valid()
      reads this
      ensures n == |Peek()|
    {
      writeIdx - readIdx
    }

    function WritableBytes(): nat
      requires Valid()
      reads this
    {
      |data| - writeIdx
    }

    function PrependableBytes(): nat
      reads this
    {
      readIdx
    }

    method Retrieve(size: nat)
      requires Valid() && size <= ReadableBytes()
      modifies this
      ensures Valid() && Peek() == old(Peek())[size..] && peak == old(peak)
      ensures var was := old(GetShape());
              GetShape() == if size < was.write - was.read then was.(read := was.read + size)
                            else Shape(was.size, CHEAP_PREPEND, CHEAP_PREPEND)
    {
      if size < ReadableBytes() {
        readIdx := readIdx + size;
      } else {
        RetrieveAll();
      }
    }

    method RetrieveAll()
      requires Valid()
      modifies this
      ensures Valid() && Peek() == [] && peak == old(peak)
      ensures GetShape() == Shape(old(|data|), CHEAP_PREPEND, CHEAP_PREPEND)
    {
      readIdx := CHEAP_PREPEND;
      writeIdx := CHEAP_PREPEND;
    }

    method Prepend(bytes: seq<byte>)
      requires Valid() && |bytes| <= PrependableBytes()
      modifies this
      ensures Valid() && Peek() == bytes + old(Peek()) && peak == Max(old(peak), |Peek()|)
      ensures GetShape() == old(GetShape()).(read := old(readIdx) - |bytes|)
    {
      readIdx := readIdx - |bytes|;
      data := Splice(data, readIdx, bytes);
      assert data[readIdx..writeIdx] ==
             data[readIdx..readIdx + |bytes|] + data[readIdx + |bytes|..][..writeIdx - readIdx - |bytes|];
      peak := Max(peak, writeIdx - readIdx);
    }

    method Append(bytes: seq<byte>)
      requires Valid()
      modifies this
      ensures Valid() && Peek() == old(Peek()) + bytes && peak == Max(old(peak), |Peek()|)
      ensures var room := old(GetShape()).WithRoom(|bytes|); GetShape() == room.(write := room.write + |bytes|)
    {
      EnsureWritable(|bytes|);
      data := Splice(data, writeIdx, bytes);
      assert data[readIdx..writeIdx + |bytes|] == data[..writeIdx][readIdx..] + bytes;
      writeIdx := writeIdx + |bytes|;
    }

    /** Makes room for `len` bytes without changing the content. Storage grows only if the space before
        and after the content together does not suffice; otherwise the content moves to the front. */
    method EnsureWritable(len: nat)
      requires Valid()
      modifies this
      ensures GetShape() == old(GetShape()).WithRoom(len) && GetShape().Valid()
      ensures len <= |data| - writeIdx && CHEAP_PREPEND + initial <= |data|
      ensures var behind, before := |old(data)| - old(writeIdx), old(readIdx);
              if len <= behind then |data| == |old(data)| && readIdx == before
              else if behind + before < len + 8 then |data| == old(writeIdx) + len && readIdx == before
              else |data| == |old(data)| && readIdx == 8
      ensures data[readIdx..writeIdx] == old(Peek())
      ensures CHEAP_PREPEND < readIdx ==> readIdx < writeIdx
      ensures peak == Max(old(peak), |old(Peek())| + len) && |data| <= StorageBound(initial, peak)
    {
      peak := Max(peak, |Peek()| + len);
      if WritableBytes() < len {
        if WritableBytes() + PrependableBytes() < len + CHEAP_PREPEND {
          data := Resized(data, writeIdx + len);
        } else {
          assert CHEAP_PREPEND < readIdx;
          var readable := ReadableBytes();
          data := Splice(data, CHEAP_PREPEND, data[readIdx..writeIdx]);
          readIdx := CHEAP_PREPEND;
          writeIdx := readIdx + readable;
          assert readable == writeIdx - readIdx;
        }
      }
    }

    method AppendAs(w: Width, val: int)
      requires Valid() && InRange(w, val)
      modifies this
      ensures Valid() && Peek() == old(Peek()) + Encode(w, val) && peak == Max(old(peak), |Peek()|)
    {
      Append(Encode(w, val));
    }

    method PrependAs(w: Width, val: int)
      requires Valid() && InRange(w, val) && Size(w) <= PrependableBytes()
      modifies this
      ensures Valid() && Peek() == Encode(w, val) + old(Peek()) && peak == Max(old(peak), |Peek()|)
    {
      Prepend(Encode(w, val));
    }

    method PeekAs(w: Width) returns (val: int)
      requires Valid() && Size(w) <= ReadableBytes()
      ensures InRange(w, val) && Encode(w, val) == Peek()[..Size(w)]
    {
      EncodeOfDecode(w, Peek()[..Size(w)]);
      val := Decode(w, Peek()[..Size(w)]);
    }

    method RetrieveAs(w: Width) returns (val: int)
      requires Valid() && Size(w) <= ReadableBytes()
      modifies this
      ensures Valid() && InRange(w, val) && old(Peek()) == Encode(w, val) + Peek() && peak == old(peak)
    {
      val := PeekAs(w);
      assert Peek() == Peek()[..Size(w)] + Peek()[Size(w)..];
      Retrieve(Size(w));
    }
  }

  /** `bytes` in place of what stood at `at`. */
  function Splice(data: seq<byte>, at: nat, bytes: seq<byte>): (r: seq<byte>)
    requires at + |bytes| <= |data|
    ensures |r| == |data|
    ensures r[at..at + |bytes|] == bytes && r[..at] == data[..at] && r[at + |bytes|..] == data[at + |bytes|..]
  {
    data[..at] + bytes + data[at + |bytes|..]
  }

  /** Cut off or filled up with zeros. */
  function Resized(data: seq<byte>, n: nat): (r: seq<byte>)
    ensures |r| == n && forall i :: 0 <= i < n ==> r[i] == if i < |data| then data[i] else 0
  {
    if n <= |data| then data[..n] else data + seq(n - |data|, _ => 0)
  }

  /** The bound cannot be improved: for every initial size and every peak some buffer needs all of it. */
  method BoundIsAttained(initial: nat, peak: nat) returns (b: Buffer)
    ensures b.Valid() && b.initial == initial && b.peak == peak && |b.data| == StorageBound(initial, peak)
  {
    b := new Buffer(initial);
    if peak <= initial || peak < 2 {
      b.Append(seq(peak, _ => 0 as byte));
    } else {
      var bytes := seq(peak - 1, _ => 0 as byte);
      b.Append(bytes);
      assert b.GetShape() == Shape(7 + peak, 8, 7 + peak);
      b.Retrieve(peak - 2);
      b.Append(bytes);
    }
  }

  /** Prepending a value and taking it off again leaves the content as it was. */
  method PrependThenRetrieve(b: Buffer, w: Width, val: int) returns (r: int)
    requires b.Valid() && InRange(w, val) && Size(w) <= b.PrependableBytes()
    modifies b
    ensures b.Valid() && r == val && b.Peek() == old(b.Peek())
  {
    b.PrependAs(w, val);
    r := b.RetrieveAs(w);
    EncodeIsPrefixFree(w, val, r, old(b.Peek()), b.Peek());
  }
}
