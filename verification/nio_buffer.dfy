/** The part of java.nio.ByteBuffer the recorder relies on: a fixed byte array with
    a position and a limit, relative bulk get/put, clear, flip and rewind. */
module NioBuffer {
  import opened Pcm

  class ByteBuf {
    /** The backing store; its length is the buffer's capacity. */
    const data: array<Byte>
    var position: nat
    var limit: nat

    ghost predicate Valid()
      reads this
    {
      position <= limit <= data.Length
    }

    function Remaining(): nat
      reads this
      requires Valid()
    {
      limit - position
    }

    /** The bytes between position and limit, the ones a reader sees next. */
    function Readable(): (r: seq<Byte>)
      reads this, data
      requires Valid()
      ensures |r| == Remaining()
    {
      data[position..limit]
    }

    /** `ByteBuffer.allocateDirect(capacity)`: zero-filled, position 0, limit at
        capacity. */
    constructor Allocate(capacity: nat)
      ensures Valid() && fresh(data)
      ensures data.Length == capacity && position == 0 && limit == capacity
      ensures forall i :: 0 <= i < capacity ==> data[i] == 0
    {
      data := new Byte[capacity](_ => 0);
      position := 0;
      limit := capacity;
    }

    /** `position(newPosition)`: throws IllegalArgumentException (ok false, nothing
        changes) when the new position is past the limit. */
    method SetPosition(newPosition: nat) returns (ok: bool)
      requires Valid()
      modifies this
      ensures Valid()
      ensures ok <==> newPosition <= old(limit)
      ensures position == (if ok then newPosition else old(position))
      ensures limit == old(limit)
      ensures !ok ==> unchanged(this)
    {
      ok := newPosition <= limit;
      if ok {
        position := newPosition;
      }
    }

    /** `get(dst)` for a destination of length n: the next n bytes, advancing the
        position past them. */
    method Get(n: nat) returns (bytes: seq<Byte>)
      requires Valid() && n <= Remaining()
      modifies this
      ensures Valid()
      ensures bytes == old(data[position..position + n])
      ensures position == old(position) + n && limit == old(limit)
    {
      bytes := data[position..position + n];
      position := position + n;
    }

    /** `clear()`: position 0, limit at capacity; the bytes stay. */
    method Clear()
      requires Valid()
      modifies this
      ensures Valid() && position == 0 && limit == data.Length
    {
      position := 0;
      limit := data.Length;
    }

    /** `flip()`: the limit moves to the position and the position to 0. */
    method Flip()
      requires Valid()
      modifies this
      ensures Valid() && position == 0 && limit == old(position)
    {
      limit := position;
      position := 0;
    }

    /** `rewind()`: the position moves to 0, the limit stays. */
    method Rewind()
      requires Valid()
      modifies this
      ensures Valid() && position == 0 && limit == old(limit)
    {
      position := 0;
    }

    /** `put(src)` for a byte array: src is written at the position, which advances
        past it. Overflowing the limit throws BufferOverflowException. */
    method Put(src: seq<Byte>)
      requires Valid() && |src| <= Remaining()
      modifies this, data
      ensures Valid()
      ensures data[..] == old(data[..position]) + src + old(data[position + |src|..])
      ensures position == old(position) + |src| && limit == old(limit)
    {
      var i := 0;
      while i < |src|
        invariant 0 <= i <= |src|
        invariant position == old(position) && limit == old(limit)
        invariant forall k :: 0 <= k < data.Length ==>
          data[k] == if position <= k < position + i then src[k - position] else old(data[k])
      {
        data[position + i] := src[i];
        i := i + 1;
      }
      assert data[..] == old(data[..position]) + src + old(data[position + |src|..]);
      position := position + |src|;
    }

    /** `put(src)` for another buffer: its readable bytes are written here and both
        positions advance past them. */
    method PutBuffer(src: ByteBuf)
      requires Valid() && src.Valid() && src.data != data && src != this
      requires src.Remaining() <= Remaining()
      modifies this, data, src
      ensures Valid() && src.Valid()
      ensures data[..] == old(data[..position]) + old(src.Readable()) + old(data[position + src.Remaining()..])
      ensures position == old(position + src.Remaining()) && limit == old(limit)
      ensures src.position == old(src.limit) && src.limit == old(src.limit)
      ensures src.data[..] == old(src.data[..])
    {
      var bytes := src.Get(src.Remaining());
      Put(bytes);
    }

    /** `putFloat(x)`: the four bytes of x in the buffer's byte order. */
    method PutFloat(x: real, encode: real -> Word)
      requires Valid() && 4 <= Remaining()
      modifies this, data
      ensures Valid()
      ensures data[..] == old(data[..position]) + encode(x) + old(data[position + 4..])
      ensures data[..position] == old(data[..position]) + encode(x)
      ensures position == old(position) + 4 && limit == old(limit)
    {
      Put(encode(x));
      assert data[..position] == data[..][..position];
    }
  }
}
