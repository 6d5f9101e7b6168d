/** The growable byte buffer with head and tail cursors (include/codicis/util/buffer.h). */
module Buffers {
  import opened FeedWire

  class Buffer {
    var storage: array<Byte>
    var readPos: nat
    var writePos: nat

    ghost predicate Valid()
      reads this
    {
      readPos <= writePos <= storage.Length
    }

    /** The unconsumed bytes, oldest first. */
    ghost function Contents(): seq<Byte>
      requires Valid()
      reads this, storage
    {
      storage[readPos..writePos]
    }

    constructor ()
      ensures Valid() && fresh(storage) && Contents() == []
    {
      storage := new Byte[0];
      readPos, writePos := 0, 0;
    }

    method Size() returns (n: nat)
      requires Valid()
      ensures n == |Contents()|
    {
      n := writePos - readPos;
    }

    /** The unconsumed bytes as a value. */
    method View() returns (v: seq<Byte>)
      requires Valid()
      ensures v == Contents()
    {
      v := storage[readPos..writePos];
    }

    /** Move the unconsumed bytes to the front of the storage. */
    method Compact()
      requires Valid()
      modifies this`readPos, this`writePos, storage
      ensures Valid() && storage == old(storage) && readPos == 0
      ensures Contents() == old(Contents())
    {
      var n := writePos - readPos;
      if readPos > 0 {
        for i := 0 to n
          invariant Valid() && n == writePos - readPos
          invariant readPos == old(readPos) && writePos == old(writePos) && storage == old(storage)
          invariant forall k :: 0 <= k < i ==> storage[k] == old(storage[readPos + k])
          invariant forall k :: readPos + i <= k < writePos ==> storage[k] == old(storage[k])
        {
          storage[i] := storage[readPos + i];
        }
      }
      readPos := 0;
      writePos := n;
    }

    /** Make room for `len` more bytes: reclaim consumed space first, then grow. */
    method ReserveTail(len: nat)
      requires Valid()
      modifies this, storage
      ensures Valid() && storage.Length - writePos >= len
      ensures Contents() == old(Contents())
      ensures storage == old(storage) || fresh(storage)
    {
      if storage.Length - writePos >= len {
        return;
      }
      if readPos > 0 {
        Compact();
      }
      if storage.Length - writePos < len {
        var bigger := new Byte[writePos + len](i => 0);
        for i := 0 to writePos
          invariant Valid() && storage == old(storage) && bigger != storage && writePos + len == bigger.Length
          invariant Contents() == old(Contents())
          invariant forall k :: 0 <= k < i ==> bigger[k] == storage[k]
        {
          bigger[i] := storage[i];
        }
        assert bigger[readPos..writePos] == storage[readPos..writePos];
        storage := bigger;
      }
    }

    /** Append bytes at the tail. */
    method Append(src: seq<Byte>)
      requires Valid()
      modifies this, storage
      ensures Valid() && Contents() == old(Contents()) + src
      ensures storage == old(storage) || fresh(storage)
    {
      if |src| == 0 {
        return;
      }
      ReserveTail(|src|);
      Write(src);
      Commit(|src|);
    }

    /** What the holder of a reserved region does: write there, beyond the unconsumed bytes. */
    method Write(src: seq<Byte>)
      requires Valid() && storage.Length - writePos >= |src|
      modifies storage
      ensures Valid() && Contents() == old(Contents())
      ensures storage[writePos..writePos + |src|] == src
    {
      ghost var before := storage[..];
      for i := 0 to |src|
        invariant storage[readPos..writePos] == before[readPos..writePos]
        invariant forall k :: 0 <= k < i ==> storage[writePos + k] == src[k]
      {
        storage[writePos + i] := src[i];
      }
    }

    /** Take over `len` bytes written to the reserved region. */
    method Commit(len: nat)
      requires Valid() && writePos + len <= storage.Length
      modifies this`writePos
      ensures Valid()
      ensures Contents() == old(Contents()) + old(storage[writePos..writePos + len])
    {
      writePos := writePos + len;
    }

    /** Drop `len` bytes from the head, or everything if there are fewer. */
    method Consume(len: nat)
      requires Valid()
      modifies this`readPos, this`writePos, storage
      ensures Valid() && storage == old(storage)
      ensures Contents() == if len >= |old(Contents())| then [] else old(Contents())[len..]
    {
      if len >= writePos - readPos {
        readPos, writePos := 0, 0;
        return;
      }
      readPos := readPos + len;
      assert Contents() == old(Contents())[len..];
      if readPos > 0 && readPos >= storage.Length / 2 {
        Compact();
      }
    }
  }
}
