/** A byte buffer that grows at both ends (ferogram-crypto's deque_buffer.rs). */
module DequeBuffers {
  import opened Bytes

  function Zeros(n: nat): (s: seq<byte>)
    ensures |s| == n
  {
    seq(n, _ => 0)
  }

  class DequeBuffer {
    var buf: array<byte>
    var head: nat
    var defaultHead: nat

    ghost predicate Valid()
      reads this
    {
      head <= defaultHead <= buf.Length
    }

    function Contents(): seq<byte>
      requires Valid()
      reads this, buf
    {
      buf[head..]
    }

    constructor (front: nat)
      ensures Valid() && fresh(buf) && Contents() == [] && defaultHead == front
    {
      buf := new byte[front](_ => 0);
      head, defaultHead := front, front;
    }

    /** Replaces the storage by one that holds `s`. */
    method Reallocate(s: seq<byte>)
      modifies this`buf
      ensures fresh(buf) && buf[..] == s
    {
      buf := new byte[|s|](i requires 0 <= i < |s| => s[i]);
    }

    method Clear()
      requires Valid()
      modifies this, buf
      ensures Valid() && fresh(buf) && Contents() == [] && defaultHead == old(defaultHead)
    {
      var kept := buf[..defaultHead];
      Reallocate(kept);
      forall i | 0 <= i < head {
        buf[i] := 0;
      }
      head := defaultHead;
    }

    method Extend(slice: seq<byte>)
      requires Valid()
      modifies this`buf
      ensures Valid() && fresh(buf) && Contents() == old(Contents()) + slice
    {
      Reallocate(buf[..] + slice);
    }

    /** A prepend, whether or not there is room in front. */
    method ExtendFront(slice: seq<byte>)
      requires Valid()
      modifies this, buf
      ensures Valid() && (buf == old(buf) || fresh(buf)) && defaultHead == old(defaultHead)
      ensures Contents() == slice + old(Contents())
    {
      if head >= |slice| {
        head := head - |slice|;
      } else {
        var shift := |slice| - head;
        var grown := buf[..] + Zeros(shift);
        Reallocate(grown[|grown| - shift..] + grown[..|grown| - shift]);
        head := 0;
      }
      assert buf[head + |slice|..] == old(buf[head..]);
      forall i | 0 <= i < |slice| {
        buf[head + i] := slice[i];
      }
      assert buf[head..head + |slice|] == slice;
      assert buf[head + |slice|..] == old(buf[head..]);
    }

    method Len() returns (n: nat)
      requires Valid()
      ensures n == |Contents()|
    {
      n := buf.Length - head;
    }
  }
}
