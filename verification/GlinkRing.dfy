/**
 The SPSS GLINK shared-memory FIFO of kernel/drivers/qcom_glink_spss.c.

 `Pipe` is the driver's pipe: the `fifo` buffer and the `head` and `tail` words,
 updated in place.  Two history fields tie it to an abstract byte stream: `Stream`
 is everything ever published and `Consumed` counts what was advanced over.
 */
module GlinkRing {
  import opened Bytes

  const LENGTH: nat := 2048            // SZ_2K, both directions
  const FULL_RESERVE: nat := 8
  const BLOCKED_CMD_RESERVE: nat := 8
  const ALIGNMENT: nat := 8

  type Ring = f: seq<byte> | |f| == LENGTH witness seq(LENGTH, _ => 0)
  type Index = i: nat | i < LENGTH

  /** A position at most one lap ahead, brought back into the ring. */
  function Wrap(at: nat): Index
    requires at < 2 * LENGTH
  {
    if at >= LENGTH then at - LENGTH else at
  }

  /** The word arithmetic of glink_spss_rx_avail. */
  function RxAvailOf(head: Index, tail: Index): nat {
    if head < tail then LENGTH - tail + head else head - tail
  }

  /** The word arithmetic of glink_spss_tx_avail. */
  function TxAvailOf(head: Index, tail: Index): nat {
    var avail := if tail <= head then LENGTH - head + tail else tail - head;
    if avail < FULL_RESERVE + BLOCKED_CMD_RESERVE then 0
    else avail - (FULL_RESERVE + BLOCKED_CMD_RESERVE)
  }

  /** The ALIGN macro of the kernel, for 8-byte alignment. */
  function Aligned(n: nat): (r: nat)
    ensures n <= r < n + ALIGNMENT && r % ALIGNMENT == 0
  {
    (n + ALIGNMENT - 1) / ALIGNMENT * ALIGNMENT
  }

  /** n bytes of the ring from position start on, wrapping at the end. */
  function Slice(fifo: Ring, start: Index, n: nat): (r: seq<byte>)
    requires n <= LENGTH
    ensures |r| == n
  {
    seq(n, i requires 0 <= i < n => fifo[Wrap(start + i)])
  }

  /** How far cell j lies after position start, walking forwards round the ring. */
  function Distance(start: Index, j: Index): (d: Index)
    ensures Wrap(start + d) == j
  {
    if start <= j then j - start else LENGTH - start + j
  }

  /** The ring after data is laid over it from position start; no other cell changes. */
  function Overlay(fifo: Ring, start: Index, data: seq<byte>): (r: Ring)
    requires |data| <= LENGTH
  {
    seq(LENGTH, j requires 0 <= j < LENGTH =>
      if Distance(start, j) < |data| then data[Distance(start, j)] else fifo[j])
  }

  /** Bytes laid down are read back, whatever lies around them. */
  lemma SliceOfOverlay(fifo: Ring, start: Index, data: seq<byte>)
    requires |data| <= LENGTH
    ensures Slice(Overlay(fifo, start, data), start, |data|) == data
  {
    forall i | 0 <= i < |data|
      ensures Overlay(fifo, start, data)[Wrap(start + i)] == data[i]
    {
      assert Distance(start, Wrap(start + i)) == i;
    }
  }

  /** Bytes laid down right after n bytes that leave room for them do not touch those n. */
  lemma SliceBeforeOverlay(fifo: Ring, start: Index, n: nat, data: seq<byte>)
    requires n + |data| <= LENGTH
    ensures Slice(Overlay(fifo, Wrap(start + n), data), start, n) == Slice(fifo, start, n)
  {
    var after := Overlay(fifo, Wrap(start + n), data);
    forall i | 0 <= i < n
      ensures Slice(after, start, n)[i] == Slice(fifo, start, n)[i]
    {
      assert Distance(Wrap(start + n), Wrap(start + i)) >= |data|;
    }
  }

  /** A slice is split anywhere. */
  lemma SliceSplit(fifo: Ring, start: Index, m: nat, n: nat)
    requires m + n <= LENGTH
    ensures Slice(fifo, start, m + n) == Slice(fifo, start, m) + Slice(fifo, Wrap(start + m), n)
  {
    var whole, rest := Slice(fifo, start, m + n), Slice(fifo, Wrap(start + m), n);
    forall i | 0 <= i < n
      ensures whole[m + i] == rest[i]
    {
      assert Wrap(Wrap(start + m) + i) == Wrap(start + m + i);
    }
    assert whole[m..] == rest;
  }

  /** A write after `unread`: the old bytes, both pieces and the padding are read back in order. */
  lemma SliceAfterWrite(f0: Ring, f1: Ring, f2: Ring, tail: Index, unread: seq<byte>,
                        hdr: seq<byte>, data: seq<byte>, pad: nat)
    requires |unread| + |hdr| + |data| + pad <= LENGTH
    requires unread == Slice(f0, tail, |unread|)
    requires f1 == Overlay(f0, Wrap(tail + |unread|), hdr)
    requires f2 == Overlay(f1, Wrap(tail + |unread| + |hdr|), data)
    ensures Slice(f2, tail, |unread| + |hdr| + |data| + pad)
         == unread + hdr + data + Slice(f2, Wrap(tail + |unread| + |hdr| + |data|), pad)
  {
    var u, h, d := |unread|, |hdr|, |data|;
    SliceBeforeOverlay(f0, tail, u, hdr);
    SliceOfOverlay(f0, Wrap(tail + u), hdr);
    SliceSplit(f1, tail, u, h);
    SliceBeforeOverlay(f1, tail, u + h, data);
    SliceOfOverlay(f1, Wrap(tail + u + h), data);
    SliceSplit(f2, tail, u + h, d);
    SliceSplit(f2, tail, u + h + d, pad);
  }

  /** The ring holds exactly `unread` between tail and head, head is aligned,
      and the reserve is kept, so a full ring never looks empty. */
  ghost predicate Holds(fifo: Ring, head: Index, tail: Index, unread: seq<byte>) {
    && |unread| <= LENGTH - FULL_RESERVE
    && head % ALIGNMENT == 0
    && head == Wrap(tail + |unread|)
    && unread == Slice(fifo, tail, |unread|)
  }

  /** From an aligned head, the padding depends on the length written alone. */
  lemma PaddingLength(head: Index, count: nat)
    requires head % ALIGNMENT == 0 && count <= LENGTH
    ensures Wrap(Aligned(Wrap(head + count))) == Wrap(head + Aligned(count))
    ensures Aligned(Wrap(head + count)) - Wrap(head + count) == Aligned(count) - count
  {
    var h, laps := head / ALIGNMENT, LENGTH / ALIGNMENT;
    assert head == ALIGNMENT * h && LENGTH == ALIGNMENT * laps;
    assert (head + count + 7) / 8 == h + (count + 7) / 8;
    assert head + count >= LENGTH ==> (head + count - LENGTH + 7) / 8 == h + (count + 7) / 8 - laps;
  }

  /** A header and data written inside TxAvailOf, and the padding up to the aligned
      end, extend what the ring holds; the padding is whatever the cells contained. */
  lemma WriteExtends(f0: Ring, f1: Ring, f2: Ring, head: Index, tail: Index, unread: seq<byte>,
                     hdr: seq<byte>, data: seq<byte>, mid: Index, end: Index) returns (pad: seq<byte>)
    requires Holds(f0, head, tail, unread)
    requires |hdr| + |data| <= TxAvailOf(head, tail)
    requires f1 == Overlay(f0, head, hdr) && mid == Wrap(head + |hdr|)
    requires f2 == Overlay(f1, mid, data) && end == Wrap(mid + |data|)
    ensures |pad| == Aligned(|hdr| + |data|) - |hdr| - |data|
    ensures Holds(f2, Wrap(Aligned(end)), tail, unread + hdr + data + pad)
  {
    hide Slice, Overlay;
    PaddingLength(head, |hdr| + |data|);
    var count := Aligned(|hdr| + |data|) - |hdr| - |data|;
    pad := Slice(f2, end, count);
    SliceAfterWrite(f0, f1, f2, tail, unread, hdr, data, count);
    assert |unread + hdr + data + pad| == |unread| + Aligned(|hdr| + |data|);
  }

  class Pipe {
    var head: Index
    var tail: Index
    const fifo: array<byte>

    ghost var Stream: seq<byte>
    ghost var Consumed: nat

    /** The unconsumed stream lies between tail and head, the head is aligned,
        and a full ring never looks empty. */
    ghost predicate Valid()
      reads this, fifo
    {
      && fifo.Length == LENGTH
      && Consumed <= |Stream|
      && Holds(fifo[..], head, tail, Unread())
    }

    ghost function Unread(): seq<byte>
      requires Consumed <= |Stream|
      reads this
    {
      Stream[Consumed..]
    }

    constructor ()
      ensures Valid() && fresh(fifo) && Stream == [] && Consumed == 0
    {
      fifo := new byte[LENGTH];
      head, tail := 0, 0;
      Stream, Consumed := [], 0;
    }

    method RxAvail() returns (avail: nat)
      requires Valid()
      ensures avail == |Unread()|
    {
      if head < tail {
        avail := LENGTH - tail + head;
      } else {
        avail := head - tail;
      }
    }

    method TxAvail() returns (avail: nat)
      requires Valid()
      ensures avail == TxAvailOf(head, tail)
      ensures avail == if |Unread()| + FULL_RESERVE + BLOCKED_CMD_RESERVE > LENGTH then 0
                       else LENGTH - FULL_RESERVE - BLOCKED_CMD_RESERVE - |Unread()|
    {
      if tail <= head {
        avail := LENGTH - head + tail;
      } else {
        avail := tail - head;
      }
      if avail < FULL_RESERVE + BLOCKED_CMD_RESERVE {
        avail := 0;
      } else {
        avail := avail - (FULL_RESERVE + BLOCKED_CMD_RESERVE);
      }
    }

    /** glink_spss_rx_peak copies into the caller's buffer, in one or two pieces. */
    method RxPeek(data: array<byte>, offset: nat, count: nat)
      requires fifo.Length == LENGTH && data != fifo
      requires offset < LENGTH && count <= LENGTH && count <= data.Length
      modifies data
      ensures data[..count] == Slice(fifo[..], Wrap(tail + offset), count)
      ensures data[count..] == old(data[count..])
    {
      var at: nat := tail + offset;
      if at >= LENGTH {
        at := at - LENGTH;
      }
      var len := if count < LENGTH - at then count else LENGTH - at;
      forall i | 0 <= i < len {
        data[i] := fifo[at + i];
      }
      assert forall i | 0 <= i < len :: data[i] == fifo[Wrap(at + i)];
      if len != count {
        forall i | len <= i < count {
          data[i] := fifo[i - len];
        }
      }
      assert forall i | 0 <= i < count :: data[i] == fifo[Wrap(at + i)];
    }

    /** What a peek inside the available bytes returns is the stream itself. */
    lemma PeekReturnsStream(offset: nat, count: nat)
      requires Valid() && offset + count <= |Unread()|
      ensures Slice(fifo[..], Wrap(tail + offset), count) == Unread()[offset..offset + count]
    {
      SliceSplit(fifo[..], tail, offset, count);
      SliceSplit(fifo[..], tail, offset + count, |Unread()| - offset - count);
    }

    method RxAdvance(count: nat)
      requires Valid() && count <= |Unread()|
      modifies this
      ensures Valid() && head == old(head) && Stream == old(Stream)
      ensures Consumed == old(Consumed) + count && Unread() == old(Unread())[count..]
    {
      ghost var n := |Unread()|;
      var t: nat := tail + count;
      if t >= LENGTH {
        t := t - LENGTH;
      }
      SliceSplit(fifo[..], tail, count, n - count);
      tail := t;
      Consumed := Consumed + count;
      assert Unread() == old(Unread())[count..];
    }

    /** glink_spss_tx_write_one: one or two copies, the head word untouched. */
    method TxWriteOne(start: Index, data: seq<byte>) returns (next: Index)
      requires fifo.Length == LENGTH && |data| <= LENGTH
      modifies fifo
      ensures next == Wrap(start + |data|)
      ensures fifo[..] == Overlay(old(fifo[..]), start, data)
    {
      var count := |data|;
      var len := if count < LENGTH - start then count else LENGTH - start;
      forall i | 0 <= i < len {
        fifo[start + i] := data[i];
      }
      if len != count {
        forall i | 0 <= i < count - len {
          fifo[i] := data[len + i];
        }
      }
      var at: nat := start + count;
      if at >= LENGTH {
        at := at - LENGTH;
      }
      next := at;
    }

    /** glink_spss_tx_write.  The caller has seen room for both pieces in TxAvail. */
    method TxWrite(hdr: seq<byte>, data: seq<byte>)
      requires Valid() && |hdr| + |data| <= TxAvailOf(head, tail)
      modifies this, fifo
      ensures Valid() && tail == old(tail) && Consumed == old(Consumed)
      ensures old(Stream) + hdr + data <= Stream
      ensures |Stream| == |old(Stream)| + Aligned(|hdr| + |data|)
      ensures old(Unread()) <= Unread()
    {
      ghost var f0, unread := fifo[..], Unread();
      var mid := TxWriteOne(head, hdr);
      ghost var f1 := fifo[..];
      var end := TxWriteOne(mid, data);
      ghost var pad := WriteExtends(f0, f1, fifo[..], head, tail, unread, hdr, data, mid, end);

      var h: nat := Aligned(end);
      if h >= LENGTH {
        h := h - LENGTH;
      }
      head := h;
      Stream := Stream + hdr + data + pad;
      assert Unread() == unread + hdr + data + pad;
    }
  }
}
