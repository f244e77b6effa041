/**
 The same ring shared by one writer and one reader that interleave at every load,
 store and copied byte.  `stream` and `consumed` are history: the bytes published
 so far and how many of them the reader has advanced over.
 */
module GlinkInterleaving {
  import opened Bytes
  import opened GlinkRing

  datatype Writer =
    | WIdle
    | WChecked(room: nat)                                             // has called tx_avail
    // inside tx_write: msg is hdr + data, done the part of it already copied
    | WCopying(at: Index, rest: seq<byte>, next: Option<seq<byte>>, done: seq<byte>, msg: seq<byte>)

  datatype Reader =
    | RIdle
    | RChecked(avail: nat)                                            // has called rx_avail
    | RCopying(avail: nat, offset: nat, count: nat, buffer: seq<byte>) // inside rx_peak

  datatype State = State(fifo: Ring, head: Index, tail: Index,
                         stream: seq<byte>, consumed: nat, w: Writer, r: Reader)

  datatype Step =
    | CheckRoom
    | BeginWrite(hdr: seq<byte>, data: seq<byte>)
    | CopyIn
    | NextPiece
    | Publish
    | CheckAvail
    | BeginPeek(offset: nat, count: nat)
    | CopyOut
    | EndPeek
    | Advance(count: nat)

  predicate Enabled(s: State, step: Step) {
    match step
    case CheckRoom => !s.w.WCopying?
    case BeginWrite(hdr, data) => s.w.WChecked? && |hdr| + |data| <= s.w.room
    case CopyIn => s.w.WCopying? && s.w.rest != []
    case NextPiece => s.w.WCopying? && s.w.rest == [] && s.w.next.Some?
    case Publish => s.w.WCopying? && s.w.rest == [] && s.w.next.None?
    case CheckAvail => !s.r.RCopying?
    case BeginPeek(offset, count) =>
      s.r.RChecked? && offset + count <= s.r.avail && s.r.avail <= LENGTH && offset < LENGTH
    case CopyOut => s.r.RCopying? && |s.r.buffer| < s.r.count && s.r.offset < LENGTH && s.r.count <= LENGTH
    case EndPeek => s.r.RCopying? && |s.r.buffer| == s.r.count
    case Advance(count) => s.r.RChecked? && count <= s.r.avail && count <= LENGTH
  }

  /** Publishing appends to the history whatever the cells between the old and new head hold. */
  function Next(s: State, step: Step): State
    requires Enabled(s, step)
  {
    match step
    case CheckRoom => s.(w := WChecked(TxAvailOf(s.head, s.tail)))
    case BeginWrite(hdr, data) => s.(w := WCopying(s.head, hdr, Some(data), [], hdr + data))
    case CopyIn => s.(fifo := s.fifo[s.w.at := s.w.rest[0]],
                      w := s.w.(at := Wrap(s.w.at + 1), rest := s.w.rest[1..], done := s.w.done + s.w.rest[..1]))
    case NextPiece => s.(w := s.w.(rest := s.w.next.value, next := None))
    case Publish =>
      var head := Wrap(Aligned(s.w.at));
      s.(head := head, stream := s.stream + Slice(s.fifo, s.head, RxAvailOf(head, s.head)), w := WIdle)
    case CheckAvail => s.(r := RChecked(RxAvailOf(s.head, s.tail)))
    case BeginPeek(offset, count) => s.(r := RCopying(s.r.avail, offset, count, []))
    case CopyOut => s.(r := s.r.(buffer := s.r.buffer + [s.fifo[Wrap(Wrap(s.tail + s.r.offset) + |s.r.buffer|)]]))
    case EndPeek => s.(r := RChecked(s.r.avail))
    case Advance(count) => s.(tail := Wrap(s.tail + count), consumed := s.consumed + count,
                              r := RChecked(s.r.avail - count))
  }

  predicate Init(s: State) {
    && s.head == s.tail == 0
    && s.stream == [] && s.consumed == 0
    && s.w.WIdle? && s.r.RIdle?
  }

  // ------------------------------------------------------------------ invariant

  function Unread(s: State): seq<byte> {
    if s.consumed <= |s.stream| then s.stream[s.consumed..] else []
  }

  /** Bytes already copied by an unfinished write lie right after the head, inside the room
      there was when the writer looked; the reader can only have made more since. */
  ghost predicate WriterOk(s: State) {
    match s.w
    case WIdle => true
    case WChecked(room) => room <= TxAvailOf(s.head, s.tail)
    case WCopying(at, rest, next, done, msg) =>
      && |msg| <= TxAvailOf(s.head, s.tail)
      && msg == done + rest + (if next.Some? then next.value else [])
      && at == Wrap(s.head + |done|)
      && Slice(s.fifo, s.head, |done|) == done
  }

  ghost predicate ReaderOk(s: State) {
    match s.r
    case RIdle => true
    case RChecked(avail) => avail <= |Unread(s)|
    case RCopying(avail, offset, count, buffer) =>
      && offset + count <= avail <= |Unread(s)|
      && |buffer| <= count
      && buffer == Unread(s)[offset..offset + |buffer|]
  }

  ghost predicate Inv(s: State) {
    && s.consumed <= |s.stream|
    && Holds(s.fifo, s.head, s.tail, Unread(s))
    && WriterOk(s)
    && ReaderOk(s)
  }

  /** tx_avail in terms of what is unread. */
  lemma RoomIs(head: Index, tail: Index, unread: nat)
    requires unread <= LENGTH - FULL_RESERVE && head == Wrap(tail + unread)
    ensures TxAvailOf(head, tail) == if unread + FULL_RESERVE + BLOCKED_CMD_RESERVE > LENGTH then 0
                                     else LENGTH - FULL_RESERVE - BLOCKED_CMD_RESERVE - unread
    ensures RxAvailOf(head, tail) == unread
  {
  }

  lemma OneByteOverlay(fifo: Ring, at: Index, b: byte)
    ensures fifo[at := b] == Overlay(fifo, at, [b])
  {
    assert forall j: Index :: Distance(at, j) < 1 <==> j == at;
  }

  /** One more byte after the unread ones and the d already copied. */
  lemma CopyByte(fifo: Ring, tail: Index, head: Index, u: nat, d: nat, b: byte)
    requires u + d < LENGTH && head == Wrap(tail + u)
    ensures var fifo' := fifo[Wrap(head + d) := b];
      && Slice(fifo', tail, u) == Slice(fifo, tail, u)
      && Slice(fifo', head, d + 1) == Slice(fifo, head, d) + [b]
  {
    var at := Wrap(head + d);
    OneByteOverlay(fifo, at, b);
    SliceBeforeOverlay(fifo, head, d, [b]);
    SliceOfOverlay(fifo, at, [b]);
    SliceSplit(fifo[at := b], head, d, 1);
    SliceBeforeOverlay(fifo, tail, u + d, [b]);
    assert Slice(fifo, tail, u) == Slice(fifo, tail, u + d)[..u];
    assert Slice(fifo[at := b], tail, u) == Slice(fifo[at := b], tail, u + d)[..u];
  }

  lemma CopyKeepsHolds(fifo: Ring, head: Index, tail: Index, unread: seq<byte>, d: nat, b: byte)
    requires Holds(fifo, head, tail, unread) && d < TxAvailOf(head, tail)
    ensures Holds(fifo[Wrap(head + d) := b], head, tail, unread)
    ensures Slice(fifo[Wrap(head + d) := b], head, d + 1) == Slice(fifo, head, d) + [b]
  {
    hide Slice;
    RoomIs(head, tail, |unread|);
    CopyByte(fifo, tail, head, |unread|, d, b);
  }

  lemma CopiedMessage(done: seq<byte>, rest: seq<byte>, next: seq<byte>)
    requires rest != []
    ensures (done + rest[..1]) + rest[1..] + next == done + rest + next
    ensures done + rest[..1] == done + [rest[0]]
    ensures |done| < |done + rest + next|
  {
    assert rest == rest[..1] + rest[1..];
  }

  /** What a reader knows stays true when the stream stays or grows. */
  lemma ReaderKeeps(s: State, s': State)
    requires ReaderOk(s) && s'.r == s.r && Unread(s) <= Unread(s')
    ensures ReaderOk(s')
  {
    if s.r.RCopying? {
      var from, n := s.r.offset, |s.r.buffer|;
      assert Unread(s')[from..from + n] == Unread(s)[from..from + n];
    }
  }

  lemma CopyInKeepsInv(s: State)
    requires Inv(s) && Enabled(s, CopyIn)
    ensures Inv(Next(s, CopyIn))
  {
    var s' := Next(s, CopyIn);
    assert Unread(s') == Unread(s);
    hide Holds, Slice, TxAvailOf, ReaderOk, Unread;
    CopyKeepsHolds(s.fifo, s.head, s.tail, Unread(s), |s.w.done|, s.w.rest[0]);
    CopiedMessage(s.w.done, s.w.rest, if s.w.next.Some? then s.w.next.value else []);
    ReaderKeeps(s, s');
  }

  /** What publishing appends: the bytes copied since the last publish, then padding. */
  lemma PublishAppends(s: State) returns (appended: seq<byte>)
    requires Inv(s) && Enabled(s, Publish)
    ensures Next(s, Publish).stream == s.stream + appended
    ensures |appended| == Aligned(|s.w.msg|) && s.w.msg <= appended
    ensures Next(s, Publish).head == Wrap(s.head + |appended|)
    ensures appended == Slice(s.fifo, s.head, |appended|)
  {
    var d := |s.w.done|;
    RoomIs(s.head, s.tail, |Unread(s)|);
    PaddingLength(s.head, d);
    appended := Slice(s.fifo, s.head, Aligned(d));
    SliceSplit(s.fifo, s.head, d, Aligned(d) - d);
  }

  lemma PublishHolds(fifo: Ring, head: Index, tail: Index, unread: seq<byte>, appended: seq<byte>)
    requires Holds(fifo, head, tail, unread)
    requires |unread| + |appended| <= LENGTH - FULL_RESERVE && |appended| % ALIGNMENT == 0
    requires appended == Slice(fifo, head, |appended|)
    ensures Holds(fifo, Wrap(head + |appended|), tail, unread + appended)
  {
    SliceSplit(fifo, tail, |unread|, |appended|);
    assert Wrap(head + |appended|) == Wrap(tail + |unread + appended|);
  }

  lemma PublishKeepsInv(s: State)
    requires Inv(s) && Enabled(s, Publish)
    ensures Inv(Next(s, Publish))
  {
    var appended := PublishAppends(s);
    RoomIs(s.head, s.tail, |Unread(s)|);
    hide Holds, Slice, TxAvailOf, RxAvailOf, Aligned, ReaderOk;
    PublishHolds(s.fifo, s.head, s.tail, Unread(s), appended);
    var s' := Next(s, Publish);
    assert Unread(s') == Unread(s) + appended;
    ReaderKeeps(s, s');
  }

  lemma PeekedByte(fifo: Ring, head: Index, tail: Index, unread: seq<byte>, offset: Index, k: nat)
    requires Holds(fifo, head, tail, unread) && offset + k < |unread|
    ensures fifo[Wrap(Wrap(tail + offset) + k)] == unread[offset + k]
  {
    assert unread[offset + k] == fifo[Wrap(tail + (offset + k))];
  }

  lemma CopyOutKeepsInv(s: State)
    requires Inv(s) && Enabled(s, CopyOut)
    ensures Inv(Next(s, CopyOut))
  {
    hide Holds, Slice, TxAvailOf;
    var s', u, from := Next(s, CopyOut), Unread(s), s.r.offset;
    PeekedByte(s.fifo, s.head, s.tail, u, from, |s.r.buffer|);
    assert Unread(s') == u;
    assert u[from..from + |s'.r.buffer|] == u[from..from + |s.r.buffer|] + [u[from + |s.r.buffer|]];
  }

  lemma AdvanceHolds(fifo: Ring, head: Index, tail: Index, unread: seq<byte>, count: nat)
    requires Holds(fifo, head, tail, unread) && count <= |unread|
    ensures Holds(fifo, head, Wrap(tail + count), unread[count..])
    ensures TxAvailOf(head, tail) <= TxAvailOf(head, Wrap(tail + count))
  {
    hide Slice;
    var u := |unread|;
    SliceSplit(fifo, tail, count, u - count);
    RoomIs(head, tail, u);
    RoomIs(head, Wrap(tail + count), u - count);
  }

  lemma AdvanceKeepsInv(s: State, count: nat)
    requires Inv(s) && Enabled(s, Advance(count))
    ensures Inv(Next(s, Advance(count)))
  {
    hide Holds, Slice, TxAvailOf;
    AdvanceHolds(s.fifo, s.head, s.tail, Unread(s), count);
    assert Unread(Next(s, Advance(count))) == Unread(s)[count..];
  }

  lemma LookKeepsInv(s: State, step: Step)
    requires Inv(s) && Enabled(s, step)
    requires step.CheckRoom? || step.CheckAvail? || step.BeginPeek? || step.EndPeek?
    ensures Inv(Next(s, step))
  {
    RoomIs(s.head, s.tail, |Unread(s)|);
    hide Holds, Slice, TxAvailOf, RxAvailOf;
    assert Unread(Next(s, step)) == Unread(s);
  }

  lemma WriteStepKeepsInv(s: State, step: Step)
    requires Inv(s) && Enabled(s, step) && (step.BeginWrite? || step.NextPiece?)
    ensures Inv(Next(s, step))
  {
    var s' := Next(s, step);
    assert Unread(s') == Unread(s);
    hide Holds, Slice, TxAvailOf, ReaderOk, Unread;
    ReaderKeeps(s, s');
    assert step.BeginWrite? ==> s'.w.done + s'.w.rest == s'.w.rest;
    assert step.NextPiece? ==> s.w.done + s.w.rest == s.w.done;
  }

  lemma StepKeepsInv(s: State, step: Step)
    requires Inv(s) && Enabled(s, step)
    ensures Inv(Next(s, step))
  {
    hide Inv, Next;
    match step
    case CopyIn => CopyInKeepsInv(s);
    case Publish => PublishKeepsInv(s);
    case CopyOut => CopyOutKeepsInv(s);
    case Advance(count) => AdvanceKeepsInv(s, count);
    case BeginWrite(_, _) => WriteStepKeepsInv(s, step);
    case NextPiece => WriteStepKeepsInv(s, step);
    case _ => LookKeepsInv(s, step);
  }

  // ------------------------------------------------------------------ whole runs

  ghost predicate IsRun(run: seq<State>, steps: seq<Step>) {
    && |run| == |steps| + 1
    && Init(run[0])
    && forall i :: 0 <= i < |steps| ==> Enabled(run[i], steps[i]) && run[i + 1] == Next(run[i], steps[i])
  }

  lemma {:induction false} RunKeepsInv(run: seq<State>, steps: seq<Step>, i: nat)
    requires IsRun(run, steps) && i < |run|
    ensures Inv(run[i])
  {
    if i > 0 {
      RunKeepsInv(run, steps, i - 1);
      StepKeepsInv(run[i - 1], steps[i - 1]);
    }
  }

  /** In every reachable state the cells between the two shared words, read the way
      rx_avail and rx_peak read them, are exactly the unconsumed published bytes, every
      byte a peek has copied out so far is the stream's, and what either side learnt from
      an older head or tail only under-estimates what it may use. */
  lemma ReaderSeesTheStream(run: seq<State>, steps: seq<Step>, i: nat)
    requires IsRun(run, steps) && i < |run|
    ensures var s := run[i];
      && s.consumed <= |s.stream|
      && Slice(s.fifo, s.tail, RxAvailOf(s.head, s.tail)) == s.stream[s.consumed..]
      && s.head % ALIGNMENT == 0
      && RxAvailOf(s.head, s.tail) <= LENGTH - FULL_RESERVE
      && (s.r.RCopying? ==>
            var from := s.consumed + s.r.offset;
            from + |s.r.buffer| <= |s.stream| && s.r.buffer == s.stream[from..from + |s.r.buffer|])
      && (s.w.WChecked? ==> s.w.room <= TxAvailOf(s.head, s.tail))
      && (s.r.RChecked? ==> s.r.avail <= RxAvailOf(s.head, s.tail))
  {
    RunKeepsInv(run, steps, i);
    var s := run[i];
    RoomIs(s.head, s.tail, |Unread(s)|);
  }

  /** A write's header and data are published in order by its last step and by no other,
      and only Advance consumes: the ring refines a queue of bytes. */
  lemma RefinesQueue(run: seq<State>, steps: seq<Step>, i: nat)
    requires IsRun(run, steps) && i < |steps|
    ensures var s, s' := run[i], run[i + 1];
      match steps[i]
      case Publish =>
        && s'.consumed == s.consumed
        && s.stream + s.w.msg <= s'.stream
        && |s'.stream| == |s.stream| + Aligned(|s.w.msg|)
      case Advance(count) => s'.stream == s.stream && s'.consumed == s.consumed + count <= |s.stream|
      case _ => s'.stream == s.stream && s'.consumed == s.consumed
  {
    RunKeepsInv(run, steps, i);
    if steps[i].Publish? {
      var appended := PublishAppends(run[i]);
    } else {
      RunKeepsInv(run, steps, i + 1);
    }
  }

  // ------------------------------------------------------------------ whole writes and peeks

  /** A write that began at step b is still being copied before step i. */
  ghost predicate Writing(run: seq<State>, steps: seq<Step>, b: nat, i: nat) {
    && IsRun(run, steps) && b < i <= |steps|
    && steps[b].BeginWrite?
    && forall k :: b < k < i ==> !steps[k].BeginWrite? && !steps[k].Publish?
  }

  /** Until its publish, a write holds its own arguments: copied and still to copy bytes
      together are the header followed by the data, and the stream has not grown. */
  lemma {:induction false} WriteInProgress(run: seq<State>, steps: seq<Step>, b: nat, i: nat)
    requires Writing(run, steps, b, i)
    ensures run[i].w.WCopying? && run[i].w.msg == steps[b].hdr + steps[b].data
    ensures run[i].stream == run[b].stream && run[i].head == run[b].head
  {
    var s, step := run[i - 1], steps[i - 1];
    assert Enabled(s, step) && run[i] == Next(s, step);
    if i > b + 1 {
      WriteInProgress(run, steps, b, i - 1);
    }
  }

  /** A finished write has appended its header, then its data, then less than eight bytes of
      padding, and this in one step; in between the reader has seen none of it. */
  lemma WriteAppends(run: seq<State>, steps: seq<Step>, b: nat, i: nat)
    requires Writing(run, steps, b, i) && i < |steps| && steps[i].Publish?
    ensures var before, after, hdr, data := run[b].stream, run[i + 1].stream, steps[b].hdr, steps[b].data;
      && run[i].stream == before
      && before + hdr + data <= after
      && |after| == |before| + Aligned(|hdr| + |data|)
  {
    WriteInProgress(run, steps, b, i);
    RefinesQueue(run, steps, i);
    var before, hdr, data := run[b].stream, steps[b].hdr, steps[b].data;
    assert before + hdr + data == before + (hdr + data);
  }

  /** A peek that began at step b is still being copied before step i. */
  ghost predicate Peeking(run: seq<State>, steps: seq<Step>, b: nat, i: nat) {
    && IsRun(run, steps) && b < i <= |steps|
    && steps[b].BeginPeek?
    && forall k :: b < k < i ==> !steps[k].BeginPeek? && !steps[k].EndPeek?
  }

  lemma {:induction false} PeekInProgress(run: seq<State>, steps: seq<Step>, b: nat, i: nat)
    requires Peeking(run, steps, b, i)
    ensures run[i].r.RCopying? && run[i].r.offset == steps[b].offset && run[i].r.count == steps[b].count
    ensures run[i].consumed == run[b].consumed
  {
    var s, step := run[i - 1], steps[i - 1];
    assert Enabled(s, step) && run[i] == Next(s, step);
    if i > b + 1 {
      PeekInProgress(run, steps, b, i - 1);
    }
  }

  /** A finished peek has copied out exactly the bytes asked for: those at that offset
      behind the bytes consumed when it began. */
  lemma PeekDelivers(run: seq<State>, steps: seq<Step>, b: nat, i: nat)
    requires Peeking(run, steps, b, i) && i < |steps| && steps[i].EndPeek?
    ensures var from := run[b].consumed + steps[b].offset;
      && from + steps[b].count <= |run[i].stream|
      && run[i].r.RCopying?
      && run[i].r.buffer == run[i].stream[from..from + steps[b].count]
  {
    PeekInProgress(run, steps, b, i);
    ReaderSeesTheStream(run, steps, i);
    assert Enabled(run[i], steps[i]);
  }

  /** A look at the shared words finds out exactly what there is at that moment. */
  lemma LooksAreExact(run: seq<State>, steps: seq<Step>, i: nat)
    requires IsRun(run, steps) && i < |steps|
    ensures run[i].consumed <= |run[i].stream|
    ensures var unread: nat := |run[i].stream| - run[i].consumed;
      && (steps[i].CheckAvail? ==> run[i + 1].r == RChecked(unread))
      && (steps[i].CheckRoom? ==>
            run[i + 1].w == WChecked(if unread > LENGTH - FULL_RESERVE - BLOCKED_CMD_RESERVE then 0
                                     else LENGTH - FULL_RESERVE - BLOCKED_CMD_RESERVE - unread))
  {
    RunKeepsInv(run, steps, i);
    var s := run[i];
    RoomIs(s.head, s.tail, |Unread(s)|);
    assert run[i + 1] == Next(s, steps[i]);
  }
}
