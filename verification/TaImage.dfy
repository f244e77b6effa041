/** How assemble_ta of scripts/probe-qtee-load-securefp.c puts a split image together. */
module TaImage {
  import opened Bytes

  const SEGMENTS: nat := 9
  const WORD: nat := 0x1_0000_0000_0000_0000       // one more than SIZE_MAX
  const MAX_IMAGE: nat := 32 * 1024 * 1024
  const HEADERS: nat := 568                        // the ELF header and nine program headers

  /** A split file and the p_offset its program header gives it. */
  datatype Segment = Segment(offset: nat, content: seq<byte>)

  type Split = s: seq<Segment> | |s| == SEGMENTS
    witness seq(SEGMENTS, _ => Segment(0, []))

  /** The first split file goes to the start, whatever its program header says. */
  function Start(s: seq<Segment>, i: nat): nat
    requires i < |s|
  {
    if i == 0 then 0 else s[i].offset
  }

  function End(s: seq<Segment>, i: nat): nat
    requires i < |s|
  {
    Start(s, i) + |s[i].content|
  }

  predicate Covers(s: seq<Segment>, i: nat, at: nat)
    requires i < |s|
  {
    Start(s, i) <= at < End(s, i)
  }

  function ImageSize(s: Split): nat { End(s, SEGMENTS - 1) }

  predicate NoneWraps(s: seq<Segment>) {
    forall i :: 1 <= i < |s| ==> End(s, i) < WORD
  }

  predicate AllInside(s: seq<Segment>, n: nat, size: nat)
    requires n <= |s|
  {
    forall i :: 0 <= i < n ==> End(s, i) <= size
  }

  /** What assemble_ta demands of the split files. */
  predicate Accepted(s: Split) {
    |s[0].content| >= HEADERS && NoneWraps(s) && ImageSize(s) <= MAX_IMAGE && AllInside(s, SEGMENTS, ImageSize(s))
  }

  /** The byte at one position: that of the last of the first n segments over it, or zero. */
  function ByteAt(s: seq<Segment>, n: nat, at: nat): byte
    requires n <= |s|
  {
    if n == 0 then 0
    else if Covers(s, n - 1, at) then s[n - 1].content[at - Start(s, n - 1)]
    else ByteAt(s, n - 1, at)
  }

  predicate Shows(image: seq<byte>, s: seq<Segment>, n: nat)
    requires n <= |s|
  {
    forall k :: 0 <= k < |image| ==> image[k] == ByteAt(s, n, k)
  }

  method CheckSizes(s: seq<Segment>) returns (ok: bool)
    requires s != []
    ensures ok == NoneWraps(s)
  {
    var i := 1;
    while i < |s|
      invariant 1 <= i <= |s|
      invariant forall j :: 1 <= j < i ==> End(s, j) < WORD
    {
      if s[i].offset > WORD - 1 - |s[i].content| {
        assert End(s, i) >= WORD;
        return false;
      }
      i := i + 1;
    }
    return true;
  }

  method ReadInto(image: array<byte>, s: seq<Segment>, i: nat)
    requires i < |s| && End(s, i) <= image.Length && Shows(image[..], s, i)
    modifies image
    ensures Shows(image[..], s, i + 1)
  {
    var offset := Start(s, i);
    forall k | 0 <= k < |s[i].content| {
      image[offset + k] := s[i].content[k];
    }
  }

  method Fill(s: seq<Segment>, size: nat) returns (r: Option<seq<byte>>)
    ensures r.Some? <==> AllInside(s, |s|, size)
    ensures r.Some? ==> |r.value| == size && Shows(r.value, s, |s|)
  {
    var image := new byte[size](_ => 0);
    var i := 0;
    while i < |s|
      invariant i <= |s| && AllInside(s, i, size) && Shows(image[..], s, i)
    {
      var offset := Start(s, i);
      if offset > size || |s[i].content| > size - offset {
        assert End(s, i) > size;
        return None;
      }
      ReadInto(image, s, i);
      i := i + 1;
    }
    return Some(image[..]);
  }

  /** Succeeds exactly on what is accepted, and then every byte of the image is that of the
      last segment over it. */
  method Assemble(s: Split) returns (r: Option<seq<byte>>)
    ensures r.Some? <==> Accepted(s)
    ensures r.Some? ==> |r.value| == ImageSize(s) && Shows(r.value, s, SEGMENTS)
  {
    hide ByteAt;
    if |s[0].content| < HEADERS {
      return None;
    }
    var ok := CheckSizes(s);
    if !ok {
      return None;
    }
    var size := s[SEGMENTS - 1].offset + |s[SEGMENTS - 1].content|;
    if size < |s[0].content| || size > MAX_IMAGE {
      assert size < |s[0].content| ==> End(s, 0) > size;
      return None;
    }
    r := Fill(s, size);
  }

  // ------------------------------------------------------------------ reading segments back

  predicate Disjoint(s: seq<Segment>, i: nat, j: nat)
    requires i < |s| && j < |s|
  {
    s[i].content == [] || s[j].content == [] || End(s, i) <= Start(s, j) || End(s, j) <= Start(s, i)
  }

  lemma {:induction false} ShowsThrough(s: seq<Segment>, i: nat, n: nat, at: nat)
    requires i < n <= |s| && Covers(s, i, at)
    requires forall j :: i < j < n ==> Disjoint(s, i, j)
    ensures ByteAt(s, n, at) == s[i].content[at - Start(s, i)]
    decreases n
  {
    if i < n - 1 {
      assert Disjoint(s, i, n - 1);
      ShowsThrough(s, i, n - 1, at);
    }
  }

  /** A segment that no later one overlaps is in the image at its offset, whole. */
  lemma SegmentReadsBack(s: Split, image: seq<byte>, i: nat)
    requires Accepted(s) && i < SEGMENTS && |image| == ImageSize(s) && Shows(image, s, SEGMENTS)
    requires forall j :: i < j < SEGMENTS ==> Disjoint(s, i, j)
    ensures End(s, i) <= |image| && image[Start(s, i)..End(s, i)] == s[i].content
  {
    forall k | 0 <= k < |s[i].content|
      ensures image[Start(s, i) + k] == s[i].content[k]
    {
      ShowsThrough(s, i, SEGMENTS, Start(s, i) + k);
    }
  }
}
