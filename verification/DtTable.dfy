/** The Android DT table built by scripts/make-android-dtbo.py, and a reader of such tables. */
module DtTable {
  import opened Bytes
  import opened Der

  const MAGIC: nat := 0xd7b7ab1e
  const FDT_MAGIC: nat := 0xd00dfeed
  const HEADER_SIZE: nat := 32
  const ENTRY_SIZE: nat := 32
  const PAGE_SIZE: nat := 4096
  const WORD_LIMIT: nat := 0x1_0000_0000

  /** struct.pack(">8I", ...): one big-endian word per value. */
  function Pack(ws: seq<nat>): (b: seq<byte>)
    ensures |b| == 4 * |ws|
  {
    if ws == [] then [] else ToBigEndian(ws[0], 4) + Pack(ws[1..])
  }

  predicate Packable(ws: seq<nat>) {
    forall i :: 0 <= i < |ws| ==> ws[i] < WORD_LIMIT
  }

  function WordAt(b: seq<byte>, i: nat): nat
    requires i + 4 <= |b|
  {
    BigEndian(b[i..i + 4])
  }

  lemma {:induction false} PackedWord(ws: seq<nat>, i: nat)
    requires Packable(ws) && i < |ws|
    ensures WordAt(Pack(ws), 4 * i) == ws[i]
  {
    var rest := Pack(ws[1..]);
    if i == 0 {
      assert Pack(ws)[0..4] == ToBigEndian(ws[0], 4);
      assert Pow256(2) == 0x1_0000 && Pow256(4) == 0x1_0000 * Pow256(2);
      FromTo(ws[0], 4);
    } else {
      PackedWord(ws[1..], i - 1);
      assert Pack(ws)[4 * i..4 * i + 4] == rest[4 * (i - 1)..4 * (i - 1) + 4];
    }
  }

  predicate IsOverlay(p: seq<byte>) {
    |p| >= 4 && WordAt(p, 0) == FDT_MAGIC
  }

  function Padding(n: nat): (r: nat)
    ensures r < 4 && (n + r) % 4 == 0
  {
    (4 - n % 4) % 4
  }

  function Padded(p: seq<byte>): (b: seq<byte>)
    ensures |b| % 4 == 0 && p <= b
  {
    p + seq(Padding(|p|), _ => 0)
  }

  function Data(ps: seq<seq<byte>>): (b: seq<byte>)
    ensures |b| % 4 == 0
  {
    if ps == [] then [] else Data(ps[..|ps| - 1]) + Padded(ps[|ps| - 1])
  }

  function EntryWords(size: nat, offset: nat): seq<nat> {
    [size, offset, 0, 0, 0, 0, 0, 0]
  }

  function Entries(ps: seq<seq<byte>>, base: nat): (b: seq<byte>)
    ensures |b| == ENTRY_SIZE * |ps|
  {
    if ps == [] then []
    else var n := |ps| - 1;
         Entries(ps[..n], base) + Pack(EntryWords(|ps[n]|, base + |Data(ps[..n])|))
  }

  function Base(n: nat): nat { HEADER_SIZE + ENTRY_SIZE * n }
  function Total(ps: seq<seq<byte>>): nat { Base(|ps|) + |Data(ps)| }

  /** Where payload i starts in the file. */
  function Offset(ps: seq<seq<byte>>, i: nat): nat
    requires i <= |ps|
  {
    Base(|ps|) + |Data(ps[..i])|
  }

  function HeaderWords(total: nat, n: nat): seq<nat> {
    [MAGIC, total, HEADER_SIZE, ENTRY_SIZE, n, HEADER_SIZE, PAGE_SIZE, 0]
  }

  function Image(ps: seq<seq<byte>>): seq<byte> {
    Pack(HeaderWords(Total(ps), |ps|)) + Entries(ps, Base(|ps|)) + Data(ps)
  }

  datatype Built = Written(image: seq<byte>) | NotAnOverlay(index: nat) | StructError

  lemma {:induction false} DataGrows(ps: seq<seq<byte>>, i: nat)
    requires i < |ps|
    ensures |Data(ps[..i])| + |ps[i]| <= |Data(ps[..i + 1])| <= |Data(ps)|
    decreases |ps|
  {
    var n := |ps| - 1;
    if i == n {
      assert ps[..i + 1] == ps;
    } else {
      DataGrows(ps[..n], i);
      assert ps[..n][..i] == ps[..i] && ps[..n][..i + 1] == ps[..i + 1];
    }
  }

  lemma PaddedIs(p: seq<byte>)
    ensures Padded(p) == p + seq(Padding(|p|), _ => 0) && |Padded(p)| == |p| + Padding(|p|)
  {
  }

  lemma StartsEmpty(ps: seq<seq<byte>>)
    ensures Data(ps[..0]) == [] && Entries(ps[..0], Base(|ps|)) == []
  {
  }

  /** What one turn of the layout loop appends. */
  lemma LayoutTurn(ps: seq<seq<byte>>, i: nat, base: nat)
    requires i < |ps|
    ensures Data(ps[..i + 1]) == Data(ps[..i]) + Padded(ps[i])
    ensures Entries(ps[..i + 1], base) == Entries(ps[..i], base) + Pack(EntryWords(|ps[i]|, base + |Data(ps[..i])|))
  {
    assert ps[..i + 1][..i] == ps[..i];
  }

  /** The first payload that is not an overlay, or the number of payloads. */
  method CheckOverlays(payloads: seq<seq<byte>>) returns (k: nat)
    ensures k <= |payloads| && (k < |payloads| ==> !IsOverlay(payloads[k]))
    ensures forall j :: 0 <= j < k ==> IsOverlay(payloads[j])
  {
    k := 0;
    while k < |payloads|
      invariant k <= |payloads|
      invariant forall j :: 0 <= j < k ==> IsOverlay(payloads[j])
    {
      if |payloads[k]| < 4 || WordAt(payloads[k], 0) != FDT_MAGIC {
        return;
      }
      k := k + 1;
    }
  }

  /** The layout loop; None stands for the error struct.pack raises on a wider value. */
  method Layout(payloads: seq<seq<byte>>) returns (r: Option<(seq<byte>, seq<byte>, nat)>)
    ensures r.None? ==> Total(payloads) >= WORD_LIMIT
    ensures r.Some? ==> r.value == (Entries(payloads, Base(|payloads|)), Data(payloads), Total(payloads))
  {
    hide Data, Entries, Pack, Padded;
    StartsEmpty(payloads);
    var base := HEADER_SIZE + ENTRY_SIZE * |payloads|;
    var dataOffset := base;
    var entries: seq<byte>, data: seq<byte> := [], [];
    var i := 0;
    while i < |payloads|
      invariant i <= |payloads|
      invariant entries == Entries(payloads[..i], base)
      invariant data == Data(payloads[..i])
      invariant dataOffset == base + |data|
    {
      var payload := payloads[i];
      DataGrows(payloads, i);
      LayoutTurn(payloads, i, base);
      if |payload| >= WORD_LIMIT || dataOffset >= WORD_LIMIT {
        return None;
      }
      entries := entries + Pack(EntryWords(|payload|, dataOffset));
      var padding := Padding(|payload|);
      PaddedIs(payload);
      data := data + (payload + seq(padding, _ => 0));
      dataOffset := dataOffset + |payload| + padding;
      i := i + 1;
    }
    assert payloads[..|payloads|] == payloads;
    return Some((entries, data, dataOffset));
  }

  /** The script's main.  The build fails exactly on a payload that is not an overlay or on
      a table that does not fit 32-bit offsets. */
  method Build(payloads: seq<seq<byte>>) returns (r: Built)
    ensures r.NotAnOverlay? ==> r.index < |payloads| && !IsOverlay(payloads[r.index])
                                && forall j :: 0 <= j < r.index ==> IsOverlay(payloads[j])
    ensures !r.NotAnOverlay? ==> forall j :: 0 <= j < |payloads| ==> IsOverlay(payloads[j])
    ensures !r.NotAnOverlay? ==> r == if Total(payloads) < WORD_LIMIT then Written(Image(payloads)) else StructError
  {
    var bad := CheckOverlays(payloads);
    if bad < |payloads| {
      return NotAnOverlay(bad);
    }
    var laid := Layout(payloads);
    if laid.None? || laid.value.2 >= WORD_LIMIT {
      return StructError;
    }
    var (entries, data, total) := laid.value;
    return Written(Pack(HeaderWords(total, |payloads|)) + entries + data);
  }

  // ------------------------------------------------------------------ reading it back

  /** The payload a reader finds through entry i of a table. */
  function ReadPayload(image: seq<byte>, i: nat): Option<seq<byte>> {
    if |image| < HEADER_SIZE || WordAt(image, 0) != MAGIC || i >= WordAt(image, 16) then None
    else
      var at := WordAt(image, 20) + WordAt(image, 12) * i;
      if at + 8 > |image| then None
      else
        var size, offset := WordAt(image, at), WordAt(image, at + 4);
        if offset + size > |image| then None else Some(image[offset..offset + size])
  }

  lemma {:induction false} EntryAt(ps: seq<seq<byte>>, base: nat, i: nat)
    requires i < |ps|
    ensures Entries(ps, base)[ENTRY_SIZE * i..ENTRY_SIZE * i + ENTRY_SIZE]
         == Pack(EntryWords(|ps[i]|, base + |Data(ps[..i])|))
    decreases |ps|
  {
    hide Pack, Data;
    var n := |ps| - 1;
    if i < n {
      EntryAt(ps[..n], base, i);
      assert ps[..n][..i] == ps[..i];
    }
  }

  lemma {:induction false} DataAt(ps: seq<seq<byte>>, i: nat)
    requires i < |ps|
    ensures |Data(ps[..i])| + |ps[i]| <= |Data(ps)|
    ensures Data(ps)[|Data(ps[..i])|..|Data(ps[..i])| + |ps[i]|] == ps[i]
    decreases |ps|
  {
    var n := |ps| - 1;
    if i < n {
      DataAt(ps[..n], i);
      assert ps[..n][..i] == ps[..i];
    }
  }

  lemma ImageParts(ps: seq<seq<byte>>)
    ensures |Image(ps)| == Total(ps)
    ensures Image(ps)[..HEADER_SIZE] == Pack(HeaderWords(Total(ps), |ps|))
    ensures Image(ps)[HEADER_SIZE..Base(|ps|)] == Entries(ps, Base(|ps|))
    ensures Image(ps)[Base(|ps|)..] == Data(ps)
  {
    hide Pack, Data, Entries;
  }

  lemma HeaderWordAt(ps: seq<seq<byte>>, k: nat)
    requires Total(ps) < WORD_LIMIT && k < 8
    ensures WordAt(Image(ps), 4 * k) == HeaderWords(Total(ps), |ps|)[k]
  {
    hide Pack, Data, Entries;
    ImageParts(ps);
    PackedWord(HeaderWords(Total(ps), |ps|), k);
    assert Image(ps)[4 * k..4 * k + 4] == Image(ps)[..HEADER_SIZE][4 * k..4 * k + 4];
  }

  lemma EntryWordAt(ps: seq<seq<byte>>, i: nat, k: nat)
    requires Total(ps) < WORD_LIMIT && i < |ps| && k < 8
    ensures Base(i) + 4 * k + 4 <= |Image(ps)|
    ensures WordAt(Image(ps), Base(i) + 4 * k) == EntryWords(|ps[i]|, Offset(ps, i))[k]
  {
    hide Pack, Data, Entries, Image;
    var ws, at := EntryWords(|ps[i]|, Offset(ps, i)), ENTRY_SIZE * i;
    ImageParts(ps);
    EntryAt(ps, Base(|ps|), i);
    DataAt(ps, i);
    PackedWord(ws, k);
    var table := Entries(ps, Base(|ps|));
    SliceOfSlice(table, at, at + ENTRY_SIZE, 4 * k, 4 * k + 4);
    SliceOfSlice(Image(ps), HEADER_SIZE, Base(|ps|), at + 4 * k, at + 4 * k + 4);
  }

  lemma PayloadAt(ps: seq<seq<byte>>, i: nat)
    requires i < |ps|
    ensures Offset(ps, i) + |ps[i]| <= |Image(ps)|
    ensures Image(ps)[Offset(ps, i)..Offset(ps, i) + |ps[i]|] == ps[i]
  {
    hide Pack, Data, Entries, Image;
    ImageParts(ps);
    DataAt(ps, i);
    var from := |Data(ps[..i])|;
    SliceOfSlice(Image(ps), Base(|ps|), |Image(ps)|, from, from + |ps[i]|);
  }

  /** A written table reads back as exactly the payloads it was built from: every index
      below their number gives its payload, and every other index nothing. */
  lemma ReadsBack(ps: seq<seq<byte>>, i: nat)
    requires Total(ps) < WORD_LIMIT
    ensures ReadPayload(Image(ps), i) == if i < |ps| then Some(ps[i]) else None
    ensures WordAt(Image(ps), 4) == |Image(ps)|
  {
    hide Pack, Data, Entries, Image, WordAt;
    ImageParts(ps);
    HeaderWordAt(ps, 0);
    HeaderWordAt(ps, 1);
    HeaderWordAt(ps, 3);
    HeaderWordAt(ps, 4);
    HeaderWordAt(ps, 5);
    if i < |ps| {
      EntryWordAt(ps, i, 0);
      EntryWordAt(ps, i, 1);
      PayloadAt(ps, i);
    }
  }

  lemma MultipleOfFour(a: nat, b: nat)
    requires b % 4 == 0
    ensures (4 * a + b) % 4 == 0
  {
  }

  /** Payloads start on 4-byte boundaries, after the entries, and never overlap. */
  lemma {:induction false} OffsetsAlignedAndDisjoint(ps: seq<seq<byte>>, i: nat, j: nat)
    requires i < j < |ps|
    ensures Offset(ps, i) % 4 == 0 && Offset(ps, j) % 4 == 0
    ensures Base(|ps|) <= Offset(ps, i) && Offset(ps, i) + |ps[i]| <= Offset(ps, j)
    decreases j
  {
    hide Data;
    DataGrows(ps[..j], i);
    assert ps[..j][..i] == ps[..i];
    MultipleOfFour(8 + 8 * |ps|, |Data(ps[..i])|);
    MultipleOfFour(8 + 8 * |ps|, |Data(ps[..j])|);
  }

  /** The fields a reader of the format goes by, at their places. */
  lemma HeaderFields(ps: seq<seq<byte>>)
    requires Total(ps) < WORD_LIMIT
    ensures var image := Image(ps);
      && |image| >= 32
      && WordAt(image, 0) == 0xd7b7ab1e && WordAt(image, 4) == |image|
      && WordAt(image, 8) == 32 && WordAt(image, 12) == 32 && WordAt(image, 16) == |ps|
      && WordAt(image, 20) == 32 && WordAt(image, 24) == 4096 && WordAt(image, 28) == 0
  {
    hide Pack, Data, Entries, Image, WordAt;
    ImageParts(ps);
    forall k | 0 <= k < 8 ensures WordAt(Image(ps), 4 * k) == HeaderWords(Total(ps), |ps|)[k] {
      HeaderWordAt(ps, k);
    }
    assert WordAt(Image(ps), 4 * 0) == MAGIC && WordAt(Image(ps), 4 * 1) == Total(ps);
    assert WordAt(Image(ps), 4 * 2) == 32 && WordAt(Image(ps), 4 * 3) == 32;
    assert WordAt(Image(ps), 4 * 4) == |ps| && WordAt(Image(ps), 4 * 5) == 32;
    assert WordAt(Image(ps), 4 * 6) == 4096 && WordAt(Image(ps), 4 * 7) == 0;
  }

  /** An entry holds its payload's size and offset and six zero words. */
  lemma EntryFields(ps: seq<seq<byte>>, i: nat, k: nat)
    requires Total(ps) < WORD_LIMIT && i < |ps| && k < 8
    ensures 32 + 32 * i + 4 * k + 4 <= |Image(ps)|
    ensures WordAt(Image(ps), 32 + 32 * i + 4 * k)
         == if k == 0 then |ps[i]| else if k == 1 then Offset(ps, i) else 0
  {
    hide Pack, Data, Entries, Image, WordAt;
    EntryWordAt(ps, i, k);
  }

  /** Payloads are packed: each starts where the one before it ends, rounded up to four
      bytes, and what lies between is zero. */
  lemma {:induction false} PayloadsPacked(ps: seq<seq<byte>>, i: nat)
    requires i < |ps|
    ensures Offset(ps, 0) == 32 + 32 * |ps|
    ensures var end := Offset(ps, i) + |ps[i]|;
            var next := Offset(ps, i + 1);
      && end <= next < end + 4 && next % 4 == 0 && next <= |Image(ps)|
      && forall k :: end <= k < next ==> Image(ps)[k] == 0
  {
    var from, n := |Data(ps[..i])|, |ps[i]|;
    LayoutTurn(ps, i, Base(|ps|));
    DataGrows(ps, i);
    ImageParts(ps);
    PaddedIs(ps[i]);
    MultipleOfFour(8 + 8 * |ps|, |Data(ps[..i + 1])|);
    DataPrefix(ps, i + 1);
    assert ps[..0] == [];
    hide Pack, Entries, Image, Data, Padded;
    assert Base(|ps|) == 4 * (8 + 8 * |ps|);
    forall k | Base(|ps|) + from + n <= k < Base(|ps|) + |Data(ps[..i + 1])|
      ensures Image(ps)[k] == 0
    {
      var d := k - Base(|ps|);
      assert Image(ps)[Base(|ps|)..][d] == Data(ps)[d] == Data(ps[..i + 1])[d];
    }
  }

  lemma {:induction false} DataPrefix(ps: seq<seq<byte>>, i: nat)
    requires i <= |ps|
    ensures Data(ps[..i]) <= Data(ps)
    decreases |ps|
  {
    var n := |ps| - 1;
    if i == |ps| {
      assert ps[..i] == ps;
    } else {
      DataPrefix(ps[..n], i);
      assert ps[..n][..i] == ps[..i];
    }
  }
}
