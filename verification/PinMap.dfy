/** The PCIe iommu-map rewrite of scripts/pin-sm8550-pcie-iommu-map.py. */
module PinMap {
  import opened PinText

  const STREAMS: seq<string> := ["1400", "1401", "1480", "1481"]

  predicate IsOld(t: string, stream: string) {
    Count(t, Old(stream)) == 1 && Count(t, New(stream)) == 0
  }

  predicate IsNew(t: string, stream: string) {
    Count(t, Old(stream)) == 0 && Count(t, New(stream)) == 1
  }

  predicate AllOld(t: string) { forall i :: 0 <= i < 4 ==> IsOld(t, STREAMS[i]) }
  predicate AllNew(t: string) { forall i :: 0 <= i < 4 ==> IsNew(t, STREAMS[i]) }

  /** The text after the first n streams' new entries are turned into old ones. */
  function Pinned(t: string, n: nat): string
    requires n <= 4
  {
    if n == 0 then t else Replace(Pinned(t, n - 1), New(STREAMS[n - 1]), Old(STREAMS[n - 1]))
  }

  /** The reverse rewrite, last stream first. */
  function Unpinned(t: string, n: nat): string
    requires n <= 4
    decreases n
  {
    if n == 0 then t else Unpinned(Replace(t, Old(STREAMS[n - 1]), New(STREAMS[n - 1])), n - 1)
  }

  datatype Outcome = Restored | AlreadyPresent | Raised

  class File {
    var text: string

    constructor (contents: string)
      ensures text == contents
    {
      text := contents;
    }

    /** The text is written only after every stream has been checked and rewritten. */
    method Pin() returns (r: Outcome)
      modifies this
      ensures AllNew(old(text)) ==> r == Restored && text == Pinned(old(text), 4)
      ensures AllOld(old(text)) ==> r == AlreadyPresent && text == old(text)
      ensures !AllNew(old(text)) && !AllOld(old(text)) ==> r == Raised && text == old(text)
    {
      var data, changed, i := text, 0, 0;
      while i < 4
        invariant i <= 4 && changed <= i && text == old(text)
        invariant forall j :: i <= j < 4 ==> SameEntries(text, data, STREAMS[j])
        invariant changed == 0 ==> data == text && forall j :: 0 <= j < i ==> IsOld(text, STREAMS[j])
        invariant changed == i ==> data == Pinned(text, i) && forall j :: 0 <= j < i ==> IsNew(text, STREAMS[j])
        invariant 0 < changed < i ==> !AllOld(text) && !AllNew(text)
      {
        var stream := STREAMS[i];
        var oldCount, newCount := Count(data, Old(stream)), Count(data, New(stream));
        if oldCount == 0 && newCount == 1 {
          ReplaceOne(data, i);
          data := Replace(data, New(stream), Old(stream));
          changed := changed + 1;
        } else if !(oldCount == 1 && newCount == 0) {
          return Raised;
        }
        i := i + 1;
      }
      if changed != 0 && changed != 4 {
        return Raised;
      }
      if changed != 0 {
        text := data;
      }
      return if changed != 0 then Restored else AlreadyPresent;
    }
  }

  predicate SameEntries(t: string, t': string, stream: string) {
    Count(t, Old(stream)) == Count(t', Old(stream)) && Count(t, New(stream)) == Count(t', New(stream))
  }

  lemma StreamsAre(i: nat)
    requires i < 4
    ensures Stream(STREAMS[i])
    ensures forall j :: 0 <= j < 4 && j != i ==> STREAMS[i] != STREAMS[j]
  {
  }

  /** How one replacement moves the count of any marked pattern. */
  lemma ReplaceShifts(t: string, p: string, q: string, r: string)
    requires Marked(p) && Marked(q) && Marked(r) && Count(t, p) == 1
    requires r == p || Apart(r, p)
    requires r == q || Apart(r, q)
    ensures Count(Replace(t, p, q), r) + (if r == p then 1 else 0) == Count(t, r) + (if r == q then 1 else 0)
  {
    var a, b := Locate(t, p, q);
    CountAround(a, p, b, r);
    CountAround(a, q, b, r);
  }

  /** Putting the entry back gives the original text. */
  lemma ReplaceBack(t: string, p: string, q: string)
    requires Marked(p) && Marked(q) && Apart(p, q) && Count(t, p) == 1 && Count(t, q) == 0
    ensures Replace(Replace(t, p, q), q, p) == t
    ensures |Replace(t, p, q)| == |t| - |p| + |q|
  {
    var a, b := Locate(t, p, q);
    var t' := Replace(t, p, q);
    CountAround(a, p, b, q);
    CountAround(a, q, b, q);
    ReplaceSplit(a, q, b, p);
  }

  lemma {:induction false} ReplaceSplit(a: string, q: string, b: string, p: string)
    requires Marked(q) && Count(a, q) == 0 && Count(b, q) == 0
    ensures Replace(a + q + b, q, p) == a + p + b
    decreases |a|
  {
    if a == "" {
      assert a + q + b == q + b && (q + b)[|q|..] == b;
      ReplaceNone(b, q, p);
    } else {
      assert a + q + b == a + (q + b);
      Straddle(a, q + b, q);
      if |a| >= |q| { assert a[..|q|] != q; }
      ShortCount(a, q);
      assert (a + q + b)[1..] == a[1..] + q + b;
      ReplaceSplit(a[1..], q, b, p);
      ReplaceStep(a + q + b, q, p);
      assert [a[0]] + (a[1..] + p + b) == a + p + b;
    }
  }

  lemma ReplaceStep(s: string, p: string, q: string)
    requires p != "" && s != "" && !(p <= s)
    ensures Replace(s, p, q) == [s[0]] + Replace(s[1..], p, q)
  {
  }

  lemma ReplaceOne(t: string, i: nat)
    requires i < 4 && IsNew(t, STREAMS[i])
    ensures var t' := Replace(t, New(STREAMS[i]), Old(STREAMS[i]));
      && IsOld(t', STREAMS[i])
      && (forall j :: 0 <= j < 4 && j != i ==> SameEntries(t, t', STREAMS[j]))
      && Replace(t', Old(STREAMS[i]), New(STREAMS[i])) == t
      && |t'| == |t| - 4
  {
    var s := STREAMS[i];
    var p, q := New(s), Old(s);
    StreamsAre(i);
    PatternsMarked(s);
    PatternsApart(s, s);
    ReplaceBack(t, p, q);
    ReplaceShifts(t, p, q, p);
    ReplaceShifts(t, p, q, q);
    forall j | 0 <= j < 4 && j != i
      ensures SameEntries(t, Replace(t, p, q), STREAMS[j])
    {
      OthersUntouched(t, i, j);
    }
  }

  lemma OthersUntouched(t: string, i: nat, j: nat)
    requires i < 4 && j < 4 && i != j && IsNew(t, STREAMS[i])
    ensures SameEntries(t, Replace(t, New(STREAMS[i]), Old(STREAMS[i])), STREAMS[j])
  {
    var s, o := STREAMS[i], STREAMS[j];
    StreamsAre(i);
    StreamsAre(j);
    PatternsMarked(s);
    PatternsMarked(o);
    PatternsApart(s, o);
    PatternsApart(o, s);
    ReplaceShifts(t, New(s), Old(s), Old(o));
    ReplaceShifts(t, New(s), Old(s), New(o));
  }

  /** After n rewrites the first n streams are old, the others untouched, and unwinding the
      rewrites gives the original text back, byte for byte. */
  lemma {:induction false} PinnedSoFar(t: string, n: nat)
    requires AllNew(t) && n <= 4
    ensures forall j :: 0 <= j < n ==> IsOld(Pinned(t, n), STREAMS[j])
    ensures forall j :: n <= j < 4 ==> IsNew(Pinned(t, n), STREAMS[j])
    ensures Unpinned(Pinned(t, n), n) == t
    ensures |Pinned(t, n)| == |t| - 4 * n
  {
    if n > 0 {
      PinnedSoFar(t, n - 1);
      ReplaceOne(Pinned(t, n - 1), n - 1);
    }
  }

  /** A restored text is recognised as already restored, has lost exactly the sixteen
      characters of the four entries, and determines the text it came from. */
  lemma PinIsIdempotentAndLossless(t: string)
    requires AllNew(t)
    ensures AllOld(Pinned(t, 4)) && !AllNew(Pinned(t, 4))
    ensures Unpinned(Pinned(t, 4), 4) == t
    ensures |Pinned(t, 4)| == |t| - 16
  {
    PinnedSoFar(t, 4);
    assert IsOld(Pinned(t, 4), STREAMS[0]);
  }
}
