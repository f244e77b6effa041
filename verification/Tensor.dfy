/**
 Tensor sizes and tensor file names of scripts/npu-onnx-run.c.
 */
module Tensor {
  import opened Bytes

  // ------------------------------------------------------------------ element counts

  const ELEMENT_LIMIT: nat := 1_000_000_000

  predicate Positive(dims: seq<int>) {
    forall i :: 0 <= i < |dims| ==> dims[i] > 0
  }

  function Product(dims: seq<int>): int {
    if dims == [] then 1 else Product(dims[..|dims| - 1]) * dims[|dims| - 1]
  }

  /** Later positive dimensions only make the product larger. */
  lemma {:induction false} PrefixProduct(dims: seq<int>, n: nat)
    requires Positive(dims) && n <= |dims|
    ensures 1 <= Product(dims[..n]) <= Product(dims)
    decreases |dims|
  {
    if n == |dims| {
      assert dims[..n] == dims;
      if n > 0 {
        PrefixProduct(dims[..n - 1], n - 1);
        Grows(Product(dims[..n - 1]), dims[n - 1]);
      }
    } else {
      var front := dims[..|dims| - 1];
      PrefixProduct(front, n);
      assert front[..n] == dims[..n];
      Grows(Product(front), dims[|dims| - 1]);
    }
  }

  lemma Grows(a: int, b: int)
    requires a >= 1 && b >= 1
    ensures a * b >= a
  {
  }

  lemma DivisionGuard(elements: int, dim: int)
    requires elements >= 0 && dim > 0
    ensures elements > ELEMENT_LIMIT / dim <==> elements * dim > ELEMENT_LIMIT
  {
    var q := ELEMENT_LIMIT / dim;
    assert q * dim <= ELEMENT_LIMIT < (q + 1) * dim;
    if elements > q {
      assert elements * dim >= (q + 1) * dim;
    } else {
      assert elements * dim <= q * dim;
    }
  }

  /** The shape check never multiplies past the limit, yet accepts exactly the shapes whose
      full product is within it. */
  method CountElements(dims: seq<int>) returns (elements: Option<nat>)
    ensures elements.Some? <==> Positive(dims) && Product(dims) <= ELEMENT_LIMIT
    ensures elements.Some? ==> elements.value == Product(dims)
  {
    var count := 1;
    var i := 0;
    while i < |dims|
      invariant i <= |dims| && Positive(dims[..i])
      invariant 1 <= count == Product(dims[..i]) <= ELEMENT_LIMIT
    {
      if dims[i] <= 0 {
        return None;
      }
      DivisionGuard(count, dims[i]);
      Grows(count, dims[i]);
      assert dims[..i + 1][..i] == dims[..i];
      if count > ELEMENT_LIMIT / dims[i] {
        if Positive(dims) {
          PrefixProduct(dims, i + 1);
        }
        return None;
      }
      count := count * dims[i];
      i := i + 1;
    }
    assert dims[..i] == dims;
    return Some(count);
  }

  // ------------------------------------------------------------------ file names

  const DASH: byte := 45
  const DOT: byte := 46
  const UNDERSCORE: byte := 95

  predicate IsDigit(c: byte) { 48 <= c <= 57 }

  predicate IsLeafChar(c: byte) {
    IsDigit(c) || 65 <= c <= 90 || 97 <= c <= 122 || c == DOT || c == DASH || c == UNDERSCORE
  }

  function Safe(c: byte): byte {
    if IsLeafChar(c) then c else UNDERSCORE
  }

  function SafeAll(name: seq<byte>): (r: seq<byte>)
    ensures |r| == |name| && forall i :: 0 <= i < |r| ==> r[i] == Safe(name[i])
  {
    seq(|name|, i requires 0 <= i < |name| => Safe(name[i]))
  }

  function Decimal(n: nat): (r: seq<byte>)
    ensures |r| > 0 && forall i :: 0 <= i < |r| ==> IsDigit(r[i])
  {
    if n < 10 then [48 + n] else Decimal(n / 10) + [48 + n % 10]
  }

  function Value(digits: seq<byte>): int {
    if digits == [] then 0 else Value(digits[..|digits| - 1]) * 10 + digits[|digits| - 1] - 48
  }

  lemma {:induction false} DecimalInverts(n: nat)
    ensures Value(Decimal(n)) == n
  {
    var d := Decimal(n);
    if n < 10 {
      assert d[..0] == [];
    } else {
      DecimalInverts(n / 10);
      assert d[..|d| - 1] == Decimal(n / 10);
    }
  }

  function Ten(k: nat): nat { if k == 0 then 1 else 10 * Ten(k - 1) }

  lemma {:induction false} DecimalLength(n: nat, k: nat)
    requires k > 0 && n < Ten(k)
    ensures |Decimal(n)| <= k
  {
    if n >= 10 {
      assert Ten(1) == 10 * Ten(0);
      DecimalLength(n / 10, k - 1);
    }
  }

  /** What is printed before the name. */
  function Header(index: nat): seq<byte> { Decimal(index) + [DASH] }

  /** How many characters of the name fit in front of a whole suffix. */
  function Room(size: nat, index: nat, name: seq<byte>, suffix: seq<byte>): nat {
    var free := size - 1 - |suffix| - |Header(index)|;
    if free < 0 then 0 else if free < |name| then free else |name|
  }

  function Cut(s: seq<byte>, n: int): seq<byte> {
    if n < 0 then [] else if n < |s| then s[..n] else s
  }

  /** The file name left in a buffer of that size, its terminator not counted. */
  function Leaf(size: nat, index: nat, name: seq<byte>, suffix: seq<byte>): seq<byte> {
    var h := Header(index);
    if |h| >= size then Cut(h, size - 1) else
    var stem := h + SafeAll(name[..Room(size, index, name, suffix)]);
    stem + Cut(suffix, size - 1 - |stem|)
  }

  /** The buffer holds that C string. */
  predicate Spells(buffer: seq<byte>, text: seq<byte>) {
    |text| < |buffer| && buffer[..|text|] == text && buffer[|text|] == 0
  }

  /** snprintf at an offset: as much as fits, then the terminator. */
  method PrintAt(out: array<byte>, at: nat, text: seq<byte>)
    requires at < out.Length
    modifies out
    ensures out[..at] == old(out[..at])
    ensures Spells(out[at..], Cut(text, out.Length - at - 1))
  {
    var t := Cut(text, out.Length - at - 1);
    var i := 0;
    while i < |t|
      invariant i <= |t|
      invariant out[..at] == old(out[..at])
      invariant out[at..at + i] == t[..i]
    {
      out[at + i] := t[i];
      i := i + 1;
    }
    out[at + |t|] := 0;
    assert out[at..][..|t|] == out[at..at + |t|];
  }

  /** safe_name: the buffer ends up spelling the leaf. */
  method SafeName(out: array<byte>, index: nat, name: seq<byte>, suffix: seq<byte>)
    requires out.Length > 0
    modifies out
    ensures Spells(out[..], Leaf(out.Length, index, name, suffix))
  {
    hide SafeAll, Safe, Decimal, Spells;
    var h := Header(index);
    PrintAt(out, 0, h);
    assert out[0..] == out[..];
    if |h| >= out.Length {
      return;
    }
    var pos, k := |h|, 0;
    while k < |name| && pos + |suffix| + 1 < out.Length
      invariant k <= |name| && |h| <= pos == |h| + k < out.Length
      invariant k <= Room(out.Length, index, name, suffix)
      invariant out[..pos] == h + SafeAll(name[..k])
    {
      out[pos] := Safe(name[k]);
      SafeNext(name, k);
      pos, k := pos + 1, k + 1;
    }
    assert k == Room(out.Length, index, name, suffix);
    PrintAt(out, pos, suffix);
    SpellsJoin(out[..], pos, Cut(suffix, out.Length - pos - 1));
  }

  lemma SpellsJoin(buffer: seq<byte>, at: nat, text: seq<byte>)
    requires at <= |buffer| && Spells(buffer[at..], text)
    ensures Spells(buffer, buffer[..at] + text)
  {
    assert buffer[..at + |text|] == buffer[..at] + buffer[at..][..|text|];
  }

  lemma SafeNext(name: seq<byte>, k: nat)
    requires k < |name|
    ensures SafeAll(name[..k + 1]) == SafeAll(name[..k]) + [Safe(name[k])]
  {
  }

  /** The suffix survives whole exactly when header and suffix fit together. */
  lemma SuffixWholeIff(size: nat, index: nat, name: seq<byte>, suffix: seq<byte>)
    requires |suffix| > 0 && size > 0
    ensures var stem := Header(index) + SafeAll(name[..Room(size, index, name, suffix)]);
      Leaf(size, index, name, suffix) == stem + suffix <==> |Header(index)| + |suffix| < size
  {
    var h, room := Header(index), Room(size, index, name, suffix);
    var stem := h + SafeAll(name[..room]);
    if |h| + |suffix| >= size {
      assert |Leaf(size, index, name, suffix)| < size <= |stem + suffix|;
    }
  }

  const LEAF_SIZE: nat := 256

  /** In the program's own buffers no index a size_t can hold cuts a suffix short. */
  lemma ProgramSuffixesWhole(index: nat, suffix: seq<byte>)
    requires index < 0x1_0000_0000_0000_0000 && 0 < |suffix| <= 6
    ensures |Header(index)| + |suffix| < LEAF_SIZE
  {
    TwentyDigits();
    DecimalLength(index, 20);
  }

  lemma TwentyDigits()
    ensures Ten(20) > 0x1_0000_0000_0000_0000
  {
    assert Ten(5) == 100_000;
    assert Ten(10) == 100_000 * Ten(5);
    assert Ten(15) == 100_000 * Ten(10);
    assert Ten(20) == 100_000 * Ten(15);
  }

  lemma DashEndsIndex(size: nat, index: nat, name: seq<byte>, suffix: seq<byte>)
    requires |Header(index)| < size
    ensures var leaf, d := Leaf(size, index, name, suffix), |Decimal(index)|;
      d < |leaf| && leaf[..d] == Decimal(index) && leaf[d] == DASH && forall k :: 0 <= k < d ==> leaf[k] != DASH
  {
    var leaf, d := Leaf(size, index, name, suffix), Decimal(index);
    assert leaf[..|d|] == d;
    assert forall k :: 0 <= k < |d| ==> leaf[k] == d[k];
  }

  /** Names of different tensors differ, whatever the tensors are called. */
  lemma LeafInjective(size: nat, i: nat, j: nat, name: seq<byte>, other: seq<byte>,
                      suffix: seq<byte>, suffix': seq<byte>)
    requires |Header(i)| < size && |Header(j)| < size
    requires Leaf(size, i, name, suffix) == Leaf(size, j, other, suffix')
    ensures i == j
  {
    DashEndsIndex(size, i, name, suffix);
    DashEndsIndex(size, j, other, suffix');
    assert |Decimal(i)| == |Decimal(j)|;
    DecimalInverts(i);
    DecimalInverts(j);
  }

  /** A leaf is a plain file name: it starts with a digit and holds no slash and no NUL. */
  lemma LeafIsPlain(size: nat, index: nat, name: seq<byte>, suffix: seq<byte>)
    requires size > 1 && forall c :: c in suffix ==> IsLeafChar(c)
    ensures var leaf := Leaf(size, index, name, suffix);
      |leaf| > 0 && IsDigit(leaf[0]) && |leaf| < size && forall k :: 0 <= k < |leaf| ==> IsLeafChar(leaf[k])
  {
    var h := Header(index);
    assert h[0] == Decimal(index)[0];
  }

  /** Behind the header the leaf holds as much of the name as fits in front of the suffix:
      letters, digits, dots, dashes and underscores as they are, all else as underscores. */
  lemma LeafKeepsName(size: nat, index: nat, name: seq<byte>, suffix: seq<byte>, k: nat)
    requires |Header(index)| + |suffix| < size && k < |name|
    ensures var leaf, h := Leaf(size, index, name, suffix), |Header(index)|;
            var c := name[k];
            var plain := 48 <= c <= 57 || 65 <= c <= 90 || 97 <= c <= 122 || c == 46 || c == 45 || c == 95;
      && |leaf| == (if h + |name| + |suffix| < size then h + |name| + |suffix| else size - 1)
      && (h + k + |suffix| + 1 < size ==> h + k < |leaf| && leaf[h + k] == if plain then c else 95)
  {
    hide Decimal;
    var h, room := Header(index), Room(size, index, name, suffix);
    var stem := h + SafeAll(name[..room]);
    assert Leaf(size, index, name, suffix) == stem + suffix;
    if |h| + k + |suffix| + 1 < size {
      assert k < room;
      assert stem[|h| + k] == Safe(name[k]);
    }
  }
}
