/**
 The length octets of section 8.1.3 of ITU-T X.690 as scripts/probe-qtee-load-securefp.c
 reads them, and its search of a response frame for one octet string.
 */
module Der {
  import opened Bytes

  const WORD: nat := 0x1_0000_0000_0000_0000    // size_t
  const MAX_LENGTH_OCTETS: nat := 8             // sizeof(size_t)

  datatype Header = Header(header: nat, value: nat)

  function Pow256(n: nat): (r: nat)
    ensures r > 0
  {
    if n == 0 then 1 else 256 * Pow256(n - 1)
  }

  function BigEndian(b: seq<byte>): nat {
    if b == [] then 0 else BigEndian(b[..|b| - 1]) * 256 + b[|b| - 1]
  }

  function ToBigEndian(v: nat, k: nat): (b: seq<byte>)
    ensures |b| == k
  {
    if k == 0 then [] else ToBigEndian(v / 256, k - 1) + [v % 256]
  }

  lemma {:induction false} BigEndianBound(b: seq<byte>)
    ensures BigEndian(b) < Pow256(|b|)
  {
    if b != [] {
      BigEndianBound(b[..|b| - 1]);
    }
  }

  lemma {:induction false} FromTo(v: nat, k: nat)
    requires v < Pow256(k)
    ensures BigEndian(ToBigEndian(v, k)) == v
  {
    if k > 0 {
      FromTo(v / 256, k - 1);
      assert ToBigEndian(v, k)[..k - 1] == ToBigEndian(v / 256, k - 1);
    }
  }

  lemma {:induction false} ToFrom(b: seq<byte>)
    ensures ToBigEndian(BigEndian(b), |b|) == b
  {
    if b != [] {
      ToFrom(b[..|b| - 1]);
      assert b == b[..|b| - 1] + [b[|b| - 1]];
    }
  }

  lemma {:induction false} PowMonotone(m: nat, n: nat)
    requires m <= n
    ensures Pow256(m) <= Pow256(n)
    decreases n
  {
    if m < n {
      PowMonotone(m, n - 1);
    }
  }

  lemma PowWord(k: nat)
    requires k < MAX_LENGTH_OCTETS
    ensures 256 * Pow256(k) <= WORD
  {
    PowMonotone(k, 7);
    assert Pow256(2) == 0x1_0000;
    assert Pow256(4) == 0x1_0000 * Pow256(2);
    assert Pow256(6) == 0x1_0000 * Pow256(4);
    assert Pow256(7) == 256 * Pow256(6);
  }

  /** What der_length computes, without the machine word. */
  function Length(b: seq<byte>): Option<Header> {
    if |b| < 2 then None
    else if b[1] < 0x80 then
      if b[1] <= |b| - 2 then Some(Header(2, b[1])) else None
    else
      var bytes := b[1] - 0x80;
      if bytes == 0 || bytes > MAX_LENGTH_OCTETS || bytes > |b| - 2 then None
      else
        var value := BigEndian(b[2..2 + bytes]);
        if value <= |b| - 2 - bytes then Some(Header(2 + bytes, value)) else None
  }

  /** der_length: the value is accumulated in a size_t that never wraps. */
  method DerLength(b: seq<byte>) returns (r: Option<Header>)
    ensures r == Length(b)
  {
    if |b| < 2 {
      return None;
    }
    if b[1] < 0x80 {
      return if b[1] <= |b| - 2 then Some(Header(2, b[1])) else None;
    }
    var bytes := b[1] - 0x80;
    if bytes == 0 || bytes > MAX_LENGTH_OCTETS || bytes > |b| - 2 {
      return None;
    }
    var value: nat, i: nat := 0, 0;
    while i < bytes
      invariant i <= bytes
      invariant value == BigEndian(b[2..2 + i])
    {
      BigEndianBound(b[2..2 + i]);
      PowWord(i);
      assert value * 256 < WORD;
      assert b[2..2 + (i + 1)][..i] == b[2..2 + i];
      value := value * 256 % WORD + b[2 + i];
      i := i + 1;
    }
    return if value <= |b| - (2 + bytes) then Some(Header(2 + bytes, value)) else None;
  }

  /** Form k of the length octets: 0 is the short form, k > 0 the long form with k octets. */
  predicate Fits(v: nat, k: nat) {
    if k == 0 then v < 0x80 else k <= MAX_LENGTH_OCTETS && v < Pow256(k)
  }

  function LengthOctets(v: nat, k: nat): (b: seq<byte>)
    requires Fits(v, k)
    ensures |b| == 1 + k
  {
    if k == 0 then [v] else [0x80 + k] + ToBigEndian(v, k)
  }

  /** Every value in every form it fits is read back, wherever enough bytes follow. */
  lemma LengthInvertsOctets(tag: byte, v: nat, k: nat, rest: seq<byte>)
    requires Fits(v, k) && |rest| >= v
    ensures Length([tag] + LengthOctets(v, k) + rest) == Some(Header(2 + k, v))
  {
    var b := [tag] + LengthOctets(v, k) + rest;
    if k > 0 {
      FromTo(v, k);
      assert b[2..2 + k] == ToBigEndian(v, k);
    }
  }

  /** Nothing else is accepted: an accepted header is the encoding of its value in one of
      the forms, and its content is there. */
  lemma AcceptedIsEncoded(b: seq<byte>)
    requires Length(b).Some?
    ensures var Header(h, v) := Length(b).value;
      && h >= 2 && h + v <= |b|
      && Fits(v, h - 2)
      && b[1..h] == LengthOctets(v, h - 2)
  {
    if b[1] >= 0x80 {
      var bytes := b[1] - 0x80;
      var octets := b[2..2 + bytes];
      BigEndianBound(octets);
      ToFrom(octets);
      assert b[1..2 + bytes] == [b[1]] + octets;
    }
  }
}
