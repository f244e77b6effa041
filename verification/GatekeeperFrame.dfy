/**
 Whole response frames: an eight-byte little-endian length, one sequence and whatever
 follows.  The search is exact on all of them.
 */
module GatekeeperFrame {
  import opened Bytes
  import opened Der
  import opened Gatekeeper

  // ------------------------------------------------------------------ little-endian numbers

  /** Byte i of b is digit i of n in base 256, the least significant first. */
  ghost predicate Digits(b: seq<byte>, n: nat) {
    forall i :: 0 <= i < |b| ==> b[i] == n / Pow256(i) % 256
  }

  lemma Monotone(a: int, b: int, d: nat)
    ensures a <= b ==> d * a <= d * b
  {
    assert d * b - d * a == d * (b - a);
  }

  lemma Quotient(n: nat, d: nat, q: nat, r: nat)
    requires d > 0 && n == d * q + r && r < d
    ensures n / d == q
  {
    var p := n / d;
    assert d * p <= n < d * (p + 1) && d * q <= n < d * (q + 1);
    Monotone(p + 1, q, d);
    Monotone(q + 1, p, d);
  }

  lemma DivideTwice(n: nat, d: nat)
    requires d > 0
    ensures n / (256 * d) == n / 256 / d
  {
    var q, r, s := n / 256 / d, n / 256 % d, n % 256;
    assert 256 * d * q == 256 * (d * q);
    Quotient(n, 256 * d, q, 256 * r + s);
  }

  /** The digits of a number are those of its quotient by 256 behind its remainder. */
  lemma DigitsShift(b: seq<byte>, n: nat)
    requires b != []
    ensures Digits(b, n) <==> b[0] == n % 256 && Digits(b[1..], n / 256)
  {
    forall i | 0 <= i < |b| - 1
      ensures n / Pow256(i + 1) % 256 == n / 256 / Pow256(i) % 256
    {
      DivideTwice(n, Pow256(i));
    }
    if Digits(b, n) {
      forall i | 0 <= i < |b| - 1 ensures b[1..][i] == n / 256 / Pow256(i) % 256 {
        assert b[i + 1] == n / Pow256(i + 1) % 256;
      }
      assert b[0] == n / Pow256(0) % 256;
    }
    if b[0] == n % 256 && Digits(b[1..], n / 256) {
      forall i | 0 <= i < |b| ensures b[i] == n / Pow256(i) % 256 {
        if i > 0 {
          assert b[1..][i - 1] == n / 256 / Pow256(i - 1) % 256;
          assert n / Pow256(i - 1 + 1) % 256 == n / 256 / Pow256(i - 1) % 256;
        }
      }
    }
  }

  /** Eight bytes are read as exactly the number whose digits they are. */
  lemma {:induction false} LittleEndianIff(b: seq<byte>, n: nat)
    requires n < Pow256(|b|)
    ensures LittleEndian(b) == n <==> Digits(b, n)
  {
    if b != [] {
      DigitsShift(b, n);
      LittleEndianIff(b[1..], n / 256);
      assert LittleEndian(b) % 256 == b[0] && LittleEndian(b) / 256 == LittleEndian(b[1..]);
    }
  }

  lemma {:induction false} LittleEndianBound(b: seq<byte>)
    ensures LittleEndian(b) < Pow256(|b|)
  {
    if b != [] {
      LittleEndianBound(b[1..]);
    }
  }

  // ------------------------------------------------------------------ frames

  /** A frame: the declared length, the sequence with its length in form k, and slack, of
      which the declared length may cover a part. */
  ghost predicate IsFrame(frame: seq<byte>, declared: nat, k: nat, body: seq<byte>) {
    && Fits(|body|, k)
    && |frame| >= FRAME_PREFIX + 2 + k + |body|
    && declared < Pow256(FRAME_PREFIX) && Digits(frame[..FRAME_PREFIX], declared)
    && 2 + k + |body| <= declared <= |frame| - FRAME_PREFIX
    && frame[FRAME_PREFIX..FRAME_PREFIX + 2 + k + |body|] == [SEQUENCE] + LengthOctets(|body|, k) + body
  }

  /** The declared part of a frame: its sequence, then slack. */
  lemma DeclaredPart(frame: seq<byte>, declared: nat, k: nat, body: seq<byte>) returns (rest: seq<byte>)
    requires IsFrame(frame, declared, k, body)
    ensures frame[FRAME_PREFIX..FRAME_PREFIX + declared] == [SEQUENCE] + LengthOctets(|body|, k) + (body + rest)
    ensures frame[FRAME_PREFIX + 2 + k..FRAME_PREFIX + 2 + k + |body|] == body
  {
    hide Digits, LengthOctets;
    var from, size := FRAME_PREFIX, 2 + k + |body|;
    var head := [SEQUENCE] + LengthOctets(|body|, k);
    rest := frame[from + size..from + declared];
    assert frame[from..from + declared] == frame[from..from + size] + rest;
    assert head + body + rest == head + (body + rest);
    SliceOfSlice(frame, from, from + size, 2 + k, size);
    assert (head + body)[2 + k..] == body;
  }

  /** The body of every frame is found, whatever follows it. */
  lemma FrameIsRead(frame: seq<byte>, declared: nat, k: nat, body: seq<byte>)
    requires IsFrame(frame, declared, k, body)
    ensures Elements(frame) == Some((FRAME_PREFIX + 2 + k, FRAME_PREFIX + 2 + k + |body|))
    ensures FRAME_PREFIX + 2 + k + |body| <= |frame|
    ensures frame[FRAME_PREFIX + 2 + k..FRAME_PREFIX + 2 + k + |body|] == body
  {
    LittleEndianIff(frame[..FRAME_PREFIX], declared);
    var rest := DeclaredPart(frame, declared, k, body);
    LengthInvertsOctets(SEQUENCE, |body|, k, body + rest);
    assert frame[FRAME_PREFIX..FRAME_PREFIX + declared][0] == SEQUENCE;
    hide Digits, LengthOctets, Length, LittleEndian, Fits, Pow256;
  }

  /** And nothing but frames is accepted. */
  lemma OnlyFramesAreRead(frame: seq<byte>)
    requires Elements(frame).Some?
    ensures var (from, to) := Elements(frame).value;
      && FRAME_PREFIX + 2 <= from <= to <= |frame|
      && IsFrame(frame, LittleEndian(frame[..FRAME_PREFIX]), from - FRAME_PREFIX - 2, frame[from..to])
  {
    var declared := LittleEndian(frame[..FRAME_PREFIX]);
    LittleEndianBound(frame[..FRAME_PREFIX]);
    LittleEndianIff(frame[..FRAME_PREFIX], declared);
    var inner := frame[FRAME_PREFIX..FRAME_PREFIX + declared];
    AcceptedIsEncoded(inner);
    var (from, to) := Elements(frame).value;
    var h := Length(inner).value.header;
    assert inner[..to - FRAME_PREFIX] == frame[FRAME_PREFIX..to];
    assert inner[..to - FRAME_PREFIX] == [inner[0]] + inner[1..h] + inner[h..to - FRAME_PREFIX];
    assert inner[h..to - FRAME_PREFIX] == frame[from..to];
  }

  // ------------------------------------------------------------------ the search in a frame

  lemma ExtractedIs(frame: seq<byte>, from: nat, to: nat, size: nat)
    requires from <= to <= |frame| && Elements(frame) == Some((from, to))
    ensures var found := Search(frame[from..to], size);
      && (found.None? ==> Extracted(frame, size) == None)
      && (found.Some? ==> Extracted(frame, size) == Some(from + found.value))
  {
  }

  /** From a frame of well-formed elements comes the payload of the first one that matches,
      byte for byte. */
  lemma FrameFindsFirst(frame: seq<byte>, declared: nat, k: nat, es: seq<Element>, size: nat, i: nat)
    requires AllValid(es) && IsFrame(frame, declared, k, EncodeAll(es))
    requires i < |es| && es[i].Matches(size) && forall j :: 0 <= j < i ==> !es[j].Matches(size)
    ensures var r := Extracted(frame, size);
      && r.Some? && r.value + size <= |frame| && size <= |es[i].content|
      && frame[r.value..r.value + size] == es[i].content[|es[i].content| - size..]
  {
    hide Elements, Search, EncodeAll, Digits, LengthOctets;
    FrameIsRead(frame, declared, k, EncodeAll(es));
    SearchFindsFirst(es, size, i);
    var from, at := FRAME_PREFIX + 2 + k, Search(EncodeAll(es), size).value;
    SliceOfSlice(frame, from, from + |EncodeAll(es)|, at, at + size);
  }

  lemma FrameFindsNone(frame: seq<byte>, declared: nat, k: nat, es: seq<Element>, size: nat)
    requires AllValid(es) && IsFrame(frame, declared, k, EncodeAll(es))
    requires forall j :: 0 <= j < |es| ==> !es[j].Matches(size)
    ensures Extracted(frame, size) == None
  {
    hide *;
    FrameIsRead(frame, declared, k, EncodeAll(es));
    SearchFindsNone(es, size);
    ExtractedIs(frame, FRAME_PREFIX + 2 + k, FRAME_PREFIX + 2 + k + |EncodeAll(es)|, size);
  }

  /** Of any bytes at all: what the search finds lies at the end of a well-formed element
      that matches, behind well-formed elements that do not. */
  lemma {:induction false} SearchSound(s: seq<byte>, size: nat) returns (es: seq<Element>, rest: seq<byte>)
    requires Search(s, size).Some?
    ensures es != [] && AllValid(es) && s == EncodeAll(es) + rest
    ensures es[|es| - 1].Matches(size) && forall j :: 0 <= j < |es| - 1 ==> !es[j].Matches(size)
    ensures Search(s, size) == Some(|EncodeAll(es)| - size)
    decreases |s|
  {
    hide *;
    var e, end := FirstElement(s, size);
    if e.Matches(size) {
      es, rest := [e], s[end..];
      assert [e] + [] == [e];
      OneMore(e, []);
    } else {
      es, rest := SearchSound(s[end..], size);
      OneMore(e, es);
      assert s == s[..end] + (EncodeAll(es) + rest);
      es := [e] + es;
    }
  }

  /** An accepted length makes its bytes an element. */
  lemma ElementOf(s: seq<byte>) returns (e: Element, end: nat)
    requires s != [] && Length(s).Some?
    ensures 0 < end <= |s| && e.Valid() && e.Encode() == s[..end]
    ensures e.form + 2 <= end && e.tag == s[0] && e.content == s[e.form + 2..end]
    ensures Length(s) == Some(Header(e.form + 2, |e.content|)) && end == e.form + 2 + |e.content|
  {
    hide Length, LengthOctets, Fits;
    var Header(h, v) := Length(s).value;
    AcceptedIsEncoded(s);
    e, end := Element(s[0], h - 2, s[h..h + v]), h + v;
    assert s[..h + v] == [s[0]] + s[1..h] + s[h..h + v];
  }

  /** The element a search starts with. */
  lemma FirstElement(s: seq<byte>, size: nat) returns (e: Element, end: nat)
    requires Search(s, size).Some?
    ensures 0 < end <= |s| && e.Valid() && e.Encode() == s[..end]
    ensures e.Matches(size) ==> size <= end && Search(s, size) == Some(end - size)
    ensures !e.Matches(size) ==>
              Search(s[end..], size).Some? && Search(s, size) == Some(end + Search(s[end..], size).value)
  {
    hide *;
    SearchReads(s, size);
    e, end := ElementOf(s);
    ElementDecides(s, e, end, size);
  }

  lemma SearchReads(s: seq<byte>, size: nat)
    requires Search(s, size).Some?
    ensures s != [] && Length(s).Some?
  {
  }

  lemma ElementDecides(s: seq<byte>, e: Element, end: nat, size: nat)
    requires s != [] && 0 < end <= |s| && e.form + 2 <= end && e.tag == s[0] && e.content == s[e.form + 2..end]
    requires Length(s) == Some(Header(e.form + 2, |e.content|)) && end == e.form + 2 + |e.content|
    ensures e.Matches(size) ==> size <= end && Search(s, size) == Some(end - size)
    ensures !e.Matches(size) ==> Search(s, size) == Shift(Search(s[end..], size), end)
    ensures !e.Matches(size) && Search(s, size).Some? ==>
              Search(s[end..], size).Some? && Search(s, size) == Some(end + Search(s[end..], size).value)
  {
    hide Search, Length;
    SearchTurn(s, size, e.form + 2, |e.content|);
  }

  lemma OneMore(e: Element, es: seq<Element>)
    requires e.Valid() && (es == [] || AllValid(es))
    ensures AllValid(es) && AllValid([e] + es) && EncodeAll([e] + es) == e.Encode() + EncodeAll(es)
    ensures es == [] ==> EncodeAll([e]) == e.Encode()
  {
    assert ([e] + es)[1..] == es && [e] + [] == [e];
  }
}
