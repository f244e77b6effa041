/** The search of a Gatekeeper response for one octet string of a given size. */
module Gatekeeper {
  import opened Bytes
  import opened Der

  const FRAME_PREFIX: nat := 8
  const SEQUENCE: byte := 0x30
  const OCTET_STRING: byte := 0x04

  function LittleEndian(b: seq<byte>): nat {
    if b == [] then 0 else b[0] + 256 * LittleEndian(b[1..])
  }

  predicate ContextConstructed(tag: byte) {
    0xa0 <= tag < 0xc0                      // (tag & 0xe0) == 0xa0
  }

  /** The whole content is one octet string of the wanted size. */
  predicate Wanted(content: seq<byte>, size: nat) {
    && |content| >= 2 && content[0] == OCTET_STRING
    && Length(content).Some?
    && Length(content).value.value == size
    && Length(content).value.header + size == |content|
  }

  function Shift(at: Option<nat>, n: nat): Option<nat> {
    if at.None? then None else Some(n + at.value)
  }

  /** Where the first wanted payload starts in a sequence of elements, reading them one
      after another and giving up at the first malformed one. */
  function Search(s: seq<byte>, size: nat): (r: Option<nat>)
    ensures r.Some? ==> r.value + size <= |s|
    decreases |s|
  {
    if s == [] || Length(s).None? then None
    else
      var Header(h, v) := Length(s).value;
      AcceptedIsEncoded(s);
      if ContextConstructed(s[0]) && Wanted(s[h..h + v], size) then Some(h + v - size)
      else Shift(Search(s[h + v..], size), h + v)
  }

  /** The part of the frame that holds the elements, if the frame is well-formed. */
  function Elements(frame: seq<byte>): Option<(nat, nat)> {
    if |frame| < 10 then None
    else
      var declared := LittleEndian(frame[..FRAME_PREFIX]);
      if declared > |frame| - FRAME_PREFIX || frame[FRAME_PREFIX] != SEQUENCE then None
      else
        var sequence := Length(frame[FRAME_PREFIX..FRAME_PREFIX + declared]);
        if sequence.None? then None
        else Some((FRAME_PREFIX + sequence.value.header, FRAME_PREFIX + sequence.value.header + sequence.value.value))
  }

  /** The frame's declared length and its outer sequence header. */
  method OpenFrame(frame: seq<byte>) returns (r: Option<(nat, nat)>)
    ensures r == Elements(frame)
    ensures r.Some? ==> r.value.0 <= r.value.1 <= |frame|
  {
    if |frame| < 10 {
      return None;
    }
    var declared := LittleEndian(frame[..FRAME_PREFIX]);
    if declared > |frame| - FRAME_PREFIX || frame[FRAME_PREFIX] != SEQUENCE {
      return None;
    }
    var body := frame[FRAME_PREFIX..FRAME_PREFIX + declared];
    var sequence := DerLength(body);
    if sequence.None? {
      return None;
    }
    AcceptedIsEncoded(body);
    var start := FRAME_PREFIX + sequence.value.header;
    return Some((start, start + sequence.value.value));
  }

  /** The inner half of the search's condition. */
  method PayloadStart(content: seq<byte>, expected: nat) returns (start: Option<nat>)
    ensures start == if Wanted(content, expected) then Some(|content| - expected) else None
  {
    if |content| >= 2 && content[0] == OCTET_STRING {
      var inner := DerLength(content);
      if inner.Some? && inner.value.header + inner.value.value == |content| && inner.value.value == expected {
        return Some(inner.value.header);
      }
    }
    return None;
  }

  /** One turn of the search. */
  lemma SearchTurn(s: seq<byte>, size: nat, h: nat, v: nat)
    requires s != [] && Length(s) == Some(Header(h, v))
    ensures h + v <= |s| && h >= 2
    ensures Search(s, size) == if ContextConstructed(s[0]) && Wanted(s[h..h + v], size) then Some(h + v - size)
                               else Shift(Search(s[h + v..], size), h + v)
  {
    AcceptedIsEncoded(s);
  }

  /** Passing over an element moves the search on without changing what it finds. */
  lemma SearchPassed(view: seq<byte>, offset: nat, size: nat, h: nat, v: nat)
    requires offset < |view| && Length(view[offset..]) == Some(Header(h, v))
    requires offset + h + v <= |view|
    requires !(ContextConstructed(view[offset]) && Wanted(view[offset..][h..h + v], size))
    ensures Shift(Search(view[offset..], size), offset)
         == Shift(Search(view[offset + h + v..], size), offset + h + v)
  {
    hide Length, Wanted;
    SearchTurn(view[offset..], size, h, v);
    assert view[offset..][h + v..] == view[offset + h + v..];
  }

  /** The loop, over the frame up to the end of its elements. */
  method SearchLoop(view: seq<byte>, from: nat, expected: nat) returns (r: Option<nat>)
    requires from <= |view|
    ensures r == Shift(Search(view[from..], expected), from)
  {
    hide Length, Wanted;
    var offset := from;
    ghost var found := Shift(Search(view[from..], expected), from);
    while offset < |view|
      invariant from <= offset <= |view|
      invariant found == Shift(Search(view[offset..], expected), offset)
    {
      var rest := view[offset..];
      var outer := DerLength(rest);
      if outer.None? {
        return None;
      }
      var h, v := outer.value.header, outer.value.value;
      SearchTurn(rest, expected, h, v);
      if ContextConstructed(rest[0]) {
        var start := PayloadStart(rest[h..h + v], expected);
        if start.Some? {
          return Some(offset + h + start.value);
        }
      }
      SearchPassed(view, offset, expected, h, v);
      offset := offset + h + v;
    }
    return None;
  }

  /** What is found in a frame: nothing if it is malformed. */
  function Extracted(frame: seq<byte>, size: nat): Option<nat> {
    if Elements(frame).None? then None
    else
      var (from, to) := Elements(frame).value;
      if from <= to <= |frame| then Shift(Search(frame[from..to], size), from) else None
  }

  /** gatekeeper_extract_octet; the result is where *octet points. */
  method ExtractOctet(frame: seq<byte>, expected: nat) returns (r: Option<nat>)
    ensures r == Extracted(frame, expected)
    ensures Elements(frame).None? ==> r.None?
    ensures Elements(frame).Some? ==>
              var (from, to) := Elements(frame).value;
              from <= to <= |frame| && r == Shift(Search(frame[from..to], expected), from)
    ensures r.Some? ==> r.value + expected <= |frame|
  {
    var elements := OpenFrame(frame);
    if elements.None? {
      return None;
    }
    var (from, end) := elements.value;
    r := SearchLoop(frame[..end], from, expected);
    assert frame[..end][from..] == frame[from..end];
  }

  // ------------------------------------------------------------------ what senders produce

  /** One element: its tag, the form of its length octets, and its content. */
  datatype Element = Element(tag: byte, form: nat, content: seq<byte>)
  {
    predicate Valid() { Fits(|content|, form) }

    function Encode(): seq<byte>
      requires Valid()
    {
      [tag] + LengthOctets(|content|, form) + content
    }

    predicate Matches(size: nat) { ContextConstructed(tag) && Wanted(content, size) }
  }

  predicate AllValid(es: seq<Element>) {
    forall i :: 0 <= i < |es| ==> es[i].Valid()
  }

  function EncodeAll(es: seq<Element>): seq<byte>
    requires AllValid(es)
  {
    if es == [] then [] else es[0].Encode() + EncodeAll(es[1..])
  }

  lemma HeadElement(e: Element, rest: seq<byte>)
    requires e.Valid()
    ensures var s := e.Encode() + rest;
      && Length(s) == Some(Header(2 + e.form, |e.content|))
      && s[0] == e.tag
      && s[2 + e.form..2 + e.form + |e.content|] == e.content
      && s[2 + e.form + |e.content|..] == rest
  {
    var s := e.Encode() + rest;
    assert s == [e.tag] + LengthOctets(|e.content|, e.form) + (e.content + rest);
    LengthInvertsOctets(e.tag, |e.content|, e.form, e.content + rest);
  }

  lemma SearchHead(e: Element, rest: seq<byte>, size: nat)
    requires e.Valid()
    ensures Search(e.Encode() + rest, size)
         == if e.Matches(size) then Some(|e.Encode()| - size) else Shift(Search(rest, size), |e.Encode()|)
  {
    HeadElement(e, rest);
  }

  lemma EncodeAllFront(es: seq<Element>, i: nat)
    requires AllValid(es) && 0 < i <= |es|
    ensures EncodeAll(es[..i]) == es[0].Encode() + EncodeAll(es[1..][..i - 1])
  {
    assert es[..i][1..] == es[1..][..i - 1];
  }

  lemma {:induction false} EncodeAllSplit(es: seq<Element>, i: nat)
    requires AllValid(es) && i < |es|
    ensures EncodeAll(es) == EncodeAll(es[..i]) + (es[i].Encode() + EncodeAll(es[i + 1..]))
    decreases i
  {
    hide LengthOctets;
    var after := es[i].Encode() + EncodeAll(es[i + 1..]);
    if i == 0 {
      assert es[..0] == [];
    } else {
      EncodeAllSplit(es[1..], i - 1);
      EncodeAllFront(es, i);
      assert es[1..][i..] == es[i + 1..];
      var e, before := es[0].Encode(), EncodeAll(es[1..][..i - 1]);
      assert e + (before + after) == (e + before) + after;
    }
  }

  /** Elements that do not match are passed over. */
  lemma {:induction false} SearchPasses(es: seq<Element>, rest: seq<byte>, size: nat)
    requires AllValid(es) && forall j :: 0 <= j < |es| ==> !es[j].Matches(size)
    ensures Search(EncodeAll(es) + rest, size) == Shift(Search(rest, size), |EncodeAll(es)|)
    decreases |es|
  {
    hide Search;
    if es == [] {
      assert EncodeAll(es) + rest == rest;
    } else {
      SearchPasses(es[1..], rest, size);
      SearchHead(es[0], EncodeAll(es[1..]) + rest, size);
      assert EncodeAll(es) + rest == es[0].Encode() + (EncodeAll(es[1..]) + rest);
    }
  }

  /** The last n bytes of a content are the last n bytes of its element's encoding. */
  lemma PayloadEndsElement(before: seq<byte>, e: Element, after: seq<byte>, n: nat)
    requires e.Valid() && n <= |e.content|
    ensures var end := |before| + |e.Encode()|;
      (before + (e.Encode() + after))[end - n..end] == e.content[|e.content| - n..]
  {
    hide LengthOctets;
    var head := [e.tag] + LengthOctets(|e.content|, e.form);
    assert e.Encode() == head + e.content;
    assert before + (e.Encode() + after) == before + head + e.content + after;
  }

  /** On well-formed elements the search finds the payload of the first one that matches. */
  lemma SearchFindsFirst(es: seq<Element>, size: nat, i: nat)
    requires AllValid(es) && i < |es| && es[i].Matches(size)
    requires forall j :: 0 <= j < i ==> !es[j].Matches(size)
    ensures var r := Search(EncodeAll(es), size);
      && r == Some(|EncodeAll(es[..i])| + |es[i].Encode()| - size)
      && size <= |es[i].content|
      && EncodeAll(es)[r.value..r.value + size] == es[i].content[|es[i].content| - size..]
  {
    hide Search, LengthOctets, EncodeAll;
    var before, e, after := EncodeAll(es[..i]), es[i], EncodeAll(es[i + 1..]);
    EncodeAllSplit(es, i);
    SearchPasses(es[..i], e.Encode() + after, size);
    SearchHead(e, after, size);
    PayloadEndsElement(before, e, after, size);
  }

  /** And it finds nothing when none does. */
  lemma SearchFindsNone(es: seq<Element>, size: nat)
    requires AllValid(es) && forall j :: 0 <= j < |es| ==> !es[j].Matches(size)
    ensures Search(EncodeAll(es), size) == None
  {
    SearchPasses(es, [], size);
    assert EncodeAll(es) + [] == EncodeAll(es);
  }

  /** A wanted content is exactly an octet-string header followed by its payload. */
  lemma WantedIsOctetString(content: seq<byte>, size: nat)
    requires |content| >= size
    ensures Wanted(content, size) <==>
              exists k :: Fits(size, k)
                          && content == [OCTET_STRING] + LengthOctets(size, k) + content[|content| - size..]
  {
    if Wanted(content, size) {
      AcceptedIsEncoded(content);
      var k := Length(content).value.header - 2;
      assert content == [OCTET_STRING] + LengthOctets(size, k) + content[|content| - size..];
    }
    forall k | Fits(size, k) && content == [OCTET_STRING] + LengthOctets(size, k) + content[|content| - size..]
      ensures Wanted(content, size)
    {
      LengthInvertsOctets(OCTET_STRING, size, k, content[|content| - size..]);
    }
  }
}
