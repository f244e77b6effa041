/**
 What the iommu-map rewrite leaves alone: a text is cut into the four streams' new entries
 and the characters between them, and pinning changes the spelling of the entries only.
 */
module PinParts {
  import opened PinText
  import opened PinMap

  datatype Part = Char(c: char) | Entry(stream: nat)

  /** The stream whose new entry the text starts with; 4 if it starts with none. */
  function EntryAt(t: string): (i: nat)
    ensures i <= 4 && (i < 4 ==> New(STREAMS[i]) <= t)
    ensures i == 4 ==> forall j :: 0 <= j < 4 ==> !(New(STREAMS[j]) <= t)
  {
    if New(STREAMS[0]) <= t then 0
    else if New(STREAMS[1]) <= t then 1
    else if New(STREAMS[2]) <= t then 2
    else if New(STREAMS[3]) <= t then 3 else 4
  }

  function Parts(t: string): seq<Part>
    decreases |t|
  {
    if t == "" then []
    else
      var i := EntryAt(t);
      if i < 4 then [Entry(i)] + Parts(t[|New(STREAMS[i])|..]) else [Char(t[0])] + Parts(t[1..])
  }

  /** How a part is spelled once the first n streams have been pinned. */
  function Spelled(part: Part, n: nat): string {
    match part
    case Char(c) => [c]
    case Entry(i) => if i >= 4 then "" else if i < n then Old(STREAMS[i]) else New(STREAMS[i])
  }

  function Text(parts: seq<Part>, n: nat): string {
    if parts == [] then "" else Spelled(parts[0], n) + Text(parts[1..], n)
  }

  function Entries(parts: seq<Part>, i: nat): nat {
    if parts == [] then 0 else (if parts[0] == Entry(i) then 1 else 0) + Entries(parts[1..], i)
  }

  lemma TextCons(part: Part, rest: seq<Part>, n: nat)
    ensures Text([part] + rest, n) == Spelled(part, n) + Text(rest, n)
    ensures forall i :: Entries([part] + rest, i) == (if part == Entry(i) then 1 else 0) + Entries(rest, i)
  {
    assert ([part] + rest)[1..] == rest;
  }

  /** The first part of a text and the text behind it. */
  lemma FirstPart(t: string, n: nat) returns (part: Part, rest: string)
    requires t != ""
    ensures |rest| < |t| && t == Spelled(part, 0) + rest
    ensures part == if EntryAt(t) < 4 then Entry(EntryAt(t)) else Char(t[0])
    ensures Parts(t) == [part] + Parts(rest)
    ensures Text(Parts(t), n) == Spelled(part, n) + Text(Parts(rest), n)
    ensures forall i :: Entries(Parts(t), i) == (if part == Entry(i) then 1 else 0) + Entries(Parts(rest), i)
  {
    var i := EntryAt(t);
    if i < 4 {
      part, rest := Entry(i), t[|New(STREAMS[i])|..];
    } else {
      part, rest := Char(t[0]), t[1..];
    }
    TextCons(part, Parts(rest), n);
  }

  /** Before anything is pinned the parts spell the text. */
  lemma {:induction false} PartsSpellText(t: string)
    ensures Text(Parts(t), 0) == t
    decreases |t|
  {
    if t != "" {
      var part, rest := FirstPart(t, 0);
      PartsSpellText(rest);
    }
  }

  lemma EntryIsMarked(i: nat, n: nat)
    requires i < 4
    ensures Marked(Spelled(Entry(i), n))
    ensures n < 4 && i != n ==> Apart(New(STREAMS[n]), Spelled(Entry(i), n))
    ensures n < 4 ==> Marked(New(STREAMS[n])) && (i == n ==> Spelled(Entry(i), n) == New(STREAMS[n]))
  {
    StreamsAre(i);
    PatternsMarked(STREAMS[i]);
    if n < 4 {
      StreamsAre(n);
      PatternsMarked(STREAMS[n]);
      PatternsApart(STREAMS[i], STREAMS[n]);
    }
  }

  /** Pinning moves no text that holds no '&'. */
  lemma {:induction false} PlainPrefix(t: string, n: nat, m: string)
    requires forall k :: 0 <= k < |m| ==> m[k] != '&'
    ensures m <= Text(Parts(t), n) <==> m <= t
    decreases |t|
  {
    if t != "" && m != "" {
      var part, rest := FirstPart(t, n);
      if part.Entry? {
        EntryIsMarked(part.stream, n);
        EntryIsMarked(part.stream, 0);
        assert Text(Parts(t), n)[0] == '&' && t[0] == '&';
      } else {
        PlainPrefix(rest, n, m[1..]);
        assert t == [t[0]] + rest && Text(Parts(t), n) == [t[0]] + Text(Parts(rest), n);
        PrefixCons(t[0], rest, m);
        PrefixCons(t[0], Text(Parts(rest), n), m);
      }
    }
  }

  lemma PrefixCons(c: char, s: string, m: string)
    requires m != ""
    ensures m <= [c] + s <==> m[0] == c && m[1..] <= s
  {
    if m <= [c] + s {
      assert m[1..] == ([c] + s)[1..|m|] == s[..|m| - 1];
    }
    if m[0] == c && m[1..] <= s {
      assert m == [c] + m[1..];
    }
  }

  lemma {:induction false} ReplaceSkips(m: string, b: string, p: string, q: string)
    requires Marked(p) && forall i :: 0 <= i < |m| ==> m[i] != '&'
    ensures Replace(m + b, p, q) == m + Replace(b, p, q)
    decreases |m|
  {
    if m == "" {
      assert m + b == b;
    } else {
      assert (m + b)[1..] == m[1..] + b;
      ReplaceSkips(m[1..], b, p, q);
      ReplaceStep(m + b, p, q);
      assert [m[0]] + (m[1..] + Replace(b, p, q)) == m + Replace(b, p, q);
    }
  }

  /** An entry is replaced if it is the one looked for, and passed over whole otherwise. */
  lemma ReplaceBlock(m: string, b: string, p: string, q: string)
    requires Marked(p) && Marked(m) && (p == m || Apart(p, m))
    ensures Replace(m + b, p, q) == (if p == m then q else m) + Replace(b, p, q)
  {
    if p == m {
      assert (m + b)[|p|..] == b;
    } else {
      ReplaceStep(m + b, p, q);
      assert (m + b)[1..] == m[1..] + b;
      ReplaceSkips(m[1..], b, p, q);
      assert [m[0]] + (m[1..] + Replace(b, p, q)) == m + Replace(b, p, q);
    }
  }

  /** One pass of replacement respells the entries of one stream and nothing else. */
  lemma {:induction false} ReplaceRespells(t: string, n: nat)
    requires n < 4
    ensures Replace(Text(Parts(t), n), New(STREAMS[n]), Old(STREAMS[n])) == Text(Parts(t), n + 1)
    decreases |t|
  {
    if t != "" {
      var part, rest := FirstPart(t, n);
      var _, _ := FirstPart(t, n + 1);
      ReplaceRespells(rest, n);
      if part.Entry? {
        RespellEntry(part.stream, n, Text(Parts(rest), n));
      } else {
        RespellChar(t, n, rest);
      }
    }
  }

  lemma RespellEntry(i: nat, n: nat, b: string)
    requires i < 4 && n < 4
    ensures Replace(Spelled(Entry(i), n) + b, New(STREAMS[n]), Old(STREAMS[n]))
         == Spelled(Entry(i), n + 1) + Replace(b, New(STREAMS[n]), Old(STREAMS[n]))
  {
    EntryIsMarked(i, n);
    ReplaceBlock(Spelled(Entry(i), n), b, New(STREAMS[n]), Old(STREAMS[n]));
    if i == n {
      PatternsApart(STREAMS[n], STREAMS[n]);
    }
  }

  lemma RespellChar(t: string, n: nat, rest: string)
    requires n < 4 && t != "" && t == [t[0]] + rest && EntryAt(t) == 4
    ensures var p, q, b := New(STREAMS[n]), Old(STREAMS[n]), Text(Parts(rest), n);
      Replace([t[0]] + b, p, q) == [t[0]] + Replace(b, p, q)
  {
    var p, q, b := New(STREAMS[n]), Old(STREAMS[n]), Text(Parts(rest), n);
    EntryIsMarked(n, n);
    PlainPrefix(rest, n, p[1..]);
    PrefixCons(t[0], rest, p);
    PrefixCons(t[0], b, p);
    ReplaceStep([t[0]] + b, p, q);
    assert ([t[0]] + b)[1..] == b;
  }

  /** The count of a new entry is the number of its parts. */
  lemma {:induction false} CountIsEntries(t: string, i: nat)
    requires i < 4
    ensures Count(t, New(STREAMS[i])) == Entries(Parts(t), i)
    decreases |t|
  {
    if t != "" {
      var part, rest := FirstPart(t, 0);
      CountIsEntries(rest, i);
      EntryIsMarked(i, i);
      if part.Entry? {
        EntryIsMarked(part.stream, 0);
        NewApart(part.stream, i);
        CountBlock(New(STREAMS[part.stream]), rest, New(STREAMS[i]));
      } else {
        ShortCount(t, New(STREAMS[i]));
      }
    }
  }

  lemma NewApart(i: nat, j: nat)
    requires i < 4 && j < 4
    ensures Marked(New(STREAMS[i]))
    ensures i != j ==> Apart(New(STREAMS[j]), New(STREAMS[i]))
    ensures i == j <==> New(STREAMS[i]) == New(STREAMS[j])
  {
    StreamsAre(i);
    StreamsAre(j);
    PatternsMarked(STREAMS[i]);
    if i != j {
      PatternsApart(STREAMS[i], STREAMS[j]);
    }
  }

  /** Of any text: pinning n streams respells their entries where they stand and leaves
      every character between entries as it was. */
  lemma {:induction false} PinnedRespells(t: string, n: nat)
    requires n <= 4
    ensures Text(Parts(t), 0) == t && Pinned(t, n) == Text(Parts(t), n)
  {
    if n == 0 {
      PartsSpellText(t);
    } else {
      PinnedRespells(t, n - 1);
      ReplaceRespells(t, n - 1);
    }
  }

  /** A text that is rewritten is its characters around exactly one new entry per stream,
      and the result is the same characters around the same entries in their old form. */
  lemma OnlyEntriesChange(t: string)
    requires AllNew(t)
    ensures t == Text(Parts(t), 0) && Pinned(t, 4) == Text(Parts(t), 4)
    ensures forall i :: 0 <= i < 4 ==> Entries(Parts(t), i) == 1
  {
    PinnedRespells(t, 4);
    forall i | 0 <= i < 4 ensures Entries(Parts(t), i) == 1 {
      CountIsEntries(t, i);
      assert IsNew(t, STREAMS[i]);
    }
  }
}
