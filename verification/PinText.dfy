/**
 Counting and replacing text the way Python's str.count and str.replace do, and why the
 patterns of scripts/pin-sm8550-pcie-iommu-map.py cannot interfere with one another.
 */
module PinText {

  /** Non-overlapping occurrences, scanning from the left. */
  function Count(s: string, p: string): nat
    requires p != ""
  {
    if |s| < |p| then 0
    else if s[..|p|] == p then 1 + Count(s[|p|..], p)
    else Count(s[1..], p)
  }

  /** Every counted occurrence replaced, in the same scan. */
  function Replace(s: string, p: string, q: string): string
    requires p != ""
  {
    if |s| < |p| then s
    else if s[..|p|] == p then q + Replace(s[|p|..], p, q)
    else [s[0]] + Replace(s[1..], p, q)
  }

  /** '&' opens the pattern and does not appear again in it. */
  predicate Marked(p: string) {
    p != "" && p[0] == '&' && forall i :: 0 < i < |p| ==> p[i] != '&'
  }

  predicate Apart(p: string, q: string) {
    !(p <= q) && !(q <= p)
  }

  function Old(stream: string): string { "&apps_smmu 0x" + stream + " 0x1>" }
  function New(stream: string): string { "&apps_smmu 0x" + stream + " 0x0 0x1>" }

  predicate Stream(s: string) {
    |s| == 4 && forall i :: 0 <= i < 4 ==> s[i] != '&'
  }

  lemma PatternsMarked(s: string)
    requires Stream(s)
    ensures Marked(Old(s)) && Marked(New(s))
  {
    var head := "&apps_smmu 0x";
    assert Old(s) == head + s + " 0x1>" && New(s) == head + s + " 0x0 0x1>";
  }

  /** Different entries differ before either of them ends. */
  lemma PatternsApart(s: string, t: string)
    requires Stream(s) && Stream(t)
    ensures Apart(Old(s), New(t))
    ensures s != t ==> Apart(Old(s), Old(t)) && Apart(New(s), New(t))
  {
    assert Old(s)[20] == '1' && New(t)[20] == '0';
    if s != t {
      var i :| 0 <= i < 4 && s[i] != t[i];
      assert Old(s)[13 + i] == s[i] && Old(t)[13 + i] == t[i];
      assert New(s)[13 + i] == s[i] && New(t)[13 + i] == t[i];
    }
  }

  predicate Boundary(t: string) {
    t == "" || t[0] == '&'
  }

  /** No occurrence of a marked pattern straddles the start of another entry. */
  lemma {:induction false} CountAppend(a: string, t: string, p: string)
    requires Marked(p) && Boundary(t)
    ensures Count(a + t, p) == Count(a, p) + Count(t, p)
    decreases |a|
  {
    if a == "" {
      assert a + t == t;
    } else {
      Straddle(a, t, p);
      if p <= a {
        assert (a + t)[|p|..] == a[|p|..] + t;
        CountAppend(a[|p|..], t, p);
      } else {
        assert (a + t)[1..] == a[1..] + t;
        CountAppend(a[1..], t, p);
        ShortCount(a, p);
      }
    }
  }

  lemma Straddle(a: string, t: string, p: string)
    requires Marked(p) && Boundary(t) && a != ""
    ensures p <= a + t <==> p <= a
  {
    assert t != "" ==> (a + t)[|a|] == '&';
    assert |p| <= |a| ==> (a + t)[..|p|] == a[..|p|];
  }

  lemma ShortCount(a: string, p: string)
    requires p != "" && a != "" && !(p <= a)
    ensures Count(a, p) == Count(a[1..], p)
  {
  }

  /** Text without '&' is skipped. */
  lemma {:induction false} CountSkips(m: string, b: string, p: string)
    requires Marked(p) && forall i :: 0 <= i < |m| ==> m[i] != '&'
    ensures Count(m + b, p) == Count(b, p)
    decreases |m|
  {
    if m == "" {
      assert m + b == b;
    } else {
      assert (m + b)[1..] == m[1..] + b;
      CountSkips(m[1..], b, p);
      ShortCount(m + b, p);
    }
  }

  /** A marked block counts once for itself and not at all for a pattern apart from it. */
  lemma CountBlock(m: string, b: string, p: string)
    requires Marked(p) && Marked(m) && (p == m || Apart(p, m))
    ensures Count(m + b, p) == (if p == m then 1 else 0) + Count(b, p)
  {
    if p == m {
      assert (m + b)[|p|..] == b;
    } else {
      ShortCount(m + b, p);
      assert (m + b)[1..] == m[1..] + b;
      CountSkips(m[1..], b, p);
    }
  }

  /** The count of any pattern around one entry. */
  lemma CountAround(a: string, m: string, b: string, p: string)
    requires Marked(p) && Marked(m) && (p == m || Apart(p, m))
    ensures Count(a + m + b, p) == Count(a, p) + (if p == m then 1 else 0) + Count(b, p)
  {
    assert a + m + b == a + (m + b);
    CountAppend(a, m + b, p);
    CountBlock(m, b, p);
  }

  /** Without occurrences nothing is replaced. */
  lemma {:induction false} ReplaceNone(s: string, p: string, q: string)
    requires p != "" && Count(s, p) == 0
    ensures Replace(s, p, q) == s
    decreases |s|
  {
    if |s| >= |p| {
      ReplaceNone(s[1..], p, q);
    }
  }

  /** The only occurrence splits the text, and replacing it changes nothing around it. */
  lemma {:induction false} Locate(s: string, p: string, q: string) returns (a: string, b: string)
    requires p != "" && Count(s, p) == 1
    ensures s == a + p + b && Replace(s, p, q) == a + q + b
    decreases |s|
  {
    if s[..|p|] == p {
      a, b := "", s[|p|..];
      ReplaceNone(b, p, q);
    } else {
      a, b := Locate(s[1..], p, q);
      assert s == [s[0]] + s[1..];
      a := [s[0]] + a;
    }
  }
}
