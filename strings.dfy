/** The JavaScript string operations the chat bot relies on: `trim`,
    `join`, template rendering of integers, plus the occurrence predicates
    used to state what the other modules promise. */
module Strings {

  /** The characters `String.prototype.trim` removes: ECMAScript's
      WhiteSpace and LineTerminator code points. */
  predicate IsSpace(c: char) {
    c == '\t' || c == '\n' || c == '\U{000B}' || c == '\U{000C}' || c == '\r' || c == ' '
    || c == '\U{00A0}' || c == '\U{1680}' || ('\U{2000}' <= c <= '\U{200A}')
    || c == '\U{2028}' || c == '\U{2029}' || c == '\U{202F}' || c == '\U{205F}'
    || c == '\U{3000}' || c == '\U{FEFF}'
  }

  predicate AllSpace(s: string) {
    forall i :: 0 <= i < |s| ==> IsSpace(s[i])
  }

  /** Neither the first nor the last character is white space. */
  predicate NoEdgeSpace(s: string) {
    s == [] || (!IsSpace(s[0]) && !IsSpace(s[|s| - 1]))
  }

  /** Drops the leading white space: what remains is a suffix of `s`. */
  function TrimStart(s: string): (r: string)
    ensures |r| <= |s| && r == s[|s| - |r|..]
    ensures AllSpace(s[..|s| - |r|])
    ensures r == [] || !IsSpace(r[0])
    decreases |s|
  {
    if s != [] && IsSpace(s[0]) then
      var r := TrimStart(s[1..]);
      assert s[|s| - |r|..] == s[1..][|s| - 1 - |r|..];
      assert s[..|s| - |r|] == [s[0]] + s[1..][..|s| - 1 - |r|];
      r
    else s
  }

  /** Drops the trailing white space: what remains is a prefix of `s`. */
  function TrimEnd(s: string): (r: string)
    ensures |r| <= |s| && r == s[..|r|]
    ensures AllSpace(s[|r|..])
    ensures r == [] || !IsSpace(r[|r| - 1])
    decreases |s|
  {
    if s != [] && IsSpace(s[|s| - 1]) then
      var init := s[..|s| - 1];
      var r := TrimEnd(init);
      assert s[..|r|] == init[..|r|];
      assert s[|r|..] == init[|r|..] + [s[|s| - 1]];
      r
    else s
  }

  /** `r` is the slice of `s` at offset `a` and everything around it is white space. */
  predicate TrimmedAt(r: string, s: string, a: int) {
    0 <= a && a + |r| <= |s| && s[a..a + |r|] == r
    && AllSpace(s[..a]) && AllSpace(s[a + |r|..])
  }

  /** `String.prototype.trim`: the slice of `s` left once the white space at
      both ends is removed. */
  function Trim(s: string): (r: string)
    ensures NoEdgeSpace(r)
    ensures exists a :: TrimmedAt(r, s, a)
    ensures NoEdgeSpace(s) ==> r == s
  {
    var t := TrimStart(s);
    var r := TrimEnd(t);
    TrimmedSlice(s, t, r, |s| - |t|);
    r
  }

  /** A prefix `r` of the suffix `t` of `s` at offset `a`, with white space
      on both sides, is the slice of `s` at `a`. */
  lemma TrimmedSlice(s: string, t: string, r: string, a: int)
    requires 0 <= a <= |s| && t == s[a..]
    requires |r| <= |t| && r == t[..|r|]
    requires AllSpace(s[..a]) && AllSpace(t[|r|..])
    ensures TrimmedAt(r, s, a)
  {
    assert s[a..a + |r|] == r;
    assert s[a + |r|..] == t[|r|..];
  }

  /** `!s.trim()` holds exactly for the texts that are white space only. */
  lemma {:induction false} BlankIsTrimmedEmpty(s: string)
    ensures Trim(s) == "" <==> AllSpace(s)
  {
    var a :| TrimmedAt(Trim(s), s, a);
    assert |Trim(s)| > 0 ==> Trim(s)[0] == s[a];
    if Trim(s) == "" {
      forall i | 0 <= i < |s| ensures IsSpace(s[i]) {
        if i < a {
          assert s[..a][i] == s[i];
        } else {
          assert s[a..][i - a] == s[i];
        }
      }
    }
  }

  /** `p` occurs in `s` at offset `i`. */
  predicate OccursAt(s: string, p: string, i: int) {
    0 <= i && i + |p| <= |s| && s[i..i + |p|] == p
  }

  /** `p` occurs nowhere in `s`. */
  ghost predicate Free(s: string, p: string) {
    forall i :: !OccursAt(s, p, i)
  }

  /** `e` occurs somewhere in `s`. */
  ghost predicate Mentions(s: string, e: string) {
    exists i :: OccursAt(s, e, i)
  }

  lemma MentionsInside(pre: string, e: string, post: string)
    ensures Mentions(pre + e + post, e)
  {
    var s := pre + e + post;
    assert s[|pre|..|pre| + |e|] == e;
    assert OccursAt(s, e, |pre|);
  }

  /** A slice of a text free of `p` is free of `p`. */
  lemma FreeSlice(s: string, r: string, p: string, a: int)
    requires 0 <= a && a + |r| <= |s| && s[a..a + |r|] == r
    requires Free(s, p)
    ensures Free(r, p)
  {
    forall i | 0 <= i && i + |p| <= |r| ensures !OccursAt(r, p, i) {
      var x, y := r[i..i + |p|], s[a + i..a + i + |p|];
      forall j | 0 <= j < |p| ensures x[j] == y[j] {
        assert x[j] == r[i + j] == s[a + i + j];
      }
      assert x == y;
      assert !OccursAt(s, p, a + i);
    }
  }

  /** A text free of `q` is free of every pattern that starts with `q`. */
  lemma FreeOfExtension(s: string, q: string, p: string)
    requires |q| <= |p| && p[..|q|] == q
    requires Free(s, q)
    ensures Free(s, p)
  {
    forall i | 0 <= i && i + |p| <= |s| ensures !OccursAt(s, p, i) {
      assert s[i..i + |p|][..|q|] == s[i..i + |q|];
      assert !OccursAt(s, q, i);
    }
  }

  /** Trimming keeps a text free of `p`. */
  lemma TrimKeepsFree(s: string, p: string)
    requires Free(s, p)
    ensures Free(Trim(s), p)
  {
    var a :| TrimmedAt(Trim(s), s, a);
    FreeSlice(s, Trim(s), p, a);
  }

  /** `parts.join(sep)`: every character comes from a part or from the
      separator. */
  function Join(parts: seq<string>, sep: string): (r: string)
    ensures forall c :: c in r ==> c in sep || exists k :: 0 <= k < |parts| && c in parts[k]
  {
    if |parts| == 0 then ""
    else if |parts| == 1 then parts[0]
    else parts[0] + sep + Join(parts[1..], sep)
  }

  /** Cuts `s` at every occurrence of `sep`; the inverse of `Join` used to
      read back what a joined text holds. */
  function Split(s: string, sep: char): (parts: seq<string>)
    ensures |parts| >= 1
  {
    if s == [] then [""]
    else
      var rest := Split(s[1..], sep);
      if s[0] == sep then [""] + rest else [[s[0]] + rest[0]] + rest[1..]
  }

  lemma {:induction false} SplitPlain(w: string, sep: char)
    requires sep !in w
    ensures Split(w, sep) == [w]
  {
    if w != [] {
      SplitPlain(w[1..], sep);
      assert [w[0]] + w[1..] == w;
    }
  }

  lemma {:induction false} SplitAfterPlain(w: string, sep: char, x: string)
    requires sep !in w
    ensures Split(w + [sep] + x, sep) == [w] + Split(x, sep)
  {
    var s := w + [sep] + x;
    if w == [] {
      assert s[1..] == x;
    } else {
      assert s[1..] == w[1..] + [sep] + x;
      SplitAfterPlain(w[1..], sep, x);
      assert [w[0]] + w[1..] == w;
    }
  }

  /** Splitting a join recovers the parts when no part holds the separator. */
  lemma {:induction false} SplitJoin(parts: seq<string>, sep: char)
    requires |parts| >= 1
    requires forall k :: 0 <= k < |parts| ==> sep !in parts[k]
    ensures Split(Join(parts, [sep]), sep) == parts
  {
    if |parts| == 1 {
      SplitPlain(parts[0], sep);
    } else {
      SplitJoin(parts[1..], sep);
      SplitAfterPlain(parts[0], sep, Join(parts[1..], [sep]));
      assert [parts[0]] + parts[1..] == parts;
    }
  }

  function DigitChar(d: nat): char
    requires d < 10
  {
    "0123456789"[d]
  }

  /** Template rendering `${n}` of a non-negative integer. */
  function NatToString(n: nat): (r: string)
    ensures |r| >= 1
    ensures forall i :: 0 <= i < |r| ==> '0' <= r[i] <= '9'
  {
    if n < 10 then [DigitChar(n)] else NatToString(n / 10) + [DigitChar(n % 10)]
  }

  /** The number a string of decimal digits denotes. */
  function DecimalValue(s: string): nat
    requires forall i :: 0 <= i < |s| ==> '0' <= s[i] <= '9'
  {
    if s == [] then 0 else 10 * DecimalValue(s[..|s| - 1]) + (s[|s| - 1] as int - '0' as int)
  }

  lemma DigitValue(d: nat)
    requires d < 10
    ensures DigitChar(d) as int - '0' as int == d
  {
  }

  lemma {:induction false} DecimalOfNat(n: nat)
    ensures DecimalValue(NatToString(n)) == n
  {
    var r := NatToString(n);
    if n < 10 {
      DigitValue(n);
      assert r[..0] == [];
    } else {
      var q, d := n / 10, n % 10;
      DecimalOfNat(q);
      DigitValue(d);
      assert r == NatToString(q) + [DigitChar(d)];
      assert r[..|r| - 1] == NatToString(q);
      assert DecimalValue(r) == 10 * q + d;
    }
  }
}
