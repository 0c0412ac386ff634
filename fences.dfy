/** Turning the classifier's raw reply into the text handed to the JSON
    decoder: `rawText.replace(/```json/g, "").replace(/```/g, "").trim()`. */
module Fences {
  import opened Strings

  const Fence: string := "```"
  const JsonFence: string := "```json"

  /** `s.replace(/p/g, "")` for a pattern without regular-expression
      operators: occurrences are matched left to right and never overlap. */
  function RemoveAll(s: string, p: string): (r: string)
    requires p != []
    ensures |r| <= |s|
    decreases |s|
  {
    if |s| < |p| then s
    else if s[..|p|] == p then RemoveAll(s[|p|..], p)
    else [s[0]] + RemoveAll(s[1..], p)
  }

  /** The JSON candidate extracted from the classifier's raw text. */
  function StripFences(raw: string): (r: string)
    ensures Free(r, Fence) && Free(r, JsonFence)
    ensures NoEdgeSpace(r)
  {
    var t := RemoveAll(RemoveAll(raw, JsonFence), Fence);
    FenceRemovalLeavesNoFence(RemoveAll(raw, JsonFence));
    TrimKeepsFree(t, Fence);
    FreeOfExtension(Trim(t), Fence, JsonFence);
    Trim(t)
  }

  /** Removal changes nothing in a text where the pattern does not occur. */
  lemma {:induction false} RemoveAllOfFree(s: string, p: string)
    requires p != [] && Free(s, p)
    ensures RemoveAll(s, p) == s
    decreases |s|
  {
    if |s| >= |p| {
      assert !OccursAt(s, p, 0);
      assert s[..|p|] == s[0..0 + |p|];
      FreeSlice(s, s[1..], p, 1);
      RemoveAllOfFree(s[1..], p);
      assert [s[0]] + s[1..] == s;
    }
  }

  /** Removal works from the left: the text before the first occurrence is
      kept, that occurrence is dropped, and removal goes on after it. With
      `RemoveAllOfFree` this fixes the result on every text. */
  lemma {:induction false} RemoveAllTakesLeftmost(w: string, p: string, x: string)
    requires p != []
    requires forall i :: 0 <= i < |w| ==> !OccursAt(w + p + x, p, i)
    ensures RemoveAll(w + p + x, p) == w + RemoveAll(x, p)
    decreases |w|
  {
    var s := w + p + x;
    if w == [] {
      assert s[..|p|] == p && s[|p|..] == x;
    } else {
      var t := w[1..] + p + x;
      assert s[1..] == t;
      forall i | 0 <= i < |w[1..]| ensures !OccursAt(t, p, i) {
        assert !OccursAt(s, p, i + 1);
        if i + |p| <= |t| {
          assert t[i..i + |p|] == s[i + 1..i + 1 + |p|];
        }
      }
      RemoveAllTakesLeftmost(w[1..], p, x);
      assert !OccursAt(s, p, 0);
      assert s[..|p|] == s[0..0 + |p|];
      assert RemoveAll(s, p) == [s[0]] + RemoveAll(t, p);
      assert [w[0]] + w[1..] == w;
    }
  }

  /** A character that is not a backtick is kept in front. */
  lemma KeepsHead(t: string)
    requires t != [] && t[0] != '`'
    ensures RemoveAll(t, Fence) != [] && RemoveAll(t, Fence)[0] == t[0]
  {
  }

  /** Removing every triple backtick cannot join backticks into a new one. */
  lemma {:induction false} FenceRemovalLeavesNoFence(s: string)
    ensures Free(RemoveAll(s, Fence), Fence)
    decreases |s|
  {
    var u := RemoveAll(s, Fence);
    if |s| < 3 {
      forall i | 0 <= i ensures !OccursAt(u, Fence, i) {
        assert u == s;
      }
    } else if s[..3] == Fence {
      FenceRemovalLeavesNoFence(s[3..]);
    } else {
      var t := s[1..];
      var v := RemoveAll(t, Fence);
      FenceRemovalLeavesNoFence(t);
      assert u == [s[0]] + v;
      forall i | 0 <= i && i + 3 <= |u| ensures !OccursAt(u, Fence, i) {
        if i == 0 {
          if s[0] == '`' {
            if t[0] != '`' {
              KeepsHead(t);
              assert u[1] != '`';
            } else {
              assert t[1] != '`' by { assert s[..3] == [s[0], t[0], t[1]]; }
              if |t| < 3 {
                assert u[2] == t[1];
              } else {
                assert t[..3] != Fence;
                assert v == [t[0]] + RemoveAll(t[1..], Fence);
                KeepsHead(t[1..]);
                assert u[2] == t[1];
              }
            }
          }
          assert u[0..3] != Fence;
        } else {
          assert !OccursAt(v, Fence, i - 1);
          assert u[i..i + 3] == v[i - 1..i + 2];
        }
      }
    }
  }

  /** A backtick-free head passes through a removal whose pattern starts
      with a backtick. */
  lemma {:induction false} RemoveAllSkipsPlain(w: string, x: string, p: string)
    requires p != [] && p[0] == '`'
    requires '`' !in w
    ensures RemoveAll(w + x, p) == w + RemoveAll(x, p)
    decreases |w|
  {
    if w == [] {
      assert w + x == x;
    } else {
      var s := w + x;
      assert w[0] in w;
      assert s[1..] == w[1..] + x;
      RemoveAllSkipsPlain(w[1..], x, p);
      if |s| >= |p| {
        assert s[..|p|][0] == w[0] != p[0];
      }
      assert RemoveAll(s, p) == [w[0]] + RemoveAll(w[1..] + x, p);
      assert [w[0]] + w[1..] == w;
    }
  }

  /** Stripping is idempotent: a stripped text is a fixed point. */
  lemma StripIsIdempotent(raw: string)
    ensures StripFences(StripFences(raw)) == StripFences(raw)
  {
    var t := StripFences(raw);
    RemoveAllOfFree(t, JsonFence);
    RemoveAllOfFree(t, Fence);
  }

  /** On text without fences stripping is only `trim`. */
  lemma StripOfUnfenced(s: string)
    requires Free(s, Fence)
    ensures StripFences(s) == Trim(s)
  {
    FreeOfExtension(s, Fence, JsonFence);
    RemoveAllOfFree(s, JsonFence);
    RemoveAllOfFree(s, Fence);
  }

  /** A reply wrapped as a ```json block gives back its trimmed body. */
  lemma StripRecoversFencedBody(body: string)
    requires '`' !in body
    ensures StripFences(JsonFence + body + Fence) == Trim(body)
  {
    var s := JsonFence + body + Fence;
    assert s[..|JsonFence|] == JsonFence;
    assert s[|JsonFence|..] == body + Fence;
    RemoveAllSkipsPlain(body, Fence, JsonFence);
    assert RemoveAll(Fence, JsonFence) == Fence;
    RemoveAllSkipsPlain(body, Fence, Fence);
    assert RemoveAll(Fence, Fence) == RemoveAll([], Fence) == [];
    assert body + [] == body;
  }
}
