/** The string operations the bot applies to file names and SVG text:
    `str.lower`, `str.strip`, the `in` substring test, `str.endswith` and
    `str.replace('.svg', '.tgs')`. */
module Text {

  /** Python's `str.lower()` restricted to the ASCII letters. The only
      comparisons the bot makes after lowering are against "<svg" and ".svg",
      and no character other than 'S', 'V' and 'G' lowers to one of their letters. */
  function LowerChar(c: char): char {
    if 'A' <= c <= 'Z' then (c as int + 32) as char else c
  }

  function Lower(s: string): (r: string)
    ensures |r| == |s|
    ensures forall i :: 0 <= i < |s| ==> r[i] == LowerChar(s[i])
  {
    if s == [] then [] else [LowerChar(s[0])] + Lower(s[1..])
  }

  /** The characters `str.strip()` removes: Python's Unicode white space. */
  predicate IsSpace(c: char) {
    c == ' ' || '\t' <= c <= '\r' || '\U{1c}' <= c <= '\U{1f}' || c == '\U{85}'
    || c == '\U{a0}' || c == '\U{1680}' || '\U{2000}' <= c <= '\U{200a}'
    || c == '\U{2028}' || c == '\U{2029}' || c == '\U{202f}' || c == '\U{205f}' || c == '\U{3000}'
  }

  /** Index of the first character `str.strip()` keeps. */
  function StripStart(s: string): (k: nat)
    ensures k <= |s|
    ensures forall j :: 0 <= j < k ==> IsSpace(s[j])
    ensures k < |s| ==> !IsSpace(s[k])
  {
    if s == [] || !IsSpace(s[0]) then 0
    else
      var k := StripStart(s[1..]);
      assert forall j :: 1 <= j < k + 1 ==> s[j] == s[1..][j - 1];
      k + 1
  }

  /** One past the index of the last character `str.strip()` keeps. */
  function StripEnd(s: string): (k: nat)
    ensures k <= |s|
    ensures forall j :: k <= j < |s| ==> IsSpace(s[j])
    ensures 0 < k ==> !IsSpace(s[k - 1])
  {
    if s == [] || !IsSpace(s[|s| - 1]) then |s|
    else
      var prefix := s[..|s| - 1];
      var k := StripEnd(prefix);
      assert forall j :: k <= j < |s| - 1 ==> s[j] == prefix[j];
      k
  }

  /** `str.strip()`: drops leading and trailing white space. */
  function Strip(s: string): (r: string)
    ensures |r| <= |s|
    ensures r == [] || (!IsSpace(r[0]) && !IsSpace(r[|r| - 1]))
  {
    var a := StripStart(s);
    var b := StripEnd(s);
    if a < b then s[a..b] else []
  }

  /** `p` occurs in `s` starting at index `i`. */
  predicate OccursAt(s: string, p: string, i: int) {
    0 <= i && i + |p| <= |s| && s[i..i + |p|] == p
  }

  /** `p in s`: `p` occurs as a contiguous piece of `s`. */
  predicate Contains(s: string, p: string) {
    exists i | 0 <= i <= |s| - |p| :: OccursAt(s, p, i)
  }

  /** `s.endswith(p)`. */
  predicate EndsWith(s: string, p: string) {
    |p| <= |s| && s[|s| - |p|..] == p
  }

  /** Stripping white space cannot create or destroy an occurrence of a
      pattern that begins and ends with a visible character: that is why the
      validator's `.strip()` does not change its verdict. */
  lemma {:induction false} StripKeepsOccurrences(s: string, p: string)
    requires |p| > 0 && !IsSpace(p[0]) && !IsSpace(p[|p| - 1])
    ensures Contains(Strip(s), p) <==> Contains(s, p)
  {
    var a := StripStart(s);
    var b := StripEnd(s);
    var t := Strip(s);
    if Contains(t, p) {
      var i :| 0 <= i <= |t| - |p| && OccursAt(t, p, i);
      assert a < b && t == s[a..b];
      SliceOfSlice(s, a, b, i, i + |p|);
      assert OccursAt(s, p, a + i);
    }
    if Contains(s, p) {
      var i :| 0 <= i <= |s| - |p| && OccursAt(s, p, i);
      assert s[i] == s[i..i + |p|][0] == p[0];
      assert s[i + |p| - 1] == s[i..i + |p|][|p| - 1] == p[|p| - 1];
      assert a <= i && i + |p| <= b;
      assert t == s[a..b];
      SliceOfSlice(s, a, b, i - a, i - a + |p|);
      assert OccursAt(t, p, i - a);
    }
  }

  lemma SliceOfSlice(s: string, a: nat, b: nat, i: nat, j: nat)
    requires a <= b <= |s| && i <= j <= b - a
    ensures s[a..b][i..j] == s[a + i..a + j]
  {
    var u := s[a..b][i..j];
    var v := s[a + i..a + j];
    assert |u| == |v|;
    forall k | 0 <= k < |u| ensures u[k] == v[k] {
      assert u[k] == s[a..b][i + k] == s[a + i + k];
    }
  }

  /** `s.replace(".svg", ".tgs")`: every non-overlapping occurrence of
      ".svg", scanning from the left, becomes ".tgs". Case is not folded. */
  function ReplaceSvg(s: string): (r: string)
    ensures |r| == |s|
  {
    if |s| < 4 then s
    else if s[..4] == ".svg" then ".tgs" + ReplaceSvg(s[4..])
    else [s[0]] + ReplaceSvg(s[1..])
  }

  /** A name that does not contain ".svg" (with exactly that case) is sent
      back unchanged. */
  lemma {:induction false} ReplaceSvgWithoutMatch(s: string)
    requires !Contains(s, ".svg")
    ensures ReplaceSvg(s) == s
  {
    if |s| >= 4 {
      assert s[..4] != ".svg" by { assert !OccursAt(s, ".svg", 0); }
      assert !Contains(s[1..], ".svg") by {
        if Contains(s[1..], ".svg") {
          var i :| 0 <= i <= |s[1..]| - 4 && OccursAt(s[1..], ".svg", i);
          assert s[i + 1..i + 1 + 4] == s[1..][i..i + 4];
          assert OccursAt(s, ".svg", i + 1);
        }
      }
      ReplaceSvgWithoutMatch(s[1..]);
    }
  }

  /** A name ending in ".svg" comes back ending in ".tgs": ".svg" cannot
      overlap itself, so the left-to-right scan always reaches the final one. */
  lemma {:induction false} ReplaceSvgExtension(s: string)
    requires EndsWith(s, ".svg")
    ensures EndsWith(ReplaceSvg(s), ".tgs")
  {
    var n := |s|;
    assert s[n - 4] == s[n - 4..][0] == '.';
    if n == 4 {
      assert s[..4] == s;
    } else if s[..4] == ".svg" {
      if n < 8 {
        // the final ".svg" would begin on the 's', 'v' or 'g' of the first one
        assert false;
      }
      var t := s[4..];
      assert t[|t| - 4..] == s[n - 4..];
      ReplaceSvgExtension(t);
      assert ReplaceSvg(s)[n - 4..] == ReplaceSvg(t)[|t| - 4..];
    } else {
      var t := s[1..];
      assert t[|t| - 4..] == s[n - 4..];
      ReplaceSvgExtension(t);
      assert ReplaceSvg(s)[n - 4..] == ReplaceSvg(t)[|t| - 4..];
    }
  }
}
