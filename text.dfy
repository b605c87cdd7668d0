/**
 * Character and string operations shared by the front end (JavaScript) and
 * the back end (Java), restricted to ASCII.
 */
module Text {

  /** Whitespace as JavaScript's `String.prototype.trim` and the regex class `\s` see it (ASCII part). */
  predicate IsJsSpace(c: char) {
    c == ' ' || 9 <= c as int <= 13
  }

  /** A character Java's `String.trim` strips: every code point up to and including U+0020. */
  predicate IsJavaTrimmable(c: char) {
    c as int <= 32
  }

  /** Every character of `s` is one that `strip` removes. */
  predicate IsBlank(s: string, strip: char -> bool) {
    forall k :: 0 <= k < |s| ==> strip(s[k])
  }

  /** `s` without its leading run of stripped characters. */
  function TrimStart(s: string, strip: char -> bool): string {
    if s != [] && strip(s[0]) then TrimStart(s[1..], strip) else s
  }

  /** `s` without its trailing run of stripped characters. */
  function TrimEnd(s: string, strip: char -> bool): string {
    if s != [] && strip(s[|s| - 1]) then TrimEnd(s[..|s| - 1], strip) else s
  }

  /** TrimStart removes a blank prefix and stops at the first kept character. */
  lemma {:induction false} TrimStartSpec(s: string, strip: char -> bool)
    ensures |TrimStart(s, strip)| <= |s| && TrimStart(s, strip) == s[|s| - |TrimStart(s, strip)|..]
    ensures TrimStart(s, strip) != [] ==> !strip(TrimStart(s, strip)[0])
    ensures IsBlank(s[..|s| - |TrimStart(s, strip)|], strip)
  {
    if s != [] && strip(s[0]) {
      TrimStartSpec(s[1..], strip);
      var r := TrimStart(s[1..], strip);
      assert s[1..][|s| - 1 - |r|..] == s[|s| - |r|..];
      var pre := s[..|s| - |r|];
      forall k | 0 <= k < |pre| ensures strip(pre[k]) {
        if k > 0 {
          assert pre[k] == s[1..][..|s| - 1 - |r|][k - 1];
        }
      }
    }
  }

  /** TrimEnd removes a blank suffix and stops at the last kept character. */
  lemma {:induction false} TrimEndSpec(s: string, strip: char -> bool)
    ensures |TrimEnd(s, strip)| <= |s| && TrimEnd(s, strip) == s[..|TrimEnd(s, strip)|]
    ensures TrimEnd(s, strip) != [] ==> !strip(TrimEnd(s, strip)[|TrimEnd(s, strip)| - 1])
    ensures IsBlank(s[|TrimEnd(s, strip)|..], strip)
  {
    if s != [] && strip(s[|s| - 1]) {
      var p := s[..|s| - 1];
      TrimEndSpec(p, strip);
      var r := TrimEnd(p, strip);
      assert p[..|r|] == s[..|r|];
      forall k | 0 <= k < |s| - |r| ensures strip(s[|r|..][k]) {
        if k < |s| - 1 - |r| {
          assert s[|r|..][k] == p[|r|..][k];
        }
      }
    }
  }

  /** Both ends of `s` stripped, as `trim()` does in both languages. */
  function Trim(s: string, strip: char -> bool): string {
    TrimEnd(TrimStart(s, strip), strip)
  }

  /** JavaScript `s.trim()`. */
  function JsTrim(s: string): string {
    Trim(s, IsJsSpace)
  }

  /** Java `s.trim()`. */
  function JavaTrim(s: string): string {
    Trim(s, IsJavaTrimmable)
  }

  /** Trimming leaves nothing exactly when the string is made only of stripped characters. */
  lemma TrimEmptyIffBlank(s: string, strip: char -> bool)
    ensures Trim(s, strip) == [] <==> IsBlank(s, strip)
  {
    var t := TrimStart(s, strip);
    TrimStartSpec(s, strip);
    TrimEndSpec(t, strip);
    if Trim(s, strip) == [] {
      assert IsBlank(t, strip) by { assert t[0..] == t; }
      assert t == [];
      assert s[..|s|] == s;
    } else {
      assert t != [] && t[0] == s[|s| - |t|];
      assert !strip(s[|s| - |t|]);
    }
  }

  /** Trimming keeps a contiguous piece of the input: the part after the leading whitespace. */
  lemma TrimIsInfix(s: string, strip: char -> bool)
    ensures OccursAt(s, Trim(s, strip), |s| - |TrimStart(s, strip)|)
  {
    var t := TrimStart(s, strip);
    var r := TrimEnd(t, strip);
    TrimStartSpec(s, strip);
    TrimEndSpec(t, strip);
    var i := |s| - |t|;
    assert r == t[..|r|] && t == s[i..];
    assert r == s[i..i + |r|];
  }

  /** Trimming a trimmed string changes nothing. */
  lemma TrimIdempotent(s: string, strip: char -> bool)
    ensures Trim(Trim(s, strip), strip) == Trim(s, strip)
  {
    var t := TrimStart(s, strip);
    var r := TrimEnd(t, strip);
    TrimStartSpec(s, strip);
    TrimEndSpec(t, strip);
    if r != [] {
      assert r[0] == t[0];
      assert TrimStart(r, strip) == r;
    }
  }

  function LowerChar(c: char): char {
    if 'A' <= c <= 'Z' then (c as int + 32) as char else c
  }

  function UpperChar(c: char): char {
    if 'a' <= c <= 'z' then (c as int - 32) as char else c
  }

  /** `toLowerCase` / SQL `LOWER` on the ASCII letters. */
  function ToLower(s: string): (r: string)
    ensures |r| == |s| && forall k :: 0 <= k < |s| ==> r[k] == LowerChar(s[k])
  {
    seq(|s|, k requires 0 <= k < |s| => LowerChar(s[k]))
  }

  /** Java `toUpperCase` on the ASCII letters. */
  function ToUpper(s: string): (r: string)
    ensures |r| == |s| && forall k :: 0 <= k < |s| ==> r[k] == UpperChar(s[k])
  {
    seq(|s|, k requires 0 <= k < |s| => UpperChar(s[k]))
  }

  /** `needle` occurs in `hay` starting at position `i`. */
  ghost predicate OccursAt(hay: string, needle: string, i: int) {
    0 <= i && i + |needle| <= |hay| && hay[i..i + |needle|] == needle
  }

  /** Substring search, as SQL `hay LIKE CONCAT('%', needle, '%')` with no wildcard in `needle`. */
  function Contains(hay: string, needle: string): bool
    decreases |hay|
  {
    if |needle| > |hay| then false
    else if hay[..|needle|] == needle then true
    else Contains(hay[1..], needle)
  }

  lemma {:induction false} ContainsIff(hay: string, needle: string)
    ensures Contains(hay, needle) <==> exists i :: OccursAt(hay, needle, i)
    decreases |hay|
  {
    if |needle| > |hay| {
    } else if hay[..|needle|] == needle {
      assert hay[0..0 + |needle|] == hay[..|needle|];
      assert OccursAt(hay, needle, 0);
    } else {
      ContainsIff(hay[1..], needle);
      if exists i :: OccursAt(hay, needle, i) {
        var i :| OccursAt(hay, needle, i);
        assert i != 0 by { assert hay[0..0 + |needle|] == hay[..|needle|]; }
        assert hay[1..][i - 1..i - 1 + |needle|] == hay[i..i + |needle|];
        assert OccursAt(hay[1..], needle, i - 1);
      }
      if exists j :: OccursAt(hay[1..], needle, j) {
        var j :| OccursAt(hay[1..], needle, j);
        assert hay[1..][j..j + |needle|] == hay[j + 1..j + 1 + |needle|];
        assert OccursAt(hay, needle, j + 1);
      }
    }
  }

  /** The empty string occurs in every string. */
  lemma ContainsEmpty(hay: string)
    ensures Contains(hay, "")
  {
    assert hay[..0] == "";
  }
}
