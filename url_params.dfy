/**
 * The browser's `URLSearchParams` as the search path uses it: an ordered
 * list of name/value pairs, its query-string serialisation and its parser,
 * following the application/x-www-form-urlencoded format of section 5 of
 * the WHATWG URL Standard for ASCII text.
 */
module UrlParams {
  import opened Wrappers

  type Pair = (string, string)

  /** Characters the form-urlencoded serialiser writes unchanged. */
  predicate IsUnreserved(c: char) {
    ('a' <= c <= 'z') || ('A' <= c <= 'Z') || ('0' <= c <= '9') || c == '*' || c == '-' || c == '.' || c == '_'
  }

  function HexDigit(n: nat): (c: char)
    requires n < 16
  {
    if n < 10 then ('0' as int + n) as char else ('A' as int + n - 10) as char
  }

  /** The value of a hexadecimal digit of either case. */
  function HexValue(c: char): (r: Option<nat>)
    ensures r.Some? ==> r.value < 16
  {
    if '0' <= c <= '9' then Some(c as int - '0' as int)
    else if 'A' <= c <= 'F' then Some(c as int - 'A' as int + 10)
    else if 'a' <= c <= 'f' then Some(c as int - 'a' as int + 10)
    else None
  }

  lemma HexRoundTrip(n: nat)
    requires n < 16
    ensures HexValue(HexDigit(n)) == Some(n)
  {
  }

  /**
   * One character serialised: unreserved characters as they are, a space as
   * `+`, any other ASCII character as `%` and two upper-case hex digits.
   * Characters beyond ASCII are kept as they are (see README).
   */
  function EncodeChar(c: char): string {
    if IsUnreserved(c) then [c]
    else if c == ' ' then "+"
    else if c as int < 128 then ['%', HexDigit(c as int / 16), HexDigit(c as int % 16)]
    else [c]
  }

  function Encode(s: string): string {
    if s == [] then [] else EncodeChar(s[0]) + Encode(s[1..])
  }

  /** `+` read as a space, `%` with two hex digits read as that code, anything else as it is. */
  function Decode(s: string): string {
    if s == [] then []
    else if s[0] == '+' then [' '] + Decode(s[1..])
    else if s[0] == '%' && |s| >= 3 && HexValue(s[1]).Some? && HexValue(s[2]).Some? then
      [(HexValue(s[1]).value * 16 + HexValue(s[2]).value) as char] + Decode(s[3..])
    else [s[0]] + Decode(s[1..])
  }

  lemma DecodeEncodeChar(c: char, rest: string)
    ensures Decode(EncodeChar(c) + rest) == [c] + Decode(rest)
  {
    var e := EncodeChar(c) + rest;
    if !IsUnreserved(c) && c != ' ' && c as int < 128 {
      HexRoundTrip(c as int / 16);
      HexRoundTrip(c as int % 16);
      assert e[3..] == rest;
    } else {
      assert e[1..] == rest;
    }
  }

  /** Decoding undoes encoding for every string. */
  lemma {:induction false} DecodeEncode(s: string)
    ensures Decode(Encode(s)) == s
  {
    if s != [] {
      DecodeEncodeChar(s[0], Encode(s[1..]));
      DecodeEncode(s[1..]);
    }
  }

  /** An encoded string holds no `&` and no `=`, so it cannot break a pair or the pair list. */
  lemma {:induction false} EncodeHasNoDelimiters(s: string)
    ensures '&' !in Encode(s) && '=' !in Encode(s)
  {
    if s != [] {
      EncodeHasNoDelimiters(s[1..]);
      assert Encode(s) == EncodeChar(s[0]) + Encode(s[1..]);
    }
  }

  /** Parts joined with `sep` between consecutive ones. */
  function Join(parts: seq<string>, sep: char): string {
    if |parts| == 0 then []
    else if |parts| == 1 then parts[0]
    else parts[0] + [sep] + Join(parts[1..], sep)
  }

  /** The pieces of `s` between occurrences of `sep` (one piece when there is none). */
  function SplitOn(s: string, sep: char): (parts: seq<string>)
    ensures |parts| >= 1
  {
    if s == [] then [[]]
    else if s[0] == sep then [[]] + SplitOn(s[1..], sep)
    else
      var rest := SplitOn(s[1..], sep);
      [[s[0]] + rest[0]] + rest[1..]
  }

  lemma {:induction false} SplitNoSep(p: string, sep: char)
    requires sep !in p
    ensures SplitOn(p, sep) == [p]
  {
    if p != [] {
      SplitNoSep(p[1..], sep);
      assert [p[0]] + p[1..] == p;
    }
  }

  lemma {:induction false} SplitAfterPiece(p: string, sep: char, rest: string)
    requires sep !in p
    ensures SplitOn(p + [sep] + rest, sep) == [p] + SplitOn(rest, sep)
  {
    var s := p + [sep] + rest;
    if p == [] {
      assert s[1..] == rest;
    } else {
      assert s[1..] == p[1..] + [sep] + rest;
      SplitAfterPiece(p[1..], sep, rest);
      assert [p[0]] + p[1..] == p;
    }
  }

  /** Splitting a join of separator-free parts gives the parts back. */
  lemma {:induction false} SplitJoin(parts: seq<string>, sep: char)
    requires |parts| >= 1
    requires forall k :: 0 <= k < |parts| ==> sep !in parts[k]
    ensures SplitOn(Join(parts, sep), sep) == parts
  {
    if |parts| == 1 {
      SplitNoSep(parts[0], sep);
    } else {
      SplitJoin(parts[1..], sep);
      SplitAfterPiece(parts[0], sep, Join(parts[1..], sep));
    }
  }

  /** The index of the first `c` in `s`, if any. */
  function IndexOf(s: string, c: char): (r: Option<nat>)
    ensures r.Some? ==> r.value < |s| && s[r.value] == c && c !in s[..r.value]
    ensures r.None? <==> c !in s
  {
    if s == [] then None
    else if s[0] == c then Some(0)
    else
      var r := IndexOf(s[1..], c);
      if r.Some? then
        assert s[..r.value + 1] == [s[0]] + s[1..][..r.value];
        Some(r.value + 1)
      else None
  }

  function EncodePair(p: Pair): string {
    Encode(p.0) + "=" + Encode(p.1)
  }

  /** The query string: each pair as `name=value`, pairs joined by `&`. */
  function Serialize(params: seq<Pair>): string {
    Join(seq(|params|, k requires 0 <= k < |params| => EncodePair(params[k])), '&')
  }

  /** One non-empty piece: name up to the first `=`, value after it (empty when there is no `=`). */
  function ParsePair(piece: string): Pair {
    match IndexOf(piece, '=')
    case Some(i) => (Decode(piece[..i]), Decode(piece[i + 1..]))
    case None => (Decode(piece), "")
  }

  /** The pairs of the non-empty pieces, in order. */
  function ParsePieces(pieces: seq<string>): seq<Pair> {
    if pieces == [] then []
    else if pieces[0] == [] then ParsePieces(pieces[1..])
    else [ParsePair(pieces[0])] + ParsePieces(pieces[1..])
  }

  /** `new URLSearchParams(search)`: a leading `?` is dropped, then the pieces between `&` are parsed. */
  function Parse(search: string): seq<Pair> {
    var q := if search != [] && search[0] == '?' then search[1..] else search;
    ParsePieces(SplitOn(q, '&'))
  }

  /** `k` is the position of the first pair named `name`. */
  predicate FirstWith(params: seq<Pair>, name: string, k: int) {
    0 <= k < |params| && params[k].0 == name && forall j :: 0 <= j < k ==> params[j].0 != name
  }

  /** `params.get(name)`: the value of the first pair with that name, or null. */
  function Get(params: seq<Pair>, name: string): (r: Option<string>)
    ensures r.None? <==> forall k :: 0 <= k < |params| ==> params[k].0 != name
    ensures r.Some? ==> exists k :: 0 <= k < |params| && params[k] == (name, r.value)
    ensures forall k :: FirstWith(params, name, k) ==> r == Some(params[k].1)
  {
    if params == [] then None
    else if params[0].0 == name then Some(params[0].1)
    else
      var r := Get(params[1..], name);
      assert forall k :: 1 <= k < |params| ==> params[k] == params[1..][k - 1];
      assert forall k :: FirstWith(params, name, k) ==> FirstWith(params[1..], name, k - 1);
      r
  }

  lemma ParsePairOfEncoded(p: Pair)
    ensures ParsePair(EncodePair(p)) == p
  {
    var e := EncodePair(p);
    EncodeHasNoDelimiters(p.0);
    var n := |Encode(p.0)|;
    assert e[..n] == Encode(p.0);
    assert e[n] == '=';
    assert '=' !in e[..n];
    assert IndexOf(e, '=') == Some(n);
    assert e[n + 1..] == Encode(p.1);
    DecodeEncode(p.0);
    DecodeEncode(p.1);
  }

  lemma {:induction false} ParsePiecesOfEncoded(params: seq<Pair>)
    ensures ParsePieces(seq(|params|, k requires 0 <= k < |params| => EncodePair(params[k]))) == params
  {
    var pieces := seq(|params|, k requires 0 <= k < |params| => EncodePair(params[k]));
    if params != [] {
      assert pieces[0] != [];
      assert pieces[1..] == seq(|params[1..]|, k requires 0 <= k < |params[1..]| => EncodePair(params[1..][k]));
      ParsePairOfEncoded(params[0]);
      ParsePiecesOfEncoded(params[1..]);
    }
  }

  /** Parsing a serialised list, with or without its `?`, gives the list back. */
  lemma ParseSerialize(params: seq<Pair>)
    ensures Parse("?" + Serialize(params)) == params
    ensures Parse(Serialize(params)) == params
  {
    var pieces := seq(|params|, k requires 0 <= k < |params| => EncodePair(params[k]));
    assert ("?" + Serialize(params))[1..] == Serialize(params);
    ParsePiecesOfEncoded(params);
    if params == [] {
      assert Serialize(params) == [];
      assert SplitOn([], '&') == [[]];
      assert ParsePieces([[]]) == [];
    } else {
      forall k | 0 <= k < |pieces|
        ensures '&' !in pieces[k]
      {
        EncodeHasNoDelimiters(params[k].0);
        EncodeHasNoDelimiters(params[k].1);
      }
      SplitJoin(pieces, '&');
      if Serialize(params) != [] && Serialize(params)[0] == '?' {
        EncodeHasNoDelimiters(params[0].0);
        var n := |Encode(params[0].0)|;
        assert pieces[0][n] == '=';
        assert n > 0 ==> Serialize(params)[0] == Encode(params[0].0)[0];
        EncodeStartsWithoutQuestionMark(params[0].0);
      }
    }
  }

  /** `?` is never written as itself, so a serialised list never starts with one. */
  lemma EncodeStartsWithoutQuestionMark(s: string)
    ensures Encode(s) != [] ==> Encode(s)[0] != '?'
  {
  }

  /**
   * The mutable `URLSearchParams` object: pairs in insertion order, added
   * with `append`, written out by `toString`.
   */
  class SearchParams {
    var entries: seq<Pair>

    constructor ()
      ensures entries == []
    {
      entries := [];
    }

    /** `append(name, value)`: a new pair after the existing ones, even for a repeated name. */
    method Append(name: string, value: string)
      modifies this
      ensures entries == old(entries) + [(name, value)]
    {
      entries := entries + [(name, value)];
    }

    function ToString(): string
      reads this
    {
      Serialize(entries)
    }
  }
}
