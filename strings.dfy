/**
 * The string primitives the views rely on: `toLowerCase`, `includes`,
 * `trim` and `charCodeAt(0)`. Strings are sequences of Unicode scalar values.
 */
module Strings {

  /** `toLowerCase`, restricted to ASCII letters. */
  function LowerChar(c: char): (r: char)
    ensures 'A' <= c <= 'Z' ==> r as int == c as int + 32
    ensures !('A' <= c <= 'Z') ==> r == c
  {
    if 'A' <= c <= 'Z' then (c as int + 32) as char else c
  }

  function Lower(s: string): (r: string)
    ensures |r| == |s|
    ensures forall i :: 0 <= i < |s| ==> r[i] == LowerChar(s[i])
  {
    if s == [] then [] else [LowerChar(s[0])] + Lower(s[1..])
  }

  /** Lowering twice is lowering once. */
  lemma LowerIdempotent(s: string)
    ensures Lower(Lower(s)) == Lower(s)
  {
    assert forall i :: 0 <= i < |s| ==> LowerChar(LowerChar(s[i])) == LowerChar(s[i]);
  }

  predicate IsPrefix(p: string, s: string)
  {
    |p| <= |s| && s[..|p|] == p
  }

  /** `hay.includes(needle)`. */
  predicate Includes(hay: string, needle: string)
    decreases |hay|
  {
    IsPrefix(needle, hay) || (hay != [] && Includes(hay[1..], needle))
  }

  /** `needle` occurs in `hay` starting at offset `i`. */
  predicate OccursAt(hay: string, needle: string, i: int)
  {
    0 <= i <= |hay| - |needle| && hay[i..i + |needle|] == needle
  }

  /** `includes` holds exactly when `needle` occurs at some offset of `hay`. */
  lemma {:induction false} IncludesIffOccurs(hay: string, needle: string)
    ensures Includes(hay, needle) <==> exists i :: OccursAt(hay, needle, i)
    decreases |hay|
  {
    if IsPrefix(needle, hay) {
      assert OccursAt(hay, needle, 0);
    } else if hay != [] {
      IncludesIffOccurs(hay[1..], needle);
      if Includes(hay[1..], needle) {
        var i :| OccursAt(hay[1..], needle, i);
        assert hay[1..][i..i + |needle|] == hay[i + 1..i + 1 + |needle|];
        assert OccursAt(hay, needle, i + 1);
      }
      if exists i :: OccursAt(hay, needle, i) {
        var i :| OccursAt(hay, needle, i);
        assert i != 0;
        assert hay[1..][i - 1..i - 1 + |needle|] == hay[i..i + |needle|];
        assert OccursAt(hay[1..], needle, i - 1);
      }
    }
  }

  /** The empty string is part of every string, so an empty search term matches everything. */
  lemma IncludesEmpty(hay: string)
    ensures Includes(hay, "")
  {
    assert hay[..0] == "";
  }

  /** The characters `String.prototype.trim` removes: WhiteSpace and LineTerminator of ECMA-262. */
  predicate IsJsSpace(c: char)
  {
    || c == '\t' || c == '\n' || c == '\U{000B}' || c == '\U{000C}' || c == '\r' || c == ' '
    || c == '\U{00A0}' || c == '\U{1680}' || ('\U{2000}' <= c <= '\U{200A}')
    || c == '\U{2028}' || c == '\U{2029}' || c == '\U{202F}' || c == '\U{205F}'
    || c == '\U{3000}' || c == '\U{FEFF}'
  }

  function TrimStart(s: string): (r: string)
    ensures |r| <= |s| && r == s[|s| - |r|..]
    ensures forall k :: 0 <= k < |s| - |r| ==> IsJsSpace(s[k])
    ensures r == [] || !IsJsSpace(r[0])
  {
    if s != [] && IsJsSpace(s[0]) then TrimStart(s[1..]) else s
  }

  function TrimEnd(s: string): (r: string)
    ensures |r| <= |s| && r == s[..|r|]
    ensures forall k :: |r| <= k < |s| ==> IsJsSpace(s[k])
    ensures r == [] || !IsJsSpace(r[|r| - 1])
  {
    if s != [] && IsJsSpace(s[|s| - 1]) then TrimEnd(s[..|s| - 1]) else s
  }

  lemma {:induction false} TrimStartAppend(s: string, e: string)
    requires e != [] && !IsJsSpace(e[0])
    ensures TrimStart(s + e) == TrimStart(s) + e
  {
    if s != [] {
      assert (s + e)[0] == s[0] && (s + e)[1..] == s[1..] + e;
      if IsJsSpace(s[0]) {
        TrimStartAppend(s[1..], e);
      }
    } else {
      assert s + e == e;
    }
  }

  /** A string that ends in a non-blank character has nothing to trim at its end. */
  lemma TrimEndKeeps(s: string)
    requires s != [] && !IsJsSpace(s[|s| - 1])
    ensures TrimEnd(s) == s
  {
  }

  /** Appending a string that begins and ends in non-blank characters: trimming removes only the leading blanks. */
  lemma TrimAppendNonBlank(s: string, e: string)
    requires e != [] && !IsJsSpace(e[0]) && !IsJsSpace(e[|e| - 1])
    ensures Trim(s + e) == TrimStart(s) + e
  {
    TrimStartAppend(s, e);
    var t := TrimStart(s) + e;
    assert t[|t| - 1] == e[|e| - 1];
    TrimEndKeeps(t);
  }

  /** `s.trim()`. */
  function Trim(s: string): string
  {
    TrimEnd(TrimStart(s))
  }

  /** A string trims to nothing exactly when every character of it is white space. */
  lemma TrimEmptyIffBlank(s: string)
    ensures Trim(s) == "" <==> forall k :: 0 <= k < |s| ==> IsJsSpace(s[k])
  {
  }

  /** `s.charCodeAt(0)` for a non-empty `s`: the first UTF-16 code unit, a high surrogate for astral characters. */
  function FirstCodeUnit(s: string): (r: nat)
    requires s != []
    ensures r < 0x1_0000
    ensures s[0] as int < 0x1_0000 ==> r == s[0] as int
    ensures s[0] as int >= 0x1_0000 ==> 0xD800 <= r < 0xDC00
    ensures s[0] as int >= 0x1_0000 ==>
              0x1_0000 + (r - 0xD800) * 0x400 <= s[0] as int < 0x1_0000 + (r - 0xD800 + 1) * 0x400
  {
    var c := s[0] as int;
    if c < 0x1_0000 then c else 0xD800 + (c - 0x1_0000) / 0x400
  }
}
