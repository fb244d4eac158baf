/**
 * helpers.h and helpers.c: the comparison and printer macros, the
 * state-class predicates, unsigned_subtract, copy_string, is_hex_color and
 * the escaping tokenizer.
 *
 * A C string is modelled as the sequence of its characters; where the
 * source looks for the terminating NUL inside a longer buffer, `CStr`
 * gives the part before it.
 */
module Helpers {
  import opened Types
  import opened Wrappers
  import Numeric

  /** MAX(A, B): the larger argument, B when they are equal. */
  function Max(a: int, b: int): (r: int)
    ensures r >= a && r >= b && (r == a || r == b)
  {
    if a > b then a else b
  }

  /** MIN(A, B): the smaller argument, B when they are equal. */
  function Min(a: int, b: int): (r: int)
    ensures r <= a && r <= b && (r == a || r == b)
  {
    if a < b then a else b
  }

  /** IS_TILED: tiled or pseudo-tiled. */
  predicate IsTiled(s: ClientState) { s == Tiled || s == PseudoTiled }

  /** IS_FLOATING */
  predicate IsFloating(s: ClientState) { s == Floating }

  /** IS_FULLSCREEN */
  predicate IsFullscreen(s: ClientState) { s == Fullscreen }

  /** Every state satisfies exactly one of the three state-class macros. */
  lemma StateClassesPartition(s: ClientState)
    ensures IsTiled(s) || IsFloating(s) || IsFullscreen(s)
    ensures !(IsTiled(s) && IsFloating(s))
    ensures !(IsTiled(s) && IsFullscreen(s))
    ensures !(IsFloating(s) && IsFullscreen(s))
    ensures IsTiled(s) <==> s in {Tiled, PseudoTiled}
  {
  }

  /** unsigned_subtract(a, b): the new value of `a`, never below zero. */
  function UnsignedSubtract(a: nat, b: nat): (r: nat)
    ensures r <= a
    ensures b <= a ==> r + b == a
    ensures b > a ==> r == 0
  {
    if b > a then 0 else a - b
  }

  // The printer macros of helpers.h. Each is a chain of comparisons whose
  // last arm is the "otherwise" case.

  function BoolStr(b: bool): string { if b then "true" else "false" }

  function OnOffStr(b: bool): string { if b then "on" else "off" }

  function LayoutStr(l: Layout): string { if l == LayoutTiled then "tiled" else "monocle" }

  function LayoutChr(l: Layout): char { if l == LayoutTiled then 'T' else 'M' }

  function ChildPolStr(p: ChildPolarity): string
  {
    if p == FirstChild then "first_child" else "second_child"
  }

  function AutoSchemeStr(a: AutoScheme): string
  {
    if a == LongestSide then "longest_side" else if a == Alternate then "alternate" else "spiral"
  }

  function TightnessStr(t: Tightness): string { if t == High then "high" else "low" }

  function SplitTypeStr(t: SplitType): string
  {
    if t == Horizontal then "horizontal" else "vertical"
  }

  function SplitModeStr(m: SplitMode): string
  {
    if m == Automatic then "automatic" else "manual"
  }

  function SplitDirStr(d: Direction): string
  {
    if d == North then "north" else if d == West then "west" else if d == South then "south" else "east"
  }

  function StateStr(s: ClientState): string
  {
    if s == Tiled then "tiled"
    else if s == Floating then "floating"
    else if s == Fullscreen then "fullscreen"
    else "pseudo_tiled"
  }

  function StateChr(s: ClientState): char
  {
    if s == Tiled then 'T' else if s == Floating then 'F' else if s == Fullscreen then '=' else 'P'
  }

  function LayerStr(l: StackLayer): string
  {
    if l == Below then "below" else if l == Normal then "normal" else "above"
  }

  /** The printers never map two values to the same text. */
  lemma PrintersInjective()
    ensures forall a: ClientState, b: ClientState :: StateStr(a) == StateStr(b) ==> a == b
    ensures forall a: ClientState, b: ClientState :: StateChr(a) == StateChr(b) ==> a == b
    ensures forall a: StackLayer, b: StackLayer :: LayerStr(a) == LayerStr(b) ==> a == b
    ensures forall a: Direction, b: Direction :: SplitDirStr(a) == SplitDirStr(b) ==> a == b
    ensures forall a: AutoScheme, b: AutoScheme :: AutoSchemeStr(a) == AutoSchemeStr(b) ==> a == b
    ensures forall a: Layout, b: Layout :: LayoutStr(a) == LayoutStr(b) ==> a == b
    ensures forall a: Layout, b: Layout :: LayoutChr(a) == LayoutChr(b) ==> a == b
  {
  }

  /** The characters of a buffer before its first NUL (what strlen measures). */
  function CStr(s: string): (r: string)
    ensures |r| <= |s| && r == s[..|r|]
    ensures '\0' !in r
    ensures |r| == |s| || s[|r|] == '\0'
  {
    if |s| == 0 || s[0] == '\0' then []
    else
      var t := CStr(s[1..]);
      assert [s[0]] + t == s[..1 + |t|];
      [s[0]] + t
  }

  /** snprintf(buf, size, "%s", s): at most size - 1 characters of `s`. */
  function Truncated(s: string, size: nat): (r: string)
    requires size > 0
    ensures |r| < size && |r| <= |s| && r == s[..|r|]
    ensures |s| < size <==> r == s
  {
    if |s| < size then s else s[..size - 1]
  }

  /**
   * copy_string(str, len): a calloc'd buffer of len + 1 characters holding
   * what strncpy copies (the first `len` characters of `str`, or fewer when a
   * NUL comes first), then NUL characters up to and including the last slot.
   */
  method CopyString(str: string, len: nat) returns (cpy: array<char>)
    ensures cpy.Length == len + 1
    ensures var k := Min(len, |CStr(str)|);
      && cpy[..k] == str[..k]
      && forall i | k <= i < cpy.Length :: cpy[i] == '\0'
  {
    cpy := new char[len + 1](_ => '\0');
    var k := 0;
    while k < len && k < |str| && str[k] != '\0'
      invariant k <= len && k <= |str|
      invariant k <= |CStr(str)|
      invariant cpy[..k] == str[..k]
      invariant forall i | k <= i < cpy.Length :: cpy[i] == '\0'
    {
      cpy[k] := str[k];
      k := k + 1;
    }
    assert k == Min(len, |CStr(str)|);
    cpy[len] := '\0';
  }

  /** The colour syntax is_hex_color accepts: '#' and six hexadecimal digits. */
  predicate HexColorSyntax(color: string)
  {
    |color| == 7 && color[0] == '#' && forall i | 1 <= i < 7 :: Numeric.IsHexDigit(color[i])
  }

  /** is_hex_color(color) */
  method IsHexColor(color: string) returns (r: bool)
    ensures r <==> HexColorSyntax(color)
  {
    if |color| == 0 || color[0] != '#' || |color| != 7 {
      return false;
    }
    for i := 1 to 7
      invariant forall j | 1 <= j < i :: Numeric.IsHexDigit(color[j])
    {
      if !Numeric.IsHexDigit(color[i]) {
        return false;
      }
    }
    return true;
  }

  /** Where one call of tokenize_with_escape stops: the token it returns, the
      offset just past what it consumed, and the escape flag it leaves. */
  datatype ScanResult = ScanResult(token: string, pos: nat, inEscape: bool)

  /**
   * The token that starts at `pos` of `src`: every character up to the next
   * separator that is not escaped, with each escaping backslash dropped and
   * the character after it copied as it is.
   */
  function Scan(src: string, pos: nat, inEscape: bool, sep: char): (r: ScanResult)
    requires pos <= |src|
    ensures pos <= r.pos <= |src|
    ensures |r.token| <= r.pos - pos
    ensures r.pos < |src| ==> pos < r.pos && src[r.pos - 1] == sep && !r.inEscape
    decreases |src| - pos
  {
    if pos == |src| then ScanResult([], pos, inEscape)
    else
      var c := src[pos];
      if inEscape then
        var r := Scan(src, pos + 1, false, sep);
        ScanResult([c] + r.token, r.pos, r.inEscape)
      else if c == '\\' then Scan(src, pos + 1, true, sep)
      else if c == sep then ScanResult([], pos + 1, false)
      else
        var r := Scan(src, pos + 1, false, sep);
        ScanResult([c] + r.token, r.pos, r.inEscape)
  }

  /** The escaping that the tokenizer undoes: a backslash before every
      separator and every backslash. */
  function Escape(t: string, sep: char): (e: string)
    ensures |e| >= |t|
  {
    if t == [] then []
    else (if t[0] == sep || t[0] == '\\' then ['\\', t[0]] else [t[0]]) + Escape(t[1..], sep)
  }

  /** Tokenizing an escaped token followed by a separator (or by the end of
      the string) gives the token back and stops just past the separator. */
  lemma {:induction false} ScanEscaped(pre: string, t: string, sep: char, tail: string)
    requires sep != '\\'
    requires tail == [] || tail[0] == sep
    ensures var src := pre + Escape(t, sep) + tail;
      Scan(src, |pre|, false, sep)
        == ScanResult(t, |pre| + |Escape(t, sep)| + (if tail == [] then 0 else 1), false)
    decreases |t|
  {
    var src := pre + Escape(t, sep) + tail;
    var end := |pre| + |Escape(t, sep)|;
    assert src[|pre|..end] == Escape(t, sep);
    if tail != [] {
      assert src[end] == tail[0];
    }
    ScanFrom(src, |pre|, t, sep);
  }

  /** ScanEscaped inside one fixed string: the escaped text of `t` sits at `p`. */
  lemma {:induction false} ScanFrom(src: string, p: nat, t: string, sep: char)
    requires sep != '\\'
    requires p + |Escape(t, sep)| <= |src| && src[p..p + |Escape(t, sep)|] == Escape(t, sep)
    requires var end := p + |Escape(t, sep)|; end == |src| || src[end] == sep
    ensures var end := p + |Escape(t, sep)|;
      Scan(src, p, false, sep) == ScanResult(t, if end == |src| then end else end + 1, false)
    decreases |t|
  {
    if t != [] {
      var c := t[0];
      var head := if c == sep || c == '\\' then ['\\', c] else [c];
      var rest := Escape(t[1..], sep);
      var n := |Escape(t, sep)|;
      assert Escape(t, sep) == head + rest;
      var q := p + |head|;
      assert src[q..q + |rest|] == rest by {
        assert src[q..q + |rest|] == src[p..p + n][|head|..];
      }
      ScanFrom(src, q, t[1..], sep);
      assert src[p] == head[0] && (|head| == 2 ==> src[p + 1] == head[1]) by {
        assert src[p] == src[p..p + n][0];
        if |head| == 2 {
          assert src[p + 1] == src[p..p + n][1];
        }
      }
      var end := p + n;
      ScanStep(src, p, c, head, sep, t[1..], if end == |src| then end else end + 1);
      ConsTail(t);
    }
  }

  lemma HeadAt<T>(a: seq<T>, b: seq<T>, c: seq<T>, i: nat)
    requires i < |b|
    ensures (a + b + c)[|a| + i] == b[i]
  {
  }

  lemma Regroup<T>(a: seq<T>, b: seq<T>, c: seq<T>, d: seq<T>)
    ensures a + (b + c) + d == (a + b) + c + d == a + b + (c + d)
  {
  }

  lemma ConsTail<T>(t: seq<T>)
    requires |t| > 0
    ensures [t[0]] + t[1..] == t
  {
  }

  /** One escaped character of a token: a plain character is copied; an
      escaped pair drops the backslash and copies the next character. */
  lemma ScanStep(src: string, p: nat, c: char, head: string, sep: char, tok: string, pos: nat)
    requires sep != '\\'
    requires head == if c == sep || c == '\\' then ['\\', c] else [c]
    requires p + |head| <= |src| && src[p] == head[0] && (|head| == 2 ==> src[p + 1] == head[1])
    requires Scan(src, p + |head|, false, sep) == ScanResult(tok, pos, false)
    ensures Scan(src, p, false, sep) == ScanResult([c] + tok, pos, false)
  {
    if |head| == 2 {
      assert Scan(src, p + 1, true, sep) == ScanResult([c] + tok, pos, false);
    }
  }

  /** A backslash at the very end is dropped and leaves the escape flag set. */
  lemma TrailingBackslash(t: string, sep: char)
    requires sep != '\\'
    ensures var src := Escape(t, sep) + ['\\'];
      Scan(src, 0, false, sep) == ScanResult(t, |src|, true)
  {
    ScanEscapedThenBackslash([], t, sep);
    assert [] + Escape(t, sep) + ['\\'] == Escape(t, sep) + ['\\'];
  }

  lemma {:induction false} ScanEscapedThenBackslash(pre: string, t: string, sep: char)
    requires sep != '\\'
    ensures var src := pre + Escape(t, sep) + ['\\'];
      Scan(src, |pre|, false, sep) == ScanResult(t, |src|, true)
    decreases |t|
  {
    var src := pre + Escape(t, sep) + ['\\'];
    if t == [] {
      assert src == pre + ['\\'];
      assert Scan(src, |pre| + 1, true, sep) == ScanResult([], |src|, true);
    } else {
      var c := t[0];
      var head := if c == sep || c == '\\' then ['\\', c] else [c];
      assert Escape(t, sep) == head + Escape(t[1..], sep);
      assert src == (pre + head) + Escape(t[1..], sep) + ['\\'];
      ScanEscapedThenBackslash(pre + head, t[1..], sep);
      if c == sep || c == '\\' {
        assert src[|pre|] == '\\' && src[|pre| + 1] == c;
      } else {
        assert src[|pre|] == c;
      }
      assert [c] + t[1..] == t;
    }
  }

  /** The copying loop of tokenize_with_escape: fills a NUL-initialised
      buffer of the remaining length with the token that starts at `start`. */
  method ScanInto(text: string, start: nat, esc0: bool, sep: char)
      returns (out: array<char>, pos: nat, inEscape: bool)
    requires start <= |text|
    ensures var r := Scan(text, start, esc0, sep);
      && pos == r.pos && inEscape == r.inEscape
      && out.Length == |text| - start + 1
      && out[..|r.token|] == r.token
      && forall i | |r.token| <= i < out.Length :: out[i] == '\0'
  {
    ghost var whole := Scan(text, start, esc0, sep);
    out := new char[|text| - start + 1](_ => '\0');
    pos, inEscape := start, esc0;
    var k := 0;
    ghost var acc: string := [];
    while pos < |text|
      invariant start <= pos <= |text|
      invariant k == |acc| <= pos - start
      invariant out[..k] == acc
      invariant forall i | k <= i < out.Length :: out[i] == '\0'
      invariant var r := Scan(text, pos, inEscape, sep);
        whole == ScanResult(acc + r.token, r.pos, r.inEscape)
      decreases |text| - pos
    {
      var cur := text[pos];
      ghost var next := Scan(text, pos + 1, false, sep);
      pos := pos + 1;
      if inEscape {
        Append(out, k, cur, acc, next.token);
        acc, k := acc + [cur], k + 1;
        inEscape := false;
      } else if cur == '\\' {
        inEscape := true;
      } else if cur == sep {
        assert acc + [] == acc;
        return;
      } else {
        Append(out, k, cur, acc, next.token);
        acc, k := acc + [cur], k + 1;
      }
    }
    assert acc + [] == acc;
  }

  /** One copied character: out[k] := c after the token so far. */
  method Append(out: array<char>, k: nat, c: char, ghost acc: string, ghost tok: string)
    requires k < out.Length && out[..k] == acc
    modifies out
    ensures out[..k + 1] == acc + [c] && acc + ([c] + tok) == (acc + [c]) + tok
    ensures forall i | 0 <= i < out.Length && i != k :: out[i] == old(out[i])
  {
    out[k] := c;
    assert out[..k + 1] == acc + [c];
  }

  /** struct tokenize_state: the string being tokenized, how far into it
      `pos` points, the remaining length counted with the terminator, and
      whether the next character is escaped. */
  class TokenizeState {
    var inEscape: bool
    var src: string
    var pos: nat
    var len: nat

    ghost predicate Valid()
      reads this
    {
      pos <= |src| && len == |src| - pos + 1 && '\0' !in src
    }

    /** A state that has not been given a string yet behaves as an exhausted one. */
    constructor ()
      ensures Valid() && src == [] && pos == 0 && !inEscape
    {
      inEscape, src, pos, len := false, [], 0, 1;
    }

    /**
     * tokenize_with_escape(state, s, sep). With `s` present the state is
     * reset to the start of `s`; the returned buffer has `len` bytes, holds
     * the next token and is NUL-filled after it. Once the string is
     * exhausted the token is empty (the buffer is "", not NULL).
     */
    method Next(s: Option<string>, sep: char) returns (out: array<char>)
      requires s.Some? || Valid()
      modifies this
      ensures Valid()
      ensures s.Some? ==> src == CStr(s.value)
      ensures s.None? ==> src == old(src)
      ensures var p0 := if s.Some? then 0 else old(pos);
        var e0 := if s.Some? then false else old(inEscape);
        var r := Scan(src, p0, e0, sep);
        && pos == r.pos && inEscape == r.inEscape
        && len + (pos - p0) == |src| - p0 + 1
        && out.Length == |src| - p0 + 1
        && out[..|r.token|] == r.token
        && forall i | |r.token| <= i < out.Length :: out[i] == '\0'
    {
      if s.Some? {
        inEscape := false;
        src := CStr(s.value);
        pos := 0;
        len := |src| + 1;
      }
      var p0 := pos;
      var p, esc;
      out, p, esc := ScanInto(src, pos, inEscape, sep);
      pos, inEscape, len := p, esc, len - (p - p0);
    }
  }
}
