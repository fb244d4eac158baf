/**
 * jsmn.c and jsmn.h: the JSON tokenizer, in its default build (neither
 * JSMN_STRICT nor JSMN_PARENT_LINKS defined).
 *
 * The parser is a class with the three fields of jsmn_parser; the token
 * pool is an array of `Token`s that the methods fill in place, and a pool
 * the caller did not provide (tokens == NULL) is a null array. The JSON
 * text is a string together with the length the caller passes; a NUL
 * character before that length ends the text as it does in C. The
 * positions are unbounded naturals, so the unsigned wrap-around of `pos`
 * is not modelled (it cannot occur: every decrement follows an increment).
 */
module Jsmn {
  import opened Wrappers

  /** jsmntype_t */
  datatype TokenType = Undefined | Object | Array | String | Primitive

  /** The numeric values of jsmntype_t. */
  function TypeCode(t: TokenType): (n: int)
    ensures 0 <= n <= 4
  {
    match t
    case Undefined => 0
    case Object => 1
    case Array => 2
    case String => 3
    case Primitive => 4
  }

  /** The inverse of TypeCode. */
  function TypeOfCode(n: int): (t: Option<TokenType>)
    ensures t.Some? <==> 0 <= n <= 4
    ensures t.Some? ==> TypeCode(t.value) == n
  {
    if n == 0 then Some(Undefined)
    else if n == 1 then Some(Object)
    else if n == 2 then Some(Array)
    else if n == 3 then Some(String)
    else if n == 4 then Some(Primitive)
    else None
  }

  /** The five types have five codes. */
  lemma TypeCodesRead(t: TokenType)
    ensures TypeOfCode(TypeCode(t)) == Some(t)
  {
  }

  /** enum jsmnerr: three distinct negative results. */
  const ErrorNoMem: int := -1
  const ErrorInval: int := -2
  const ErrorPart: int := -3

  /** jsmntok_t without the parent link. */
  datatype Token = Token(kind: TokenType, start: int, end: int, size: int)

  // ---------------------------------------------------------------------
  // Characters

  /** The characters that end a primitive (':' too, outside strict mode). */
  predicate IsDelimiter(c: char)
  {
    c == ':' || c == '\t' || c == '\r' || c == '\n' || c == ' ' || c == ',' || c == ']' || c == '}'
  }

  /** The characters a primitive may hold. */
  predicate Printable(c: char)
  {
    32 <= c as int < 127
  }

  predicate IsHex(c: char)
  {
    '0' <= c <= '9' || 'A' <= c <= 'F' || 'a' <= c <= 'f'
  }

  /** Position i holds a character of the text: before len and not the terminating NUL. */
  predicate InData(js: string, len: nat, i: nat)
    requires len <= |js|
  {
    i < len && js[i] != '\0'
  }

  // ---------------------------------------------------------------------
  // What a primitive and a string cover

  /** Where the scan of a primitive that starts at i stops. */
  function PrimitiveEnd(js: string, len: nat, i: nat): (j: nat)
    requires len <= |js|
    ensures i <= j && (j == i || j <= len)
    ensures !InData(js, len, j) || IsDelimiter(js[j]) || !Printable(js[j])
    ensures forall k | i <= k < j :: InData(js, len, k) && !IsDelimiter(js[k]) && Printable(js[k])
    decreases len - i
  {
    if !InData(js, len, i) || IsDelimiter(js[i]) || !Printable(js[i]) then i
    else PrimitiveEnd(js, len, i + 1)
  }

  /** The outcome of scanning a string's body. */
  datatype StringScan = Closed(quote: nat) | Invalid | Partial

  /** The end of the up to 4 hex digits of a \u escape, k of them already read; None on a non-hex digit. */
  function HexEnd(js: string, len: nat, j: nat, k: nat): (r: Option<nat>)
    requires len <= |js| && k <= 4
    ensures r.Some? ==> j <= r.value && (r.value == j || r.value <= len)
    decreases 4 - k
  {
    if k == 4 || !InData(js, len, j) then Some(j)
    else if !IsHex(js[j]) then None
    else HexEnd(js, len, j + 1, k + 1)
  }

  /** A character allowed after a backslash, other than 'u'. */
  predicate IsEscape(c: char)
  {
    c == '"' || c == '/' || c == '\\' || c == 'b' || c == 'f' || c == 'r' || c == 'n' || c == 't'
  }

  /**
   * The scan of a string's body from position i: the first unescaped quote
   * closes it, a bad escape or a non-hex digit in \u makes it invalid, and
   * running out of text leaves it partial. A backslash that is the last
   * character before len is an ordinary character.
   */
  function ScanString(js: string, len: nat, i: nat): (r: StringScan)
    requires len <= |js|
    ensures r.Closed? ==> i <= r.quote < len && js[r.quote] == '"'
    decreases len - i
  {
    if !InData(js, len, i) then Partial
    else if js[i] == '"' then Closed(i)
    else if js[i] == '\\' && i + 1 < len then
      if IsEscape(js[i + 1]) then ScanString(js, len, i + 2)
      else if js[i + 1] == 'u' then
        match HexEnd(js, len, i + 2, 0)
        case None => Invalid
        case Some(j) => ScanString(js, len, j)
      else Invalid
    else ScanString(js, len, i + 1)
  }

  /** One step of HexEnd. */
  lemma HexStep(js: string, len: nat, j: nat, k: nat)
    requires len <= |js| && k <= 4
    ensures k == 4 || !InData(js, len, j) ==> HexEnd(js, len, j, k) == Some(j)
    ensures k < 4 && InData(js, len, j) && !IsHex(js[j]) ==> HexEnd(js, len, j, k) == None
    ensures k < 4 && InData(js, len, j) && IsHex(js[j]) ==> HexEnd(js, len, j, k) == HexEnd(js, len, j + 1, k + 1)
  {
  }

  /** ScanString past an ordinary character. */
  lemma ScanPlain(js: string, len: nat, i: nat)
    requires len <= |js| && InData(js, len, i) && js[i] != '"' && !(js[i] == '\\' && i + 1 < len)
    ensures ScanString(js, len, i) == ScanString(js, len, i + 1)
  {
  }

  /** ScanString past a backslash escape of one character. */
  lemma ScanEscape(js: string, len: nat, i: nat)
    requires len <= |js| && InData(js, len, i) && js[i] == '\\' && i + 1 < len && IsEscape(js[i + 1])
    ensures ScanString(js, len, i) == ScanString(js, len, i + 2)
  {
  }

  /** ScanString past a \u escape, or at its bad digit. */
  lemma ScanUnicode(js: string, len: nat, i: nat)
    requires len <= |js| && InData(js, len, i) && js[i] == '\\' && i + 1 < len && js[i + 1] == 'u'
    ensures HexEnd(js, len, i + 2, 0).None? ==> ScanString(js, len, i) == Invalid
    ensures HexEnd(js, len, i + 2, 0).Some? ==> ScanString(js, len, i) == ScanString(js, len, HexEnd(js, len, i + 2, 0).value)
  {
  }

  /** ScanString at a bad escape. */
  lemma ScanBadEscape(js: string, len: nat, i: nat)
    requires len <= |js| && InData(js, len, i) && js[i] == '\\' && i + 1 < len
    requires !IsEscape(js[i + 1]) && js[i + 1] != 'u'
    ensures ScanString(js, len, i) == Invalid
  {
  }

  // ---------------------------------------------------------------------
  // Tokens

  /** A container whose closing bracket has not been seen yet. */
  predicate IsOpen(t: Token)
  {
    t.start != -1 && t.end == -1
  }

  predicate IsContainer(t: Token)
  {
    t.kind == Object || t.kind == Array
  }

  /** The last open token among the first n, or -1. */
  function LastOpen(s: seq<Token>, n: nat): (k: int)
    requires n <= |s|
    ensures -1 <= k < n
    ensures k >= 0 ==> IsOpen(s[k])
    ensures forall i | k < i < n :: !IsOpen(s[i])
  {
    if n == 0 then -1 else if IsOpen(s[n - 1]) then n - 1 else LastOpen(s, n - 1)
  }

  /** The last open object or array among the first n, or -1. */
  function LastOpenContainer(s: seq<Token>, n: nat): (k: int)
    requires n <= |s|
    ensures -1 <= k < n
    ensures k >= 0 ==> IsOpen(s[k]) && IsContainer(s[k])
    ensures forall i | k < i < n :: !(IsOpen(s[i]) && IsContainer(s[i]))
  {
    if n == 0 then -1
    else if IsOpen(s[n - 1]) && IsContainer(s[n - 1]) then n - 1
    else LastOpenContainer(s, n - 1)
  }

  /**
   * The text a token covers: a string lies between two quotes, a primitive
   * is a run of printable non-delimiters followed by a delimiter or the end,
   * and a container starts at its opening bracket and, once closed, ends
   * one past the matching closing bracket.
   */
  predicate Extent(js: string, len: nat, t: Token)
    requires len <= |js|
  {
    match t.kind
    case String => 1 <= t.start <= t.end < len && js[t.start - 1] == '"' && js[t.end] == '"'
    case Primitive =>
      0 <= t.start < t.end <= len
      && (forall k | t.start <= k < t.end :: Printable(js[k]) && !IsDelimiter(js[k]))
      && (t.end == len || js[t.end] == '\0' || IsDelimiter(js[t.end]))
    case Object => 0 <= t.start < len && js[t.start] == '{' && (t.end == -1 || (1 <= t.end <= len && js[t.end - 1] == '}'))
    case Array => 0 <= t.start < len && js[t.start] == '[' && (t.end == -1 || (1 <= t.end <= len && js[t.end - 1] == ']'))
    case Undefined => false
  }

  /** Every one of the first n tokens covers its text. */
  predicate Extents(js: string, len: nat, s: seq<Token>, n: nat)
    requires len <= |js| && n <= |s|
  {
    forall i {:trigger Extent(js, len, s[i])} | 0 <= i < n :: Extent(js, len, s[i])
  }

  /** A primitive that parsed covers its text. */
  lemma PrimitiveExtent(js: string, len: nat, p: nat)
    requires len <= |js| && InData(js, len, p) && !IsDelimiter(js[p])
    requires var j := PrimitiveEnd(js, len, p); !(InData(js, len, j) && !IsDelimiter(js[j]))
    ensures p < PrimitiveEnd(js, len, p) && Extent(js, len, Token(Primitive, p, PrimitiveEnd(js, len, p), 0))
  {
  }

  /** A string that closed covers its text. */
  lemma StringExtent(js: string, len: nat, p: nat)
    requires len <= |js| && p < len && js[p] == '"' && ScanString(js, len, p + 1).Closed?
    ensures Extent(js, len, Token(String, p + 1, ScanString(js, len, p + 1).quote, 0))
  {
  }

  /** The pool after token k (none when k is -1) gains one child. */
  function Bump(s: seq<Token>, k: int): (s': seq<Token>)
    requires -1 <= k < |s|
    ensures |s'| == |s|
  {
    if k == -1 then s else s[k := s[k].(size := s[k].size + 1)]
  }

  /** Counting a child keeps every extent. */
  lemma ExtentsBump(js: string, len: nat, s: seq<Token>, n: nat, k: int)
    requires len <= |js| && n <= |s| && -1 <= k < |s| && Extents(js, len, s, n)
    ensures Extents(js, len, Bump(s, k), n)
  {
    var s' := Bump(s, k);
    forall i | 0 <= i < n
      ensures Extent(js, len, s'[i])
    {
      assert Extent(js, len, s[i]);
      assert s'[i].kind == s[i].kind && s'[i].start == s[i].start && s'[i].end == s[i].end;
    }
  }

  /** A token that keeps the type and start it had, and stays closed where it was closed. */
  predicate Kept(t: Token, t0: Token)
  {
    t.kind == t0.kind && t.start == t0.start && (t0.end != -1 ==> t.end == t0.end)
  }

  /**
   * What jsmn_parse keeps of a pool between rounds: the super token is -1 or
   * an allocated token, every allocated token covers its text, the tokens
   * allocated before the call (n0 of them, first s0) are kept, and the pool
   * past toknext is as it was.
   */
  predicate PoolOk(js: string, len: nat, s: seq<Token>, numTokens: nat, toksuper: int, toknext: nat,
                   s0: seq<Token>, n0: nat)
    requires len <= |js|
  {
    numTokens <= |s| == |s0| && -1 <= toksuper < toknext <= numTokens && n0 <= toknext
    && Extents(js, len, s, toknext)
    && (forall i | 0 <= i < n0 :: Kept(s[i], s0[i]))
    && (forall i | toknext <= i < |s| :: s[i] == s0[i])
  }

  /** A value counted as a child of the super token keeps the pool. */
  lemma PoolBump(js: string, len: nat, s: seq<Token>, numTokens: nat, toksuper: int, toknext: nat,
                 s0: seq<Token>, n0: nat)
    requires len <= |js| && PoolOk(js, len, s, numTokens, toksuper, toknext, s0, n0)
    ensures PoolOk(js, len, Bump(s, toksuper), numTokens, toksuper, toknext, s0, n0)
  {
    ExtentsBump(js, len, s, toknext, toksuper);
  }

  /** A new token that covers its text keeps the pool. */
  lemma PoolAdd(js: string, len: nat, s: seq<Token>, numTokens: nat, toksuper: int, toknext: nat,
                s0: seq<Token>, n0: nat, t: Token, toksuper': int)
    requires len <= |js| && PoolOk(js, len, s, numTokens, toksuper, toknext, s0, n0)
    requires toknext < numTokens && Extent(js, len, t) && -1 <= toksuper' <= toknext
    ensures PoolOk(js, len, s[toknext := t], numTokens, toksuper', toknext + 1, s0, n0)
  {
  }

  /** Another super token among the allocated ones keeps the pool. */
  lemma PoolSuper(js: string, len: nat, s: seq<Token>, numTokens: nat, toksuper: int, toknext: nat,
                  s0: seq<Token>, n0: nat, toksuper': int)
    requires len <= |js| && PoolOk(js, len, s, numTokens, toksuper, toknext, s0, n0)
    requires -1 <= toksuper' < toknext
    ensures PoolOk(js, len, s, numTokens, toksuper', toknext, s0, n0)
  {
  }

  /** Closing an open container at a matching bracket keeps the pool. */
  lemma PoolClose(js: string, len: nat, s: seq<Token>, numTokens: nat, toksuper: int, toknext: nat,
                  s0: seq<Token>, n0: nat, k: nat, p: nat, toksuper': int)
    requires len <= |js| && PoolOk(js, len, s, numTokens, toksuper, toknext, s0, n0)
    requires k < toknext && IsOpen(s[k]) && IsContainer(s[k]) && p < len && js[p] == CloseChar(s[k].kind)
    requires -1 <= toksuper' < toknext
    ensures PoolOk(js, len, s[k := s[k].(end := p + 1)], numTokens, toksuper', toknext, s0, n0)
  {
    var s' := s[k := s[k].(end := p + 1)];
    assert Extent(js, len, s[k]);
    assert Extent(js, len, s'[k]);
    assert Extents(js, len, s', toknext) by {
      forall i | 0 <= i < toknext
        ensures Extent(js, len, s'[i])
      {
        if i != k {
          assert Extent(js, len, s[i]);
          assert s'[i] == s[i];
        }
      }
    }
  }

  // ---------------------------------------------------------------------
  // What jsmn_parse counts

  /** Where the next round of jsmn_parse's loop starts, and how many values a round counted. */
  datatype Advance = Advance(next: nat, values: nat)

  /**
   * What one round of jsmn_parse's loop does at a character p of the text,
   * leaving the pool aside: an opening bracket is one value; closing
   * brackets, white space, colons and commas are stepped over; a string is
   * one value and the next round starts after its closing quote; a
   * primitive is one value and the next round starts at its delimiter.
   * None when the string or the primitive is malformed.
   */
  function RoundOf(js: string, len: nat, p: nat): (r: Option<Advance>)
    requires len <= |js| && InData(js, len, p)
    ensures r.Some? ==> p < r.value.next <= len && r.value.values <= 1
  {
    var c := js[p];
    if c == '{' || c == '[' then Some(Advance(p + 1, 1))
    else if c == '}' || c == ']' || c == '\t' || c == '\r' || c == '\n' || c == ' ' || c == ':' || c == ',' then
      Some(Advance(p + 1, 0))
    else if c == '"' then
      match ScanString(js, len, p + 1)
      case Closed(q) => Some(Advance(q + 1, 1))
      case _ => None
    else
      var j := PrimitiveEnd(js, len, p);
      if InData(js, len, j) && !IsDelimiter(js[j]) then None
      else Some(Advance(j, 1))
  }

  /**
   * The number of values (objects, arrays, strings and primitives) that
   * jsmn_parse's loop meets from position p to the end of the text, or
   * None when a string or a primitive in it is malformed. Every value
   * takes at least one character.
   */
  function ValueCount(js: string, len: nat, p: nat): (r: Option<nat>)
    requires len <= |js|
    ensures r.Some? && r.value > 0 ==> p + r.value <= len
    decreases len - p
  {
    if !InData(js, len, p) then Some(0)
    else
      match RoundOf(js, len, p)
      case None => None
      case Some(a) => Plus(ValueCount(js, len, a.next), a.values)
  }

  /** The count from a character of the text is what its round counts plus the count from where the next round starts. */
  lemma ValueCountRound(js: string, len: nat, p: nat)
    requires len <= |js| && InData(js, len, p)
    ensures RoundOf(js, len, p).None? ==> ValueCount(js, len, p).None?
    ensures RoundOf(js, len, p).Some? ==>
      ValueCount(js, len, p) == Plus(ValueCount(js, len, RoundOf(js, len, p).value.next), RoundOf(js, len, p).value.values)
  {
  }

  /** A count, k more. */
  function Plus(o: Option<nat>, k: nat): (r: Option<nat>)
    ensures r.Some? <==> o.Some?
    ensures r.Some? ==> r.value == o.value + k
  {
    if o.None? then None else Some(o.value + k)
  }

  /**
   * The values the rounds from p count until a round starts at q, or None
   * when no round starts at q.
   */
  ghost function Between(js: string, len: nat, p: nat, q: nat): Option<nat>
    requires len <= |js|
    decreases if p <= q then q - p else 0
  {
    if p == q then Some(0)
    else if p > q || !InData(js, len, p) then None
    else
      match RoundOf(js, len, p)
      case None => None
      case Some(a) => if a.next > q then None else Plus(Between(js, len, a.next, q), a.values)
  }

  /** One more round, at p, extends the rounds from p0 to where it ends. */
  lemma {:induction false} BetweenStep(js: string, len: nat, p0: nat, p: nat, n: nat, a: Advance)
    requires len <= |js| && p0 <= p && Between(js, len, p0, p) == Some(n)
    requires InData(js, len, p) && RoundOf(js, len, p) == Some(a)
    ensures Between(js, len, p0, a.next) == Some(n + a.values)
    decreases p - p0
  {
    if p0 != p {
      var b := RoundOf(js, len, p0).value;
      BetweenStep(js, len, b.next, p, n - b.values, a);
    }
  }

  /** The count from p0 is what the rounds count up to p plus the count from p. */
  lemma {:induction false} BetweenCount(js: string, len: nat, p0: nat, p: nat, n: nat)
    requires len <= |js| && Between(js, len, p0, p) == Some(n)
    ensures ValueCount(js, len, p0) == Plus(ValueCount(js, len, p), n)
    decreases if p0 <= p then p - p0 else 0
  {
    if p0 != p {
      var b := RoundOf(js, len, p0).value;
      BetweenCount(js, len, b.next, p, n - b.values);
      PlusPlus(ValueCount(js, len, p), n - b.values, b.values);
    }
  }

  /** A round that fails at p leaves no count from p0. */
  lemma CountFails(js: string, len: nat, p0: nat, p: nat, seen: nat)
    requires len <= |js| && InData(js, len, p) && RoundOf(js, len, p).None?
    requires ValueCount(js, len, p0) == Plus(ValueCount(js, len, p), seen)
    ensures ValueCount(js, len, p0).None?
  {
    ValueCountRound(js, len, p);
  }

  /** Counting a and then b more is counting a + b more. */
  lemma PlusPlus(o: Option<nat>, a: nat, b: nat)
    ensures Plus(Plus(o, a), b) == Plus(o, a + b)
  {
  }

  /** An object holding one key with a primitive value is three values. */
  lemma ValueCountExample(js: string)
    requires ExampleText(js)
    ensures ValueCount(js, 7, 0) == Some(3)
  {
    assert PrimitiveEnd(js, 7, 5) == 6 by {
      assert PrimitiveEnd(js, 7, 6) == 6;
    }
    assert ValueCount(js, 7, 6) == Some(0) by {
      assert ValueCount(js, 7, 7) == Some(0);
    }
    assert ValueCount(js, 7, 5) == Some(1);
    assert ScanString(js, 7, 2) == Closed(3) by {
      assert ScanString(js, 7, 3) == Closed(3);
    }
    assert ValueCount(js, 7, 4) == Some(1);
    assert ValueCount(js, 7, 1) == Some(2);
  }

  /** The number of tokens whose super token, when they were added, was i. */
  function Children(parents: seq<int>, i: int): (c: nat)
    ensures c <= |parents|
  {
    if parents == [] then 0
    else Children(parents[..|parents| - 1], i) + (if parents[|parents| - 1] == i then 1 else 0)
  }

  /**
   * The sizes jsmn_parse leaves in a pool. parents holds the super token of
   * each token added since the call began (n0 tokens then, first s0): it is
   * -1 or an earlier token, and every token's size is the size it had before
   * (zero for a new one) plus the number of tokens added below it.
   */
  ghost predicate Sizes(s: seq<Token>, s0: seq<Token>, n0: nat, n: nat, parents: seq<int>)
  {
    n0 <= n <= |s| && n0 <= |s0| && |parents| == n - n0
    && (forall k | 0 <= k < |parents| :: -1 <= parents[k] < n0 + k)
    && (forall i {:trigger Children(parents, i)} | 0 <= i < n :: s[i].size == (if i < n0 then s0[i].size else 0) + Children(parents, i))
  }

  /** Children of a sequence one longer. */
  lemma ChildrenSnoc(parents: seq<int>, x: int, i: int)
    ensures Children(parents + [x], i) == Children(parents, i) + (if x == i then 1 else 0)
  {
    assert (parents + [x])[..|parents|] == parents;
  }

  /**
   * Adding token n with size zero below the super token sup keeps the sizes,
   * whether the super token is bumped before the token is written (an
   * opening bracket) or after (a string or a primitive).
   */
  lemma SizesAdd(s: seq<Token>, s0: seq<Token>, n0: nat, n: nat, parents: seq<int>, sup: int, t: Token)
    requires Sizes(s, s0, n0, n, parents) && n < |s| && -1 <= sup < n && t.size == 0
    ensures Bump(s[n := t], sup) == Bump(s, sup)[n := t]
    ensures Sizes(Bump(s, sup)[n := t], s0, n0, n + 1, parents + [sup])
  {
    var s', ps := Bump(s, sup)[n := t], parents + [sup];
    forall i | 0 <= i < n + 1
      ensures s'[i].size == (if i < n0 then s0[i].size else 0) + Children(ps, i)
    {
      ChildrenSnoc(parents, sup, i);
      if i == n {
        assert Children(parents, n) == 0 by {
          ChildrenNone(parents, n0, n);
        }
      }
    }
  }

  /** No token added so far lies below a token that is not yet allocated. */
  lemma ChildrenNone(parents: seq<int>, n0: nat, i: int)
    requires forall k | 0 <= k < |parents| :: parents[k] < n0 + k
    requires n0 + |parents| <= i
    ensures Children(parents, i) == 0
  {
    if parents != [] {
      ChildrenNone(parents[..|parents| - 1], n0, i);
    }
  }

  /** Changing where a token ends keeps the sizes. */
  lemma SizesEnd(s: seq<Token>, s0: seq<Token>, n0: nat, n: nat, parents: seq<int>, k: nat, e: int)
    requires Sizes(s, s0, n0, n, parents) && k < |s|
    ensures Sizes(s[k := s[k].(end := e)], s0, n0, n, parents)
  {
    var s' := s[k := s[k].(end := e)];
    forall i | 0 <= i < n
      ensures s'[i].size == s[i].size
    {
    }
  }

  // ---------------------------------------------------------------------
  // What jsmn_parse does to a pool, round by round

  /** The parser's fields together with the pool's contents, at the start or the end of a round. */
  datatype State = State(pos: nat, toknext: nat, toksuper: int, pool: seq<Token>)

  /** What a round returns (0 or an error code) and the state it leaves, pos on the last character it read. */
  datatype Outcome = Outcome(code: int, next: State)

  /** A pool of at least numTokens tokens, toknext within it and the super token -1 or allocated. */
  predicate Shaped(numTokens: nat, st: State)
  {
    st.toknext <= numTokens <= |st.pool| && -1 <= st.toksuper < st.toknext
  }

  /**
   * One round of jsmn_parse's loop with a pool, at the character st.pos:
   *  - '{' or '[' adds an open container, counts it under the super token
   *    and makes it the super token;
   *  - '}' or ']' closes the last open token, which must be a container of
   *    the same kind, and makes the open token before it the super token;
   *  - a string or a primitive adds a token and counts it under the super
   *    token;
   *  - ':' makes the last token added (an object key) the super token;
   *  - ',' puts the last open container back in place of a super token
   *    that is not a container;
   *  - white space does nothing.
   * An error leaves the state as it was.
   */
  function Step(js: string, len: nat, numTokens: nat, st: State): (o: Outcome)
    requires len <= |js| && InData(js, len, st.pos) && Shaped(numTokens, st)
    ensures o.code == 0 || o.code == ErrorNoMem || o.code == ErrorInval || o.code == ErrorPart
    ensures o.code < 0 ==> o.next == st
    ensures o.code == ErrorNoMem ==> st.toknext == numTokens
    ensures o.code == 0 ==> Shaped(numTokens, o.next) && |o.next.pool| == |st.pool| && st.pos <= o.next.pos
    ensures o.code == 0 ==> st.toknext <= o.next.toknext <= st.toknext + 1
  {
    var c := js[st.pos];
    if c == '{' || c == '[' then StepOpen(numTokens, st, if c == '{' then Object else Array)
    else if c == '}' || c == ']' then StepClose(st, if c == '}' then Object else Array)
    else if c == '"' then StepString(js, len, numTokens, st)
    else if c == '\t' || c == '\r' || c == '\n' || c == ' ' then Outcome(0, st)
    else if c == ':' then Outcome(0, st.(toksuper := st.toknext - 1))
    else if c == ',' then Outcome(0, st.(toksuper := CommaSuper(st)))
    else StepPrimitive(js, len, numTokens, st)
  }

  /** An opening bracket: a new open container, counted under the super token, becomes the super token. */
  function StepOpen(numTokens: nat, st: State, kind: TokenType): (o: Outcome)
    requires Shaped(numTokens, st)
    ensures o.code == 0 || o.code == ErrorNoMem
    ensures o.code < 0 ==> o.next == st && st.toknext == numTokens
    ensures o.code == 0 ==> Shaped(numTokens, o.next) && |o.next.pool| == |st.pool| && o.next.pos == st.pos
    ensures o.code == 0 ==> o.next.toknext == st.toknext + 1
  {
    if st.toknext >= numTokens then Outcome(ErrorNoMem, st)
    else Outcome(0, State(st.pos, st.toknext + 1, st.toknext, Bump(st.pool, st.toksuper)[st.toknext := Token(kind, st.pos, -1, 0)]))
  }

  /** A closing bracket: the last open token, which must be a container of this kind, ends one past it. */
  function StepClose(st: State, kind: TokenType): (o: Outcome)
    requires st.toknext <= |st.pool| && -1 <= st.toksuper < st.toknext
    ensures o.code == 0 || o.code == ErrorInval
    ensures o.code < 0 ==> o.next == st
    ensures o.code == 0 ==> o.next.toknext == st.toknext && |o.next.pool| == |st.pool| && o.next.pos == st.pos
    ensures o.code == 0 ==> -1 <= o.next.toksuper < st.toknext
  {
    var k := LastOpen(st.pool, st.toknext);
    if k == -1 || st.pool[k].kind != kind then Outcome(ErrorInval, st)
    else
      var pool := st.pool[k := st.pool[k].(end := st.pos + 1)];
      Outcome(0, st.(toksuper := LastOpen(pool, k), pool := pool))
  }

  /** A comma: a super token that is not a container gives way to the last open container, if any. */
  function CommaSuper(st: State): (sup: int)
    requires st.toknext <= |st.pool| && -1 <= st.toksuper < st.toknext
    ensures -1 <= sup < st.toknext
  {
    var k := LastOpenContainer(st.pool, st.toknext);
    if st.toksuper != -1 && !IsContainer(st.pool[st.toksuper]) && k != -1 then k else st.toksuper
  }

  /** A string: a token for its body, counted under the super token; the round ends on its closing quote. */
  function StepString(js: string, len: nat, numTokens: nat, st: State): (o: Outcome)
    requires len <= |js| && Shaped(numTokens, st)
    ensures o.code == 0 || o.code == ErrorNoMem || o.code == ErrorInval || o.code == ErrorPart
    ensures o.code < 0 ==> o.next == st
    ensures o.code == ErrorNoMem ==> st.toknext == numTokens
    ensures o.code == 0 ==> Shaped(numTokens, o.next) && |o.next.pool| == |st.pool| && st.pos < o.next.pos
    ensures o.code == 0 ==> o.next.toknext == st.toknext + 1
  {
    match ScanString(js, len, st.pos + 1)
    case Invalid => Outcome(ErrorInval, st)
    case Partial => Outcome(ErrorPart, st)
    case Closed(q) =>
      if st.toknext >= numTokens then Outcome(ErrorNoMem, st)
      else Outcome(0, State(q, st.toknext + 1, st.toksuper, Bump(st.pool[st.toknext := Token(String, st.pos + 1, q, 0)], st.toksuper)))
  }

  /** A primitive: a token up to its delimiter, counted under the super token; the round ends on its last character. */
  function StepPrimitive(js: string, len: nat, numTokens: nat, st: State): (o: Outcome)
    requires len <= |js| && InData(js, len, st.pos) && !IsDelimiter(js[st.pos]) && Shaped(numTokens, st)
    ensures o.code == 0 || o.code == ErrorNoMem || o.code == ErrorInval
    ensures o.code < 0 ==> o.next == st
    ensures o.code == ErrorNoMem ==> st.toknext == numTokens
    ensures o.code == 0 ==> Shaped(numTokens, o.next) && |o.next.pool| == |st.pool| && st.pos <= o.next.pos
    ensures o.code == 0 ==> o.next.toknext == st.toknext + 1
  {
    var j := PrimitiveEnd(js, len, st.pos);
    if InData(js, len, j) && !IsDelimiter(js[j]) then Outcome(ErrorInval, st)
    else if st.toknext >= numTokens then Outcome(ErrorNoMem, st)
    else Outcome(0, State(j - 1, st.toknext + 1, st.toksuper, Bump(st.pool[st.toknext := Token(Primitive, st.pos, j, 0)], st.toksuper)))
  }

  /** The super token of the token a round added, if it added one. */
  function NewParents(st: State, next: State): (ps: seq<int>)
    ensures |ps| <= 1 && (ps != [] ==> ps == [st.toksuper])
  {
    if next.toknext > st.toknext then [st.toksuper] else []
  }

  /** Where the rounds from a state got to, and the super tokens of the tokens they added. */
  datatype Reached = Reached(st: State, parents: seq<int>)

  /**
   * The state in which the rounds of jsmn_parse's loop from st reach a
   * round that starts at q, with the super token of every token they add,
   * in order; None when no round starts at q (an error stops the loop
   * first, or the rounds step over q).
   */
  ghost function Trace(js: string, len: nat, numTokens: nat, st: State, q: nat): Option<Reached>
    requires len <= |js| && Shaped(numTokens, st)
    decreases if st.pos <= q then q - st.pos else 0
  {
    if st.pos == q then Some(Reached(st, []))
    else if st.pos > q || !InData(js, len, st.pos) then None
    else
      var o := Step(js, len, numTokens, st);
      if o.code != 0 || o.next.pos + 1 > q then None
      else
        match Trace(js, len, numTokens, o.next.(pos := o.next.pos + 1), q)
        case None => None
        case Some(rest) => Some(Reached(rest.st, NewParents(st, o.next) + rest.parents))
  }

  /**
   * One more round, at the state st the rounds from st0 reached, with
   * outcome o: an error stops there, and a success extends the trace to
   * where the round ends, with the super token of the token it added.
   */
  lemma {:induction false} TraceStep(js: string, len: nat, numTokens: nat, st0: State, st: State, ps: seq<int>, o: Outcome)
    requires len <= |js| && Shaped(numTokens, st0) && st0.pos <= st.pos
    requires Trace(js, len, numTokens, st0, st.pos) == Some(Reached(st, ps))
    requires InData(js, len, st.pos) && Shaped(numTokens, st) && Step(js, len, numTokens, st) == o
    ensures o.code < 0 ==> o.next == st && Step(js, len, numTokens, o.next).code == o.code
    ensures o.code == 0 ==>
      Trace(js, len, numTokens, st0, o.next.pos + 1) == Some(Reached(o.next.(pos := o.next.pos + 1), ps + NewParents(st, o.next)))
    decreases st.pos - st0.pos
  {
    if o.code == 0 {
      var nx := o.next;
      var nx' := nx.(pos := nx.pos + 1);
      if st0.pos == st.pos {
        assert st0 == st && ps == [];
        assert Trace(js, len, numTokens, nx', nx'.pos) == Some(Reached(nx', []));
        assert NewParents(st, nx) + [] == ps + NewParents(st, nx);
      } else {
        var o0 := Step(js, len, numTokens, st0);
        var st1 := o0.next.(pos := o0.next.pos + 1);
        var rest := Trace(js, len, numTokens, st1, st.pos).value;
        assert ps == NewParents(st0, o0.next) + rest.parents;
        TraceStep(js, len, numTokens, st1, st, rest.parents, o);
        assert NewParents(st0, o0.next) + (rest.parents + NewParents(st, nx))
            == (NewParents(st0, o0.next) + rest.parents) + NewParents(st, nx);
      }
    }
  }

  /**
   * TraceStep for a round whose added super tokens are ps' - ps: after an
   * error the trace stays where it was, with the state and the super
   * tokens it had.
   */
  lemma TraceRound(js: string, len: nat, numTokens: nat, st0: State, st: State, ps: seq<int>, o: Outcome, ps': seq<int>)
    requires len <= |js| && Shaped(numTokens, st0) && st0.pos <= st.pos
    requires Trace(js, len, numTokens, st0, st.pos) == Some(Reached(st, ps))
    requires InData(js, len, st.pos) && Shaped(numTokens, st) && Step(js, len, numTokens, st) == o
    requires ps' == ps + NewParents(st, o.next)
    ensures o.code < 0 ==>
      Step(js, len, numTokens, o.next).code == o.code && Trace(js, len, numTokens, st0, o.next.pos) == Some(Reached(o.next, ps'))
    ensures o.code == 0 ==>
      Trace(js, len, numTokens, st0, o.next.pos + 1) == Some(Reached(o.next.(pos := o.next.pos + 1), ps'))
  {
    TraceStep(js, len, numTokens, st0, st, ps, o);
    if o.code < 0 {
      assert o.next == st && NewParents(st, st) == [];
      assert ps' == ps;
    }
  }

  /** Every round that succeeds counts what RoundOf counts, and ends where RoundOf says the next round starts. */
  lemma StepRound(js: string, len: nat, numTokens: nat, st: State)
    requires len <= |js| && InData(js, len, st.pos) && Shaped(numTokens, st)
    requires Step(js, len, numTokens, st).code == 0
    ensures var nx := Step(js, len, numTokens, st).next;
      RoundOf(js, len, st.pos) == Some(Advance(nx.pos + 1, nx.toknext - st.toknext))
  {
  }

  /**
   * The rounds a trace follows add one token per value they count, and
   * record one super token per token added.
   */
  lemma {:induction false} TraceCounts(js: string, len: nat, numTokens: nat, st0: State, q: nat, st: State, ps: seq<int>)
    requires len <= |js| && Shaped(numTokens, st0) && Trace(js, len, numTokens, st0, q) == Some(Reached(st, ps))
    ensures st0.toknext <= st.toknext && |ps| == st.toknext - st0.toknext
    ensures Between(js, len, st0.pos, q) == Some(|ps|)
    decreases if st0.pos <= q then q - st0.pos else 0
  {
    if st0.pos != q {
      var o := Step(js, len, numTokens, st0);
      var st1 := o.next.(pos := o.next.pos + 1);
      var rest := Trace(js, len, numTokens, st1, q).value;
      assert ps == NewParents(st0, o.next) + rest.parents;
      StepRound(js, len, numTokens, st0);
      TraceCounts(js, len, numTokens, st1, q, st, rest.parents);
    }
  }

  /** The text {"a":1}, up to len 7. */
  predicate ExampleText(js: string)
  {
    |js| == 7 && js[0] == '{' && js[1] == '"' && js[2] == 'a' && js[3] == '"' && js[4] == ':' && js[5] == '1' && js[6] == '}'
  }

  /** The rounds over {"a":1} reach ':' with the object holding its key. */
  lemma ExampleKey(js: string, pool: seq<Token>)
    requires ExampleText(js) && |pool| == 3
    ensures Trace(js, 7, 3, State(0, 0, -1, pool), 4)
      == Some(Reached(State(4, 2, 0, pool[0 := Token(Object, 0, -1, 0)][1 := Token(String, 2, 3, 0)][0 := Token(Object, 0, -1, 1)]), [-1, 0]))
  {
    var st0 := State(0, 0, -1, pool);
    // '{' at 0: the object, under no token
    var s1 := pool[0 := Token(Object, 0, -1, 0)];
    var st1 := State(0, 1, 0, s1);
    assert Step(js, 7, 3, st0) == Outcome(0, st1);
    TraceStep(js, 7, 3, st0, st0, [], Outcome(0, st1));
    assert [] + NewParents(st0, st1) == [-1];
    // "a" at 1: the key, under the object
    assert ScanString(js, 7, 2) == Closed(3) by {
      assert ScanString(js, 7, 3) == Closed(3);
    }
    var s2 := s1[1 := Token(String, 2, 3, 0)][0 := Token(Object, 0, -1, 1)];
    var st2 := State(3, 2, 0, s2);
    assert Step(js, 7, 3, st1.(pos := 1)) == Outcome(0, st2);
    TraceStep(js, 7, 3, st0, st1.(pos := 1), [-1], Outcome(0, st2));
    assert [-1] + NewParents(st1.(pos := 1), st2) == [-1, 0];
  }

  /** The rounds over {"a":1} reach '}' with the key holding its value. */
  lemma ExampleValue(js: string, pool: seq<Token>)
    requires ExampleText(js) && |pool| == 3
    ensures Trace(js, 7, 3, State(0, 0, -1, pool), 6)
      == Some(Reached(State(6, 3, 1, pool[0 := Token(Object, 0, -1, 1)][1 := Token(String, 2, 3, 1)][2 := Token(Primitive, 5, 6, 0)]), [-1, 0, 1]))
  {
    var st0 := State(0, 0, -1, pool);
    var s2 := pool[0 := Token(Object, 0, -1, 0)][1 := Token(String, 2, 3, 0)][0 := Token(Object, 0, -1, 1)];
    ExampleKey(js, pool);
    // ':' at 4: the key becomes the super token
    var st3 := State(4, 2, 1, s2);
    assert Step(js, 7, 3, State(4, 2, 0, s2)) == Outcome(0, st3);
    TraceStep(js, 7, 3, st0, State(4, 2, 0, s2), [-1, 0], Outcome(0, st3));
    assert [-1, 0] + NewParents(State(4, 2, 0, s2), st3) == [-1, 0];
    // 1 at 5: the value, under the key
    assert PrimitiveEnd(js, 7, 5) == 6 by {
      assert PrimitiveEnd(js, 7, 6) == 6;
    }
    var s4 := s2[2 := Token(Primitive, 5, 6, 0)][1 := Token(String, 2, 3, 1)];
    var st4 := State(5, 3, 1, s4);
    assert Step(js, 7, 3, st3.(pos := 5)) == Outcome(0, st4);
    TraceStep(js, 7, 3, st0, st3.(pos := 5), [-1, 0], Outcome(0, st4));
    assert [-1, 0] + NewParents(st3.(pos := 5), st4) == [-1, 0, 1];
    assert s4 == pool[0 := Token(Object, 0, -1, 1)][1 := Token(String, 2, 3, 1)][2 := Token(Primitive, 5, 6, 0)];
  }

  /**
   * The rounds over {"a":1} from an empty parser with three tokens: an
   * object, its key and the key's value; the object holds one key, the key
   * holds one value, and no token is left open or super.
   */
  lemma TraceExample(js: string, pool: seq<Token>)
    requires ExampleText(js) && |pool| == 3
    ensures Trace(js, 7, 3, State(0, 0, -1, pool), 7)
      == Some(Reached(State(7, 3, -1, [Token(Object, 0, 7, 1), Token(String, 2, 3, 1), Token(Primitive, 5, 6, 0)]), [-1, 0, 1]))
  {
    var st0 := State(0, 0, -1, pool);
    var s4 := pool[0 := Token(Object, 0, -1, 1)][1 := Token(String, 2, 3, 1)][2 := Token(Primitive, 5, 6, 0)];
    ExampleValue(js, pool);
    // '}' at 6: the object closes
    assert LastOpen(s4, 3) == 0 by {
      assert !IsOpen(s4[2]) && !IsOpen(s4[1]) && IsOpen(s4[0]);
    }
    var s5 := s4[0 := Token(Object, 0, 7, 1)];
    assert LastOpen(s5, 0) == -1;
    var st5 := State(6, 3, -1, s5);
    assert Step(js, 7, 3, State(6, 3, 1, s4)) == Outcome(0, st5);
    TraceStep(js, 7, 3, st0, State(6, 3, 1, s4), [-1, 0, 1], Outcome(0, st5));
    assert [-1, 0, 1] + NewParents(State(6, 3, 1, s4), st5) == [-1, 0, 1];
    assert s5 == [Token(Object, 0, 7, 1), Token(String, 2, 3, 1), Token(Primitive, 5, 6, 0)];
  }

  /** The opening bracket of an object or array. */
  function OpenChar(kind: TokenType): char
  {
    if kind == Object then '{' else '['
  }

  /** The closing bracket of an object or array. */
  function CloseChar(kind: TokenType): char
  {
    if kind == Object then '}' else ']'
  }

  // ---------------------------------------------------------------------
  // The parser

  /** jsmn_parser */
  class Parser {
    var pos: nat
    var toknext: nat
    var toksuper: int

    /** jsmn_init */
    method Init()
      modifies this
      ensures pos == 0 && toknext == 0 && toksuper == -1
    {
      pos, toknext, toksuper := 0, 0, -1;
    }

    /** jsmn_alloc_token: the index of the token handed out, or -1 when the pool is used up. */
    method AllocToken(tokens: array<Token>, numTokens: nat) returns (t: int)
      requires numTokens <= tokens.Length
      modifies this, tokens
      ensures pos == old(pos) && toksuper == old(toksuper)
      ensures old(toknext) >= numTokens ==> t == -1 && toknext == old(toknext) && tokens[..] == old(tokens[..])
      ensures old(toknext) < numTokens ==>
        t == old(toknext) && toknext == t + 1 &&
        tokens[..] == old(tokens[..])[t := old(tokens[t]).(start := -1, end := -1, size := 0)]
    {
      if toknext >= numTokens {
        return -1;
      }
      t := toknext;
      toknext := toknext + 1;
      tokens[t] := tokens[t].(start := -1, end := -1, size := 0);
    }

    /** jsmn_fill_token */
    static method FillToken(tokens: array<Token>, t: nat, kind: TokenType, start: int, end: int)
      requires t < tokens.Length
      modifies tokens
      ensures tokens[..] == old(tokens[..])[t := Token(kind, start, end, 0)]
    {
      tokens[t] := Token(kind, start, end, 0);
    }

    /**
     * jsmn_parse_primitive: called on the first character of a primitive.
     * A non-printable character in it is invalid; otherwise a token from
     * the first character to the delimiter is added and pos is left on the
     * last character. Errors leave pos on the first character.
     */
    method ParsePrimitive(js: string, len: nat, tokens: array?<Token>, numTokens: nat) returns (r: int)
      requires len <= |js| && InData(js, len, pos) && !IsDelimiter(js[pos])
      requires tokens != null ==> numTokens <= tokens.Length
      modifies this, tokens
      ensures toksuper == old(toksuper)
      ensures var j := PrimitiveEnd(js, len, old(pos));
        if InData(js, len, j) && !IsDelimiter(js[j]) then
          r == ErrorInval && pos == old(pos) && toknext == old(toknext) && (tokens != null ==> tokens[..] == old(tokens[..]))
        else if tokens == null then
          r == 0 && pos == j - 1 && toknext == old(toknext)
        else if old(toknext) >= numTokens then
          r == ErrorNoMem && pos == old(pos) && toknext == old(toknext) && tokens[..] == old(tokens[..])
        else
          r == 0 && pos == j - 1 && toknext == old(toknext) + 1 &&
          tokens[..] == old(tokens[..])[old(toknext) := Token(Primitive, old(pos), j, 0)]
    {
      var start := pos;
      while pos < len && js[pos] != '\0'
        invariant start <= pos && PrimitiveEnd(js, len, pos) == PrimitiveEnd(js, len, start)
        invariant toknext == old(toknext) && toksuper == old(toksuper)
        invariant tokens != null ==> tokens[..] == old(tokens[..])
        decreases len - pos
      {
        if IsDelimiter(js[pos]) {
          break;
        }
        if !Printable(js[pos]) {
          assert PrimitiveEnd(js, len, start) == pos;
          pos := start;
          return ErrorInval;
        }
        pos := pos + 1;
      }
      assert PrimitiveEnd(js, len, start) == pos;
      if tokens == null {
        pos := pos - 1;
        return 0;
      }
      var t := AllocToken(tokens, numTokens);
      if t == -1 {
        pos := start;
        return ErrorNoMem;
      }
      FillToken(tokens, t, Primitive, start, pos);
      pos := pos - 1;
      return 0;
    }

    /**
     * The \u branch of jsmn_parse_string: from p, up to four hex digits are
     * skipped; the position after them, or None at a non-hex digit.
     */
    static method SkipHexDigits(js: string, len: nat, p: nat) returns (q: Option<nat>)
      requires len <= |js|
      ensures q == HexEnd(js, len, p, 0)
    {
      var pos := p;
      var i := 0;
      while i < 4 && pos < len && js[pos] != '\0'
        invariant 0 <= i <= 4 && p <= pos && HexEnd(js, len, pos, i) == HexEnd(js, len, p, 0)
        decreases 4 - i
      {
        if !IsHex(js[pos]) {
          return None;
        }
        pos := pos + 1;
        i := i + 1;
      }
      return Some(pos);
    }

    /**
     * One round of jsmn_parse_string's loop on a character p that is not the
     * closing quote: a backslash followed by an allowed character skips both,
     * a \u escape also skips up to four hex digits, any other escape is
     * invalid (None), and any other character is skipped. The result is the
     * position the next round starts from.
     */
    static method StringStep(js: string, len: nat, p: nat) returns (next: Option<nat>)
      requires len <= |js| && InData(js, len, p) && js[p] != '"'
      ensures next.None? ==> ScanString(js, len, p) == Invalid
      ensures next.Some? ==> p < next.value && ScanString(js, len, p) == ScanString(js, len, next.value)
    {
      var pos := p;
      if js[pos] == '\\' && pos + 1 < len {
        pos := pos + 1;
        var e := js[pos];
        if IsEscape(e) {
          ScanEscape(js, len, p);
        } else if e == 'u' {
          var q := SkipHexDigits(js, len, pos + 1);
          ScanUnicode(js, len, p);
          if q.None? {
            return None;
          }
          pos := q.value - 1;
        } else {
          ScanBadEscape(js, len, p);
          return None;
        }
      } else {
        ScanPlain(js, len, p);
      }
      return Some(pos + 1);
    }

    /**
     * jsmn_parse_string: called on the opening quote. A closed string adds
     * a token from after the opening quote to the closing quote and leaves
     * pos on the closing quote; every error leaves pos on the opening quote.
     */
    method ParseString(js: string, len: nat, tokens: array?<Token>, numTokens: nat) returns (r: int)
      requires len <= |js|
      requires tokens != null ==> numTokens <= tokens.Length
      modifies this, tokens
      ensures toksuper == old(toksuper)
      ensures match ScanString(js, len, old(pos) + 1)
        case Invalid =>
          r == ErrorInval && pos == old(pos) && toknext == old(toknext) && (tokens != null ==> tokens[..] == old(tokens[..]))
        case Partial =>
          r == ErrorPart && pos == old(pos) && toknext == old(toknext) && (tokens != null ==> tokens[..] == old(tokens[..]))
        case Closed(q) =>
          if tokens == null then
            r == 0 && pos == q && toknext == old(toknext)
          else if old(toknext) >= numTokens then
            r == ErrorNoMem && pos == old(pos) && toknext == old(toknext) && tokens[..] == old(tokens[..])
          else
            r == 0 && pos == q && toknext == old(toknext) + 1 &&
            tokens[..] == old(tokens[..])[old(toknext) := Token(String, old(pos) + 1, q, 0)]
    {
      var start := pos;
      pos := pos + 1;
      while pos < len && js[pos] != '\0'
        invariant start < pos && ScanString(js, len, pos) == ScanString(js, len, start + 1)
        invariant toknext == old(toknext) && toksuper == old(toksuper)
        invariant tokens != null ==> tokens[..] == old(tokens[..])
        decreases len - pos
      {
        var c := js[pos];
        if c == '"' {
          if tokens == null {
            return 0;
          }
          var t := AllocToken(tokens, numTokens);
          if t == -1 {
            pos := start;
            return ErrorNoMem;
          }
          FillToken(tokens, t, String, start + 1, pos);
          return 0;
        }
        var next := StringStep(js, len, pos);
        if next.None? {
          pos := start;
          return ErrorInval;
        }
        pos := next.value;
      }
      pos := start;
      return ErrorPart;
    }
 
    /**
     * The '{' and '[' case of jsmn_parse when there is a pool: a new
     * container token starting at the bracket, counted as a child of the
     * super token, becomes the super token.
     */
    method OpenBracket(tokens: array<Token>, numTokens: nat, kind: TokenType) returns (r: int)
      requires numTokens <= tokens.Length && -1 <= toksuper < toknext <= numTokens
      modifies this, tokens
      ensures pos == old(pos)
      ensures old(toknext) >= numTokens ==>
        r == ErrorNoMem && toknext == old(toknext) && toksuper == old(toksuper) && tokens[..] == old(tokens[..])
      ensures old(toknext) < numTokens ==>
        r == 0 && toknext == old(toknext) + 1 && toksuper == old(toknext) &&
        tokens[..] == Bump(old(tokens[..]), old(toksuper))[old(toknext) := Token(kind, pos, -1, 0)]
    {
      var t := AllocToken(tokens, numTokens);
      if t == -1 {
        return ErrorNoMem;
      }
      if toksuper != -1 {
        tokens[toksuper] := tokens[toksuper].(size := tokens[toksuper].size + 1);
      }
      tokens[t] := tokens[t].(kind := kind, start := pos);
      toksuper := toknext - 1;
      return 0;
    }

    /**
     * The '}' and ']' case of jsmn_parse when there is a pool: the last open
     * token must be a container of the bracket's kind; it ends one past the
     * bracket and the open token before it, if any, becomes the super token.
     */
    method CloseBracket(tokens: array<Token>, kind: TokenType) returns (r: int)
      requires toknext <= tokens.Length
      modifies this, tokens
      ensures pos == old(pos) && toknext == old(toknext)
      ensures var k := LastOpen(old(tokens[..]), toknext);
        if k == -1 || old(tokens[..])[k].kind != kind then
          r == ErrorInval && toksuper == old(toksuper) && tokens[..] == old(tokens[..])
        else
          r == 0 && tokens[..] == old(tokens[..])[k := old(tokens[..])[k].(end := pos + 1)] &&
          toksuper == LastOpen(tokens[..], k)
    {
      var i: int := toknext - 1;
      while i >= 0
        invariant -1 <= i < toknext
        invariant LastOpen(tokens[..], toknext) == LastOpen(tokens[..], i + 1)
        invariant tokens[..] == old(tokens[..]) && toksuper == old(toksuper)
        invariant pos == old(pos) && toknext == old(toknext)
        decreases i
      {
        if IsOpen(tokens[i]) {
          if tokens[i].kind != kind {
            return ErrorInval;
          }
          toksuper := -1;
          tokens[i] := tokens[i].(end := pos + 1);
          break;
        }
        i := i - 1;
      }
      if i == -1 {
        return ErrorInval;
      }
      ghost var k := i;
      ghost var closed := tokens[..];
      while i >= 0
        invariant -1 <= i <= k
        invariant tokens[..] == closed && pos == old(pos) && toknext == old(toknext)
        invariant toksuper == -1 && LastOpen(closed, k + 1) == LastOpen(closed, i + 1)
        decreases i
      {
        if IsOpen(tokens[i]) {
          toksuper := i;
          break;
        }
        i := i - 1;
      }
      return 0;
    }

    /**
     * The ',' case of jsmn_parse when there is a pool: a super token that
     * is not a container (an object key) gives way to the last open object
     * or array; without one the super token stays.
     */
    method Comma(tokens: array<Token>)
      requires -1 <= toksuper < toknext <= tokens.Length
      modifies this
      ensures pos == old(pos) && toknext == old(toknext)
      ensures var k := LastOpenContainer(tokens[..], toknext);
        toksuper == if old(toksuper) != -1 && !IsContainer(tokens[old(toksuper)]) && k != -1 then k else old(toksuper)
    {
      if toksuper != -1 && tokens[toksuper].kind != Array && tokens[toksuper].kind != Object {
        var i: int := toknext - 1;
        while i >= 0
          invariant -1 <= i < toknext
          invariant LastOpenContainer(tokens[..], toknext) == LastOpenContainer(tokens[..], i + 1)
          invariant toksuper == old(toksuper) && pos == old(pos) && toknext == old(toknext)
          decreases i
        {
          if tokens[i].kind == Array || tokens[i].kind == Object {
            if tokens[i].start != -1 && tokens[i].end == -1 {
              toksuper := i;
              break;
            }
          }
          i := i - 1;
        }
      }
    }
 
    /** PoolOk for this parser's state, when there is a pool. */
    ghost predicate Pool(js: string, len: nat, tokens: array?<Token>, numTokens: nat, s0: seq<Token>, n0: nat)
      requires len <= |js|
      reads this`toknext, this`toksuper, tokens
    {
      tokens != null ==> PoolOk(js, len, tokens[..], numTokens, toksuper, toknext, s0, n0)
    }

    /**
     * The '{' and '[' case of jsmn_parse's loop: nothing to do without a
     * pool; otherwise what OpenBracket does.
     */
    method OpenCase(js: string, len: nat, tokens: array?<Token>, numTokens: nat, ghost s0: seq<Token>, ghost n0: nat)
      returns (r: int)
      requires len <= |js| && InData(js, len, pos) && (js[pos] == '{' || js[pos] == '[')
      requires Pool(js, len, tokens, numTokens, s0, n0)
      modifies this, tokens
      ensures pos == old(pos)
      ensures Pool(js, len, tokens, numTokens, s0, n0)
      ensures r < 0 ==> tokens != null && toknext == old(toknext) && tokens[..] == old(tokens[..])
      ensures tokens == null ==> r == 0 && toknext == old(toknext) && toksuper == old(toksuper)
      ensures tokens != null && old(toknext) >= numTokens ==>
        r == ErrorNoMem && toknext == old(toknext) && toksuper == old(toksuper) && tokens[..] == old(tokens[..])
      ensures tokens != null && old(toknext) < numTokens ==>
        r == 0 && toknext == old(toknext) + 1 && toksuper == old(toknext) &&
        tokens[..] == Bump(old(tokens[..]), old(toksuper))[old(toknext) := Token(if js[pos] == '{' then Object else Array, pos, -1, 0)]
    {
      if tokens == null {
        return 0;
      }
      ghost var s, sup, n := tokens[..], toksuper, toknext;
      var kind := if js[pos] == '{' then Object else Array;
      r := OpenBracket(tokens, numTokens, kind);
      if r < 0 {
        return r;
      }
      PoolBump(js, len, s, numTokens, sup, n, s0, n0);
      PoolAdd(js, len, Bump(s, sup), numTokens, sup, n, s0, n0, Token(kind, pos, -1, 0), n);
    }

    /**
     * The '}' and ']' case of jsmn_parse's loop: nothing to do without a
     * pool; otherwise what CloseBracket does.
     */
    method CloseCase(js: string, len: nat, tokens: array?<Token>, numTokens: nat, ghost s0: seq<Token>, ghost n0: nat)
      returns (r: int)
      requires len <= |js| && InData(js, len, pos) && (js[pos] == '}' || js[pos] == ']')
      requires Pool(js, len, tokens, numTokens, s0, n0)
      modifies this, tokens
      ensures pos == old(pos) && toknext == old(toknext)
      ensures Pool(js, len, tokens, numTokens, s0, n0)
      ensures r < 0 ==> tokens != null && tokens[..] == old(tokens[..])
      ensures tokens == null ==> r == 0 && toksuper == old(toksuper)
      ensures tokens != null ==>
        var k := LastOpen(old(tokens[..]), toknext);
        if k == -1 || old(tokens[..])[k].kind != (if js[pos] == '}' then Object else Array) then
          r == ErrorInval && toksuper == old(toksuper) && tokens[..] == old(tokens[..])
        else
          r == 0 && tokens[..] == old(tokens[..])[k := old(tokens[..])[k].(end := pos + 1)] &&
          toksuper == LastOpen(tokens[..], k)
    {
      if tokens == null {
        return 0;
      }
      ghost var s, sup, n := tokens[..], toksuper, toknext;
      r := CloseBracket(tokens, if js[pos] == '}' then Object else Array);
      if r < 0 {
        return r;
      }
      PoolClose(js, len, s, numTokens, sup, n, s0, n0, LastOpen(s, n), pos, toksuper);
    }

    /** The parent token, if any, gains one child: tokens[toksuper].size++. */
    method CountChild(tokens: array<Token>)
      requires -1 <= toksuper < tokens.Length
      modifies tokens
      ensures tokens[..] == Bump(old(tokens[..]), toksuper)
    {
      if toksuper != -1 {
        tokens[toksuper] := tokens[toksuper].(size := tokens[toksuper].size + 1);
      }
    }

    /**
     * The '"' case of jsmn_parse's loop: what ParseString does, and then a
     * string that was added is counted as a child of the super token.
     */
    method StringCase(js: string, len: nat, tokens: array?<Token>, numTokens: nat, ghost s0: seq<Token>, ghost n0: nat)
      returns (r: int)
      requires len <= |js| && InData(js, len, pos) && js[pos] == '"'
      requires Pool(js, len, tokens, numTokens, s0, n0)
      modifies this, tokens
      ensures toksuper == old(toksuper)
      ensures r < 0 ==> toknext == old(toknext) && (tokens != null ==> tokens[..] == old(tokens[..]))
      ensures Pool(js, len, tokens, numTokens, s0, n0)
      ensures match ScanString(js, len, old(pos) + 1)
        case Invalid =>
          r == ErrorInval && pos == old(pos) && toknext == old(toknext) && (tokens != null ==> tokens[..] == old(tokens[..]))
        case Partial =>
          r == ErrorPart && pos == old(pos) && toknext == old(toknext) && (tokens != null ==> tokens[..] == old(tokens[..]))
        case Closed(q) =>
          if tokens == null then
            r == 0 && pos == q && toknext == old(toknext)
          else if old(toknext) >= numTokens then
            r == ErrorNoMem && pos == old(pos) && toknext == old(toknext) && tokens[..] == old(tokens[..])
          else
            r == 0 && pos == q && toknext == old(toknext) + 1 &&
            tokens[..] == Bump(old(tokens[..])[old(toknext) := Token(String, old(pos) + 1, q, 0)], old(toksuper))
    {
      ghost var s, sup, n, p := if tokens != null then tokens[..] else [], toksuper, toknext, pos;
      r := ParseString(js, len, tokens, numTokens);
      if r < 0 || tokens == null {
        return r;
      }
      StringExtent(js, len, p);
      PoolAdd(js, len, s, numTokens, sup, n, s0, n0, tokens[n], sup);
      CountChild(tokens);
      PoolBump(js, len, s[n := Token(String, p + 1, pos, 0)], numTokens, sup, n + 1, s0, n0);
    }

    /**
     * The primitive case of jsmn_parse's loop: what ParsePrimitive does, and
     * then a primitive that was added is counted as a child of the super token.
     */
    method PrimitiveCase(js: string, len: nat, tokens: array?<Token>, numTokens: nat, ghost s0: seq<Token>, ghost n0: nat)
      returns (r: int)
      requires len <= |js| && InData(js, len, pos) && !IsDelimiter(js[pos])
      requires Pool(js, len, tokens, numTokens, s0, n0)
      modifies this, tokens
      ensures toksuper == old(toksuper)
      ensures r < 0 ==> toknext == old(toknext) && (tokens != null ==> tokens[..] == old(tokens[..]))
      ensures Pool(js, len, tokens, numTokens, s0, n0)
      ensures var j := PrimitiveEnd(js, len, old(pos));
        if InData(js, len, j) && !IsDelimiter(js[j]) then
          r == ErrorInval && pos == old(pos) && toknext == old(toknext) && (tokens != null ==> tokens[..] == old(tokens[..]))
        else if tokens == null then
          r == 0 && pos == j - 1 && toknext == old(toknext)
        else if old(toknext) >= numTokens then
          r == ErrorNoMem && pos == old(pos) && toknext == old(toknext) && tokens[..] == old(tokens[..])
        else
          r == 0 && pos == j - 1 && toknext == old(toknext) + 1 &&
          tokens[..] == Bump(old(tokens[..])[old(toknext) := Token(Primitive, old(pos), j, 0)], old(toksuper))
    {
      ghost var s, sup, n, p := if tokens != null then tokens[..] else [], toksuper, toknext, pos;
      r := ParsePrimitive(js, len, tokens, numTokens);
      if r < 0 || tokens == null {
        return r;
      }
      PrimitiveExtent(js, len, p);
      PoolAdd(js, len, s, numTokens, sup, n, s0, n0, tokens[n], sup);
      CountChild(tokens);
      PoolBump(js, len, s[n := Token(Primitive, p, pos + 1, 0)], numTokens, sup, n + 1, s0, n0);
    }

    /** OpenCase, keeping the sizes: the bracket is one value, and the next round starts after it. */
    method OpenRound(js: string, len: nat, tokens: array?<Token>, numTokens: nat, ghost s0: seq<Token>, ghost n0: nat,
                     ghost parents: seq<int>)
      returns (r: int, ghost parents': seq<int>)
      requires len <= |js| && InData(js, len, pos) && (js[pos] == '{' || js[pos] == '[')
      requires Pool(js, len, tokens, numTokens, s0, n0)
      requires tokens != null ==> Sizes(tokens[..], s0, n0, toknext, parents)
      modifies this, tokens
      ensures Pool(js, len, tokens, numTokens, s0, n0)
      ensures tokens != null ==> Sizes(tokens[..], s0, n0, toknext, parents')
      ensures r == 0 || r == ErrorNoMem
      ensures r == ErrorNoMem ==> tokens != null && toknext == numTokens
      ensures r == 0 ==> RoundOf(js, len, old(pos)) == Some(Advance(pos + 1, 1))
      ensures toknext == old(toknext) + (if r == 0 && tokens != null then 1 else 0)
      ensures tokens == null ==> toksuper == old(toksuper)
      ensures tokens != null ==>
        Step(js, len, numTokens, State(old(pos), old(toknext), old(toksuper), old(tokens[..])))
        == Outcome(r, State(pos, toknext, toksuper, tokens[..]))
      ensures parents' == parents + (if r == 0 && tokens != null then [old(toksuper)] else [])
    {
      ghost var s, sup := if tokens != null then tokens[..] else [], toksuper;
      parents' := parents;
      r := OpenCase(js, len, tokens, numTokens, s0, n0);
      if r == 0 && tokens != null {
        SizesAdd(s, s0, n0, toknext - 1, parents, sup, tokens[toknext - 1]);
        parents' := parents + [sup];
      }
    }

    /** CloseCase, keeping the sizes: the bracket counts nothing, and the next round starts after it. */
    method CloseRound(js: string, len: nat, tokens: array?<Token>, numTokens: nat, ghost s0: seq<Token>, ghost n0: nat,
                      ghost parents: seq<int>)
      returns (r: int, ghost parents': seq<int>)
      requires len <= |js| && InData(js, len, pos) && (js[pos] == '}' || js[pos] == ']')
      requires Pool(js, len, tokens, numTokens, s0, n0)
      requires tokens != null ==> Sizes(tokens[..], s0, n0, toknext, parents)
      modifies this, tokens
      ensures Pool(js, len, tokens, numTokens, s0, n0)
      ensures tokens != null ==> Sizes(tokens[..], s0, n0, toknext, parents')
      ensures r == 0 || r == ErrorInval
      ensures r < 0 ==> tokens != null
      ensures r == 0 ==> RoundOf(js, len, old(pos)) == Some(Advance(pos + 1, 0))
      ensures toknext == old(toknext)
      ensures tokens == null ==> toksuper == old(toksuper)
      ensures tokens != null ==>
        Step(js, len, numTokens, State(old(pos), old(toknext), old(toksuper), old(tokens[..])))
        == Outcome(r, State(pos, toknext, toksuper, tokens[..]))
      ensures parents' == parents
    {
      ghost var s := if tokens != null then tokens[..] else [];
      parents' := parents;
      r := CloseCase(js, len, tokens, numTokens, s0, n0);
      if r == 0 && tokens != null {
        SizesEnd(s, s0, n0, toknext, parents, LastOpen(s, toknext), pos + 1);
      }
    }

    /** StringCase, keeping the sizes: a string is one value, and the next round starts after its closing quote. */
    method StringRound(js: string, len: nat, tokens: array?<Token>, numTokens: nat, ghost s0: seq<Token>, ghost n0: nat,
                       ghost parents: seq<int>)
      returns (r: int, ghost parents': seq<int>)
      requires len <= |js| && InData(js, len, pos) && js[pos] == '"'
      requires Pool(js, len, tokens, numTokens, s0, n0)
      requires tokens != null ==> Sizes(tokens[..], s0, n0, toknext, parents)
      modifies this, tokens
      ensures Pool(js, len, tokens, numTokens, s0, n0)
      ensures tokens != null ==> Sizes(tokens[..], s0, n0, toknext, parents')
      ensures r == 0 || r == ErrorNoMem || r == ErrorInval || r == ErrorPart
      ensures r == ErrorNoMem ==> tokens != null && toknext == numTokens
      ensures r < 0 && tokens == null ==> RoundOf(js, len, old(pos)).None?
      ensures r == 0 ==> RoundOf(js, len, old(pos)) == Some(Advance(pos + 1, 1))
      ensures toknext == old(toknext) + (if r == 0 && tokens != null then 1 else 0)
      ensures tokens == null ==> toksuper == old(toksuper)
      ensures tokens != null ==>
        Step(js, len, numTokens, State(old(pos), old(toknext), old(toksuper), old(tokens[..])))
        == Outcome(r, State(pos, toknext, toksuper, tokens[..]))
      ensures parents' == parents + (if r == 0 && tokens != null then [old(toksuper)] else [])
    {
      ghost var s, sup := if tokens != null then tokens[..] else [], toksuper;
      parents' := parents;
      r := StringCase(js, len, tokens, numTokens, s0, n0);
      if r == 0 && tokens != null {
        SizesAdd(s, s0, n0, toknext - 1, parents, sup, tokens[toknext - 1]);
        parents' := parents + [sup];
      }
    }

    /** PrimitiveCase, keeping the sizes: a primitive is one value, and the next round starts at its delimiter. */
    method PrimitiveRound(js: string, len: nat, tokens: array?<Token>, numTokens: nat, ghost s0: seq<Token>, ghost n0: nat,
                          ghost parents: seq<int>)
      returns (r: int, ghost parents': seq<int>)
      requires len <= |js| && InData(js, len, pos) && !IsDelimiter(js[pos])
      requires js[pos] != '{' && js[pos] != '[' && js[pos] != '"'
      requires Pool(js, len, tokens, numTokens, s0, n0)
      requires tokens != null ==> Sizes(tokens[..], s0, n0, toknext, parents)
      modifies this, tokens
      ensures Pool(js, len, tokens, numTokens, s0, n0)
      ensures tokens != null ==> Sizes(tokens[..], s0, n0, toknext, parents')
      ensures r == 0 || r == ErrorNoMem || r == ErrorInval
      ensures r == ErrorNoMem ==> tokens != null && toknext == numTokens
      ensures r < 0 && tokens == null ==> RoundOf(js, len, old(pos)).None?
      ensures r == 0 ==> RoundOf(js, len, old(pos)) == Some(Advance(pos + 1, 1))
      ensures toknext == old(toknext) + (if r == 0 && tokens != null then 1 else 0)
      ensures tokens == null ==> toksuper == old(toksuper)
      ensures tokens != null ==>
        Step(js, len, numTokens, State(old(pos), old(toknext), old(toksuper), old(tokens[..])))
        == Outcome(r, State(pos, toknext, toksuper, tokens[..]))
      ensures parents' == parents + (if r == 0 && tokens != null then [old(toksuper)] else [])
    {
      ghost var s, sup := if tokens != null then tokens[..] else [], toksuper;
      parents' := parents;
      r := PrimitiveCase(js, len, tokens, numTokens, s0, n0);
      if r == 0 && tokens != null {
        SizesAdd(s, s0, n0, toknext - 1, parents, sup, tokens[toknext - 1]);
        parents' := parents + [sup];
      }
    }

    /**
     * One round of jsmn_parse's loop, on the character at pos: the case for
     * that character. added is what the round adds to the count, and pos is
     * left on the last character the round read.
     */
    method Round(js: string, len: nat, tokens: array?<Token>, numTokens: nat, ghost s0: seq<Token>, ghost n0: nat,
                 ghost parents: seq<int>)
      returns (r: int, added: nat, ghost parents': seq<int>)
      requires len <= |js| && InData(js, len, pos)
      requires Pool(js, len, tokens, numTokens, s0, n0)
      requires tokens != null ==> Sizes(tokens[..], s0, n0, toknext, parents)
      modifies this, tokens
      ensures Pool(js, len, tokens, numTokens, s0, n0)
      ensures tokens != null ==> Sizes(tokens[..], s0, n0, toknext, parents')
      ensures r == 0 || r == ErrorNoMem || r == ErrorInval || r == ErrorPart
      ensures r == ErrorNoMem ==> tokens != null && toknext == numTokens
      ensures r < 0 && tokens == null ==> RoundOf(js, len, old(pos)).None?
      ensures r == 0 ==> RoundOf(js, len, old(pos)) == Some(Advance(pos + 1, added))
      ensures toknext == old(toknext) + (if r == 0 && tokens != null then added else 0)
      ensures tokens == null ==> toksuper == if js[old(pos)] == ':' then old(toknext) - 1 else old(toksuper)
      ensures tokens != null ==>
        Step(js, len, numTokens, State(old(pos), old(toknext), old(toksuper), old(tokens[..])))
        == Outcome(r, State(pos, toknext, toksuper, tokens[..]))
      ensures parents' == parents + (if toknext > old(toknext) then [old(toksuper)] else [])
    {
      var c := js[pos];
      r, added, parents' := 0, 0, parents;
      if c == '{' || c == '[' {
        added := 1;
        r, parents' := OpenRound(js, len, tokens, numTokens, s0, n0, parents);
      } else if c == '}' || c == ']' {
        r, parents' := CloseRound(js, len, tokens, numTokens, s0, n0, parents);
      } else if c == '"' {
        added := 1;
        r, parents' := StringRound(js, len, tokens, numTokens, s0, n0, parents);
      } else if c == '\t' || c == '\r' || c == '\n' || c == ' ' {
      } else if c == ':' {
        if tokens != null {
          PoolSuper(js, len, tokens[..], numTokens, toksuper, toknext, s0, n0, toknext - 1);
        }
        toksuper := toknext - 1;
      } else if c == ',' {
        if tokens != null {
          ghost var sup := toksuper;
          Comma(tokens);
          PoolSuper(js, len, tokens[..], numTokens, sup, toknext, s0, n0, toksuper);
        }
      } else {
        added := 1;
        r, parents' := PrimitiveRound(js, len, tokens, numTokens, s0, n0, parents);
      }
    }

    /**
     * Round, followed along the trace of the rounds from st0: after a
     * successful round the trace reaches the position after the round's
     * last character with the state the round left; an error leaves the
     * state where the trace stopped.
     */
    method TracedRound(js: string, len: nat, tokens: array?<Token>, numTokens: nat, ghost s0: seq<Token>, ghost n0: nat,
                       ghost st0: State, ghost parents: seq<int>)
      returns (r: int, added: nat, ghost parents': seq<int>)
      requires len <= |js| && InData(js, len, pos)
      requires Pool(js, len, tokens, numTokens, s0, n0)
      requires tokens != null ==> Sizes(tokens[..], s0, n0, toknext, parents)
      requires tokens != null ==> Shaped(numTokens, st0) && st0.pos <= pos
      requires tokens != null ==> Trace(js, len, numTokens, st0, pos) == Some(Reached(State(pos, toknext, toksuper, tokens[..]), parents))
      modifies this, tokens
      ensures Pool(js, len, tokens, numTokens, s0, n0)
      ensures tokens != null ==> Sizes(tokens[..], s0, n0, toknext, parents')
      ensures r == 0 || r == ErrorNoMem || r == ErrorInval || r == ErrorPart
      ensures r == ErrorNoMem ==> tokens != null && toknext == numTokens
      ensures r < 0 && tokens == null ==> RoundOf(js, len, old(pos)).None?
      ensures r == 0 ==> RoundOf(js, len, old(pos)) == Some(Advance(pos + 1, added))
      ensures toknext == old(toknext) + (if r == 0 && tokens != null then added else 0)
      ensures tokens != null && r == 0 ==>
        Trace(js, len, numTokens, st0, pos + 1) == Some(Reached(State(pos + 1, toknext, toksuper, tokens[..]), parents'))
      ensures tokens != null && r < 0 ==>
        InData(js, len, pos) && Step(js, len, numTokens, State(pos, toknext, toksuper, tokens[..])).code == r &&
        Trace(js, len, numTokens, st0, pos) == Some(Reached(State(pos, toknext, toksuper, tokens[..]), parents'))
    {
      ghost var before := State(pos, toknext, toksuper, if tokens != null then tokens[..] else []);
      r, added, parents' := Round(js, len, tokens, numTokens, s0, n0, parents);
      if tokens != null {
        TraceRound(js, len, numTokens, st0, before, parents, Outcome(r, State(pos, toknext, toksuper, tokens[..])), parents');
      }
    }

    /**
     * One pass of jsmn_parse's loop: a TracedRound and then pos++, which
     * also extends the rounds from p0, which counted seen values up to pos.
     */
    method ScanStep(js: string, len: nat, tokens: array?<Token>, numTokens: nat, ghost s0: seq<Token>, ghost n0: nat,
                    ghost p0: nat, ghost seen: nat, ghost st0: State, ghost parents: seq<int>)
      returns (r: int, added: nat, ghost parents': seq<int>)
      requires len <= |js| && InData(js, len, pos)
      requires Pool(js, len, tokens, numTokens, s0, n0)
      requires tokens != null ==> Sizes(tokens[..], s0, n0, toknext, parents)
      requires p0 <= pos && Between(js, len, p0, pos) == Some(seen)
      requires tokens != null ==> Shaped(numTokens, st0) && st0.pos <= pos
      requires tokens != null ==> Trace(js, len, numTokens, st0, pos) == Some(Reached(State(pos, toknext, toksuper, tokens[..]), parents))
      modifies this, tokens
      ensures Pool(js, len, tokens, numTokens, s0, n0)
      ensures tokens != null ==> Sizes(tokens[..], s0, n0, toknext, parents')
      ensures r == 0 || r == ErrorNoMem || r == ErrorInval || r == ErrorPart
      ensures r == ErrorNoMem ==> tokens != null && toknext == numTokens
      ensures r < 0 && tokens == null ==> InData(js, len, old(pos)) && RoundOf(js, len, old(pos)).None?
      ensures r == 0 ==> old(pos) < pos && Between(js, len, p0, pos) == Some(seen + added)
      ensures toknext == old(toknext) + (if r == 0 && tokens != null then added else 0)
      ensures tokens != null ==>
        Trace(js, len, numTokens, st0, pos) == Some(Reached(State(pos, toknext, toksuper, tokens[..]), parents'))
      ensures tokens != null && r < 0 ==>
        InData(js, len, pos) && Step(js, len, numTokens, State(pos, toknext, toksuper, tokens[..])).code == r
    {
      ghost var p := pos;
      r, added, parents' := TracedRound(js, len, tokens, numTokens, s0, n0, st0, parents);
      if r == 0 {
        BetweenStep(js, len, p0, p, seen, Advance(pos + 1, added));
        pos := pos + 1;
      }
    }

    /** The final check of jsmn_parse: whether no allocated token is left open. */
    method AllClosed(tokens: array<Token>) returns (b: bool)
      requires toknext <= tokens.Length
      ensures b <==> forall i | 0 <= i < toknext :: !IsOpen(tokens[i])
    {
      var i: int := toknext - 1;
      while i >= 0
        invariant -1 <= i < toknext
        invariant forall j | i < j < toknext :: !IsOpen(tokens[j])
        decreases i
      {
        if IsOpen(tokens[i]) {
          return false;
        }
        i := i - 1;
      }
      return true;
    }

    /**
     * The loop of jsmn_parse: rounds until the end of the text or the first
     * error. count starts at toknext and gains what each round counts; with
     * a pool, the parser and the pool end where the trace of the rounds
     * from the initial state reaches pos, and an error is the one the round
     * at pos returns.
     */
    method Scan(js: string, len: nat, tokens: array?<Token>, numTokens: nat, ghost s0: seq<Token>, ghost n0: nat)
      returns (r: int, count: int, ghost parents: seq<int>)
      requires len <= |js| && n0 == toknext
      requires Pool(js, len, tokens, numTokens, s0, n0)
      requires tokens != null ==> tokens[..] == s0
      modifies this, tokens
      ensures Pool(js, len, tokens, numTokens, s0, n0)
      ensures tokens != null ==> Sizes(tokens[..], s0, n0, toknext, parents)
      ensures tokens == null ==> toknext == n0
      ensures r == 0 || r == ErrorNoMem || r == ErrorInval || r == ErrorPart
      ensures r == ErrorNoMem ==> tokens != null && toknext == numTokens
      ensures r < 0 && tokens == null ==> ValueCount(js, len, old(pos)).None?
      ensures r == 0 ==> !InData(js, len, pos) && n0 <= count && ValueCount(js, len, old(pos)) == Some(count - n0)
      ensures r == 0 && tokens != null ==> count == toknext
      ensures tokens != null ==>
        Trace(js, len, numTokens, State(old(pos), n0, old(toksuper), s0), pos)
        == Some(Reached(State(pos, toknext, toksuper, tokens[..]), parents))
      ensures tokens != null && r < 0 ==>
        InData(js, len, pos) && Step(js, len, numTokens, State(pos, toknext, toksuper, tokens[..])).code == r
    {
      count, r, parents := toknext, 0, [];
      ghost var p0 := pos;
      ghost var st0 := State(pos, toknext, toksuper, s0);
      ghost var seen: nat := 0;
      assert tokens != null ==> Sizes(tokens[..], s0, n0, toknext, parents);
      while pos < len && js[pos] != '\0'
        invariant Pool(js, len, tokens, numTokens, s0, n0)
        invariant tokens != null ==> count == toknext && Sizes(tokens[..], s0, n0, toknext, parents)
        invariant tokens == null ==> toknext == n0
        invariant count == n0 + seen && p0 <= pos && Between(js, len, p0, pos) == Some(seen)
        invariant tokens != null ==> Shaped(numTokens, st0) && st0.pos == p0
        invariant tokens != null ==> Trace(js, len, numTokens, st0, pos) == Some(Reached(State(pos, toknext, toksuper, tokens[..]), parents))
        invariant r == 0
        decreases len - pos
      {
        var added;
        ghost var p := pos;
        r, added, parents := ScanStep(js, len, tokens, numTokens, s0, n0, p0, seen, st0, parents);
        if r < 0 {
          if tokens == null {
            BetweenCount(js, len, p0, p, seen);
            CountFails(js, len, p0, p, seen);
          }
          return;
        }
        count, seen := count + added, seen + added;
      }
      BetweenCount(js, len, p0, pos, seen);
    }

    /**
     * jsmn_parse. The result is an error code or the number of tokens found,
     * counted from the initial toknext: that initial value plus the number
     * of values in the text. A malformed string or primitive is always an
     * error, and without a pool it is the only one. With a pool the count
     * is the new toknext, every container has been closed, every token
     * covers its text, tokens from earlier calls keep their type and start,
     * and the pool past toknext is untouched. The parser's fields and the
     * pool are those the rounds of Step reach from the initial state, and
     * parents holds the super token each of those rounds counted a new token
     * under (Trace); so every size is the earlier size plus the number of
     * tokens counted under it. Stopping inside the text means the round
     * there failed with r; reaching the end, r is an error exactly when a
     * container is still open. Without a pool nothing is written and
     * brackets are not matched.
     */
    method Parse(js: string, len: nat, tokens: array?<Token>, numTokens: nat) returns (r: int, ghost parents: seq<int>)
      requires len <= |js|
      requires tokens != null ==> numTokens <= tokens.Length && -1 <= toksuper < toknext <= numTokens
      requires tokens != null ==> Extents(js, len, tokens[..], toknext)
      modifies this, tokens
      ensures r == ErrorNoMem || r == ErrorInval || r == ErrorPart || r >= 0
      ensures r >= 0 ==> !InData(js, len, pos) && ValueCount(js, len, old(pos)) == Some(r - old(toknext))
      ensures ValueCount(js, len, old(pos)).None? ==> r < 0
      ensures r == ErrorNoMem ==> tokens != null && toknext == numTokens
      ensures tokens == null ==> toknext == old(toknext) && (r >= 0 <==> ValueCount(js, len, old(pos)).Some?)
      ensures tokens != null ==> PoolOk(js, len, tokens[..], numTokens, toksuper, toknext, old(tokens[..]), old(toknext))
      ensures tokens != null ==> Sizes(tokens[..], old(tokens[..]), old(toknext), toknext, parents)
      ensures tokens != null && r >= 0 ==> r == toknext && forall i | 0 <= i < toknext :: !IsOpen(tokens[i])
      ensures tokens != null ==>
        Trace(js, len, numTokens, State(old(pos), old(toknext), old(toksuper), old(tokens[..])), pos)
        == Some(Reached(State(pos, toknext, toksuper, tokens[..]), parents))
      ensures tokens != null && InData(js, len, pos) ==>
        r < 0 && Step(js, len, numTokens, State(pos, toknext, toksuper, tokens[..])).code == r
      ensures tokens != null && !InData(js, len, pos) ==> (r >= 0 <==> forall i | 0 <= i < toknext :: !IsOpen(tokens[i]))
    {
      ghost var s0 := if tokens != null then tokens[..] else [];
      var count;
      r, count, parents := Scan(js, len, tokens, numTokens, s0, toknext);
      if r < 0 {
        return;
      }
      r := count;
      if tokens != null {
        var closed := AllClosed(tokens);
        if !closed {
          r := ErrorPart;
        }
      }
    }
  }
}
