/**
 * parse.c: the parsers that turn the words of a bspc command into values.
 *
 * Every parser either succeeds with a value or fails; the C functions write
 * their out-parameter only on success, which an `Option` result expresses.
 * The keyword parsers are read against the printers of helpers.h (or, for
 * the enumerations that have no printer, against the keyword of each value),
 * and the parsers with loops are methods proved against a function of the
 * whole argument.
 *
 * parse.h is not part of this model: the selector separator CAT_CHR is '.'
 * and the declaration separator EQL_TOK is "=", as in bspc's command syntax.
 */
module Parse {
  import opened Types
  import opened Wrappers
  import opened Helpers
  import Numeric
  import Geometry

  // ---------------------------------------------------------------------
  // Keyword parsers

  /** parse_bool */
  function ParseBool(s: string): (r: Option<bool>)
    ensures r.Some? <==> s == "true" || s == "on" || s == "false" || s == "off"
    ensures r.Some? ==> s == BoolStr(r.value) || s == OnOffStr(r.value)
  {
    if s == "true" || s == "on" then Some(true)
    else if s == "false" || s == "off" then Some(false)
    else None
  }

  /** parse_split_type */
  function ParseSplitType(s: string): (r: Option<SplitType>)
    ensures r.Some? ==> SplitTypeStr(r.value) == s
  {
    if s == "horizontal" then Some(Horizontal)
    else if s == "vertical" then Some(Vertical)
    else None
  }

  /**
   * parse_split_mode as written: the word it maps to MODE_MANUAL is
   * "vertical", so the printed "manual" is refused.
   */
  function ParseSplitModeAsWritten(s: string): (r: Option<SplitMode>)
    ensures r == Some(Manual) <==> s == "vertical"
    ensures r == Some(Automatic) <==> s == SplitModeStr(Automatic)
  {
    if s == "automatic" then Some(Automatic)
    else if s == "vertical" then Some(Manual)
    else None
  }

  /** The printed manual mode does not read back through parse_split_mode as written. */
  lemma SplitModeAsWrittenRejectsManual()
    ensures SplitModeStr(Manual) == "manual"
    ensures ParseSplitModeAsWritten(SplitModeStr(Manual)) == None
    ensures ParseSplitModeAsWritten("vertical") == Some(Manual)
  {
  }

  /** parse_split_mode with the word SPLIT_MODE_STR prints for MODE_MANUAL. */
  function ParseSplitMode(s: string): (r: Option<SplitMode>)
    ensures r.Some? ==> SplitModeStr(r.value) == s
  {
    if s == "automatic" then Some(Automatic)
    else if s == "manual" then Some(Manual)
    else None
  }

  /** parse_layout */
  function ParseLayout(s: string): (r: Option<Layout>)
    ensures r.Some? ==> LayoutStr(r.value) == s
  {
    if s == "monocle" then Some(LayoutMonocle)
    else if s == "tiled" then Some(LayoutTiled)
    else None
  }

  /** parse_client_state */
  function ParseClientState(s: string): (r: Option<ClientState>)
    ensures r.Some? ==> StateStr(r.value) == s
  {
    if s == "tiled" then Some(Tiled)
    else if s == "pseudo_tiled" then Some(PseudoTiled)
    else if s == "floating" then Some(Floating)
    else if s == "fullscreen" then Some(Fullscreen)
    else None
  }

  /** parse_stack_layer */
  function ParseStackLayer(s: string): (r: Option<StackLayer>)
    ensures r.Some? ==> LayerStr(r.value) == s
  {
    if s == "below" then Some(Below)
    else if s == "normal" then Some(Normal)
    else if s == "above" then Some(Above)
    else None
  }

  /** parse_direction */
  function ParseDirection(s: string): (r: Option<Direction>)
    ensures r.Some? ==> SplitDirStr(r.value) == s
  {
    if s == "north" then Some(North)
    else if s == "west" then Some(West)
    else if s == "south" then Some(South)
    else if s == "east" then Some(East)
    else None
  }

  /** parse_child_polarity */
  function ParseChildPolarity(s: string): (r: Option<ChildPolarity>)
    ensures r.Some? ==> ChildPolStr(r.value) == s
  {
    if s == "first_child" then Some(FirstChild)
    else if s == "second_child" then Some(SecondChild)
    else None
  }

  /** parse_automatic_scheme */
  function ParseAutomaticScheme(s: string): (r: Option<AutoScheme>)
    ensures r.Some? ==> AutoSchemeStr(r.value) == s
  {
    if s == "longest_side" then Some(LongestSide)
    else if s == "alternate" then Some(Alternate)
    else if s == "spiral" then Some(Spiral)
    else None
  }

  /** parse_tightness */
  function ParseTightness(s: string): (r: Option<Tightness>)
    ensures r.Some? ==> TightnessStr(r.value) == s
  {
    if s == "high" then Some(High)
    else if s == "low" then Some(Low)
    else None
  }

  /** Each keyword parser reads back what the matching printer of helpers.h writes. */
  lemma PrintersReadBack()
    ensures forall b: bool :: ParseBool(BoolStr(b)) == Some(b) && ParseBool(OnOffStr(b)) == Some(b)
    ensures forall t: SplitType :: ParseSplitType(SplitTypeStr(t)) == Some(t)
    ensures forall m: SplitMode :: ParseSplitMode(SplitModeStr(m)) == Some(m)
    ensures forall l: Layout :: ParseLayout(LayoutStr(l)) == Some(l)
    ensures forall c: ClientState :: ParseClientState(StateStr(c)) == Some(c)
    ensures forall l: StackLayer :: ParseStackLayer(LayerStr(l)) == Some(l)
    ensures forall d: Direction :: ParseDirection(SplitDirStr(d)) == Some(d)
    ensures forall p: ChildPolarity :: ParseChildPolarity(ChildPolStr(p)) == Some(p)
    ensures forall a: AutoScheme :: ParseAutomaticScheme(AutoSchemeStr(a)) == Some(a)
    ensures forall t: Tightness :: ParseTightness(TightnessStr(t)) == Some(t)
  {
  }

  // The enumerations below have no printer in helpers.h; each keyword
  // function names the word bspc accepts for a value.

  function CycleDirWord(d: CycleDir): (w: string)
  {
    if d == Next then "next" else "prev"
  }

  /** parse_cycle_direction */
  function ParseCycleDirection(s: string): (r: Option<CycleDir>)
    ensures r.Some? ==> CycleDirWord(r.value) == s
  {
    if s == "next" then Some(Next)
    else if s == "prev" then Some(Prev)
    else None
  }

  function CirculateDirWord(d: CirculateDir): (w: string)
  {
    if d == Forward then "forward" else "backward"
  }

  /** parse_circulate_direction */
  function ParseCirculateDirection(s: string): (r: Option<CirculateDir>)
    ensures r.Some? ==> CirculateDirWord(r.value) == s
  {
    if s == "forward" then Some(Forward)
    else if s == "backward" then Some(Backward)
    else None
  }

  function HistoryDirWord(d: HistoryDir): (w: string)
  {
    if d == Older then "older" else "newer"
  }

  /** parse_history_direction */
  function ParseHistoryDirection(s: string): (r: Option<HistoryDir>)
    ensures r.Some? ==> HistoryDirWord(r.value) == s
  {
    if s == "older" then Some(Older)
    else if s == "newer" then Some(Newer)
    else None
  }

  function FlipWord(f: Flip): (w: string)
  {
    if f == FlipHorizontal then "horizontal" else "vertical"
  }

  /** parse_flip */
  function ParseFlip(s: string): (r: Option<Flip>)
    ensures r.Some? ==> FlipWord(r.value) == s
  {
    if s == "horizontal" then Some(FlipHorizontal)
    else if s == "vertical" then Some(FlipVertical)
    else None
  }

  function ResizeHandleWord(h: ResizeHandle): (w: string)
  {
    match h
    case Left => "left"
    case Top => "top"
    case Right => "right"
    case Bottom => "bottom"
    case TopLeft => "top_left"
    case TopRight => "top_right"
    case BottomRight => "bottom_right"
    case BottomLeft => "bottom_left"
  }

  /** parse_resize_handle */
  function ParseResizeHandle(s: string): (r: Option<ResizeHandle>)
    ensures r.Some? ==> ResizeHandleWord(r.value) == s
  {
    if s == "left" then Some(Left)
    else if s == "top" then Some(Top)
    else if s == "right" then Some(Right)
    else if s == "bottom" then Some(Bottom)
    else if s == "top_left" then Some(TopLeft)
    else if s == "top_right" then Some(TopRight)
    else if s == "bottom_right" then Some(BottomRight)
    else if s == "bottom_left" then Some(BottomLeft)
    else None
  }

  function PointerActionWord(a: PointerAction): (w: string)
  {
    match a
    case Move => "move"
    case ResizeCorner => "resize_corner"
    case ResizeSide => "resize_side"
    case Focus => "focus"
    case ActionNone => "none"
  }

  /** parse_pointer_action */
  function ParsePointerAction(s: string): (r: Option<PointerAction>)
    ensures r.Some? ==> PointerActionWord(r.value) == s
  {
    if s == "move" then Some(Move)
    else if s == "resize_corner" then Some(ResizeCorner)
    else if s == "resize_side" then Some(ResizeSide)
    else if s == "focus" then Some(Focus)
    else if s == "none" then Some(ActionNone)
    else None
  }

  /** The key modifier bits of the X protocol: Shift, Lock, Control, Mod1 to Mod5. */
  predicate IsModifierBit(m: nat)
  {
    m == 1 || m == 2 || m == 4 || m == 8 || m == 16 || m == 32 || m == 64 || m == 128
  }

  function ModifierWord(m: nat): (w: string)
    requires IsModifierBit(m)
  {
    if m == 1 then "shift"
    else if m == 2 then "lock"
    else if m == 4 then "control"
    else if m == 8 then "mod1"
    else if m == 16 then "mod2"
    else if m == 32 then "mod3"
    else if m == 64 then "mod4"
    else "mod5"
  }

  /** parse_modifier_mask: one XCB_MOD_MASK_* bit per word. */
  function ParseModifierMask(s: string): (r: Option<nat>)
    ensures r.Some? ==> IsModifierBit(r.value) && ModifierWord(r.value) == s
  {
    if s == "shift" then Some(1)
    else if s == "control" then Some(4)
    else if s == "lock" then Some(2)
    else if s == "mod1" then Some(8)
    else if s == "mod2" then Some(16)
    else if s == "mod3" then Some(32)
    else if s == "mod4" then Some(64)
    else if s == "mod5" then Some(128)
    else None
  }

  /** The words without a printer read back to the values they name. */
  lemma WordsReadBack()
    ensures forall d: CycleDir :: ParseCycleDirection(CycleDirWord(d)) == Some(d)
    ensures forall d: CirculateDir :: ParseCirculateDirection(CirculateDirWord(d)) == Some(d)
    ensures forall d: HistoryDir :: ParseHistoryDirection(HistoryDirWord(d)) == Some(d)
    ensures forall f: Flip :: ParseFlip(FlipWord(f)) == Some(f)
    ensures forall h: ResizeHandle :: ParseResizeHandle(ResizeHandleWord(h)) == Some(h)
    ensures forall a: PointerAction :: ParsePointerAction(PointerActionWord(a)) == Some(a)
    ensures forall m: nat | IsModifierBit(m) :: ParseModifierMask(ModifierWord(m)) == Some(m)
    ensures forall b: int | -1 <= b <= 3 :: ParseButtonIndex(ButtonWord(b)) == Some(b)
  {
  }

  /** XCB_BUTTON_INDEX_ANY is 0 and XCB_BUTTON_INDEX_n is n; "none" is -1. */
  function ButtonWord(b: int): (w: string)
    requires -1 <= b <= 3
  {
    if b == -1 then "none"
    else if b == 0 then "any"
    else if b == 1 then "button1"
    else if b == 2 then "button2"
    else "button3"
  }

  /** parse_button_index */
  function ParseButtonIndex(s: string): (r: Option<int>)
    ensures r.Some? ==> -1 <= r.value <= 3 && ButtonWord(r.value) == s
  {
    if s == "any" then Some(0)
    else if s == "button1" then Some(1)
    else if s == "button2" then Some(2)
    else if s == "button3" then Some(3)
    else if s == "none" then Some(-1)
    else None
  }

  // ---------------------------------------------------------------------
  // strtok

  /** The length of the run of characters other than `d` that starts `s`. */
  function RunTo(s: string, d: char): (k: nat)
    ensures k <= |s| && (k == |s| || s[k] == d)
    ensures forall i | 0 <= i < k :: s[i] != d
  {
    if s == [] || s[0] == d then 0 else 1 + RunTo(s[1..], d)
  }

  /**
   * The successive tokens that strtok(s, d) and then strtok(NULL, d) return:
   * the maximal non-empty runs of characters other than `d`, in order.
   */
  function Tokens(s: string, d: char): (ts: seq<string>)
    ensures forall i | 0 <= i < |ts| :: |ts[i]| > 0 && d !in ts[i]
    decreases |s|
  {
    if s == [] then []
    else if s[0] == d then Tokens(s[1..], d)
    else
      var k := RunTo(s, d);
      [s[..k]] + Tokens(s[k..], d)
  }

  /** Tokens separated by single delimiters. */
  function JoinWith(ts: seq<string>, d: char): string
  {
    if |ts| == 0 then [] else if |ts| == 1 then ts[0] else ts[0] + [d] + JoinWith(ts[1..], d)
  }

  /** Text without tokens is all delimiters. */
  lemma {:induction false} NoTokensAllDelimiters(s: string, d: char)
    ensures Tokens(s, d) == [] ==> forall i | 0 <= i < |s| :: s[i] == d
    decreases |s|
  {
    if s != [] && s[0] == d {
      NoTokensAllDelimiters(s[1..], d);
      assert forall i | 1 <= i < |s| :: s[i] == s[1..][i - 1];
    }
  }

  /** A delimiter at the front is skipped. */
  lemma TokensSkip(s: string, d: char)
    ensures Tokens([d] + s, d) == Tokens(s, d)
  {
    assert ([d] + s)[1..] == s;
  }

  /** A non-empty run without delimiters, followed by the end or a delimiter, is one token. */
  lemma TokensPiece(k: string, d: char, rest: string)
    requires |k| > 0 && d !in k
    requires rest == [] || rest[0] == d
    ensures Tokens(k + rest, d) == [k] + Tokens(rest, d)
  {
    var s := k + rest;
    assert RunTo(s, d) == |k| by { RunToPiece(k, d, rest); }
    assert s[..|k|] == k && s[|k|..] == rest;
  }

  lemma {:induction false} RunToPiece(k: string, d: char, rest: string)
    requires d !in k
    requires rest == [] || rest[0] == d
    ensures RunTo(k + rest, d) == |k|
    decreases |k|
  {
    if k == [] {
      assert k + rest == rest;
    } else {
      assert (k + rest)[1..] == k[1..] + rest;
      RunToPiece(k[1..], d, rest);
    }
  }

  /** strtok gives back the pieces that were joined, when none is empty or holds the delimiter. */
  lemma {:induction false} TokensJoin(ts: seq<string>, d: char)
    requires forall i | 0 <= i < |ts| :: |ts[i]| > 0 && d !in ts[i]
    ensures Tokens(JoinWith(ts, d), d) == ts
    decreases |ts|
  {
    if |ts| == 0 {
    } else if |ts| == 1 {
      TokensPiece(ts[0], d, []);
      assert ts[0] + [] == ts[0];
    } else {
      var rest := JoinWith(ts[1..], d);
      assert JoinWith(ts, d) == ts[0] + ([d] + rest);
      TokensPiece(ts[0], d, [d] + rest);
      TokensSkip(rest, d);
      TokensJoin(ts[1..], d);
      ConsTail(ts);
    }
  }

  // ---------------------------------------------------------------------
  // State transitions

  /** state_transition_t as its two bits, STATE_TRANSITION_ENTER and STATE_TRANSITION_EXIT. */
  datatype Transitions = Transitions(enter: bool, exit: bool)

  /**
   * What parse_state_transition accepts, stated on the whole argument:
   * "none", "all", or a comma list of "enter" and "exit" with at least one
   * word in it.
   */
  function TransitionsOf(s: string): Option<Transitions>
  {
    if s == "none" then Some(Transitions(false, false))
    else if s == "all" then Some(Transitions(true, true))
    else
      var keys := Tokens(s, ',');
      if |keys| > 0 && forall k | k in keys :: k == "enter" || k == "exit" then
        Some(Transitions("enter" in keys, "exit" in keys))
      else None
  }

  /** parse_state_transition */
  method ParseStateTransition(s: string) returns (r: Option<Transitions>)
    ensures r == TransitionsOf(s)
  {
    if s == "none" {
      return Some(Transitions(false, false));
    } else if s == "all" {
      return Some(Transitions(true, true));
    }
    var keys := Tokens(s, ',');
    var w := Transitions(false, false);
    var i := 0;
    while i < |keys|
      invariant 0 <= i <= |keys|
      invariant forall j | 0 <= j < i :: keys[j] == "enter" || keys[j] == "exit"
      invariant w.enter <==> "enter" in keys[..i]
      invariant w.exit <==> "exit" in keys[..i]
    {
      if keys[i] == "enter" {
        w := w.(enter := true);
      } else if keys[i] == "exit" {
        w := w.(exit := true);
      } else {
        assert keys[i] in keys;
        return None;
      }
      assert keys[..i + 1] == keys[..i] + [keys[i]];
      i := i + 1;
    }
    assert keys[..i] == keys;
    forall k | k in keys
      ensures k == "enter" || k == "exit"
    {
      var j :| 0 <= j < |keys| && keys[j] == k;
    }
    if |keys| > 0 {
      assert keys[0] in keys;
    }
    if w.enter || w.exit {
      r := Some(w);
    } else {
      r := None;
    }
  }

  /** A comma list of the two words selects exactly the words it names. */
  lemma TransitionsOfList(keys: seq<string>)
    requires |keys| > 0 && forall i | 0 <= i < |keys| :: keys[i] == "enter" || keys[i] == "exit"
    ensures JoinWith(keys, ',') != "none" && JoinWith(keys, ',') != "all"
    ensures TransitionsOf(JoinWith(keys, ',')) == Some(Transitions("enter" in keys, "exit" in keys))
  {
    var s := JoinWith(keys, ',');
    TokensJoin(keys, ',');
    JoinHead(keys, ',');
    assert s[0] == 'e';
  }

  lemma JoinHead(ts: seq<string>, d: char)
    requires |ts| > 0 && |ts[0]| > 0
    ensures |JoinWith(ts, d)| > 0 && JoinWith(ts, d)[0] == ts[0][0]
  {
  }

  // ---------------------------------------------------------------------
  // Numbers

  /** atoi(s): strtol's decimal value converted to `int`. */
  function Atoi(s: string): (n: int)
    ensures -0x8000_0000 <= n < 0x8000_0000
    ensures (n - Numeric.StrtolBase10(s).value) % 0x1_0000_0000 == 0
    ensures -0x8000_0000 <= Numeric.StrtolBase10(s).value < 0x8000_0000 ==> n == Numeric.StrtolBase10(s).value
  {
    Geometry.ToInt32(Numeric.StrtolBase10(s).value)
  }

  /** parse_degree: the angle brought into [0, 360) by whole turns, kept when it is a right angle. */
  method ParseDegree(s: string) returns (r: Option<int>)
    ensures r.Some? <==> Atoi(s) % 90 == 0
    ensures r.Some? ==> 0 <= r.value < 360 && (r.value - Atoi(s)) % 360 == 0
  {
    var a := Atoi(s);
    var i := a;
    ghost var turns := 0;
    while i < 0
      invariant i == a + 360 * turns
      decreases -i
    {
      i, turns := i + 360, turns + 1;
    }
    while i > 359
      invariant i == a + 360 * turns && i >= 0
      decreases i
    {
      i, turns := i - 360, turns - 1;
    }
    SameTurn(i, a, turns);
    if i % 90 != 0 {
      return None;
    } else {
      return Some(i);
    }
  }

  /** Angles a whole number of turns apart are right angles together. */
  lemma SameTurn(i: int, a: int, turns: int)
    requires i == a + 360 * turns
    ensures (i - a) % 360 == 0
    ensures i % 90 == a % 90
  {
    assert i == a + 90 * (4 * turns);
  }

  /** parse_id: base-0 strtol that must consume the whole argument without
      a range error; the long it returns is stored in a uint32_t. */
  function ParseId(s: string): (r: Option<Numeric.Word32>)
    ensures r.Some? ==> Numeric.StrtolBase0(s).consumed == |s|
    ensures r.Some? ==> (r.value - Numeric.StrtolBase0(s).value) % 0x1_0000_0000 == 0
    ensures Numeric.StrtolBase0(s).consumed == |s| && !Numeric.StrtolBase0(s).overflow ==> r.Some?
    ensures Numeric.StrtolBase0(s).overflow ==> r.None?
  {
    var c := Numeric.StrtolBase0(s);
    if c.overflow || c.consumed != |s| then None else Some(ToUInt32(c.value))
  }

  /** The value a long takes once stored in a uint32_t. */
  function ToUInt32(v: int): (r: Numeric.Word32)
    ensures (r - v) % 0x1_0000_0000 == 0
    ensures 0 <= v < 0x1_0000_0000 ==> r == v
    ensures -0x1_0000_0000 <= v < 0 ==> r == v + 0x1_0000_0000
  {
    v % 0x1_0000_0000
  }

  /** An id printed in decimal reads back. */
  lemma ParseIdReadsDecimal(w: Numeric.Word32)
    ensures ParseId(Numeric.DecimalString(w)) == Some(w)
  {
    var d := Numeric.DecimalString(w);
    assert Numeric.StrtolBase0(d) == Numeric.Conversion(w, |d|, false) by {
      Numeric.StrtolDecimal(w, []);
      assert d + [] == d;
    }
  }

  /** An id printed as "0x" and eight hexadecimal digits reads back. */
  lemma ParseIdReadsHex(w: Numeric.Word32)
    ensures ParseId("0x" + Numeric.Hex8(w)) == Some(w)
  {
    var s := "0x" + Numeric.Hex8(w);
    assert Numeric.StrtolBase0(s) == Numeric.Conversion(w, 10, false) by {
      assert Numeric.Pow(16, 8) == 0x1_0000_0000 by {
        assert Numeric.Pow(16, 4) == 0x1_0000;
      }
      Numeric.StrtolHex(w, 8);
      assert Numeric.Hex8(w) == Numeric.HexString(w, 8);
    }
    assert |s| == 10;
  }


  /** A negative id wraps around to the unsigned value, and the empty argument reads as 0. */
  lemma ParseIdWraps(n: nat)
    requires 0 < n <= 0x1_0000_0000
    ensures ParseId("-" + Numeric.DecimalString(n)) == Some(0x1_0000_0000 - n)
    ensures ParseId("") == Some(0)
  {
    var d := "-" + Numeric.DecimalString(n);
    assert Numeric.StrtolBase0(d) == Numeric.Conversion(-(n as int), |d|, false) by {
      Numeric.StrtolNegative(n, []);
      assert d + [] == d;
    }
  }

  /** A number beyond the range of long makes parse_id fail, even though strtol consumed all of it. */
  lemma ParseIdRangeError(n: nat)
    requires n > Numeric.LongMax
    ensures ParseId(Numeric.DecimalString(n)) == None
  {
    Numeric.StrtolTooLarge(n);
  }

  /** Anything after the number makes parse_id fail. */
  lemma ParseIdRejectsTrailing(w: Numeric.Word32, c: char)
    requires !Numeric.IsHexDigit(c) && c != 'x' && c != 'X'
    ensures ParseId(Numeric.DecimalString(w) + [c]) == None
  {
    Numeric.StrtolDecimal(w, [c]);
  }

  /** ULONG_MAX, what strtoul returns for a magnitude beyond it. */
  const ULongMax: int := 0xFFFF_FFFF_FFFF_FFFF

  /**
   * One directive of an sscanf format: a literal character, %u (strtoul in
   * base 10) or %i (strtol in base 0). The `h` size prefix narrows a value
   * only when it is stored, which the callers write out.
   */
  datatype Directive = Literal(c: char) | Unsigned | Signed

  /** A value read by one conversion and the number of characters it used. */
  datatype Scanned = Scanned(value: int, used: nat)

  /** strtoul(t, &end, 10): an optional sign and decimal digits. A negative
      number wraps around modulo 2^64; a magnitude beyond ULONG_MAX gives ULONG_MAX. */
  /** `t` starts with an optional sign followed by a decimal digit. */
  predicate LeadsWithNumber(t: string) {
    Numeric.SignLength(t) < |t| && Numeric.IsDigit(t[Numeric.SignLength(t)])
  }

  function ScanUnsigned(t: string): (r: Option<Scanned>)
    ensures r.Some? <==> LeadsWithNumber(t)
    ensures r.Some? ==> 0 < r.value.used <= |t| && 0 <= r.value.value <= ULongMax
  {
    var sg := Numeric.SignLength(t);
    var k := Numeric.RunLength(t, sg, 10);
    if k == 0 then None
    else
      var mag := Numeric.ValueOf(t[sg..sg + k], 10);
      var v: int :=
        if mag > ULongMax then ULongMax
        else if sg == 1 && t[0] == '-' then (-(mag as int)) % (ULongMax + 1)
        else mag;
      Some(Scanned(v, sg + k))
  }

  /** strtol(t, &end, 0). */
  function ScanSigned(t: string): (r: Option<Scanned>)
    ensures r.Some? ==> 0 < r.value.used <= |t|
    ensures r.Some? ==> Numeric.LongMin <= r.value.value <= Numeric.LongMax
  {
    var c := Numeric.StrtolBase0(t);
    if c.consumed == 0 then None else Some(Scanned(c.value, c.consumed))
  }

  /** The conversion a directive other than a literal performs. */
  function Convert(d: Directive, t: string): Option<Scanned>
    requires !d.Literal?
  {
    if d == Unsigned then ScanUnsigned(t) else ScanSigned(t)
  }

  function Conversions(fmt: seq<Directive>): nat
  {
    if fmt == [] then 0 else (if fmt[0].Literal? then 0 else 1) + Conversions(fmt[1..])
  }

  /**
   * sscanf(t, fmt, ...) when every directive matches: the converted values in
   * order, whatever follows the last directive. sscanf's count of conversions
   * is compared with the full count by its callers, so a partial match is
   * modelled as None. White space before a conversion is not skipped.
   */
  function Scanf(t: string, fmt: seq<Directive>): (r: Option<seq<int>>)
    ensures r.Some? ==> |r.value| == Conversions(fmt)
    decreases |fmt|
  {
    if fmt == [] then Some([])
    else if fmt[0].Literal? then
      if |t| > 0 && t[0] == fmt[0].c then Scanf(t[1..], fmt[1..]) else None
    else
      match Convert(fmt[0], t)
      case None => None
      case Some(one) =>
        match Scanf(t[one.used..], fmt[1..])
        case None => None
        case Some(vs) => Some([one.value] + vs)
  }

  lemma ScanfEnd(t: string)
    ensures Scanf(t, []) == Some([])
  {
  }

  /** A literal matches its character and the rest of the format goes on after it. */
  lemma ScanfLiteral(c: char, t: string, fmt: seq<Directive>)
    ensures Scanf([c] + t, [Literal(c)] + fmt) == Scanf(t, fmt)
  {
    assert ([Literal(c)] + fmt)[1..] == fmt;
    assert ([c] + t)[1..] == t;
  }

  /** A conversion that uses exactly `v` lets the rest of the format go on after it. */
  lemma ScanfConversion(d: Directive, v: string, t: string, fmt: seq<Directive>, x: int, vs: seq<int>)
    requires !d.Literal?
    requires Convert(d, v + t) == Some(Scanned(x, |v|))
    requires Scanf(t, fmt) == Some(vs)
    ensures Scanf(v + t, [d] + fmt) == Some([x] + vs)
  {
    assert ([d] + fmt)[1..] == fmt;
    assert (v + t)[|v|..] == t;
  }

  /** A decimal digit is a digit of base 10. */
  lemma DecimalDigit(c: char)
    ensures Numeric.IsBaseDigit(c, 10) <==> Numeric.IsDigit(c)
  {
    if Numeric.IsHexDigit(c) {
      var v := Numeric.HexDigitValue(c);
    }
  }

  /** %u reads back a decimal number that is followed by a non-digit. */
  lemma ScanUnsignedReads(n: nat, rest: string)
    requires n <= ULongMax
    requires rest == [] || !Numeric.IsDigit(rest[0])
    ensures Convert(Unsigned, Numeric.DecimalString(n) + rest) == Some(Scanned(n, |Numeric.DecimalString(n)|))
  {
    var d := Numeric.DecimalString(n);
    var t := d + rest;
    assert Numeric.SignLength(t) == 0 by {
      assert t[0] == d[0];
    }
    assert Numeric.RunLength(t, 0, 10) == |d| by {
      assert t == [] + d + rest;
      if rest != [] {
        DecimalDigit(rest[0]);
      }
      Numeric.RunLengthOf([], d, rest, 10);
    }
    assert Numeric.ValueOf(t[0..0 + |d|], 10) == n by {
      assert t[0..0 + |d|] == d;
    }
    ScanUnsignedOf(t, |d|, n);
  }

  /** A run of `k` digits worth `mag`, with no sign in front. */
  lemma ScanUnsignedOf(t: string, k: nat, mag: nat)
    requires 0 < k && mag <= ULongMax
    requires Numeric.SignLength(t) == 0
    requires Numeric.RunLength(t, 0, 10) == k
    requires Numeric.ValueOf(t[0..0 + k], 10) == mag
    ensures ScanUnsigned(t) == Some(Scanned(mag, k))
  {
  }

  /** %i reads back a number printed with printf("%d") that is followed by
      neither a hexadecimal digit nor an 'x'. */
  lemma ScanSignedReads(x: int, rest: string)
    requires -Numeric.LongMax <= x <= Numeric.LongMax
    requires rest == [] || (!Numeric.IsHexDigit(rest[0]) && rest[0] != 'x' && rest[0] != 'X')
    ensures Convert(Signed, Numeric.IntString(x) + rest) == Some(Scanned(x, |Numeric.IntString(x)|))
  {
    var d := Numeric.IntString(x);
    assert Numeric.StrtolBase0(d + rest) == Numeric.Conversion(x, |d|, false) by {
      if x < 0 {
        Numeric.StrtolNegative(-x, rest);
      } else {
        Numeric.StrtolDecimal(x, rest);
      }
    }
  }

  const IndexFormat: seq<Directive> := [Literal('^'), Unsigned]

  /** parse_index: sscanf(s, "^%hu"); what follows the number is ignored. */
  function ParseIndex(s: string): (r: Option<nat>)
    ensures r.Some? <==> |s| >= 2 && s[0] == '^' && LeadsWithNumber(s[1..])
    ensures r.Some? ==> r.value < 0x1_0000
  {
    match Scanf(s, IndexFormat)
    case Some(vs) => Some(ToUInt16(vs[0]) as nat)
    case None => None
  }

  /** An index printed after '^' reads back, whatever non-digit follows it. */
  lemma ParseIndexReads(n: nat, rest: string)
    requires n < 0x1_0000
    requires rest == [] || !Numeric.IsDigit(rest[0])
    ensures ParseIndex("^" + Numeric.DecimalString(n) + rest) == Some(n)
  {
    var d := Numeric.DecimalString(n);
    assert Scanf(d + rest, [Unsigned]) == Some([n]) by {
      ScanfEnd(rest);
      ScanUnsignedReads(n, rest);
      ScanfConversion(Unsigned, d, rest, [], n, []);
      assert [Unsigned] + [] == [Unsigned] && [n] + [] == [n];
    }
    assert Scanf("^" + d + rest, IndexFormat) == Scanf(d + rest, [Unsigned]) by {
      ScanfLiteral('^', d + rest, [Unsigned]);
      assert ['^'] + (d + rest) == "^" + d + rest;
      assert [Literal('^')] + [Unsigned] == IndexFormat;
    }
  }

  /** The value an integer takes once stored in an unsigned 16-bit field. */
  function ToUInt16(v: int): (r: Geometry.UInt16)
    ensures (r as int - v) % 0x1_0000 == 0
    ensures 0 <= v < 0x1_0000 ==> r as int == v
  {
    (v % 0x1_0000) as Geometry.UInt16
  }

  const RectFormat: seq<Directive> :=
    [Unsigned, Literal('x'), Unsigned, Literal('+'), Signed, Literal('+'), Signed]

  /** parse_rectangle: sscanf(s, "%hux%hu+%hi+%hi") with all four conversions,
      each stored in its 16-bit field. */
  function ParseRectangle(s: string): (r: Option<Geometry.Rect>)
    ensures r.Some? <==> Scanf(s, RectFormat).Some?
    ensures r.Some? ==> Stores(r.value, Scanf(s, RectFormat).value)
  {
    var o := Scanf(s, RectFormat);
    if o.None? then None else Some(RectOf(o.value))
  }

  /** Each field of r holds the matching converted value modulo 2^16. */
  predicate Stores(r: Geometry.Rect, vs: seq<int>)
  {
    |vs| == 4 &&
    (r.width as int - vs[0]) % 0x1_0000 == 0 && (r.height as int - vs[1]) % 0x1_0000 == 0 &&
    (r.x as int - vs[2]) % 0x1_0000 == 0 && (r.y as int - vs[3]) % 0x1_0000 == 0
  }

  /** The rectangle the four values of "%hux%hu+%hi+%hi" are stored into. */
  function RectOf(vs: seq<int>): (r: Geometry.Rect)
    requires |vs| == 4
    ensures Stores(r, vs)
  {
    Geometry.Rect(Geometry.ToInt16(vs[2]), Geometry.ToInt16(vs[3]), ToUInt16(vs[0]), ToUInt16(vs[1]))
  }

  /** "<width>x<height>+<x>+<y>" with the numbers printed in decimal. */
  function RectText(r: Geometry.Rect): string
  {
    Numeric.DecimalString(r.width as nat) + ("x" + (Numeric.DecimalString(r.height as nat)
      + ("+" + (Numeric.IntString(r.x as int) + ("+" + Numeric.IntString(r.y as int))))))
  }

  /** parse_rectangle reads back the geometry it is meant for. */
  lemma ParseRectangleReads(r: Geometry.Rect)
    ensures ParseRectangle(RectText(r)) == Some(r)
  {
    var w, h, x, y := r.width as int, r.height as int, r.x as int, r.y as int;
    var dw, dh := Numeric.DecimalString(w), Numeric.DecimalString(h);
    var dx, dy := Numeric.IntString(x), Numeric.IntString(y);
    var ty := dy + [];
    var tx := dx + (['+'] + ty);
    var th := dh + (['+'] + tx);
    var tw := dw + (['x'] + th);
    var fy := [Signed] + [];
    var fx := [Signed] + ([Literal('+')] + fy);
    var fh := [Unsigned] + ([Literal('+')] + fx);
    var fw := [Unsigned] + ([Literal('x')] + fh);
    ScanfEnd([]);
    ScanSignedReads(y, []);
    ScanfConversion(Signed, dy, [], [], y, []);
    ScanSignedReads(x, ['+'] + ty);
    ScanfLiteral('+', ty, fy);
    ScanfConversion(Signed, dx, ['+'] + ty, [Literal('+')] + fy, x, [y] + []);
    ScanUnsignedReads(h, ['+'] + tx);
    ScanfLiteral('+', tx, fx);
    ScanfConversion(Unsigned, dh, ['+'] + tx, [Literal('+')] + fx, h, [x] + ([y] + []));
    ScanUnsignedReads(w, ['x'] + th);
    ScanfLiteral('x', th, fh);
    ScanfConversion(Unsigned, dw, ['x'] + th, [Literal('x')] + fh, w, [h] + ([x] + ([y] + [])));
    assert Scanf(tw, fw) == Some([w, h, x, y]) by {
      Four(w, h, x, y);
    }
    RectShapes(r, dw, dh, dx, dy, tw, fw);
    ParseRectangleOf(RectText(r), [w, h, x, y], r);
  }

  lemma ParseRectangleOf(s: string, vs: seq<int>, r: Geometry.Rect)
    requires vs == [r.width as int, r.height as int, r.x as int, r.y as int]
    requires Scanf(s, RectFormat) == Some(vs)
    ensures ParseRectangle(s) == Some(r)
  {
  }

  /** The nested forms above are the text and the format as written. */
  lemma RectShapes(r: Geometry.Rect, dw: string, dh: string, dx: string, dy: string, tw: string, fw: seq<Directive>)
    requires dw == Numeric.DecimalString(r.width as nat) && dh == Numeric.DecimalString(r.height as nat)
    requires dx == Numeric.IntString(r.x as int) && dy == Numeric.IntString(r.y as int)
    requires tw == dw + (['x'] + (dh + (['+'] + (dx + (['+'] + (dy + []))))))
    requires fw == [Unsigned] + ([Literal('x')] + ([Unsigned] + ([Literal('+')] + ([Signed] + ([Literal('+')] + ([Signed] + []))))))
    ensures tw == RectText(r) && fw == RectFormat
  {
    assert dy + [] == dy;
  }

  lemma Four(w: int, h: int, x: int, y: int)
    ensures [w] + ([h] + ([x] + ([y] + []))) == [w, h, x, y]
  {
  }

  // ---------------------------------------------------------------------
  // Subscriber masks

  /** The object an event is about: the word before '_' in the event's name. */
  function Group(e: Event): string
  {
    match e
    case Report => "report"
    case PointerActionEvent => "pointer_action"
    case MonitorAdd | MonitorRename | MonitorRemove | MonitorSwap | MonitorFocus | MonitorGeometry => "monitor"
    case DesktopAdd | DesktopRename | DesktopRemove | DesktopSwap | DesktopTransfer | DesktopFocus
      | DesktopActivate | DesktopLayout => "desktop"
    case _ => "node"
  }

  /** What happened to the object: the word after '_' ("" for the two events without one). */
  function Change(e: Event): string
  {
    match e
    case Report => ""
    case PointerActionEvent => ""
    case MonitorAdd | DesktopAdd | NodeAdd => "add"
    case MonitorRename | DesktopRename => "rename"
    case MonitorRemove | DesktopRemove | NodeRemove => "remove"
    case MonitorSwap | DesktopSwap | NodeSwap => "swap"
    case MonitorFocus | DesktopFocus | NodeFocus => "focus"
    case MonitorGeometry | NodeGeometry => "geometry"
    case DesktopTransfer | NodeTransfer => "transfer"
    case DesktopActivate | NodeActivate => "activate"
    case DesktopLayout => "layout"
    case NodePresel => "presel"
    case NodeStack => "stack"
    case NodeState => "state"
    case NodeFlag => "flag"
    case NodeLayer => "layer"
  }

  /** The word parse_subscriber_mask reads for each single event. */
  function EventWord(e: Event): string
  {
    if Change(e) == "" then Group(e) else Group(e) + "_" + Change(e)
  }

  /** SBSC_MASK_MONITOR, SBSC_MASK_DESKTOP and SBSC_MASK_NODE: the events of one object kind. */
  const MonitorEvents: set<Event> :=
    {MonitorAdd, MonitorRename, MonitorRemove, MonitorSwap, MonitorFocus, MonitorGeometry}
  const DesktopEvents: set<Event> :=
    {DesktopAdd, DesktopRename, DesktopRemove, DesktopSwap, DesktopTransfer, DesktopFocus,
     DesktopActivate, DesktopLayout}
  const NodeEvents: set<Event> :=
    {NodeAdd, NodeRemove, NodeSwap, NodeTransfer, NodeFocus, NodePresel, NodeStack, NodeActivate,
     NodeGeometry, NodeState, NodeFlag, NodeLayer}

  /** SBSC_MASK_ALL: every event, the report included. */
  const AllEvents: set<Event> :=
    {Report, PointerActionEvent} + MonitorEvents + DesktopEvents + NodeEvents

  /** The node event named "node_" + t. */
  function NodeEventOf(t: string): (r: Option<Event>)
    ensures r.Some? ==> Group(r.value) == "node" && Change(r.value) == t != ""
  {
    if t == "add" then Some(NodeAdd)
    else if t == "remove" then Some(NodeRemove)
    else if t == "swap" then Some(NodeSwap)
    else if t == "transfer" then Some(NodeTransfer)
    else if t == "focus" then Some(NodeFocus)
    else if t == "presel" then Some(NodePresel)
    else if t == "stack" then Some(NodeStack)
    else if t == "activate" then Some(NodeActivate)
    else if t == "geometry" then Some(NodeGeometry)
    else if t == "state" then Some(NodeState)
    else if t == "flag" then Some(NodeFlag)
    else if t == "layer" then Some(NodeLayer)
    else None
  }

  /** The desktop event named "desktop_" + t. */
  function DesktopEventOf(t: string): (r: Option<Event>)
    ensures r.Some? ==> Group(r.value) == "desktop" && Change(r.value) == t != ""
  {
    if t == "add" then Some(DesktopAdd)
    else if t == "rename" then Some(DesktopRename)
    else if t == "remove" then Some(DesktopRemove)
    else if t == "swap" then Some(DesktopSwap)
    else if t == "transfer" then Some(DesktopTransfer)
    else if t == "focus" then Some(DesktopFocus)
    else if t == "activate" then Some(DesktopActivate)
    else if t == "layout" then Some(DesktopLayout)
    else None
  }

  /** The monitor event named "monitor_" + t. */
  function MonitorEventOf(t: string): (r: Option<Event>)
    ensures r.Some? ==> Group(r.value) == "monitor" && Change(r.value) == t != ""
  {
    if t == "add" then Some(MonitorAdd)
    else if t == "rename" then Some(MonitorRename)
    else if t == "remove" then Some(MonitorRemove)
    else if t == "swap" then Some(MonitorSwap)
    else if t == "focus" then Some(MonitorFocus)
    else if t == "geometry" then Some(MonitorGeometry)
    else None
  }

  /** The single event a word names, found by the word's object prefix. */
  function EventOf(s: string): (r: Option<Event>)
  {
    if |s| >= 5 && s[..5] == "node_" then NodeEventOf(s[5..])
    else if |s| >= 8 && s[..8] == "desktop_" then DesktopEventOf(s[8..])
    else if |s| >= 8 && s[..8] == "monitor_" then MonitorEventOf(s[8..])
    else if s == "pointer_action" then Some(PointerActionEvent)
    else if s == "report" then Some(Report)
    else None
  }

  /** parse_subscriber_mask */
  function ParseSubscriberMask(s: string): (r: Option<set<Event>>)
    ensures r.Some? ==> r.value != {}
  {
    if s == "all" then Some(AllEvents)
    else if s == "node" then Some(NodeEvents)
    else if s == "desktop" then Some(DesktopEvents)
    else if s == "monitor" then Some(MonitorEvents)
    else match EventOf(s)
      case Some(e) => Some({e})
      case None => None
  }

  /** Splitting a word after its object prefix. */
  lemma PrefixSplit(g: string, t: string)
    ensures (g + "_" + t)[..|g| + 1] == g + "_" && (g + "_" + t)[|g| + 1..] == t
  {
  }

  /** A word that EventOf recognises is that event's word. */
  lemma EventOfWord(s: string)
    requires EventOf(s).Some?
    ensures EventWord(EventOf(s).value) == s
  {
    if |s| >= 5 && s[..5] == "node_" {
      PrefixedWord(s, 5, NodeEventOf(s[5..]).value);
    } else if |s| >= 8 && s[..8] == "desktop_" {
      PrefixedWord(s, 8, DesktopEventOf(s[8..]).value);
    } else if |s| >= 8 && s[..8] == "monitor_" {
      PrefixedWord(s, 8, MonitorEventOf(s[8..]).value);
    }
  }

  /** An event whose group and change are the two parts of a word has that word. */
  lemma PrefixedWord(s: string, k: nat, e: Event)
    requires 1 <= k <= |s| && s[k - 1] == '_'
    requires Group(e) == s[..k - 1] && Change(e) == s[k..] != ""
    ensures EventWord(e) == s
  {
    assert s == s[..k - 1] + "_" + s[k..];
  }

  /** Each node event's change word reads back as that event. */
  lemma NodeChangesRead(e: Event)
    requires Group(e) == "node"
    ensures NodeEventOf(Change(e)) == Some(e)
  {
  }

  /** Each desktop event's change word reads back as that event. */
  lemma DesktopChangesRead(e: Event)
    requires Group(e) == "desktop"
    ensures DesktopEventOf(Change(e)) == Some(e)
  {
  }

  /** Each monitor event's change word reads back as that event. */
  lemma MonitorChangesRead(e: Event)
    requires Group(e) == "monitor"
    ensures MonitorEventOf(Change(e)) == Some(e)
  {
  }

  /** A node event's word reads back as that event. */
  lemma NodeWordRead(e: Event)
    requires Group(e) == "node"
    ensures EventOf(EventWord(e)) == Some(e)
  {
    var g, c := Group(e), Change(e);
    NodeChangesRead(e);
    assert EventWord(e) == g + "_" + c;
    PrefixSplit(g, c);
  }

  /** A desktop event's word reads back as that event. */
  lemma DesktopWordRead(e: Event)
    requires Group(e) == "desktop"
    ensures EventOf(EventWord(e)) == Some(e)
  {
    var g, c := Group(e), Change(e);
    DesktopChangesRead(e);
    assert EventWord(e) == g + "_" + c;
    PrefixSplit(g, c);
    assert EventWord(e)[0] == 'd';
  }

  /** A monitor event's word reads back as that event. */
  lemma MonitorWordRead(e: Event)
    requires Group(e) == "monitor"
    ensures EventOf(EventWord(e)) == Some(e)
  {
    var g, c := Group(e), Change(e);
    MonitorChangesRead(e);
    assert EventWord(e) == g + "_" + c;
    PrefixSplit(g, c);
    assert EventWord(e)[0] == 'm';
  }

  /** EventOf reads every event's word back as that event. */
  lemma EventWordRead(e: Event)
    ensures EventOf(EventWord(e)) == Some(e)
  {
    var g := Group(e);
    if g == "node" {
      NodeWordRead(e);
    } else if g == "desktop" {
      DesktopWordRead(e);
    } else if g == "monitor" {
      MonitorWordRead(e);
    } else if e == Report {
      assert EventWord(e)[0] == 'r';
    } else {
      assert e == PointerActionEvent;
      assert EventWord(e)[0] == 'p';
    }
  }

  /** No event's word is one of the four group words. */
  lemma EventWordIsNoGroup(e: Event)
    ensures EventWord(e) !in {"all", "node", "desktop", "monitor"}
  {
    var g, c := Group(e), Change(e);
    if g == "node" {
      NodeChangesRead(e);
      assert EventWord(e) == g + "_" + c;
      assert |EventWord(e)| > 5;
    } else if g == "desktop" {
      DesktopChangesRead(e);
      assert EventWord(e) == g + "_" + c;
      assert |EventWord(e)| > 8;
    } else if g == "monitor" {
      MonitorChangesRead(e);
      assert EventWord(e) == g + "_" + c;
      assert |EventWord(e)| > 8;
    }
  }

  /** Each event's own word subscribes to that event alone. */
  lemma EventWordsSubscribe(e: Event)
    ensures ParseSubscriberMask(EventWord(e)) == Some({e})
  {
    EventWordIsNoGroup(e);
    EventWordRead(e);
  }

  /** parse_subscriber_mask accepts exactly the four group words and the events' own words. */
  lemma SubscriberMaskWords(s: string)
    ensures ParseSubscriberMask(s).Some? <==>
      s in {"all", "node", "desktop", "monitor"} || exists e :: EventWord(e) == s
  {
    if e :| EventWord(e) == s {
      EventWordsSubscribe(e);
    }
    if EventOf(s).Some? {
      EventOfWord(s);
    }
  }

  /** A group word subscribes to exactly the events about that object; "all" to every event. */
  lemma GroupMasks(e: Event)
    ensures e in ParseSubscriberMask("node").value <==> Group(e) == "node"
    ensures e in ParseSubscriberMask("desktop").value <==> Group(e) == "desktop"
    ensures e in ParseSubscriberMask("monitor").value <==> Group(e) == "monitor"
    ensures e in ParseSubscriberMask("all").value
  {
    assert ParseSubscriberMask("all") == Some(AllEvents);
    assert ParseSubscriberMask("node") == Some(NodeEvents);
    assert ParseSubscriberMask("desktop") == Some(DesktopEvents);
    assert ParseSubscriberMask("monitor") == Some(MonitorEvents);
    NodeMembers(e);
    DesktopMembers(e);
    MonitorMembers(e);
  }

  /** The node mask holds exactly the node events. */
  lemma NodeMembers(e: Event)
    ensures e in NodeEvents <==> Group(e) == "node"
  {
    match e
    case Report =>
    case PointerActionEvent =>
    case MonitorAdd | MonitorRename | MonitorRemove | MonitorSwap | MonitorFocus | MonitorGeometry =>
    case DesktopAdd | DesktopRename | DesktopRemove | DesktopSwap | DesktopTransfer | DesktopFocus
      | DesktopActivate | DesktopLayout =>
    case _ =>
  }

  /** The desktop mask holds exactly the desktop events. */
  lemma DesktopMembers(e: Event)
    ensures e in DesktopEvents <==> Group(e) == "desktop"
  {
    match e
    case DesktopAdd | DesktopRename | DesktopRemove | DesktopSwap | DesktopTransfer | DesktopFocus
      | DesktopActivate | DesktopLayout =>
    case _ =>
  }

  /** The monitor mask holds exactly the monitor events. */
  lemma MonitorMembers(e: Event)
    ensures e in MonitorEvents <==> Group(e) == "monitor"
  {
    match e
    case MonitorAdd | MonitorRename | MonitorRemove | MonitorSwap | MonitorFocus | MonitorGeometry =>
    case _ =>
  }

  // ---------------------------------------------------------------------
  // KEY=VALUE boolean declarations

  /**
   * What parse_bool_declaration reports: the first '='-token as the key
   * (None when the text has no token at all, strtok's NULL), whether the
   * value is set or toggled, and the value when one is given.
   */
  datatype BoolDeclaration = BoolDeclaration(key: Option<string>, state: AlterState, value: Option<bool>)

  /** parse_bool_declaration: tokens after the second are ignored, as strtok is not called again. */
  function ParseBoolDeclaration(s: string): (r: Option<BoolDeclaration>)
    ensures r.Some? ==> (r.value.state == AlterSet <==> r.value.value.Some?)
    ensures r.Some? && r.value.key.Some? ==> |r.value.key.value| > 0 && '=' !in r.value.key.value
    ensures r.Some? && r.value.key.None? ==> r.value.state == AlterToggle && forall i | 0 <= i < |s| :: s[i] == '='
    ensures r.None? ==> |Tokens(s, '=')| >= 2
  {
    var ts := Tokens(s, '=');
    var key := if |ts| > 0 then Some(ts[0]) else None;
    if |ts| < 2 then
      NoTokensAllDelimiters(s, '=');
      Some(BoolDeclaration(key, AlterToggle, None))
    else match ParseBool(ts[1])
      case Some(b) => Some(BoolDeclaration(key, AlterSet, Some(b)))
      case None => None
  }

  /** "KEY=true" and "KEY=false" set KEY to that value. */
  lemma BoolDeclarationSets(k: string, b: bool)
    requires |k| > 0 && '=' !in k
    ensures ParseBoolDeclaration(k + "=" + BoolStr(b)) == Some(BoolDeclaration(Some(k), AlterSet, Some(b)))
  {
    var ts := [k, BoolStr(b)];
    assert JoinWith(ts, '=') == k + "=" + BoolStr(b) by {
      assert ts[1..] == [BoolStr(b)];
    }
    TokensJoin(ts, '=');
  }

  /** A bare KEY toggles it. */
  lemma BoolDeclarationToggles(k: string)
    requires |k| > 0 && '=' !in k
    ensures ParseBoolDeclaration(k) == Some(BoolDeclaration(Some(k), AlterToggle, None))
  {
    TokensPiece(k, '=', []);
    assert k + [] == k;
  }

  /** A second token that is not a boolean word is refused. */
  lemma BoolDeclarationRefuses(k: string, v: string)
    requires |k| > 0 && '=' !in k && |v| > 0 && '=' !in v
    requires ParseBool(v).None?
    ensures ParseBoolDeclaration(k + "=" + v).None?
  {
    var ts := [k, v];
    assert JoinWith(ts, '=') == k + "=" + v by {
      assert ts[1..] == [v];
    }
    TokensJoin(ts, '=');
  }

  // ---------------------------------------------------------------------
  // Selector modifiers

  /** option_bool_t: a selector condition that is unset, required, or required false. */
  datatype OptionBool = OptionNone | OptionTrue | OptionFalse

  /**
   * A selector's modifier fields, by name (the members of monitor_select_t,
   * desktop_select_t or node_select_t); a name without an entry keeps
   * whatever the caller had put there.
   */
  type Selection = map<string, OptionBool>

  /** The modifier names of monitor_select_t. */
  const MonitorModifiers: set<string> := {"occupied", "focused"}

  /** The modifier names of desktop_select_t. */
  const DesktopModifiers: set<string> :=
    {"occupied", "focused", "active", "urgent", "local", "tiled", "monocle", "user_tiled", "user_monocle"}

  /** The modifier names of node_select_t. */
  const NodeModifiers: set<string> :=
    {"tiled", "automatic", "focused", "active", "local", "leaf", "window", "pseudo_tiled", "floating",
     "fullscreen", "hidden", "sticky", "private", "locked", "marked", "urgent", "same_class",
     "descendant_of", "ancestor_of", "below", "normal", "above", "horizontal", "vertical"}

  /** strrchr: the position of the last c in s. */
  function LastIndex(s: string, c: char): (r: Option<nat>)
    ensures r.Some? ==> r.value < |s| && s[r.value] == c && forall j | r.value < j < |s| :: s[j] != c
    ensures r.None? ==> c !in s
  {
    if |s| == 0 then None
    else if s[|s| - 1] == c then Some(|s| - 1)
    else
      var r := LastIndex(s[..|s| - 1], c);
      assert r.None? ==> forall j | 0 <= j < |s| - 1 :: s[j] != c;
      r
  }

  /** One modifier token: NAME sets the field to OPTION_TRUE and !NAME to OPTION_FALSE. */
  function Setting(tok: string, names: set<string>): (r: Option<(string, OptionBool)>)
    ensures r.Some? ==> r.value.0 in names && r.value.1 != OptionNone
    ensures r.Some? ==> tok == (if r.value.1 == OptionTrue then r.value.0 else "!" + r.value.0)
  {
    if tok in names then Some((tok, OptionTrue))
    else if |tok| > 0 && tok[0] == '!' && tok[1..] in names then
      assert tok == "!" + tok[1..];
      Some((tok[1..], OptionFalse))
    else None
  }

  /**
   * The loop of parse_*_modifiers, one token at a time from the right: the
   * text after the last '.' is a modifier, the description is cut there,
   * and an unknown modifier stops the parse with the description cut and
   * the selection as far as it got.
   */
  function Peel(desc: string, names: set<string>, sel: Selection): (bool, string, Selection)
    decreases |desc|
  {
    match LastIndex(desc, '.')
    case None => (true, desc, sel)
    case Some(k) =>
      match Setting(desc[k + 1..], names)
      case None => (false, desc[..k], sel)
      case Some((n, v)) => Peel(desc[..k], names, sel[n := v])
  }

  /** The '.'-separated fields of a description, the selector itself first. */
  function Fields(d: string): (fs: seq<string>)
    ensures |fs| > 0
    decreases |d|
  {
    match LastIndex(d, '.')
    case None => [d]
    case Some(k) => Fields(d[..k]) + [d[k + 1..]]
  }

  /** Every modifier field is one of the names, possibly negated. */
  predicate AllSettings(fs: seq<string>, names: set<string>)
  {
    forall i | 0 <= i < |fs| :: Setting(fs[i], names).Some?
  }

  /** The settings applied from the last field to the first, so the first mention of a name wins. */
  function Applied(sel: Selection, fs: seq<string>, names: set<string>): Selection
    requires AllSettings(fs, names)
  {
    if fs == [] then sel
    else
      var (n, v) := Setting(fs[0], names).value;
      Applied(sel, fs[1..], names)[n := v]
  }

  /**
   * parse_monitor_modifiers, parse_desktop_modifiers and parse_node_modifiers
   * share this loop; each passes its own modifier names.  The description is
   * returned cut where the source leaves it cut.
   */
  method ParseModifiers(desc0: string, names: set<string>, sel0: Selection)
    returns (ok: bool, desc: string, sel: Selection)
    ensures (ok, desc, sel) == Peel(desc0, names, sel0)
  {
    desc, sel := desc0, sel0;
    while true
      invariant Peel(desc, names, sel) == Peel(desc0, names, sel0)
      decreases |desc|
    {
      var k := LastIndex(desc, '.');
      if k.None? {
        return true, desc, sel;
      }
      var tok := desc[k.value + 1..];
      desc := desc[..k.value];
      var setting := Setting(tok, names);
      if setting.None? {
        return false, desc, sel;
      }
      sel := sel[setting.value.0 := setting.value.1];
    }
  }

  /** parse_monitor_modifiers */
  method ParseMonitorModifiers(desc0: string, sel0: Selection) returns (ok: bool, desc: string, sel: Selection)
    ensures (ok, desc, sel) == Peel(desc0, MonitorModifiers, sel0)
  {
    ok, desc, sel := ParseModifiers(desc0, MonitorModifiers, sel0);
  }

  /** parse_desktop_modifiers */
  method ParseDesktopModifiers(desc0: string, sel0: Selection) returns (ok: bool, desc: string, sel: Selection)
    ensures (ok, desc, sel) == Peel(desc0, DesktopModifiers, sel0)
  {
    ok, desc, sel := ParseModifiers(desc0, DesktopModifiers, sel0);
  }

  /** parse_node_modifiers */
  method ParseNodeModifiers(desc0: string, sel0: Selection) returns (ok: bool, desc: string, sel: Selection)
    ensures (ok, desc, sel) == Peel(desc0, NodeModifiers, sel0)
  {
    ok, desc, sel := ParseModifiers(desc0, NodeModifiers, sel0);
  }

  /** Applying one more field at the end is applying it first. */
  lemma {:induction false} AppliedSnoc(sel: Selection, fs: seq<string>, t: string, names: set<string>)
    requires AllSettings(fs, names) && Setting(t, names).Some?
    ensures AllSettings(fs + [t], names)
    ensures Applied(sel, fs + [t], names) ==
      Applied(sel[Setting(t, names).value.0 := Setting(t, names).value.1], fs, names)
    decreases |fs|
  {
    var gs := fs + [t];
    assert forall i | 0 <= i < |gs| :: gs[i] == if i < |fs| then fs[i] else t;
    if fs != [] {
      assert gs[1..] == fs[1..] + [t];
      assert AllSettings(fs[1..], names) by {
        assert forall i | 0 <= i < |fs| - 1 :: fs[1..][i] == fs[i + 1];
      }
      AppliedSnoc(sel, fs[1..], t, names);
    }
  }

  /**
   * The modifier parsers succeed exactly when every field after the first is
   * a modifier; then the description is cut to its first field and the
   * selection holds the modifiers applied so that the first mention wins.
   */
  lemma {:induction false} PeelFields(desc: string, names: set<string>, sel: Selection)
    ensures Peel(desc, names, sel).0 <==> AllSettings(Fields(desc)[1..], names)
    ensures Peel(desc, names, sel).0 ==> Peel(desc, names, sel).1 == Fields(desc)[0]
    ensures Peel(desc, names, sel).0 ==> Peel(desc, names, sel).2 == Applied(sel, Fields(desc)[1..], names)
    decreases |desc|
  {
    match LastIndex(desc, '.')
    case None =>
    case Some(k) =>
      var head, tok := desc[..k], desc[k + 1..];
      var fs := Fields(head);
      assert Fields(desc) == fs + [tok];
      assert Fields(desc)[1..] == fs[1..] + [tok];
      match Setting(tok, names)
      case None =>
        assert !Setting(Fields(desc)[1..][|fs| - 1], names).Some?;
      case Some((n, v)) =>
        PeelFields(head, names, sel[n := v]);
        if AllSettings(fs[1..], names) {
          AppliedSnoc(sel, fs[1..], tok, names);
        } else {
          assert !AllSettings(Fields(desc)[1..], names) by {
            var i :| 0 <= i < |fs[1..]| && !Setting(fs[1..][i], names).Some?;
            assert Fields(desc)[1..][i] == fs[1..][i];
          }
        }
  }

  /** The value the first field that names n gives it, if any does. */
  function FirstMention(fs: seq<string>, names: set<string>, n: string): Option<OptionBool>
    requires AllSettings(fs, names)
  {
    if fs == [] then None
    else if Setting(fs[0], names).value.0 == n then Some(Setting(fs[0], names).value.1)
    else FirstMention(fs[1..], names, n)
  }

  /** A name takes the value of its first mention; a name not mentioned keeps its entry. */
  lemma {:induction false} AppliedFirstMention(sel: Selection, fs: seq<string>, names: set<string>, n: string)
    requires AllSettings(fs, names)
    ensures FirstMention(fs, names, n).Some? ==>
      n in Applied(sel, fs, names) && Applied(sel, fs, names)[n] == FirstMention(fs, names, n).value
    ensures FirstMention(fs, names, n).None? ==>
      (n in Applied(sel, fs, names) <==> n in sel) &&
      (n in sel ==> Applied(sel, fs, names)[n] == sel[n])
    decreases |fs|
  {
    if fs != [] {
      assert AllSettings(fs[1..], names) by {
        assert forall i | 0 <= i < |fs| - 1 :: fs[1..][i] == fs[i + 1];
      }
      AppliedFirstMention(sel, fs[1..], names, n);
    }
  }
}
