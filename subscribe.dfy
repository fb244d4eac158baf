/**
 * The subscriber registry of subscribe.c: an ordered list of output streams,
 * each with the event categories it asked for and a message budget, the
 * broadcast that feeds them, and the status report they can be sent.
 *
 * Streams are named by their descriptor. Whether a write (or the zero-length
 * probe of prune_dead_subscribers) succeeds is given to each operation as a
 * boolean per subscriber, in list order.
 */
module Subscribe {
  import opened Types
  import opened Wrappers
  import Helpers

  /**
   * subscriber_list_t without its links. A negative count means "no limit";
   * a subscriber whose count is zero is removed at its next delivery.
   */
  datatype Subscriber = Subscriber(stream: nat, fifoPath: Option<string>, field: set<Event>, count: int)

  /** One message written (and flushed) to a subscriber's stream. */
  datatype Write = Write(stream: nat, payload: string)

  /**
   * What remove_subscriber does to the stream: while the daemon restarts it
   * only clears close-on-exec so the stream survives; otherwise it closes the
   * stream and unlinks the FIFO.
   */
  datatype Release = KeepAcrossRestart(stream: nat) | CloseAndUnlink(stream: nat, fifoPath: Option<string>)

  function ReleaseOf(sb: Subscriber, restart: bool): (r: Release)
    ensures r.stream == sb.stream
    ensures r.KeepAcrossRestart? <==> restart
    ensures r.CloseAndUnlink? ==> r.fifoPath == sb.fifoPath
  {
    if restart then KeepAcrossRestart(sb.stream) else CloseAndUnlink(sb.stream, sb.fifoPath)
  }

  /** `sb->field & mask` is non-zero. */
  predicate Wants(sb: Subscriber, mask: set<Event>)
  {
    sb.field * mask != {}
  }

  /** The budget after one delivery: a positive count drops by one, zero and a negative count stay as they are. */
  function Spent(count: int): int
  {
    if count > 0 then count - 1 else count
  }

  /** put_status removes a subscriber it writes to when the write failed or the budget is used up. */
  predicate Removed(sb: Subscriber, mask: set<Event>, ok: bool)
  {
    Wants(sb, mask) && (!ok || Spent(sb.count) == 0)
  }

  /** What put_status leaves of one subscriber, given whether writing to it succeeded. */
  function Dispatch(sb: Subscriber, mask: set<Event>, ok: bool): seq<Subscriber>
  {
    if !Wants(sb, mask) then [sb]
    else if Removed(sb, mask, ok) then []
    else [sb.(count := Spent(sb.count))]
  }

  /** A report is sent when the mask is exactly the report category, the message otherwise. */
  function Payload(mask: set<Event>, message: string, report: string): (p: string)
    ensures p == message || p == report
    ensures Report !in mask ==> p == message
    ensures mask == {Report} ==> p == report
  {
    if mask == {Report} then report else message
  }

  /**
   * The subscriber list after put_status has visited the first `n`
   * subscribers of `l`; `ok[i]` says whether writing to `l[i]` succeeded.
   */
  function Kept(l: seq<Subscriber>, mask: set<Event>, ok: seq<bool>, n: nat): seq<Subscriber>
    requires n <= |l| == |ok|
  {
    if n == 0 then [] else Kept(l, mask, ok, n - 1) + Dispatch(l[n - 1], mask, ok[n - 1])
  }

  /** The messages put_status writes to the first `n` subscribers, in list order. */
  function Sent(l: seq<Subscriber>, mask: set<Event>, payload: string, n: nat): seq<Write>
    requires n <= |l|
  {
    if n == 0 then []
    else Sent(l, mask, payload, n - 1) + (if Wants(l[n - 1], mask) then [Write(l[n - 1].stream, payload)] else [])
  }

  /** The streams put_status releases among the first `n` subscribers, in list order. */
  function Dropped(l: seq<Subscriber>, mask: set<Event>, ok: seq<bool>, restart: bool, n: nat): seq<Release>
    requires n <= |l| == |ok|
  {
    if n == 0 then []
    else
      var sb := l[n - 1];
      Dropped(l, mask, ok, restart, n - 1)
        + (if Removed(sb, mask, ok[n - 1]) then [ReleaseOf(sb, restart)] else [])
  }

  /** The first `n` subscribers after prune_dead_subscribers; `alive[i]` says whether `l[i]`'s probe succeeded. */
  function Survivors(l: seq<Subscriber>, alive: seq<bool>, n: nat): seq<Subscriber>
    requires n <= |l| == |alive|
  {
    if n == 0 then [] else Survivors(l, alive, n - 1) + (if alive[n - 1] then [l[n - 1]] else [])
  }

  /** The streams prune_dead_subscribers releases among the first `n` subscribers, in list order. */
  function Pruned(l: seq<Subscriber>, alive: seq<bool>, restart: bool, n: nat): seq<Release>
    requires n <= |l| == |alive|
  {
    if n == 0 then [] else Pruned(l, alive, restart, n - 1) + (if alive[n - 1] then [] else [ReleaseOf(l[n - 1], restart)])
  }

  /**
   * put_status treats each subscriber on its own: a subscriber survives, with
   * its budget spent, exactly when it did not want the message, or when the
   * write succeeded and its budget is not used up.
   */
  lemma {:induction false} KeptMembers(l: seq<Subscriber>, mask: set<Event>, ok: seq<bool>, n: nat)
    requires n <= |l| == |ok|
    ensures forall x :: x in Kept(l, mask, ok, n) <==> exists i | 0 <= i < n :: x in Dispatch(l[i], mask, ok[i])
  {
    if n > 0 {
      KeptMembers(l, mask, ok, n - 1);
    }
  }

  /** Every visited subscriber is either kept or released by put_status, never both and never twice. */
  lemma {:induction false} KeptOrDropped(l: seq<Subscriber>, mask: set<Event>, ok: seq<bool>, restart: bool, n: nat)
    requires n <= |l| == |ok|
    ensures |Kept(l, mask, ok, n)| + |Dropped(l, mask, ok, restart, n)| == n
  {
    if n > 0 {
      KeptOrDropped(l, mask, ok, restart, n - 1);
    }
  }

  /** put_status writes the payload to exactly the subscribers that want the mask. */
  lemma {:induction false} SentMembers(l: seq<Subscriber>, mask: set<Event>, payload: string, n: nat)
    requires n <= |l|
    ensures forall w :: w in Sent(l, mask, payload, n) <==>
      exists i | 0 <= i < n :: Wants(l[i], mask) && w == Write(l[i].stream, payload)
  {
    if n > 0 {
      SentMembers(l, mask, payload, n - 1);
    }
  }

  /** A subscriber whose budget reached zero is gone after put_status, so no kept budget is zero. */
  lemma NoSpentSubscriber(l: seq<Subscriber>, mask: set<Event>, ok: seq<bool>)
    requires |l| == |ok|
    requires forall i | 0 <= i < |l| :: l[i].count != 0
    ensures forall x | x in Kept(l, mask, ok, |l|) :: x.count != 0
  {
    KeptMembers(l, mask, ok, |l|);
  }

  /** prune_dead_subscribers keeps exactly the subscribers whose probe succeeded, and releases the rest. */
  lemma {:induction false} SurvivorsMembers(l: seq<Subscriber>, alive: seq<bool>, restart: bool, n: nat)
    requires n <= |l| == |alive|
    ensures forall x :: x in Survivors(l, alive, n) <==> exists i | 0 <= i < n :: alive[i] && l[i] == x
    ensures |Survivors(l, alive, n)| + |Pruned(l, alive, restart, n)| == n
  {
    if n > 0 {
      SurvivorsMembers(l, alive, restart, n - 1);
    }
  }

  /** The focused node's fields print_report shows. */
  datatype Focus = Focus(client: Option<ClientState>, sticky: bool, private: bool, locked: bool, marked: bool)

  /** The desktop fields print_report shows; `occupied` is `root != NULL`. */
  datatype Desktop = Desktop(name: string, urgent: bool, occupied: bool, layout: Layout, focus: Option<Focus>)

  /** A monitor with its desktops in order; `active` is the index of `m->desk`, if any. */
  datatype Monitor = Monitor(name: string, desktops: seq<Desktop>, active: Option<nat>)

  /** `m->desk` is one of m's desktops. */
  predicate WellFormed(m: Monitor)
  {
    m.active.Some? ==> m.active.value < |m.desktops|
  }

  /** The desktop letter: urgent before free before occupied, upper case for the active desktop. */
  function DesktopChr(d: Desktop, isActive: bool): (c: char)
    ensures c in "ufoUFO"
    ensures (c in "UFO") <==> isActive
    ensures (c == 'u' || c == 'U') <==> d.urgent
    ensures (c == 'f' || c == 'F') <==> !d.urgent && !d.occupied
  {
    var c := if d.urgent then 'u' else if !d.occupied then 'f' else 'o';
    if isActive then (c as int - 32) as char else c
  }

  /** The `:G` flags: S, P, L, M for sticky, private, locked, marked, in that order. */
  function Flags(f: Focus): (s: string)
    ensures |s| <= 4
    ensures ('S' in s <==> f.sticky) && ('P' in s <==> f.private) && ('L' in s <==> f.locked) && ('M' in s <==> f.marked)
    ensures |s| == (if f.sticky then 1 else 0) + (if f.private then 1 else 0) + (if f.locked then 1 else 0)
                   + (if f.marked then 1 else 0)
  {
    (if f.sticky then "S" else "") + (if f.private then "P" else "") + (if f.locked then "L" else "")
      + (if f.marked then "M" else "")
  }

  function FocusChr(f: Focus): char
  {
    match f.client
    case None => '@'
    case Some(s) => Helpers.StateChr(s)
  }

  /** The `:<letter><name>` fields of m's desktops from index i on. */
  function DesktopsText(m: Monitor, i: nat): string
    decreases |m.desktops| - i
  {
    if i >= |m.desktops| then ""
    else ":" + [DesktopChr(m.desktops[i], m.active == Some(i))] + m.desktops[i].name + DesktopsText(m, i + 1)
  }

  /** The layout, state and flag fields of m's active desktop. */
  function ActiveText(m: Monitor): string
    requires WellFormed(m)
  {
    match m.active
    case None => ""
    case Some(a) =>
      var d := m.desktops[a];
      ":L" + [Helpers.LayoutChr(d.layout)]
        + match d.focus
          case None => ""
          case Some(f) => ":T" + [FocusChr(f)] + ":G" + Flags(f)
  }

  function MonitorText(m: Monitor, isFocused: bool): string
    requires WellFormed(m)
  {
    [if isFocused then 'M' else 'm'] + m.name + DesktopsText(m, 0) + ActiveText(m)
  }

  /** The monitors from index i on, separated by ':'. */
  function MonitorsText(ms: seq<Monitor>, i: nat, focused: Option<nat>): string
    requires forall m | m in ms :: WellFormed(m)
    decreases |ms| - i
  {
    if i >= |ms| then ""
    else MonitorText(ms[i], focused == Some(i)) + (if i + 1 < |ms| then ":" else "") + MonitorsText(ms, i + 1, focused)
  }

  /** print_report: the line written to a report subscriber; `focused` is the index of `mon`. */
  function ReportText(prefix: string, ms: seq<Monitor>, focused: Option<nat>): (r: string)
    requires forall m | m in ms :: WellFormed(m)
    ensures |r| > |prefix| && r[..|prefix|] == prefix && r[|r| - 1] == '\n'
  {
    var r := prefix + MonitorsText(ms, 0, focused) + "\n";
    assert r[..|prefix|] == prefix;
    r
  }

  /** The ':'-separated fields of the report, one list per monitor. */
  function DesktopItems(m: Monitor, i: nat): seq<string>
    decreases |m.desktops| - i
  {
    if i >= |m.desktops| then []
    else [[DesktopChr(m.desktops[i], m.active == Some(i))] + m.desktops[i].name] + DesktopItems(m, i + 1)
  }

  function ActiveItems(m: Monitor): seq<string>
    requires WellFormed(m)
  {
    match m.active
    case None => []
    case Some(a) =>
      var d := m.desktops[a];
      ["L" + [Helpers.LayoutChr(d.layout)]]
        + match d.focus
          case None => []
          case Some(f) => ["T" + [FocusChr(f)], "G" + Flags(f)]
  }

  function MonitorItems(m: Monitor, isFocused: bool): seq<string>
    requires WellFormed(m)
  {
    [[if isFocused then 'M' else 'm'] + m.name] + DesktopItems(m, 0) + ActiveItems(m)
  }

  function ReportItems(ms: seq<Monitor>, i: nat, focused: Option<nat>): seq<string>
    requires forall m | m in ms :: WellFormed(m)
    decreases |ms| - i
  {
    if i >= |ms| then [] else MonitorItems(ms[i], focused == Some(i)) + ReportItems(ms, i + 1, focused)
  }

  /** Each item preceded by ':'. */
  function Prefixed(items: seq<string>): string
  {
    if items == [] then "" else ":" + items[0] + Prefixed(items[1..])
  }

  /** The items separated by ':'. */
  function Join(items: seq<string>): string
  {
    if items == [] then "" else items[0] + Prefixed(items[1..])
  }

  /** The fields of `s` between ':' separators (a string without ':' is one field). */
  function Split(s: string): (r: seq<string>)
    ensures |r| > 0
  {
    if s == [] then [""]
    else
      var t := Split(s[1..]);
      if s[0] == ':' then [""] + t else [[s[0]] + t[0]] + t[1..]
  }

  lemma {:induction false} PrefixedAppend(a: seq<string>, b: seq<string>)
    ensures Prefixed(a + b) == Prefixed(a) + Prefixed(b)
    decreases |a|
  {
    if a == [] {
      assert a + b == b;
    } else {
      assert (a + b)[1..] == a[1..] + b;
      PrefixedAppend(a[1..], b);
    }
  }

  lemma {:induction false} DesktopsPrefixed(m: Monitor, i: nat)
    ensures DesktopsText(m, i) == Prefixed(DesktopItems(m, i))
    decreases |m.desktops| - i
  {
    if i < |m.desktops| {
      DesktopsPrefixed(m, i + 1);
    }
  }

  lemma ActivePrefixed(m: Monitor)
    requires WellFormed(m)
    ensures ActiveText(m) == Prefixed(ActiveItems(m))
  {
    if m.active.Some? {
      var d := m.desktops[m.active.value];
      var l := "L" + [Helpers.LayoutChr(d.layout)];
      if d.focus.Some? {
        var f := d.focus.value;
        var t, g := "T" + [FocusChr(f)], "G" + Flags(f);
        assert Prefixed(ActiveItems(m)) == ":" + l + (":" + t + (":" + g)) by {
          assert ActiveItems(m) == [l, t, g];
          assert Prefixed([g]) == ":" + g by {
            assert [g][1..] == [];
          }
          assert Prefixed([t, g]) == ":" + t + (":" + g) by {
            assert [t, g][1..] == [g];
          }
          assert [l, t, g][1..] == [t, g];
        }
        assert ActiveText(m) == ":L" + [Helpers.LayoutChr(d.layout)] + (":T" + [FocusChr(f)] + ":G" + Flags(f));
      } else {
        assert Prefixed([l]) == ":" + l by {
          assert [l][1..] == [];
        }
        assert ActiveItems(m) == [l];
      }
    }
  }

  lemma MonitorJoined(m: Monitor, isFocused: bool)
    requires WellFormed(m)
    ensures MonitorText(m, isFocused) == Join(MonitorItems(m, isFocused))
  {
    var h := [if isFocused then 'M' else 'm'] + m.name;
    var di, ai := DesktopItems(m, 0), ActiveItems(m);
    PrefixedAppend(di, ai);
    DesktopsPrefixed(m, 0);
    ActivePrefixed(m);
    JoinHead(h, di, ai, DesktopsText(m, 0), ActiveText(m));
  }

  /** A head followed by two runs of items joins to the head and the two prefixed texts. */
  lemma JoinHead(h: string, di: seq<string>, ai: seq<string>, d: string, a: string)
    requires Prefixed(di + ai) == Prefixed(di) + Prefixed(ai)
    requires Prefixed(di) == d && Prefixed(ai) == a
    ensures Join([h] + di + ai) == h + d + a
  {
    var items := [h] + di + ai;
    assert items[1..] == di + ai;
    assert Join(items) == h + Prefixed(di + ai);
    Assoc3(h, d, a);
  }

  lemma Assoc3(x: string, y: string, z: string)
    ensures x + y + z == x + (y + z)
  {
  }

  lemma Assoc(w: string, x: string, y: string, z: string)
    ensures w + x + y + z == w + (x + (y + z))
  {
  }

  lemma JoinCons(a: seq<string>, b: seq<string>)
    requires |a| > 0
    ensures Join(a + b) == a[0] + (Prefixed(a[1..]) + Prefixed(b))
  {
    assert (a + b)[0] == a[0] && (a + b)[1..] == a[1..] + b;
    PrefixedAppend(a[1..], b);
  }

  lemma PrefixedJoin(b: seq<string>)
    requires |b| > 0
    ensures Prefixed(b) == ":" + Join(b)
  {
    var x, y, z := ":", b[0], Prefixed(b[1..]);
    assert Prefixed(b) == x + y + z;
    Assoc3(x, y, z);
    assert Join(b) == y + z;
  }

  lemma MonitorsUnfold(ms: seq<Monitor>, i: nat, focused: Option<nat>)
    requires forall m | m in ms :: WellFormed(m)
    requires i < |ms|
    ensures MonitorsText(ms, i, focused)
      == MonitorText(ms[i], focused == Some(i)) + (if i + 1 < |ms| then ":" else "") + MonitorsText(ms, i + 1, focused)
    ensures ReportItems(ms, i, focused) == MonitorItems(ms[i], focused == Some(i)) + ReportItems(ms, i + 1, focused)
    ensures |ReportItems(ms, i, focused)| > 0
  {
  }

  lemma {:induction false} MonitorsJoined(ms: seq<Monitor>, i: nat, focused: Option<nat>)
    requires forall m | m in ms :: WellFormed(m)
    ensures MonitorsText(ms, i, focused) == Join(ReportItems(ms, i, focused))
    decreases |ms| - i
  {
    if i < |ms| {
      var a := MonitorItems(ms[i], focused == Some(i));
      var b := ReportItems(ms, i + 1, focused);
      var sep: string := if i + 1 < |ms| then ":" else "";
      MonitorsJoined(ms, i + 1, focused);
      MonitorJoined(ms[i], focused == Some(i));
      JoinCons(a, b);
      if i + 1 < |ms| {
        MonitorsUnfold(ms, i + 1, focused);
        PrefixedJoin(b);
      }
      MonitorsUnfold(ms, i, focused);
      Assoc(a[0], Prefixed(a[1..]), sep, MonitorsText(ms, i + 1, focused));
    }
  }

  /** print_report writes the prefix, the report's fields separated by ':', and a newline. */
  lemma ReportLayout(prefix: string, ms: seq<Monitor>, focused: Option<nat>)
    requires forall m | m in ms :: WellFormed(m)
    ensures ReportText(prefix, ms, focused) == prefix + Join(ReportItems(ms, 0, focused)) + "\n"
  {
    MonitorsJoined(ms, 0, focused);
  }

  lemma {:induction false} SplitField(h: string, t: string)
    requires ':' !in h
    ensures Split(h + t) == [h + Split(t)[0]] + Split(t)[1..]
    decreases |h|
  {
    if h != [] {
      assert (h + t)[1..] == h[1..] + t;
      SplitField(h[1..], t);
      assert [h[0]] + (h[1..] + Split(t)[0]) == h + Split(t)[0];
    } else {
      assert h + t == t && h + Split(t)[0] == Split(t)[0];
      assert Split(t) == [Split(t)[0]] + Split(t)[1..];
    }
  }

  /** A reader that splits the report body at ':' gets its fields back when no field holds ':'. */
  lemma {:induction false} SplitJoin(items: seq<string>)
    requires |items| > 0
    requires forall k | 0 <= k < |items| :: ':' !in items[k]
    ensures Split(Join(items)) == items
    decreases |items|
  {
    var h := items[0];
    if |items| == 1 {
      assert items[1..] == [];
      assert items == [h] && Join(items) == h + [];
      SplitField(h, []);
      assert Split([]) == [""] && h + "" == h;
    } else {
      var rest := items[1..];
      assert Join(items) == h + (":" + Join(rest));
      SplitJoin(rest);
      SplitField(h, ":" + Join(rest));
      assert (":" + Join(rest))[1..] == Join(rest);
      assert Split(":" + Join(rest)) == [""] + rest;
      assert h + "" == h && items == [h] + rest;
    }
  }

  /** The three parts of `front + s[k..]` around index `|front|`. */
  lemma Split3<T>(front: seq<T>, s: seq<T>, k: nat)
    requires k < |s|
    ensures var l := front + s[k..];
      && l[..|front|] == front && l[|front|] == s[k] && l[|front| + 1..] == s[k + 1..]
      && l == front + [s[k]] + s[k + 1..]
  {
    var l := front + s[k..];
    assert l[|front| + 1..] == s[k + 1..];
    assert s[k..] == [s[k]] + s[k + 1..];
  }

  /** Replacing the element after `front` in `front + s[k..]` by `d`. */
  lemma Resplice<T>(front: seq<T>, s: seq<T>, k: nat, d: seq<T>, l: seq<T>, l2: seq<T>)
    requires k < |s| && l == front + s[k..]
    requires l2 == l[..|front|] + d + l[|front| + 1..]
    ensures l2 == front + d + s[k + 1..]
  {
    Split3(front, s, k);
  }

  /** The state of put_status's loop after visiting the first `k` subscribers of `s0`. */
  ghost predicate Visited(s0: seq<Subscriber>, mask: set<Event>, ok: seq<bool>, restart: bool, payload: string,
                          k: nat, subs: seq<Subscriber>, j: nat, writes: seq<Write>, released: seq<Release>)
  {
    && k <= |s0| == |ok|
    && subs == Kept(s0, mask, ok, k) + s0[k..] && j == |Kept(s0, mask, ok, k)|
    && writes == Sent(s0, mask, payload, k)
    && released == Dropped(s0, mask, ok, restart, k)
  }

  /** Before the first visit the loop state is the whole list, nothing written and nothing released. */
  lemma VisitStart(s0: seq<Subscriber>, mask: set<Event>, ok: seq<bool>, restart: bool, payload: string)
    requires |s0| == |ok|
    ensures Visited(s0, mask, ok, restart, payload, 0, s0, 0, [], [])
  {
    assert s0[0..] == s0;
  }

  /** While subscribers remain to be visited, the next one sits at index `j`. */
  lemma VisitAt(s0: seq<Subscriber>, mask: set<Event>, ok: seq<bool>, restart: bool, payload: string, k: nat,
                subs: seq<Subscriber>, j: nat, writes: seq<Write>, released: seq<Release>)
    requires Visited(s0, mask, ok, restart, payload, k, subs, j, writes, released) && k < |s0|
    ensures j < |subs| && subs[j] == s0[k]
  {
    Split3(Kept(s0, mask, ok, k), s0, k);
  }

  /** Once every subscriber is visited, the loop state is put_status's result. */
  lemma VisitDone(s0: seq<Subscriber>, mask: set<Event>, ok: seq<bool>, restart: bool, payload: string,
                  subs: seq<Subscriber>, j: nat, writes: seq<Write>, released: seq<Release>)
    requires Visited(s0, mask, ok, restart, payload, |s0|, subs, j, writes, released)
    ensures subs == Kept(s0, mask, ok, |ok|)
    ensures writes == Sent(s0, mask, payload, |ok|)
    ensures released == Dropped(s0, mask, ok, restart, |ok|)
  {
    assert s0[|s0|..] == [];
  }

  /** Visiting subscriber `k` (at index `j`) as put_status does moves the loop state on by one. */
  lemma VisitNext(s0: seq<Subscriber>, mask: set<Event>, ok: seq<bool>, restart: bool, payload: string, k: nat,
                  subs: seq<Subscriber>, j: nat, writes: seq<Write>, released: seq<Release>,
                  subs2: seq<Subscriber>, j2: nat, w: seq<Write>, r: seq<Release>)
    requires Visited(s0, mask, ok, restart, payload, k, subs, j, writes, released) && k < |s0|
    requires j < |subs| && subs[j] == s0[k]
    requires subs2 == subs[..j] + Dispatch(s0[k], mask, ok[k]) + subs[j + 1..]
    requires w == (if Wants(s0[k], mask) then [Write(s0[k].stream, payload)] else [])
    requires r == (if Removed(s0[k], mask, ok[k]) then [ReleaseOf(s0[k], restart)] else [])
    requires j2 == j + |Dispatch(s0[k], mask, ok[k])|
    ensures Visited(s0, mask, ok, restart, payload, k + 1, subs2, j2, writes + w, released + r)
  {
    Resplice(Kept(s0, mask, ok, k), s0, k, Dispatch(s0[k], mask, ok[k]), subs, subs2);
  }

  /** The state of prune_dead_subscribers' loop after probing the first `k` subscribers of `s0`. */
  ghost predicate Probed(s0: seq<Subscriber>, alive: seq<bool>, restart: bool,
                         k: nat, subs: seq<Subscriber>, j: nat, released: seq<Release>)
  {
    && k <= |s0| == |alive|
    && subs == Survivors(s0, alive, k) + s0[k..] && j == |Survivors(s0, alive, k)|
    && released == Pruned(s0, alive, restart, k)
  }

  /** Probing subscriber `k` (at index `j`) and removing it when dead moves the loop state on by one. */
  lemma ProbeNext(s0: seq<Subscriber>, alive: seq<bool>, restart: bool, k: nat,
                  subs: seq<Subscriber>, j: nat, released: seq<Release>,
                  subs2: seq<Subscriber>, j2: nat, released2: seq<Release>)
    requires Probed(s0, alive, restart, k, subs, j, released) && k < |s0|
    requires j < |subs| && subs[j] == s0[k]
    requires alive[k] ==> subs2 == subs && j2 == j + 1 && released2 == released
    requires !alive[k] ==>
      subs2 == subs[..j] + subs[j + 1..] && j2 == j && released2 == released + [ReleaseOf(s0[k], restart)]
    ensures Probed(s0, alive, restart, k + 1, subs2, j2, released2)
  {
    if alive[k] {
      Split3(Survivors(s0, alive, k), s0, k);
    } else {
      Resplice(Survivors(s0, alive, k), s0, k, [], subs, subs2);
    }
  }

  /** The subscriber list and its operations; `subscribers` runs from subscribe_head to subscribe_tail. */
  class SubscriberList {
    var subscribers: seq<Subscriber>

    constructor()
      ensures subscribers == []
    {
      subscribers := [];
    }

    /** remove_subscriber: unlinks the i-th subscriber and releases its stream; nothing on None. */
    method Remove(i: Option<nat>, restart: bool) returns (released: seq<Release>)
      requires i.Some? ==> i.value < |subscribers|
      modifies this
      ensures i.None? ==> subscribers == old(subscribers) && released == []
      ensures i.Some? ==>
        && subscribers == old(subscribers[..i.value] + subscribers[i.value + 1..])
        && released == [ReleaseOf(old(subscribers[i.value]), restart)]
    {
      if i.None? {
        return [];
      }
      var k := i.value;
      released := [ReleaseOf(subscribers[k], restart)];
      subscribers := subscribers[..k] + subscribers[k + 1..];
    }

    /**
     * add_subscriber: appends `sb`; a report subscriber is sent one report at
     * once, its count is decremented, and it is removed again when the count
     * was exactly 1.
     */
    method Add(sb: Subscriber, report: string, restart: bool) returns (writes: seq<Write>, released: seq<Release>)
      modifies this
      ensures Report !in sb.field ==> subscribers == old(subscribers) + [sb] && writes == [] && released == []
      ensures Report in sb.field ==> writes == [Write(sb.stream, report)]
      ensures Report in sb.field && sb.count == 1 ==>
        subscribers == old(subscribers) && released == [ReleaseOf(sb, restart)]
      ensures Report in sb.field && sb.count != 1 ==>
        subscribers == old(subscribers) + [sb.(count := sb.count - 1)] && released == []
    {
      subscribers := subscribers + [sb];
      writes, released := [], [];
      if Report in sb.field {
        writes := [Write(sb.stream, report)];
        var last := |subscribers| - 1;
        subscribers := subscribers[last := sb.(count := sb.count - 1)];
        if sb.count == 1 {
          released := Remove(Some(last), restart);
        }
      }
    }

    /**
     * put_status: every subscriber that wants `mask` has its budget spent and
     * is written the payload (a fresh report when `mask` is the report
     * category); it is removed when the write failed or its budget is used up.
     */
    method PutStatus(mask: set<Event>, message: string, report: string, ok: seq<bool>, restart: bool)
        returns (writes: seq<Write>, released: seq<Release>)
      requires |ok| == |subscribers|
      modifies this
      ensures subscribers == Kept(old(subscribers), mask, ok, |ok|)
      ensures writes == Sent(old(subscribers), mask, Payload(mask, message, report), |ok|)
      ensures released == Dropped(old(subscribers), mask, ok, restart, |ok|)
    {
      var payload := Payload(mask, message, report);
      writes, released := Broadcast(mask, payload, ok, restart);
    }

    /** The loop of put_status, writing `payload` to every subscriber that wants `mask`. */
    method Broadcast(mask: set<Event>, payload: string, ok: seq<bool>, restart: bool)
        returns (writes: seq<Write>, released: seq<Release>)
      requires |ok| == |subscribers|
      modifies this
      ensures subscribers == Kept(old(subscribers), mask, ok, |ok|)
      ensures writes == Sent(old(subscribers), mask, payload, |ok|)
      ensures released == Dropped(old(subscribers), mask, ok, restart, |ok|)
    {
      ghost var s0 := subscribers;
      writes, released := [], [];
      var k, j := 0, 0;
      VisitStart(s0, mask, ok, restart, payload);
      while k < |ok|
        invariant Visited(s0, mask, ok, restart, payload, k, subscribers, j, writes, released)
      {
        writes, released, j := Visit(s0, mask, ok, restart, payload, k, j, writes, released);
        k := k + 1;
      }
      VisitDone(s0, mask, ok, restart, payload, subscribers, j, writes, released);
    }

    /** Visiting subscriber `k` of `s0`, at index `j` of the list, moves put_status's loop on by one. */
    method Visit(ghost s0: seq<Subscriber>, mask: set<Event>, ok: seq<bool>, restart: bool, payload: string,
                 k: nat, j: nat, writes: seq<Write>, released: seq<Release>)
        returns (writes': seq<Write>, released': seq<Release>, j': nat)
      requires k < |s0| && Visited(s0, mask, ok, restart, payload, k, subscribers, j, writes, released)
      modifies this
      ensures Visited(s0, mask, ok, restart, payload, k + 1, subscribers, j', writes', released')
    {
      ghost var before := subscribers;
      VisitAt(s0, mask, ok, restart, payload, k, subscribers, j, writes, released);
      var w, r, next := Deliver(j, mask, payload, ok[k], restart);
      writes', released', j' := writes + w, released + r, next;
      VisitNext(s0, mask, ok, restart, payload, k, before, j, writes, released, subscribers, next, w, r);
    }

    /**
     * One pass of put_status's loop over the subscriber at index j; `next` is
     * the index of the subscriber that followed it.
     */
    method Deliver(j: nat, mask: set<Event>, payload: string, ok: bool, restart: bool)
        returns (writes: seq<Write>, released: seq<Release>, next: nat)
      requires j < |subscribers|
      modifies this
      ensures var sb := old(subscribers[j]);
        && subscribers == old(subscribers[..j]) + Dispatch(sb, mask, ok) + old(subscribers[j + 1..])
        && writes == (if Wants(sb, mask) then [Write(sb.stream, payload)] else [])
        && released == (if Removed(sb, mask, ok) then [ReleaseOf(sb, restart)] else [])
        && next == j + |Dispatch(sb, mask, ok)|
    {
      var sb := subscribers[j];
      writes, released, next := [], [], j + 1;
      if sb.field * mask != {} {
        var count := sb.count;
        if count > 0 {
          count := count - 1;
        }
        subscribers := subscribers[j := sb.(count := count)];
        writes := [Write(sb.stream, payload)];
        if !ok || count == 0 {
          released := Remove(Some(j), restart);
          next := j;
        }
      }
    }

    /** prune_dead_subscribers: removes the subscribers whose probe write failed, keeping the order. */
    method PruneDead(alive: seq<bool>, restart: bool) returns (released: seq<Release>)
      requires |alive| == |subscribers|
      modifies this
      ensures subscribers == Survivors(old(subscribers), alive, |alive|)
      ensures released == Pruned(old(subscribers), alive, restart, |alive|)
    {
      ghost var s0 := subscribers;
      released := [];
      var k, j := 0, 0;
      while k < |alive|
        invariant k <= |alive| == |s0|
        invariant Probed(s0, alive, restart, k, subscribers, j, released)
      {
        ghost var before, r0 := subscribers, released;
        Split3(Survivors(s0, alive, k), s0, k);
        var next := j + 1;
        if !alive[k] {
          var r := Remove(Some(j), restart);
          released := released + r;
          next := j;
        }
        ProbeNext(s0, alive, restart, k, before, j, r0, subscribers, next, released);
        j, k := next, k + 1;
      }
    }
  }
}
