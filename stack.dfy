/**
 * stack.c: the stacking list, a doubly linked list of leaf nodes kept in
 * the globals stack_head and stack_tail. The head is the bottom of the
 * stack and the tail is the top: inserting after an entry goes with
 * window_above, and restack_presel_feedbacks looks for the top-most tiled
 * window from the tail.
 *
 * The list is modelled as the sequence of the nodes its entries hold, head
 * first; an entry pointer is an index into that sequence. A node is named by
 * its window id, and the client each node holds is read through the map
 * `clients` (a node without a client is absent from it). The calls to the
 * display server are returned as a sequence of `XCall`s and the
 * node_stack status lines as strings.
 */
module Stack {
  import opened Types
  import opened Wrappers
  import opened Helpers
  import Numeric

  type NodeId = Numeric.Word32

  /** The layer part of stack_level: below, normal, above. */
  function LayerLevel(l: StackLayer): nat
  {
    if l == Normal then 1 else if l == Below then 0 else 2
  }

  /** The state part of stack_level: tiled or pseudo-tiled, floating, other. */
  function StateLevel(s: ClientState): nat
  {
    if IsTiled(s) then 0 else if IsFloating(s) then 1 else 2
  }

  /** stack_level(c) */
  function StackLevel(c: Client): (l: nat)
    ensures l <= 8
    ensures 3 * LayerLevel(c.layer) <= l < 3 * LayerLevel(c.layer) + 3
  {
    3 * LayerLevel(c.layer) + StateLevel(c.state)
  }

  /** stack_cmp(c1, c2) */
  function StackCmp(c1: Client, c2: Client): (d: int)
    ensures -8 <= d <= 8
    ensures d == 0 <==> c1.layer == c2.layer && StateLevel(c1.state) == StateLevel(c2.state)
    ensures LayerLevel(c1.layer) < LayerLevel(c2.layer) ==> d < 0
  {
    StackLevel(c1) - StackLevel(c2)
  }

  /**
   * stack_level lies in 0..8, the layer decides first and the state class
   * second, and two clients share a level exactly when they share the layer
   * and the state class.
   */
  lemma StackLevelOrder(c1: Client, c2: Client)
    ensures StackLevel(c1) <= 8
    ensures LayerLevel(c1.layer) < LayerLevel(c2.layer) ==> StackLevel(c1) < StackLevel(c2)
    ensures c1.layer == c2.layer ==>
      (StackLevel(c1) < StackLevel(c2) <==> StateLevel(c1.state) < StateLevel(c2.state))
    ensures StackLevel(c1) == StackLevel(c2) <==>
      c1.layer == c2.layer && StateLevel(c1.state) == StateLevel(c2.state)
  {
  }

  /** stack_cmp is antisymmetric and is zero exactly on equal levels. */
  lemma StackCmpProperties(c1: Client, c2: Client, c3: Client)
    ensures StackCmp(c1, c2) == -StackCmp(c2, c1)
    ensures StackCmp(c1, c2) == 0 <==> StackLevel(c1) == StackLevel(c2)
    ensures StackCmp(c1, c2) < 0 && StackCmp(c2, c3) < 0 ==> StackCmp(c1, c3) < 0
    ensures -8 <= StackCmp(c1, c2) <= 8
  {
    StackLevelOrder(c1, c2);
    StackLevelOrder(c2, c1);
  }

  /** Every node in `s` holds a client. */
  predicate Known(s: seq<NodeId>, clients: map<NodeId, Client>)
  {
    forall i | 0 <= i < |s| :: s[i] in clients
  }

  /** The level of the client held by node `n`. */
  function Lv(clients: map<NodeId, Client>, n: NodeId): nat
    requires n in clients
  {
    StackLevel(clients[n])
  }

  predicate NoDup(s: seq<NodeId>)
  {
    forall i, j | 0 <= i < j < |s| :: s[i] != s[j]
  }

  /** Levels never decrease from the bottom (head) to the top (tail). */
  predicate Sorted(s: seq<NodeId>, clients: map<NodeId, Client>)
    requires Known(s, clients)
  {
    forall i, j | 0 <= i < j < |s| :: Lv(clients, s[i]) <= Lv(clients, s[j])
  }

  /** The index of the first entry holding `n`, or |s| when there is none. */
  function FirstIndex(s: seq<NodeId>, n: NodeId): (k: nat)
    ensures k <= |s|
    ensures k < |s| ==> s[k] == n
    ensures forall i | 0 <= i < k :: s[i] != n
  {
    if |s| == 0 then 0 else if s[0] == n then 0 else 1 + FirstIndex(s[1..], n)
  }

  /** The list after unlinking the first entry that holds `n`, if any. */
  function RemoveFirst(s: seq<NodeId>, n: NodeId): (t: seq<NodeId>)
    ensures |t| == if FirstIndex(s, n) < |s| then |s| - 1 else |s|
  {
    var k := FirstIndex(s, n);
    if k == |s| then s else s[..k] + s[k + 1..]
  }

  /** Entries before the removed one keep their index, later ones move down by one. */
  lemma RemoveFirstAt(s: seq<NodeId>, n: NodeId, i: nat)
    requires i < |RemoveFirst(s, n)|
    ensures RemoveFirst(s, n)[i] == if i < FirstIndex(s, n) then s[i] else s[i + 1]
  {
    var k := FirstIndex(s, n);
    if k < |s| {
      assert RemoveFirst(s, n) == s[..k] + s[k + 1..];
    }
  }

  /** Unlinking takes away one entry for `n`, if there is one, and nothing else. */
  lemma RemoveFirstMultiset(s: seq<NodeId>, n: NodeId)
    ensures multiset(RemoveFirst(s, n)) == multiset(s) - multiset{n}
  {
    var k := FirstIndex(s, n);
    if k == |s| {
      assert n !in multiset(s);
    } else {
      assert s == s[..k] + [n] + s[k + 1..];
      assert RemoveFirst(s, n) == s[..k] + s[k + 1..];
    }
  }

  lemma SubtractTwice(m: multiset<NodeId>, a: multiset<NodeId>, f: NodeId)
    ensures (m - a) - multiset{f} == m - (a + multiset{f})
  {
  }

  lemma AddBack(m: multiset<NodeId>, f: NodeId)
    ensures (m - multiset{f}) + multiset{f} == if f in m then m else m + multiset{f}
  {
  }

  /** remove_stack_node over the leaves `leaves`, in order: the first entry
      for each leaf is unlinked. */
  function RemoveAll(s: seq<NodeId>, leaves: seq<NodeId>): seq<NodeId>
    decreases |leaves|
  {
    if leaves == [] then s
    else RemoveFirst(RemoveAll(s, leaves[..|leaves| - 1]), leaves[|leaves| - 1])
  }

  /** Removal takes away one entry per leaf occurrence, where there is one, and nothing else. */
  lemma {:induction false} RemoveAllMultiset(s: seq<NodeId>, leaves: seq<NodeId>)
    ensures multiset(RemoveAll(s, leaves)) == multiset(s) - multiset(leaves)
    decreases |leaves|
  {
    if leaves == [] {
      assert multiset(leaves) == multiset{};
    } else {
      var init := leaves[..|leaves| - 1];
      var f := leaves[|leaves| - 1];
      var r := RemoveAll(s, init);
      calc {
        multiset(RemoveAll(s, leaves));
        { assert RemoveAll(s, leaves) == RemoveFirst(r, f); }
        multiset(RemoveFirst(r, f));
        { RemoveFirstMultiset(r, f); }
        multiset(r) - multiset{f};
        { RemoveAllMultiset(s, init); }
        (multiset(s) - multiset(init)) - multiset{f};
        { SubtractTwice(multiset(s), multiset(init), f); }
        multiset(s) - (multiset(init) + multiset{f});
        { assert leaves == init + [f]; }
        multiset(s) - multiset(leaves);
      }
    }
  }

  /** Unlinking keeps the rest in order, so it keeps levels sorted. */
  lemma RemoveFirstKeeps(s: seq<NodeId>, n: NodeId, clients: map<NodeId, Client>)
    requires Known(s, clients)
    ensures Known(RemoveFirst(s, n), clients)
    ensures Sorted(s, clients) ==> Sorted(RemoveFirst(s, n), clients)
  {
    var t := RemoveFirst(s, n);
    forall i | 0 <= i < |t|
      ensures t[i] in clients
    {
      RemoveFirstAt(s, n, i);
    }
    if Sorted(s, clients) {
      forall i, j | 0 <= i < j < |t|
        ensures Lv(clients, t[i]) <= Lv(clients, t[j])
      {
        RemoveFirstAt(s, n, i);
        RemoveFirstAt(s, n, j);
      }
    }
  }

  /** From a duplicate-free list, unlinking `n` leaves a duplicate-free list without `n`. */
  lemma RemoveFirstNoDup(s: seq<NodeId>, n: NodeId)
    requires NoDup(s)
    ensures NoDup(RemoveFirst(s, n))
    ensures forall i | 0 <= i < |RemoveFirst(s, n)| :: RemoveFirst(s, n)[i] != n
  {
    var t := RemoveFirst(s, n);
    var k := FirstIndex(s, n);
    forall i, j | 0 <= i < j < |t|
      ensures t[i] != t[j]
    {
      RemoveFirstAt(s, n, i);
      RemoveFirstAt(s, n, j);
    }
    forall i | 0 <= i < |t|
      ensures t[i] != n
    {
      RemoveFirstAt(s, n, i);
      if k < |s| && i >= k {
        assert s[i + 1] != s[k];
      }
    }
  }

  /** `n` put at position `q` of `t`. */
  function Splice(t: seq<NodeId>, q: nat, n: NodeId): (r: seq<NodeId>)
    requires q <= |t|
    ensures |r| == |t| + 1 && r[q] == n
  {
    t[..q] + [n] + t[q..]
  }

  lemma SpliceAt(t: seq<NodeId>, q: nat, n: NodeId, i: nat)
    requires q <= |t| && i < |t| + 1 && i != q
    ensures Splice(t, q, n)[i] == if i < q then t[i] else t[i - 1]
  {
  }

  lemma SpliceMultiset(t: seq<NodeId>, q: nat, n: NodeId)
    requires q <= |t|
    ensures multiset(Splice(t, q, n)) == multiset(t) + multiset{n}
  {
    assert t == t[..q] + t[q..];
  }

  /** Where position `m` of `s` lands once the first entry for `n` is unlinked. */
  function Shift(s: seq<NodeId>, n: NodeId, m: nat): nat
  {
    if FirstIndex(s, n) < m then m - 1 else m
  }

  /** `n` unlinked from `s` and linked again at what was position `m`. */
  function Relinked(s: seq<NodeId>, n: NodeId, m: nat): seq<NodeId>
    requires m <= |s|
  {
    Splice(RemoveFirst(s, n), Shift(s, n, m), n)
  }

  /**
   * stack_insert_after(a, n) for an anchor entry at index `j`, `n` being a
   * leaf: nothing changes when the anchor already holds `n`; otherwise the
   * first entry for `n` is unlinked and a new one is linked right after the
   * anchor.
   */
  function InsertAfterSpec(s: seq<NodeId>, j: nat, n: NodeId): seq<NodeId>
    requires j < |s|
  {
    if s[j] == n then s
    else Relinked(s, n, j + 1)
  }

  /** stack_insert_before(a, n), the mirror image of InsertAfterSpec. */
  function InsertBeforeSpec(s: seq<NodeId>, j: nat, n: NodeId): seq<NodeId>
    requires j < |s|
  {
    if s[j] == n then s
    else Relinked(s, n, j)
  }

  /** Where the anchor entry sits once `n` has been unlinked. */
  lemma AnchorAfterRemoval(s: seq<NodeId>, j: nat, n: NodeId)
    requires j < |s| && s[j] != n
    ensures var a := Shift(s, n, j);
      a < |RemoveFirst(s, n)| && RemoveFirst(s, n)[a] == s[j]
  {
    var a := Shift(s, n, j);
    var k := FirstIndex(s, n);
    assert k != j;
    assert a < |RemoveFirst(s, n)|;
    RemoveFirstAt(s, n, a);
  }

  /** Unlinking then linking `n` changes its count only when it was absent. */
  lemma ReinsertMultiset(s: seq<NodeId>, q: nat, n: NodeId)
    requires q <= |RemoveFirst(s, n)|
    ensures multiset(Splice(RemoveFirst(s, n), q, n))
      == if n in s then multiset(s) else multiset(s) + multiset{n}
  {
    RemoveFirstMultiset(s, n);
    SpliceMultiset(RemoveFirst(s, n), q, n);
    AddBack(multiset(s), n);
    assert n in s <==> n in multiset(s);
  }

  /** Unlinking `n` from a duplicate-free list and linking it anywhere. */
  lemma ReinsertShape(s: seq<NodeId>, n: NodeId, q: nat)
    requires NoDup(s) && q <= |RemoveFirst(s, n)|
    ensures var r := Splice(RemoveFirst(s, n), q, n);
      && NoDup(r) && RemoveFirst(r, n) == RemoveFirst(s, n)
      && multiset(r) == (if n in s then multiset(s) else multiset(s) + multiset{n})
  {
    var t := RemoveFirst(s, n);
    assert NoDup(t) && forall i | 0 <= i < |t| :: t[i] != n by {
      RemoveFirstNoDup(s, n);
    }
    SpliceShape(t, q, n);
    ReinsertMultiset(s, q, n);
  }

  /**
   * After stack_insert_after into a duplicate-free list, `n` occurs exactly
   * once, immediately after the anchor; unlinking `n` again gives the list
   * with `n` unlinked, so all other entries keep their relative order; and
   * `n` is added to the entries only when it was absent.
   */
  lemma InsertAfterShape(s: seq<NodeId>, j: nat, n: NodeId)
    requires j < |s| && NoDup(s) && s[j] != n
    ensures var r := InsertAfterSpec(s, j, n);
      && NoDup(r) && RemoveFirst(r, n) == RemoveFirst(s, n)
      && (exists p | 0 <= p < |r| - 1 :: r[p] == s[j] && r[p + 1] == n)
      && multiset(r) == (if n in s then multiset(s) else multiset(s) + multiset{n})
  {
    var t := RemoveFirst(s, n);
    var a := Shift(s, n, j);
    AnchorAfterRemoval(s, j, n);
    assert Shift(s, n, j + 1) == a + 1;
    ReinsertShape(s, n, a + 1);
    assert Splice(t, a + 1, n)[a] == s[j] by { SpliceAt(t, a + 1, n, a); }
  }

  /** The same for stack_insert_before: `n` lands immediately before the anchor. */
  lemma InsertBeforeShape(s: seq<NodeId>, j: nat, n: NodeId)
    requires j < |s| && NoDup(s) && s[j] != n
    ensures var r := InsertBeforeSpec(s, j, n);
      && NoDup(r) && RemoveFirst(r, n) == RemoveFirst(s, n)
      && (exists p | 0 <= p < |r| - 1 :: r[p] == n && r[p + 1] == s[j])
      && multiset(r) == (if n in s then multiset(s) else multiset(s) + multiset{n})
  {
    var t := RemoveFirst(s, n);
    var a := Shift(s, n, j);
    AnchorAfterRemoval(s, j, n);
    ReinsertShape(s, n, a);
    assert Splice(t, a, n)[a + 1] == s[j] by { SpliceAt(t, a, n, a + 1); }
  }

  /** Putting an absent `n` at position `q` of a duplicate-free list, and unlinking it again. */
  lemma SpliceShape(t: seq<NodeId>, q: nat, n: NodeId)
    requires q <= |t| && NoDup(t)
    requires forall i | 0 <= i < |t| :: t[i] != n
    ensures NoDup(Splice(t, q, n)) && RemoveFirst(Splice(t, q, n), n) == t
  {
    var r := Splice(t, q, n);
    forall i, j | 0 <= i < j < |r|
      ensures r[i] != r[j]
    {
      if i != q { SpliceAt(t, q, n, i); }
      if j != q { SpliceAt(t, q, n, j); }
    }
    forall i | 0 <= i < q
      ensures r[i] != n
    {
      SpliceAt(t, q, n, i);
    }
    assert FirstIndex(r, n) == q;
    assert r[..q] == t[..q] && r[q + 1..] == t[q..];
    assert t == t[..q] + t[q..];
  }

  /** Every entry below position `m` has level at most `l`, every one from `m` on at least `l`. */
  predicate Cut(s: seq<NodeId>, m: nat, l: nat, clients: map<NodeId, Client>)
    requires Known(s, clients)
  {
    m <= |s|
    && (forall i | 0 <= i < m :: Lv(clients, s[i]) <= l)
    && (forall i | m <= i < |s| :: Lv(clients, s[i]) >= l)
  }

  lemma CutRemoveFirst(s: seq<NodeId>, n: NodeId, m: nat, l: nat, clients: map<NodeId, Client>)
    requires Known(s, clients) && Cut(s, m, l, clients)
    ensures Known(RemoveFirst(s, n), clients)
    ensures Cut(RemoveFirst(s, n), Shift(s, n, m), l, clients)
  {
    var t := RemoveFirst(s, n);
    var k := FirstIndex(s, n);
    var q := Shift(s, n, m);
    assert Known(t, clients) by {
      RemoveFirstKeeps(s, n, clients);
    }
    forall i | 0 <= i < q
      ensures Lv(clients, t[i]) <= l
    {
      RemoveFirstAt(s, n, i);
    }
    forall i | q <= i < |t|
      ensures Lv(clients, t[i]) >= l
    {
      RemoveFirstAt(s, n, i);
    }
  }

  /** Splicing a node of level `l` at a cut of a sorted list keeps it sorted. */
  lemma SpliceSorted(t: seq<NodeId>, q: nat, n: NodeId, clients: map<NodeId, Client>)
    requires Known(t, clients) && n in clients && Sorted(t, clients)
    requires Cut(t, q, Lv(clients, n), clients)
    ensures Known(Splice(t, q, n), clients)
    ensures Sorted(Splice(t, q, n), clients)
  {
    var r := Splice(t, q, n);
    forall i | 0 <= i < |r| && i != q
      ensures r[i] == if i < q then t[i] else t[i - 1]
    {
      SpliceAt(t, q, n, i);
    }
  }

  /** The first entry from the head with a level strictly above `l`, or |s|. */
  function FirstHigher(s: seq<NodeId>, clients: map<NodeId, Client>, l: nat): (k: nat)
    requires Known(s, clients)
    ensures k <= |s|
    ensures forall i | 0 <= i < k :: Lv(clients, s[i]) <= l
    ensures k < |s| ==> Lv(clients, s[k]) > l
  {
    if |s| == 0 then 0
    else if Lv(clients, s[0]) > l then 0
    else 1 + FirstHigher(s[1..], clients, l)
  }

  /** The last entry from the tail with a level strictly below `l`, or -1. */
  function LastLower(s: seq<NodeId>, clients: map<NodeId, Client>, l: nat): (k: int)
    requires Known(s, clients)
    ensures -1 <= k < |s|
    ensures forall i | k < i < |s| :: Lv(clients, s[i]) >= l
    ensures k >= 0 ==> Lv(clients, s[k]) < l
  {
    if |s| == 0 then -1
    else if Lv(clients, s[|s| - 1]) < l then |s| - 1
    else LastLower(s[..|s| - 1], clients, l)
  }

  /** limit_above(n): the first entry above n's level, else the tail; one
      step back when that entry holds `n` itself (None for "NULL"). */
  function LimitAboveSpec(s: seq<NodeId>, clients: map<NodeId, Client>, n: NodeId): (r: Option<nat>)
    requires |s| > 0 && Known(s, clients) && n in clients
    ensures r.Some? ==> r.value < |s|
  {
    var k := FirstHigher(s, clients, Lv(clients, n));
    var k1 := if k == |s| then |s| - 1 else k;
    if s[k1] == n then (if k1 == 0 then None else Some(k1 - 1)) else Some(k1)
  }

  /** limit_below(n): the last entry below n's level, else the head; one
      step forward when that entry holds `n` itself. */
  function LimitBelowSpec(s: seq<NodeId>, clients: map<NodeId, Client>, n: NodeId): (r: Option<nat>)
    requires |s| > 0 && Known(s, clients) && n in clients
    ensures r.Some? ==> r.value < |s|
  {
    var k := LastLower(s, clients, Lv(clients, n));
    var k1 := if k < 0 then 0 else k;
    if s[k1] == n then (if k1 + 1 == |s| then None else Some(k1 + 1)) else Some(k1)
  }

  /** A call into the display server made by this module. */
  datatype XCall =
    | WindowAbove(window: NodeId, sibling: NodeId)
    | WindowBelow(window: NodeId, sibling: NodeId)
    | UpdateClientList

  /** The node_stack status line, "node_stack 0x%08X <rel> 0x%08X\n". */
  function StackReport(f: NodeId, rel: string, g: NodeId): string
  {
    "node_stack 0x" + Numeric.Hex8(f) + " " + rel + " 0x" + Numeric.Hex8(g) + "\n"
  }

  datatype StackOutcome = StackOutcome(entries: seq<NodeId>, calls: seq<XCall>, reports: seq<string>)

  /** A leaf that stack() places: it holds a client, and a floating one only
      when auto_raise is set. */
  predicate Placed(f: NodeId, clients: map<NodeId, Client>, autoRaise: bool)
  {
    f in clients && !(IsFloating(clients[f].state) && !autoRaise)
  }

  /** The entry limit_above (focused) or limit_below returns for `f`. */
  function Anchor(s: seq<NodeId>, f: NodeId, clients: map<NodeId, Client>, focused: bool): (a: Option<nat>)
    requires |s| > 0 && Known(s, clients) && f in clients
    ensures a.Some? ==> a.value < |s|
  {
    if focused then LimitAboveSpec(s, clients, f) else LimitBelowSpec(s, clients, f)
  }

  /** stack() links `f` below the anchor `g` when f's level is lower, or equal and not focused. */
  predicate GoesBelow(f: NodeId, g: NodeId, clients: map<NodeId, Client>, focused: bool)
    requires f in clients && g in clients
  {
    var i := StackCmp(clients[f], clients[g]);
    i < 0 || (i == 0 && !focused)
  }

  /** The list after one iteration of the loop in stack() for a placed leaf `f`. */
  function StackEntries(s: seq<NodeId>, f: NodeId, clients: map<NodeId, Client>, focused: bool): seq<NodeId>
    requires Known(s, clients) && f in clients
  {
    if |s| == 0 then [f]
    else
      match Anchor(s, f, clients, focused)
      case None => s
      case Some(j) =>
        if GoesBelow(f, s[j], clients, focused) then InsertBeforeSpec(s, j, f) else InsertAfterSpec(s, j, f)
  }

  /** One iteration of the loop in stack() for a placed leaf `f`, with its
      display-server call and status line. */
  function StackStep(s: seq<NodeId>, f: NodeId, clients: map<NodeId, Client>, focused: bool): (o: StackOutcome)
    requires Known(s, clients) && f in clients
    ensures o.entries == StackEntries(s, f, clients, focused)
  {
    var r := StackEntries(s, f, clients, focused);
    if |s| == 0 then StackOutcome(r, [], [])
    else
      match Anchor(s, f, clients, focused)
      case None => StackOutcome(r, [], [])
      case Some(j) =>
        var g := s[j];
        if GoesBelow(f, g, clients, focused) then
          StackOutcome(r, [WindowBelow(f, g)], [StackReport(f, "below", g)])
        else
          StackOutcome(r, [WindowAbove(f, g)], [StackReport(f, "above", g)])
  }

  /**
   * One step keeps every entry's client known, adds `f` (only when it was
   * absent), and keeps a duplicate-free list with non-decreasing levels so.
   */
  lemma StackStepKeeps(s: seq<NodeId>, f: NodeId, clients: map<NodeId, Client>, focused: bool)
    requires Known(s, clients) && f in clients
    ensures var r := StackEntries(s, f, clients, focused);
      && Known(r, clients) && f in r
      && multiset(r) == (if f in s then multiset(s) else multiset(s) + multiset{f})
      && (NoDup(s) && Sorted(s, clients) ==> NoDup(r) && Sorted(r, clients))
  {
    var r := StackEntries(s, f, clients, focused);
    if |s| == 0 {
      assert r == [f];
      return;
    }
    var m := StackEntriesForm(s, f, clients, focused);
    if r != s {
      RelinkKeeps(s, f, m, clients);
    }
    if NoDup(s) && Sorted(s, clients) {
      StackStepSorted(s, f, clients, focused);
    }
  }

  /**
   * When stack() finds an anchor `g`, its display-server call and its
   * node_stack line agree with where `f` lands: window_below and "below"
   * exactly when the level comparison says so, and then `f` sits
   * immediately before `g`; window_above and "above" otherwise, with `f`
   * immediately after `g`.
   */
  lemma StackStepAgrees(s: seq<NodeId>, f: NodeId, clients: map<NodeId, Client>, focused: bool)
    requires Known(s, clients) && f in clients && NoDup(s) && |s| > 0
    requires Anchor(s, f, clients, focused).Some?
    ensures var o, g := StackStep(s, f, clients, focused), s[Anchor(s, f, clients, focused).value];
      var i := StackCmp(clients[f], clients[g]);
      && (o.calls == [WindowBelow(f, g)] <==> i < 0 || (i == 0 && !focused))
      && (o.calls == [WindowBelow(f, g)] ==>
            o.reports == [StackReport(f, "below", g)]
            && exists p | 0 <= p < |o.entries| - 1 :: o.entries[p] == f && o.entries[p + 1] == g)
      && (o.calls != [WindowBelow(f, g)] ==>
            o.calls == [WindowAbove(f, g)] && o.reports == [StackReport(f, "above", g)]
            && exists p | 0 <= p < |o.entries| - 1 :: o.entries[p] == g && o.entries[p + 1] == f)
  {
    var j := Anchor(s, f, clients, focused).value;
    AnchorIsNotLeaf(s, f, clients, focused);
    if GoesBelow(f, s[j], clients, focused) {
      InsertBeforeShape(s, j, f);
    } else {
      InsertAfterShape(s, j, f);
    }
  }

  /** In a duplicate-free list the anchor never holds the leaf being placed. */
  lemma AnchorIsNotLeaf(s: seq<NodeId>, f: NodeId, clients: map<NodeId, Client>, focused: bool)
    requires Known(s, clients) && f in clients && NoDup(s) && |s| > 0
    requires Anchor(s, f, clients, focused).Some?
    ensures s[Anchor(s, f, clients, focused).value] != f
  {
    var j := Anchor(s, f, clients, focused).value;
    if focused {
      var k := FirstHigher(s, clients, Lv(clients, f));
      var k1 := if k == |s| then |s| - 1 else k;
      if s[k1] == f {
        assert j == k1 - 1 && s[j] != s[k1];
      }
    } else {
      var k := LastLower(s, clients, Lv(clients, f));
      var k1 := if k < 0 then 0 else k;
      if s[k1] == f {
        assert j == k1 + 1 && s[k1] != s[j];
      }
    }
  }

  /** A step either leaves a list that already holds `f` alone, or re-links `f`. */
  lemma StackEntriesForm(s: seq<NodeId>, f: NodeId, clients: map<NodeId, Client>, focused: bool) returns (m: nat)
    requires Known(s, clients) && f in clients && |s| > 0
    ensures var r := StackEntries(s, f, clients, focused);
      (r == s && f in s) || (m <= |s| && r == Relinked(s, f, m))
  {
    var a := Anchor(s, f, clients, focused);
    m := 0;
    if a.None? {
      if focused {
        assert s[|s| - 1] == f;
      } else {
        assert s[0] == f;
      }
    } else if s[a.value] != f {
      m := if GoesBelow(f, s[a.value], clients, focused) then a.value else a.value + 1;
    }
  }

  /** Re-linking `f` keeps every client known, holds `f`, and adds `f` only when it was absent. */
  lemma RelinkKeeps(s: seq<NodeId>, f: NodeId, m: nat, clients: map<NodeId, Client>)
    requires Known(s, clients) && f in clients && m <= |s|
    ensures var r := Relinked(s, f, m);
      && Known(r, clients) && f in r
      && multiset(r) == (if f in s then multiset(s) else multiset(s) + multiset{f})
  {
    var t := RemoveFirst(s, f);
    var q := Shift(s, f, m);
    assert Known(t, clients) by {
      RemoveFirstKeeps(s, f, clients);
    }
    SpliceKnown(t, q, f, clients);
    ReinsertMultiset(s, q, f);
    assert Splice(t, q, f)[q] == f;
  }

  lemma SpliceKnown(t: seq<NodeId>, q: nat, n: NodeId, clients: map<NodeId, Client>)
    requires q <= |t| && Known(t, clients) && n in clients
    ensures Known(Splice(t, q, n), clients)
  {
    var r := Splice(t, q, n);
    forall i | 0 <= i < |r| && i != q
      ensures r[i] in clients
    {
      SpliceAt(t, q, n, i);
    }
  }

  /** The ordering half of StackStepKeeps, by the cases of limit_above and limit_below. */
  lemma StackStepSorted(s: seq<NodeId>, f: NodeId, clients: map<NodeId, Client>, focused: bool)
    requires Known(s, clients) && f in clients && NoDup(s) && Sorted(s, clients) && |s| > 0
    ensures var r := StackEntries(s, f, clients, focused);
      Known(r, clients) && NoDup(r) && Sorted(r, clients)
  {
    if focused {
      StackStepSortedAbove(s, f, clients);
    } else {
      StackStepSortedBelow(s, f, clients);
    }
  }

  /** Unlinking `f` from a sorted duplicate-free list and linking it again at
      a cut for its level leaves the list sorted and duplicate-free. */
  lemma ReinsertSorted(s: seq<NodeId>, f: NodeId, m: nat, clients: map<NodeId, Client>)
    requires Known(s, clients) && f in clients && NoDup(s) && Sorted(s, clients)
    requires Cut(s, m, Lv(clients, f), clients)
    ensures var t := RemoveFirst(s, f);
      Known(Relinked(s, f, m), clients)
      && NoDup(Relinked(s, f, m)) && Sorted(Relinked(s, f, m), clients)
  {
    var t := RemoveFirst(s, f);
    var q := Shift(s, f, m);
    assert Known(t, clients) && Cut(t, q, Lv(clients, f), clients) by {
      CutRemoveFirst(s, f, m, Lv(clients, f), clients);
    }
    assert Sorted(t, clients) by {
      RemoveFirstKeeps(s, f, clients);
    }
    assert NoDup(t) && forall i | 0 <= i < |t| :: t[i] != f by {
      RemoveFirstNoDup(s, f);
    }
    SpliceSorted(t, q, f, clients);
    SpliceShape(t, q, f);
  }

  /** In a sorted list, FirstHigher is a cut for the level it was asked about. */
  lemma HigherCut(s: seq<NodeId>, clients: map<NodeId, Client>, l: nat)
    requires Known(s, clients) && Sorted(s, clients)
    ensures Cut(s, FirstHigher(s, clients, l), l, clients)
  {
    var k := FirstHigher(s, clients, l);
    forall i | k <= i < |s|
      ensures Lv(clients, s[i]) >= l
    {
      assert Lv(clients, s[k]) <= Lv(clients, s[i]);
    }
  }

  /** In a sorted list, the position after LastLower is a cut for the level. */
  lemma LowerCut(s: seq<NodeId>, clients: map<NodeId, Client>, l: nat)
    requires Known(s, clients) && Sorted(s, clients)
    ensures Cut(s, LastLower(s, clients, l) + 1, l, clients)
  {
    var k := LastLower(s, clients, l);
    forall i | 0 <= i <= k
      ensures Lv(clients, s[i]) <= l
    {
      assert Lv(clients, s[i]) <= Lv(clients, s[k]);
    }
  }

  /** The placement that stack() reaches through limit_above keeps the list sorted. */
  lemma StackStepSortedAbove(s: seq<NodeId>, f: NodeId, clients: map<NodeId, Client>)
    requires Known(s, clients) && f in clients && NoDup(s) && Sorted(s, clients) && |s| > 0
    ensures var r := StackEntries(s, f, clients, true);
      Known(r, clients) && NoDup(r) && Sorted(r, clients)
  {
    var m := FirstHigher(s, clients, Lv(clients, f));
    HigherCut(s, clients, Lv(clients, f));
    AboveForm(s, f, clients);
    if StackEntries(s, f, clients, true) != s {
      ReinsertSorted(s, f, m, clients);
    }
  }

  /** Through limit_above, stack() either leaves the list alone or re-links
      `f` just below the first entry above its level. */
  lemma AboveForm(s: seq<NodeId>, f: NodeId, clients: map<NodeId, Client>)
    requires Known(s, clients) && f in clients && NoDup(s) && |s| > 0
    ensures var r := StackEntries(s, f, clients, true);
      var m := FirstHigher(s, clients, Lv(clients, f));
      r != s ==> r == Relinked(s, f, m)
  {
    var l := Lv(clients, f);
    var k := FirstHigher(s, clients, l);
    var r := StackEntries(s, f, clients, true);
    if k < |s| {
      assert r == Relinked(s, f, k) by {
        assert s[k] != f;
        assert r == InsertBeforeSpec(s, k, f);
      }
    } else if s[|s| - 1] != f {
      assert r == Relinked(s, f, |s|) by {
        assert r == InsertAfterSpec(s, |s| - 1, f);
      }
    } else if |s| > 1 {
      assert r == Relinked(s, f, |s|) by {
        assert s[|s| - 2] != f;
        assert FirstIndex(s, f) == |s| - 1;
        assert r == InsertAfterSpec(s, |s| - 2, f);
        assert Shift(s, f, |s| - 1) == Shift(s, f, |s|);
      }
    } else {
      assert r == s;
    }
  }

  /** The placement that stack() reaches through limit_below keeps the list sorted. */
  lemma StackStepSortedBelow(s: seq<NodeId>, f: NodeId, clients: map<NodeId, Client>)
    requires Known(s, clients) && f in clients && NoDup(s) && Sorted(s, clients) && |s| > 0
    ensures var r := StackEntries(s, f, clients, false);
      Known(r, clients) && NoDup(r) && Sorted(r, clients)
  {
    var m := LastLower(s, clients, Lv(clients, f)) + 1;
    LowerCut(s, clients, Lv(clients, f));
    BelowForm(s, f, clients);
    if StackEntries(s, f, clients, false) != s {
      ReinsertSorted(s, f, m, clients);
    }
  }

  /** Through limit_below, stack() either leaves the list alone or re-links
      `f` just above the last entry below its level. */
  lemma BelowForm(s: seq<NodeId>, f: NodeId, clients: map<NodeId, Client>)
    requires Known(s, clients) && f in clients && NoDup(s) && |s| > 0
    ensures var r := StackEntries(s, f, clients, false);
      var m := LastLower(s, clients, Lv(clients, f)) + 1;
      r != s ==> r == Relinked(s, f, m)
  {
    if LastLower(s, clients, Lv(clients, f)) >= 0 {
      BelowFormLower(s, f, clients);
    } else if s[0] != f {
      BelowFormHead(s, f, clients);
    } else if |s| > 1 {
      BelowFormHeadIsLeaf(s, f, clients);
    } else {
      BelowFormAlone(s, f, clients);
    }
  }

  lemma BelowFormAlone(s: seq<NodeId>, f: NodeId, clients: map<NodeId, Client>)
    requires Known(s, clients) && f in clients && s == [f]
    ensures StackEntries(s, f, clients, false) == s
  {
    assert LimitBelowSpec(s, clients, f).None?;
  }

  lemma BelowFormLower(s: seq<NodeId>, f: NodeId, clients: map<NodeId, Client>)
    requires Known(s, clients) && f in clients && |s| > 0
    requires LastLower(s, clients, Lv(clients, f)) >= 0
    ensures StackEntries(s, f, clients, false) == Relinked(s, f, LastLower(s, clients, Lv(clients, f)) + 1)
  {
    var k := LastLower(s, clients, Lv(clients, f));
    assert s[k] != f;
    assert LimitBelowSpec(s, clients, f) == Some(k);
    assert !GoesBelow(f, s[k], clients, false);
  }

  lemma BelowFormHead(s: seq<NodeId>, f: NodeId, clients: map<NodeId, Client>)
    requires Known(s, clients) && f in clients && |s| > 0
    requires LastLower(s, clients, Lv(clients, f)) < 0 && s[0] != f
    ensures StackEntries(s, f, clients, false) == Relinked(s, f, LastLower(s, clients, Lv(clients, f)) + 1)
  {
    assert LimitBelowSpec(s, clients, f) == Some(0);
    assert GoesBelow(f, s[0], clients, false);
  }

  lemma BelowFormHeadIsLeaf(s: seq<NodeId>, f: NodeId, clients: map<NodeId, Client>)
    requires Known(s, clients) && f in clients && NoDup(s) && |s| > 1
    requires LastLower(s, clients, Lv(clients, f)) < 0 && s[0] == f
    ensures StackEntries(s, f, clients, false) == Relinked(s, f, LastLower(s, clients, Lv(clients, f)) + 1)
  {
    assert s[1] != f;
    assert FirstIndex(s, f) == 0;
    assert LimitBelowSpec(s, clients, f) == Some(1);
    assert GoesBelow(f, s[1], clients, false);
    assert Shift(s, f, 1) == Shift(s, f, 0);
  }

  /** The loop of stack() over the leaves `leaves` of the node being stacked. */
  function StackLeaves(s: seq<NodeId>, leaves: seq<NodeId>, clients: map<NodeId, Client>,
                       focused: bool, autoRaise: bool): (o: StackOutcome)
    requires Known(s, clients)
    ensures Known(o.entries, clients)
    decreases |leaves|
  {
    if leaves == [] then StackOutcome(s, [], [])
    else
      var p := StackLeaves(s, leaves[..|leaves| - 1], clients, focused, autoRaise);
      var f := leaves[|leaves| - 1];
      if !Placed(f, clients, autoRaise) then p
      else
        StackStepKeeps(p.entries, f, clients, focused);
        var o := StackStep(p.entries, f, clients, focused);
        StackOutcome(o.entries, p.calls + o.calls, p.reports + o.reports)
  }

  /** stack() keeps a duplicate-free list with non-decreasing levels so. */
  lemma {:induction false} StackLeavesSorted(s: seq<NodeId>, leaves: seq<NodeId>, clients: map<NodeId, Client>,
                                            focused: bool, autoRaise: bool)
    requires Known(s, clients) && NoDup(s) && Sorted(s, clients)
    ensures var r := StackLeaves(s, leaves, clients, focused, autoRaise).entries;
      NoDup(r) && Sorted(r, clients)
    decreases |leaves|
  {
    if leaves != [] {
      var init := leaves[..|leaves| - 1];
      var f := leaves[|leaves| - 1];
      StackLeavesSorted(s, init, clients, focused, autoRaise);
      if Placed(f, clients, autoRaise) {
        var p := StackLeaves(s, init, clients, focused, autoRaise).entries;
        StackStepKeeps(p, f, clients, focused);
      }
    }
  }

  /**
   * After stack() every placed leaf is in the list, no entry is lost, and
   * only leaves are added.
   */
  lemma StackLeavesContent(s: seq<NodeId>, leaves: seq<NodeId>, clients: map<NodeId, Client>,
                           focused: bool, autoRaise: bool)
    requires Known(s, clients)
    ensures var r := StackLeaves(s, leaves, clients, focused, autoRaise).entries;
      && (forall i | 0 <= i < |leaves| && Placed(leaves[i], clients, autoRaise) :: leaves[i] in r)
      && multiset(s) <= multiset(r) <= multiset(s) + multiset(leaves)
  {
    StackLeavesGrow(s, leaves, clients, focused, autoRaise);
    StackLeavesHold(s, leaves, clients, focused, autoRaise);
  }

  /** The last leaf's round: the list only grows, by that leaf at most, and holds it if it is placed. */
  lemma StackLeavesLast(s: seq<NodeId>, leaves: seq<NodeId>, clients: map<NodeId, Client>,
                        focused: bool, autoRaise: bool)
    requires Known(s, clients) && leaves != []
    ensures var f := leaves[|leaves| - 1];
      var p := StackLeaves(s, leaves[..|leaves| - 1], clients, focused, autoRaise).entries;
      var r := StackLeaves(s, leaves, clients, focused, autoRaise).entries;
      && multiset(p) <= multiset(r) <= multiset(p) + multiset{f}
      && (Placed(f, clients, autoRaise) ==> f in r)
  {
    var f := leaves[|leaves| - 1];
    var p := StackLeaves(s, leaves[..|leaves| - 1], clients, focused, autoRaise).entries;
    if Placed(f, clients, autoRaise) {
      StackStepKeeps(p, f, clients, focused);
    }
  }

  /** stack() loses no entry and adds only leaves. */
  lemma {:induction false} StackLeavesGrow(s: seq<NodeId>, leaves: seq<NodeId>, clients: map<NodeId, Client>,
                                          focused: bool, autoRaise: bool)
    requires Known(s, clients)
    ensures var r := StackLeaves(s, leaves, clients, focused, autoRaise).entries;
      multiset(s) <= multiset(r) <= multiset(s) + multiset(leaves)
    decreases |leaves|
  {
    if leaves != [] {
      var init := leaves[..|leaves| - 1];
      StackLeavesGrow(s, init, clients, focused, autoRaise);
      StackLeavesLast(s, leaves, clients, focused, autoRaise);
      assert leaves == init + [leaves[|leaves| - 1]];
    }
  }

  /** After stack() every placed leaf is in the list. */
  lemma {:induction false} StackLeavesHold(s: seq<NodeId>, leaves: seq<NodeId>, clients: map<NodeId, Client>,
                                          focused: bool, autoRaise: bool)
    requires Known(s, clients)
    ensures var r := StackLeaves(s, leaves, clients, focused, autoRaise).entries;
      forall i | 0 <= i < |leaves| && Placed(leaves[i], clients, autoRaise) :: leaves[i] in r
    decreases |leaves|
  {
    if leaves != [] {
      var init := leaves[..|leaves| - 1];
      var p := StackLeaves(s, init, clients, focused, autoRaise).entries;
      var r := StackLeaves(s, leaves, clients, focused, autoRaise).entries;
      StackLeavesHold(s, init, clients, focused, autoRaise);
      StackLeavesLast(s, leaves, clients, focused, autoRaise);
      forall i | 0 <= i < |init| && Placed(init[i], clients, autoRaise)
        ensures init[i] in r
      {
        assert init[i] in multiset(p);
      }
      assert forall i | 0 <= i < |init| :: init[i] == leaves[i];
    }
  }

  /** A node of the desktop tree; `presel` is the feedback window of its preselection, if any. */
  datatype Tree = Empty | Node(id: NodeId, presel: Option<NodeId>, first: Tree, second: Tree)

  function PreselCount(t: Tree): nat
  {
    match t
    case Empty => 0
    case Node(_, p, a, b) => (if p.Some? then 1 else 0) + PreselCount(a) + PreselCount(b)
  }

  /** restack_presel_feedbacks_in(r, n): every preselection feedback window of
      the tree, in pre-order, is raised just above `top`. */
  function PreselFeedbackCalls(t: Tree, top: NodeId): (calls: seq<XCall>)
    ensures |calls| == PreselCount(t)
    ensures forall i | 0 <= i < |calls| :: calls[i].WindowAbove? && calls[i].sibling == top
  {
    match t
    case Empty => []
    case Node(_, p, a, b) =>
      (if p.Some? then [WindowAbove(p.value, top)] else [])
      + PreselFeedbackCalls(a, top) + PreselFeedbackCalls(b, top)
  }

  /** The top-most entry holding a tiled client, if any. */
  function TopTiled(s: seq<NodeId>, clients: map<NodeId, Client>): (k: Option<nat>)
    requires Known(s, clients)
    ensures k.Some? ==> k.value < |s| && IsTiled(clients[s[k.value]].state)
    ensures forall i | (if k.Some? then k.value + 1 else 0) <= i < |s| :: !IsTiled(clients[s[i]].state)
  {
    if |s| == 0 then None
    else if IsTiled(clients[s[|s| - 1]].state) then Some(|s| - 1)
    else TopTiled(s[..|s| - 1], clients)
  }

  class StackingList {
    /** The nodes of the entries from stack_head (bottom) to stack_tail (top). */
    var entries: seq<NodeId>

    constructor ()
      ensures entries == []
    {
      entries := [];
    }

    /** remove_stack(s): unlink the entry at index `s`; no-op for NULL. */
    method RemoveStack(s: Option<nat>)
      requires s.Some? ==> s.value < |entries|
      modifies this
      ensures s.None? ==> entries == old(entries)
      ensures s.Some? ==> entries == old(entries)[..s.value] + old(entries)[s.value + 1..]
    {
      if s.Some? {
        entries := entries[..s.value] + entries[s.value + 1..];
      }
    }

    /** The inner loop of remove_stack_node: unlink the first entry holding
        `f`; returns where it was (|entries| when there was none). */
    method FindAndRemove(f: NodeId) returns (k: nat)
      modifies this
      ensures k == FirstIndex(old(entries), f)
      ensures entries == RemoveFirst(old(entries), f)
    {
      k := 0;
      while k < |entries| && entries[k] != f
        invariant k <= |entries|
        invariant forall i | 0 <= i < k :: entries[i] != f
      {
        k := k + 1;
      }
      if k < |entries| {
        RemoveStack(Some(k));
      }
    }

    /** remove_stack_node(n), given the leaves of n's subtree in the order
        first_extrema / next_leaf visit them. */
    method RemoveStackNode(leaves: seq<NodeId>)
      modifies this
      ensures entries == RemoveAll(old(entries), leaves)
    {
      for i := 0 to |leaves|
        invariant entries == RemoveAll(old(entries), leaves[..i])
      {
        assert leaves[..i + 1][..i] == leaves[..i];
        var _ := FindAndRemove(leaves[i]);
      }
      assert leaves[..|leaves|] == leaves;
    }

    /** stack_insert_after(a, n) for a leaf `n`; `a` is None for NULL, which
        replaces the whole list by the single entry `n`. */
    method InsertAfter(a: Option<nat>, n: NodeId)
      requires a.Some? ==> a.value < |entries|
      modifies this
      ensures entries == if a.None? then [n] else InsertAfterSpec(old(entries), a.value, n)
    {
      if a.None? {
        entries := [n];
        return;
      }
      var j := a.value;
      if entries[j] == n {
        return;
      }
      var k := FindAndRemove(n);
      if k < j {
        j := j - 1;
      }
      entries := entries[..j + 1] + [n] + entries[j + 1..];
    }

    /** stack_insert_before(a, n), the mirror image of InsertAfter. */
    method InsertBefore(a: Option<nat>, n: NodeId)
      requires a.Some? ==> a.value < |entries|
      modifies this
      ensures entries == if a.None? then [n] else InsertBeforeSpec(old(entries), a.value, n)
    {
      if a.None? {
        entries := [n];
        return;
      }
      var j := a.value;
      if entries[j] == n {
        return;
      }
      var k := FindAndRemove(n);
      if k < j {
        j := j - 1;
      }
      entries := entries[..j] + [n] + entries[j..];
    }

    /** limit_above(n). The source dereferences the tail, so the list must not be empty. */
    method LimitAbove(n: NodeId, clients: map<NodeId, Client>) returns (r: Option<nat>)
      requires |entries| > 0 && Known(entries, clients) && n in clients
      ensures r == LimitAboveSpec(entries, clients, n)
    {
      var k := 0;
      while k < |entries| && StackCmp(clients[n], clients[entries[k]]) >= 0
        invariant k <= |entries|
        invariant forall i | 0 <= i < k :: Lv(clients, entries[i]) <= Lv(clients, n)
      {
        k := k + 1;
      }
      assert k == FirstHigher(entries, clients, Lv(clients, n));
      if k == |entries| {
        k := |entries| - 1;
      }
      if entries[k] == n {
        r := if k == 0 then None else Some(k - 1);
      } else {
        r := Some(k);
      }
    }

    /** limit_below(n), scanning from the tail. */
    method LimitBelow(n: NodeId, clients: map<NodeId, Client>) returns (r: Option<nat>)
      requires |entries| > 0 && Known(entries, clients) && n in clients
      ensures r == LimitBelowSpec(entries, clients, n)
    {
      var k := |entries| - 1;
      while k >= 0 && StackCmp(clients[n], clients[entries[k]]) <= 0
        invariant -1 <= k < |entries|
        invariant forall i | k < i < |entries| :: Lv(clients, entries[i]) >= Lv(clients, n)
      {
        k := k - 1;
      }
      assert k == LastLower(entries, clients, Lv(clients, n));
      if k < 0 {
        k := 0;
      }
      if entries[k] == n {
        r := if k + 1 == |entries| then None else Some(k + 1);
      } else {
        r := Some(k);
      }
    }

    /** restack_presel_feedbacks(d): raise the desktop's feedback windows
        above the top-most tiled window, when there is one. */
    method RestackPreselFeedbacks(clients: map<NodeId, Client>, root: Tree) returns (calls: seq<XCall>)
      requires Known(entries, clients)
      ensures calls == match TopTiled(entries, clients)
                       case None => []
                       case Some(k) => PreselFeedbackCalls(root, entries[k])
    {
      var k := |entries| - 1;
      while k >= 0 && !IsTiled(clients[entries[k]].state)
        invariant -1 <= k < |entries|
        invariant TopTiled(entries, clients) == TopTiled(entries[..k + 1], clients)
      {
        assert entries[..k + 1][..k] == entries[..k];
        k := k - 1;
      }
      if k >= 0 {
        calls := PreselFeedbackCalls(root, entries[k]);
      } else {
        calls := [];
      }
    }

    /** The body of the loop in stack() for one placed leaf `f`. */
    method StackOne(f: NodeId, clients: map<NodeId, Client>, focused: bool)
        returns (calls: seq<XCall>, reports: seq<string>)
      requires Known(entries, clients) && f in clients
      modifies this
      ensures var o := StackStep(old(entries), f, clients, focused);
        entries == o.entries && calls == o.calls && reports == o.reports
      ensures Known(entries, clients)
    {
      StackStepKeeps(entries, f, clients, focused);
      calls, reports := [], [];
      if |entries| == 0 {
        InsertAfter(None, f);
        return;
      }
      var s;
      if focused {
        s := LimitAbove(f, clients);
      } else {
        s := LimitBelow(f, clients);
      }
      if s.None? {
        return;
      }
      var g := entries[s.value];
      var c := StackCmp(clients[f], clients[g]);
      if c < 0 || (c == 0 && !focused) {
        InsertBefore(s, f);
        calls, reports := [WindowBelow(f, g)], [StackReport(f, "below", g)];
      } else {
        InsertAfter(s, f);
        calls, reports := [WindowAbove(f, g)], [StackReport(f, "above", g)];
      }
    }

    /**
     * stack(d, n, focused) for the leaves `leaves` of n: each placed leaf is
     * moved next to its limit, then the client list is refreshed and the
     * preselection feedbacks restacked.
     */
    method Stack(leaves: seq<NodeId>, clients: map<NodeId, Client>, focused: bool, autoRaise: bool, root: Tree)
        returns (calls: seq<XCall>, reports: seq<string>)
      requires Known(entries, clients)
      modifies this
      ensures var o := StackLeaves(old(entries), leaves, clients, focused, autoRaise);
        && entries == o.entries && reports == o.reports
        && calls == o.calls + [UpdateClientList]
             + match TopTiled(entries, clients)
               case None => []
               case Some(k) => PreselFeedbackCalls(root, entries[k])
      ensures old(NoDup(entries) && Sorted(entries, clients)) ==> NoDup(entries) && Sorted(entries, clients)
      ensures forall i | 0 <= i < |leaves| && Placed(leaves[i], clients, autoRaise) :: leaves[i] in entries
    {
      calls, reports := [], [];
      for i := 0 to |leaves|
        invariant Known(entries, clients)
        invariant var o := StackLeaves(old(entries), leaves[..i], clients, focused, autoRaise);
          entries == o.entries && calls == o.calls && reports == o.reports
      {
        assert leaves[..i + 1][..i] == leaves[..i];
        var f := leaves[i];
        if Placed(f, clients, autoRaise) {
          var c, r := StackOne(f, clients, focused);
          calls, reports := calls + c, reports + r;
        }
      }
      assert leaves[..|leaves|] == leaves;
      StackLeavesContent(old(entries), leaves, clients, focused, autoRaise);
      if old(NoDup(entries) && Sorted(entries, clients)) {
        StackLeavesSorted(old(entries), leaves, clients, focused, autoRaise);
      }
      calls := calls + [UpdateClientList];
      var feedback := RestackPreselFeedbacks(clients, root);
      calls := calls + feedback;
    }
  }
}
