/** `rebuildModel` of content.js as a specification: the scan of the role-tagged
    nodes and stand-ins in document order, the running turn counter, the id
    minting of `ensureMessageId`, the three rebuilt tables, the anchor, and the
    registry reconciliation of `cleanupCollapsedRecords`. The scan is a left fold,
    one visited node at a time, so that the rebuilding loop of the engine can be
    proved against it step by step. */
module Build {
  import opened Config
  import opened Optional
  import opened Text
  import opened Window
  import opened Model
  import opened Bulk

  /** One node the document query returned, in document order, with the grouping
      root that `getMessageRoot` finds for it (None when it finds none). */
  datatype Hit = Hit(node: NodeRef, root: Option<NodeRef>)

  /** Every node a scan visits is a node of `dom`. */
  ghost predicate HitsIn(dom: map<NodeRef, Node>, hits: seq<Hit>) {
    forall i :: 0 <= i < |hits| ==> hits[i].node in dom && (hits[i].root.Some? ==> hits[i].root.value in dom)
  }

  /** The decimal digit `d`. */
  function Digit(d: nat): (c: char)
    requires d < 10
    ensures '0' <= c <= '9'
  {
    (48 + d) as char
  }

  /** `String(n)` for a non-negative integer: its decimal digits, most significant
      first, without leading zeros. */
  function DecimalString(n: nat): (s: string)
    ensures 1 <= |s| && (n < 10 <==> |s| == 1)
    ensures forall i :: 0 <= i < |s| ==> '0' <= s[i] <= '9'
  {
    if n < 10 then [Digit(n)] else DecimalString(n / 10) + [Digit(n % 10)]
  }

  /** Different counters give different decimal strings, so ids minted from a
      counter that only grows never repeat. */
  lemma {:induction false} DecimalStringInjective(m: nat, n: nat)
    requires DecimalString(m) == DecimalString(n)
    ensures m == n
  {
    var s := DecimalString(m);
    if m >= 10 {
      assert s[|s| - 1] == Digit(m % 10) == Digit(n % 10);
      assert s[..|s| - 1] == DecimalString(m / 10) == DecimalString(n / 10);
      DecimalStringInjective(m / 10, n / 10);
    }
  }

  /** `ensureMessageId(node)`: the node's id attribute when it has a non-empty one,
      else the decimal string of the counter, which then moves on by one. Returns
      the id and the new counter. */
  function EnsureMessageId(node: Node, next: nat): (r: (Id, nat))
    ensures r.0 != "" && next <= r.1 <= next + 1
    ensures r.1 == next <==> node.slimId != ""
    ensures node.slimId != "" ==> r.0 == node.slimId
  {
    if node.slimId != "" then (node.slimId, next) else (DecimalString(next), next + 1)
  }

  /** Two ids minted with different counter values differ. */
  lemma MintedIdsDiffer(a: Node, b: Node, m: nat, n: nat)
    requires a.slimId == "" && b.slimId == "" && m != n
    ensures EnsureMessageId(a, m).0 != EnsureMessageId(b, n).0
  {
    if DecimalString(m) == DecimalString(n) {
      DecimalStringInjective(m, n);
    }
  }

  /** What the scan of `rebuildModel` carries from node to node: the page nodes
      (whose bookkeeping attributes it writes), the id counter, the three tables
      being refilled, the grouping roots already taken and the turn counter. */
  datatype Scan = Scan(
    dom: map<NodeRef, Node>,
    nextMessageId: nat,
    messages: seq<Entry>,
    byId: map<Id, nat>,
    turnToIds: map<int, seq<Id>>,
    seen: set<NodeRef>,
    turn: int)

  /** The scan before the first node: empty tables and the turn counter at -1. */
  function Start(w: World): Scan {
    Scan(w.dom, w.nextMessageId, [], map[], map[], {}, -1)
  }

  /** Takes `root` as the next entry, with `role0` the role read so far: a stand-in
      root's own role attribute wins; a user entry opens the next turn and any
      other entry stays in the current one, turn 0 when none is open yet. The id
      comes from `ensureMessageId`, and the root records id, turn and role. */
  function Append(s: Scan, root: NodeRef, role0: Role): (r: Scan)
    requires root in s.dom
    ensures r.dom.Keys == s.dom.Keys && r.seen == s.seen
  {
    var node := s.dom[root];
    var role := if node.standIn then NormalizeRole(if node.slimRole != "" then node.slimRole else RoleName(role0)) else role0;
    var turn := if role == User then s.turn + 1 else if s.turn < 0 then 0 else s.turn;
    var (id, next) := EnsureMessageId(node, s.nextMessageId);
    s.(dom := s.dom[root := node.(slimId := id, turnAttr := turn, slimRole := RoleName(role))],
       nextMessageId := next,
       messages := s.messages + [Entry(id, role, turn, root, node.standIn, node.snippetAttr)],
       byId := s.byId[id := |s.messages|],
       turnToIds := s.turnToIds[turn := IdsAt(s.turnToIds, turn) + [id]],
       turn := turn)
  }

  /** One node of the scan: a stand-in is its own entry, with its role attribute;
      a role-tagged node counts through its grouping root, once per root, and is
      skipped when it has none. */
  function Visit(s: Scan, h: Hit): (r: Scan)
    requires h.node in s.dom && (h.root.Some? ==> h.root.value in s.dom)
    ensures r.dom.Keys == s.dom.Keys
  {
    var node := s.dom[h.node];
    if node.standIn then Append(s, h.node, NormalizeRole(node.slimRole))
    else if h.root.None? || h.root.value in s.seen then s
    else Append(s.(seen := s.seen + {h.root.value}), h.root.value, NormalizeRole(node.authorRole))
  }

  /** The scan over `hits`, one node after the other. */
  function ScanAll(s: Scan, hits: seq<Hit>): (r: Scan)
    requires HitsIn(s.dom, hits)
    ensures r.dom.Keys == s.dom.Keys
    decreases |hits|
  {
    if hits == [] then s
    else
      var p := ScanAll(s, hits[..|hits| - 1]);
      Visit(p, hits[|hits| - 1])
  }

  /** `cleanupCollapsedRecords`: drops the records of ids that are unknown or whose
      entry is live, and re-points every other record's stand-in at the entry's
      current element. Each record is handled on its own, so the order of the
      source's walk does not matter. */
  function Cleanup(w: World): map<Id, Model.Record>
    requires Valid(w)
  {
    map id | id in w.collapsedById && id in w.messageById && EntryOf(w, id).isPlaceholder ::
      Model.Record(w.collapsedById[id].node, EntryOf(w, id).el)
  }

  /** A cleanup keeps the well-formedness of the tables, leaves exactly the records
      of known stand-in entries, each still holding the node it held, and makes
      the registry consistent with the entries. */
  lemma CleanupOutcome(w: World)
    requires Valid(w)
    ensures var w' := w.(collapsedById := Cleanup(w));
      Valid(w') && Consistent(w') &&
      (forall id :: id in w'.collapsedById <==> id in w.collapsedById && id in w.messageById && EntryOf(w, id).isPlaceholder) &&
      (forall id :: id in w'.collapsedById ==> w'.collapsedById[id].node == w.collapsedById[id].node) &&
      (PlaceholdersRegistered(w) ==> PlaceholdersRegistered(w'))
  {
  }

  /** The entry table, turn index and id tables of a scan are well formed. */
  ghost predicate ScanValid(s: Scan) {
    (forall i :: 0 <= i < |s.messages| ==> s.messages[i].el in s.dom) &&
    (forall id :: id in s.byId ==> s.byId[id] < |s.messages| && s.messages[s.byId[id]].id == id)
  }

  /** The turn counter is -1 before the first entry and the last entry's turn after
      it; the first entry is in turn 0, and every later entry is in the turn of
      the entry before it, one more for a user entry. */
  ghost predicate Numbered(s: Scan) {
    (s.messages == [] ==> s.turn == -1) &&
    (s.messages != [] ==> s.turn == s.messages[|s.messages| - 1].turnIndex && s.messages[0].turnIndex == 0) &&
    (forall i :: 0 <= i < |s.messages| ==> s.messages[i].turnIndex >= 0) &&
    (forall i :: 0 < i < |s.messages| ==>
      s.messages[i].turnIndex == s.messages[i - 1].turnIndex + (if s.messages[i].role == User then 1 else 0))
  }

  /** The ids of the entries of turn `t`, in entry order. */
  function IdsOfTurn(ms: seq<Entry>, t: int): (ids: seq<Id>)
    ensures |ids| <= |ms|
  {
    if ms == [] then []
    else IdsOfTurn(ms[..|ms| - 1], t) + (if ms[|ms| - 1].turnIndex == t then [ms[|ms| - 1].id] else [])
  }

  /** `turnToIds` lists, under each turn, the ids of that turn's entries in entry
      order, and has a key only for turns with entries. */
  ghost predicate Indexed(s: Scan) {
    (forall t :: IdsAt(s.turnToIds, t) == IdsOfTurn(s.messages, t)) &&
    (forall t :: t in s.turnToIds ==> s.turnToIds[t] != [])
  }

  /** `messageById` knows exactly the ids of the entries, and leads to the last
      entry with that id (a later duplicate overwrites an earlier one). */
  ghost predicate LastById(s: Scan) {
    (forall i :: 0 <= i < |s.messages| ==> s.messages[i].id in s.byId) &&
    (forall id :: id in s.byId ==> forall j :: s.byId[id] < j < |s.messages| ==> s.messages[j].id != id)
  }

  ghost predicate ScanInv(s: Scan) {
    ScanValid(s) && Numbered(s) && Indexed(s) && LastById(s)
  }

  /** The entry `Append` adds. */
  lemma AppendEntry(s: Scan, root: NodeRef, role0: Role)
    requires root in s.dom
    ensures var r := Append(s, root, role0);
      var e := r.messages[|s.messages|];
      r.messages == s.messages + [e] && e.el == root && r.turn == e.turnIndex &&
      r.byId == s.byId[e.id := |s.messages|] &&
      r.turnToIds == s.turnToIds[e.turnIndex := IdsAt(s.turnToIds, e.turnIndex) + [e.id]] &&
      e.turnIndex == (if e.role == User then s.turn + 1 else if s.turn < 0 then 0 else s.turn)
  {
  }

  lemma AppendValid(s: Scan, root: NodeRef, role0: Role)
    requires root in s.dom && ScanValid(s)
    ensures ScanValid(Append(s, root, role0))
  {
    AppendEntry(s, root, role0);
  }

  lemma AppendNumbered(s: Scan, root: NodeRef, role0: Role)
    requires root in s.dom && Numbered(s)
    ensures Numbered(Append(s, root, role0))
  {
    AppendEntry(s, root, role0);
    var r := Append(s, root, role0);
    assert forall i :: 0 <= i < |s.messages| ==> r.messages[i] == s.messages[i];
  }

  lemma AppendIndexed(s: Scan, root: NodeRef, role0: Role)
    requires root in s.dom && Indexed(s)
    ensures Indexed(Append(s, root, role0))
  {
    AppendEntry(s, root, role0);
    var r := Append(s, root, role0);
    assert r.messages[..|s.messages|] == s.messages;
  }

  lemma AppendLastById(s: Scan, root: NodeRef, role0: Role)
    requires root in s.dom && LastById(s)
    ensures LastById(Append(s, root, role0))
  {
    AppendEntry(s, root, role0);
  }

  lemma AppendInv(s: Scan, root: NodeRef, role0: Role)
    requires root in s.dom && ScanInv(s)
    ensures ScanInv(Append(s, root, role0))
  {
    AppendValid(s, root, role0);
    AppendNumbered(s, root, role0);
    AppendIndexed(s, root, role0);
    AppendLastById(s, root, role0);
  }

  lemma VisitStandInInv(s: Scan, h: Hit)
    requires h.node in s.dom && (h.root.Some? ==> h.root.value in s.dom) && ScanInv(s) && s.dom[h.node].standIn
    ensures ScanInv(Visit(s, h))
  {
    var r := Append(s, h.node, NormalizeRole(s.dom[h.node].slimRole));
    AppendInv(s, h.node, NormalizeRole(s.dom[h.node].slimRole));
    assert Visit(s, h) == r;
  }

  lemma VisitRootInv(s: Scan, h: Hit)
    requires h.node in s.dom && h.root.Some? && h.root.value in s.dom && ScanInv(s)
    requires !s.dom[h.node].standIn && h.root.value !in s.seen
    ensures ScanInv(Visit(s, h))
  {
    var s1 := s.(seen := s.seen + {h.root.value});
    var r := Append(s1, h.root.value, NormalizeRole(s.dom[h.node].authorRole));
    AppendInv(s1, h.root.value, NormalizeRole(s.dom[h.node].authorRole));
    assert Visit(s, h) == r;
  }

  lemma VisitInv(s: Scan, h: Hit)
    requires h.node in s.dom && (h.root.Some? ==> h.root.value in s.dom) && ScanInv(s)
    ensures ScanInv(Visit(s, h))
  {
    if s.dom[h.node].standIn {
      VisitStandInInv(s, h);
    } else if h.root.Some? && h.root.value !in s.seen {
      VisitRootInv(s, h);
    }
  }

  /** The scan keeps its invariant from node to node. */
  lemma {:induction false} ScanAllInv(s: Scan, hits: seq<Hit>)
    requires HitsIn(s.dom, hits) && ScanInv(s)
    ensures ScanInv(ScanAll(s, hits))
    decreases |hits|
  {
    if hits != [] {
      var init := hits[..|hits| - 1];
      ScanAllInv(s, init);
      VisitInv(ScanAll(s, init), hits[|hits| - 1]);
    }
  }

  /** A scan writes bookkeeping attributes only; which nodes are stand-ins does
      not change. */
  lemma {:induction false} ScanKeepsStandIn(s: Scan, hits: seq<Hit>)
    requires HitsIn(s.dom, hits)
    ensures forall r :: r in s.dom ==> ScanAll(s, hits).dom[r].standIn == s.dom[r].standIn
    decreases |hits|
  {
    if hits != [] {
      ScanKeepsStandIn(s, hits[..|hits| - 1]);
    }
  }

  /** A node the scan takes as an entry: a stand-in met directly, or the grouping
      root of a role-tagged node. */
  datatype Taken = Taken(node: NodeRef, grouped: bool)

  /** The grouping roots of the role-tagged (non-stand-in) hits. */
  ghost function SeenRoots(dom: map<NodeRef, Node>, hits: seq<Hit>): set<NodeRef>
    requires HitsIn(dom, hits)
  {
    set i | 0 <= i < |hits| && !dom[hits[i].node].standIn && hits[i].root.Some? :: hits[i].root.value
  }

  /** The nodes the scan takes, in order: every stand-in hit, and the grouping
      root of each role-tagged hit whose root no earlier role-tagged hit had. */
  ghost function TakenNodes(dom: map<NodeRef, Node>, hits: seq<Hit>): seq<Taken>
    requires HitsIn(dom, hits)
    decreases |hits|
  {
    if hits == [] then []
    else
      var init, h := hits[..|hits| - 1], hits[|hits| - 1];
      var p := TakenNodes(dom, init);
      if dom[h.node].standIn then p + [Taken(h.node, false)]
      else if h.root.None? || h.root.value in SeenRoots(dom, init) then p
      else p + [Taken(h.root.value, true)]
  }

  lemma SeenRootsSnoc(dom: map<NodeRef, Node>, hits: seq<Hit>)
    requires HitsIn(dom, hits) && hits != []
    ensures var init, h := hits[..|hits| - 1], hits[|hits| - 1];
      SeenRoots(dom, hits) ==
        SeenRoots(dom, init) + (if !dom[h.node].standIn && h.root.Some? then {h.root.value} else {})
  {
    var init, h := hits[..|hits| - 1], hits[|hits| - 1];
    assert forall i :: 0 <= i < |init| ==> init[i] == hits[i];
  }

  /** One visit extends the taken nodes as `TakenNodes` does. */
  lemma VisitTaken(p: Scan, h: Hit, t: seq<Taken>, standIn: bool)
    requires h.node in p.dom && (h.root.Some? ==> h.root.value in p.dom) && p.dom[h.node].standIn == standIn
    requires |p.messages| == |t| && forall i :: 0 <= i < |t| ==> p.messages[i].el == t[i].node
    ensures var r := Visit(p, h);
      var t' := if standIn then t + [Taken(h.node, false)]
                else if h.root.None? || h.root.value in p.seen then t
                else t + [Taken(h.root.value, true)];
      r.seen == p.seen + (if !standIn && h.root.Some? then {h.root.value} else {}) &&
      |r.messages| == |t'| && forall i :: 0 <= i < |t'| ==> r.messages[i].el == t'[i].node
  {
    if standIn {
      AppendEntry(p, h.node, NormalizeRole(p.dom[h.node].slimRole));
    } else if h.root.Some? && h.root.value !in p.seen {
      var q := p.(seen := p.seen + {h.root.value});
      AppendEntry(q, h.root.value, NormalizeRole(p.dom[h.node].authorRole));
    }
  }

  /** The scan takes exactly `TakenNodes`, in order, and its set of seen roots is
      the set of grouping roots met. */
  lemma {:induction false} ScanTaken(w: World, hits: seq<Hit>)
    requires HitsIn(w.dom, hits)
    ensures var s, t := ScanAll(Start(w), hits), TakenNodes(w.dom, hits);
      s.seen == SeenRoots(w.dom, hits) && |s.messages| == |t| &&
      forall i :: 0 <= i < |t| ==> s.messages[i].el == t[i].node
    decreases |hits|
  {
    if hits != [] {
      var init, h := hits[..|hits| - 1], hits[|hits| - 1];
      ScanTaken(w, init);
      ScanKeepsStandIn(Start(w), init);
      SeenRootsSnoc(w.dom, hits);
      var p := ScanAll(Start(w), init);
      VisitTaken(p, h, TakenNodes(w.dom, init), w.dom[h.node].standIn);
    }
  }

  /** Every grouping root met is taken, as a grouped entry. */
  lemma {:induction false} SeenRootsTaken(dom: map<NodeRef, Node>, hits: seq<Hit>)
    requires HitsIn(dom, hits)
    ensures forall r :: r in SeenRoots(dom, hits) <==> Taken(r, true) in TakenNodes(dom, hits)
    decreases |hits|
  {
    if hits != [] {
      SeenRootsTaken(dom, hits[..|hits| - 1]);
      SeenRootsSnoc(dom, hits);
    }
  }

  /** No node is taken twice as a grouping root. */
  predicate GroupedDistinct(t: seq<Taken>) {
    forall i, j :: 0 <= i < j < |t| && t[i].grouped && t[j].grouped ==> t[i].node != t[j].node
  }

  lemma GroupedDistinctSnoc(p: seq<Taken>, x: Taken)
    requires GroupedDistinct(p) && (x.grouped ==> Taken(x.node, true) !in p)
    ensures GroupedDistinct(p + [x])
  {
    var t := p + [x];
    forall i, j | 0 <= i < j < |t| && t[i].grouped && t[j].grouped
      ensures t[i].node != t[j].node
    {
      if j == |p| {
        assert t[i] == p[i] == Taken(p[i].node, true);
      }
    }
  }

  /** No grouping root is taken twice. */
  lemma {:induction false} GroupedRootsDistinct(dom: map<NodeRef, Node>, hits: seq<Hit>)
    requires HitsIn(dom, hits)
    ensures GroupedDistinct(TakenNodes(dom, hits))
    decreases |hits|
  {
    if hits != [] {
      var init, h := hits[..|hits| - 1], hits[|hits| - 1];
      GroupedRootsDistinct(dom, init);
      SeenRootsTaken(dom, init);
      var p := TakenNodes(dom, init);
      if dom[h.node].standIn {
        GroupedDistinctSnoc(p, Taken(h.node, false));
      } else if h.root.Some? && h.root.value !in SeenRoots(dom, init) {
        GroupedDistinctSnoc(p, Taken(h.root.value, true));
      }
    }
  }

  /** The tables refilled from a finished scan: the entries, both indexes, the
      id counter and the written node attributes; the turn count is one past the
      last turn (0 without entries) and the model is clean. */
  function Refill(w: World, s: Scan): World {
    w.(dom := s.dom, nextMessageId := s.nextMessageId, messages := s.messages, messageById := s.byId,
       turnToIds := s.turnToIds, totalTurns := Max(0, s.turn + 1), modelDirty := false)
  }

  lemma RefillValid(w: World, s: Scan)
    requires Valid(w) && ScanValid(s) && s.dom.Keys == w.dom.Keys
    ensures Valid(Refill(w, s))
  {
  }

  /** `rebuildModel`, with `hits` the document query's result and `pinned` the
      pinned-to-bottom test: the tables are refilled from the scan; the anchor is
      reset to 0 without turns, else moved to the last turn when pinned and
      clamped otherwise; only in the latter case is the registry cleaned up. */
  function Rebuild(w: World, hits: seq<Hit>, pinned: bool): (w': World)
    requires Valid(w) && HitsIn(w.dom, hits)
    ensures Valid(w') && !w'.modelDirty && w'.heightById == w.heightById && w'.nextRef == w.nextRef
    ensures w'.dom.Keys == w.dom.Keys
  {
    var s := ScanAll(Start(w), hits);
    ScanAllInv(Start(w), hits);
    var w1 := Refill(w, s);
    RefillValid(w, s);
    if w1.totalTurns == 0 then w1.(anchor := 0)
    else
      CleanupOutcome(w1);
      w1.(anchor := if pinned then w1.totalTurns - 1 else Clamp(w.anchor, 0, w1.totalTurns - 1), collapsedById := Cleanup(w1))
  }

  /** The tables a rebuild leaves are the scan's. */
  lemma RebuildScan(w: World, hits: seq<Hit>, pinned: bool)
    requires Valid(w) && HitsIn(w.dom, hits)
    ensures var w1, w' := Refill(w, ScanAll(Start(w), hits)), Rebuild(w, hits, pinned);
      w' == w1.(anchor := w'.anchor, collapsedById := w'.collapsedById)
  {
  }

  /** `seenRoots`: the entries a rebuild leaves are the nodes `TakenNodes`
      lists, in order; no grouping root is taken twice; and the grouping root of
      every role-tagged hit is among them. */
  lemma RebuildEntries(w: World, hits: seq<Hit>, pinned: bool)
    requires Valid(w) && HitsIn(w.dom, hits)
    ensures var ms, t := Rebuild(w, hits, pinned).messages, TakenNodes(w.dom, hits);
      |ms| == |t| && (forall i :: 0 <= i < |t| ==> ms[i].el == t[i].node) && GroupedDistinct(t) &&
      forall i :: 0 <= i < |hits| && !w.dom[hits[i].node].standIn && hits[i].root.Some? ==>
        Taken(hits[i].root.value, true) in t
  {
    ScanTaken(w, hits);
    GroupedRootsDistinct(w.dom, hits);
    SeenRootsTaken(w.dom, hits);
    RebuildScan(w, hits, pinned);
    forall i | 0 <= i < |hits| && !w.dom[hits[i].node].standIn && hits[i].root.Some?
      ensures hits[i].root.value in SeenRoots(w.dom, hits)
    {
    }
  }

  /** Turn indices only grow along the entries. */
  lemma {:induction false} NumberedMonotone(s: Scan, i: nat, j: nat)
    requires Numbered(s) && i <= j < |s.messages|
    ensures s.messages[i].turnIndex <= s.messages[j].turnIndex
    decreases j - i
  {
    if i < j {
      NumberedMonotone(s, i, j - 1);
    }
  }

  /** The numbering facts of a scan. */
  lemma ScanTurns(s: Scan)
    requires Numbered(s)
    ensures var ms := s.messages;
      (ms == [] <==> Max(0, s.turn + 1) == 0) &&
      (ms != [] ==> ms[0].turnIndex == 0 && ms[|ms| - 1].turnIndex == s.turn) &&
      (forall i :: 0 < i < |ms| ==> ms[i].turnIndex == ms[i - 1].turnIndex + (if ms[i].role == User then 1 else 0)) &&
      (forall i, j :: 0 <= i <= j < |ms| ==> ms[i].turnIndex <= ms[j].turnIndex) &&
      (forall i :: 0 <= i < |ms| ==> 0 <= ms[i].turnIndex <= s.turn)
  {
    forall i, j | 0 <= i <= j < |s.messages|
      ensures s.messages[i].turnIndex <= s.messages[j].turnIndex
    {
      NumberedMonotone(s, i, j);
    }
    forall i | 0 <= i < |s.messages|
      ensures s.messages[i].turnIndex <= s.turn
    {
      NumberedMonotone(s, i, |s.messages| - 1);
    }
  }

  /** Turn numbering: the first entry is in turn 0; each later entry is in the
      turn of the entry before it, one turn further for a user entry; so turns
      never decrease along the entries, every entry's turn lies in
      `[0, totalTurns - 1]`, the last entry is in the last turn, and there are no
      turns exactly when there are no entries. */
  lemma RebuildTurns(w: World, hits: seq<Hit>, pinned: bool)
    requires Valid(w) && HitsIn(w.dom, hits)
    ensures var w' := Rebuild(w, hits, pinned);
      var ms := w'.messages;
      (ms == [] <==> w'.totalTurns == 0) &&
      (ms != [] ==> ms[0].turnIndex == 0 && ms[|ms| - 1].turnIndex == w'.totalTurns - 1) &&
      (forall i :: 0 < i < |ms| ==> ms[i].turnIndex == ms[i - 1].turnIndex + (if ms[i].role == User then 1 else 0)) &&
      (forall i, j :: 0 <= i <= j < |ms| ==> ms[i].turnIndex <= ms[j].turnIndex) &&
      (forall i :: 0 <= i < |ms| ==> 0 <= ms[i].turnIndex < w'.totalTurns)
  {
    var s := ScanAll(Start(w), hits);
    assert Numbered(s) by {
      ScanAllInv(Start(w), hits);
    }
    ScanTurns(s);
    RebuildScan(w, hits, pinned);
  }

  /** The number of user entries. */
  function UserCount(ms: seq<Entry>): (n: nat)
    ensures n <= |ms|
  {
    if ms == [] then 0 else UserCount(ms[..|ms| - 1]) + (if ms[|ms| - 1].role == User then 1 else 0)
  }

  /** Under the turn numbering, an entry's turn counts the user entries up to it,
      less one when the first entry is a user entry. */
  lemma {:induction false} TurnsCountUsers(ms: seq<Entry>, i: nat)
    requires i < |ms| && ms[0].turnIndex == 0
    requires forall k :: 0 < k < |ms| ==> ms[k].turnIndex == ms[k - 1].turnIndex + (if ms[k].role == User then 1 else 0)
    ensures ms[i].turnIndex + (if ms[0].role == User then 1 else 0) == UserCount(ms[..i + 1])
    decreases i
  {
    if i == 0 {
      assert UserCount(ms[..1]) == UserCount(ms[..1][..0]) + (if ms[0].role == User then 1 else 0);
      assert ms[..1][..0] == [];
    } else {
      TurnsCountUsers(ms, i - 1);
      assert ms[..i + 1][..i] == ms[..i];
    }
  }

  lemma TurnCountOf(ms: seq<Entry>, total: int)
    requires ms == [] <==> total == 0
    requires ms != [] ==> ms[0].turnIndex == 0 && ms[|ms| - 1].turnIndex == total - 1
    requires forall k :: 0 < k < |ms| ==> ms[k].turnIndex == ms[k - 1].turnIndex + (if ms[k].role == User then 1 else 0)
    ensures total == UserCount(ms) + (if ms != [] && ms[0].role != User then 1 else 0)
  {
    if ms != [] {
      TurnsCountUsers(ms, |ms| - 1);
      assert ms[..|ms|] == ms;
    }
  }

  /** A rebuild counts one turn per user entry, plus one for a leading run of
      entries before the first user entry. */
  lemma RebuildTurnCount(w: World, hits: seq<Hit>, pinned: bool)
    requires Valid(w) && HitsIn(w.dom, hits)
    ensures var w' := Rebuild(w, hits, pinned);
      w'.totalTurns == UserCount(w'.messages) + (if w'.messages != [] && w'.messages[0].role != User then 1 else 0)
  {
    var w' := Rebuild(w, hits, pinned);
    RebuildTurns(w, hits, pinned);
    TurnCountOf(w'.messages, w'.totalTurns);
  }

  /** Every entry's id is listed under its own turn. */
  lemma {:induction false} IdsOfTurnHas(ms: seq<Entry>, i: nat)
    requires i < |ms|
    ensures ms[i].id in IdsOfTurn(ms, ms[i].turnIndex)
  {
    if i < |ms| - 1 {
      assert ms[..|ms| - 1][i] == ms[i];
      IdsOfTurnHas(ms[..|ms| - 1], i);
    }
  }

  /** Only the ids of a turn's entries are listed under it. */
  lemma {:induction false} IdsOfTurnMember(ms: seq<Entry>, t: int, id: Id)
    requires id in IdsOfTurn(ms, t)
    ensures exists i :: 0 <= i < |ms| && ms[i].id == id && ms[i].turnIndex == t
  {
    var init := ms[..|ms| - 1];
    if id in IdsOfTurn(init, t) {
      IdsOfTurnMember(init, t, id);
      var i :| 0 <= i < |init| && init[i].id == id && init[i].turnIndex == t;
      assert ms[i] == init[i];
    }
  }

  /** The turn index of a scan lists every entry under its turn and only known ids. */
  lemma ScanListed(s: Scan)
    requires Indexed(s) && LastById(s)
    ensures forall i :: 0 <= i < |s.messages| ==> s.messages[i].id in IdsAt(s.turnToIds, s.messages[i].turnIndex)
    ensures forall t, id :: t in s.turnToIds && id in s.turnToIds[t] ==> id in s.byId
  {
    forall i | 0 <= i < |s.messages|
      ensures s.messages[i].id in IdsAt(s.turnToIds, s.messages[i].turnIndex)
    {
      IdsOfTurnHas(s.messages, i);
    }
    forall t, id | t in s.turnToIds && id in s.turnToIds[t]
      ensures id in s.byId
    {
      assert id in IdsOfTurn(s.messages, t);
      IdsOfTurnMember(s.messages, t, id);
    }
  }

  /** After a rebuild `turnToIds` lists under each turn exactly the ids of that
      turn's entries, in entry order, and has no key for an empty turn; so every
      entry is listed under its turn and every listed id is known. */
  lemma RebuildIndex(w: World, hits: seq<Hit>, pinned: bool)
    requires Valid(w) && HitsIn(w.dom, hits)
    ensures var w' := Rebuild(w, hits, pinned);
      (forall t :: IdsAt(w'.turnToIds, t) == IdsOfTurn(w'.messages, t)) &&
      (forall t :: t in w'.turnToIds ==> w'.turnToIds[t] != []) &&
      EntriesListed(w') && TurnIdsKnown(w')
  {
    var s := ScanAll(Start(w), hits);
    assert Indexed(s) && LastById(s) by {
      ScanAllInv(Start(w), hits);
    }
    ScanListed(s);
    RebuildScan(w, hits, pinned);
  }

  /** After a rebuild every entry's id is known, and `messageById` leads to the
      last entry carrying it; so when the scanned ids are pairwise distinct, every
      entry is the one its id leads to. */
  lemma RebuildById(w: World, hits: seq<Hit>, pinned: bool)
    requires Valid(w) && HitsIn(w.dom, hits)
    ensures var w' := Rebuild(w, hits, pinned);
      var ms := w'.messages;
      (forall i :: 0 <= i < |ms| ==> ms[i].id in w'.messageById) &&
      (forall id :: id in w'.messageById ==>
        w'.messageById[id] < |ms| && ms[w'.messageById[id]].id == id &&
        forall j :: w'.messageById[id] < j < |ms| ==> ms[j].id != id) &&
      ((forall i, j :: 0 <= i < j < |ms| ==> ms[i].id != ms[j].id) ==> UniqueIds(w'))
  {
    var s := ScanAll(Start(w), hits);
    assert ScanValid(s) && LastById(s) by {
      ScanAllInv(Start(w), hits);
    }
    RebuildScan(w, hits, pinned);
  }

  /** After a rebuild the anchor is 0 without turns; otherwise it is a valid turn:
      the last one when pinned to the bottom, else the old anchor clamped. The
      registry is consistent with the entries; without turns it is left as it
      was, otherwise it keeps exactly the records of known stand-in entries, each
      with the node it held. */
  lemma RebuildAnchorAndRegistry(w: World, hits: seq<Hit>, pinned: bool)
    requires Valid(w) && HitsIn(w.dom, hits)
    ensures var w' := Rebuild(w, hits, pinned);
      var total := w'.totalTurns;
      Consistent(w') &&
      (total == 0 ==> w'.anchor == 0 && w'.collapsedById == w.collapsedById) &&
      (total > 0 ==>
        0 <= w'.anchor < total &&
        w'.anchor == (if pinned then total - 1 else Clamp(w.anchor, 0, total - 1)) &&
        (forall id :: id in w'.collapsedById <==>
          id in w.collapsedById && id in w'.messageById && EntryOf(w', id).isPlaceholder) &&
        (forall id :: id in w'.collapsedById ==> w'.collapsedById[id].node == w.collapsedById[id].node))
  {
    var s := ScanAll(Start(w), hits);
    ScanAllInv(Start(w), hits);
    RefillValid(w, s);
    var w1 := Refill(w, s);
    RebuildScan(w, hits, pinned);
    if w1.totalTurns == 0 {
      assert s.messages == [] by {
        ScanTurns(s);
      }
    } else {
      CleanupOutcome(w1);
    }
  }
}
