/** The virtualiser as content.js runs it: one object whose methods update its
    state in place. The page nodes and the tables (`messages`, `messageById`,
    `turnToIds`, `collapsedById`, `heightById`, the counters, the anchor and the
    dirty flag) are held in the field `tables`; the background worker, the mode
    and the previous anchor are fields of their own. Every method is proved to
    leave exactly the state that the matching specification function of
    `Model`, `Bulk`, `Build` or `Sync` describes, so the properties proved about
    those functions hold of the methods. */
module Engine {
  import opened Config
  import opened Optional
  import opened Text
  import opened Window
  import opened Model
  import opened Bulk
  import opened Build
  import opened Sync

  /** The registry while `cleanupCollapsedRecords` walks it: the records of the
      ids still `pending` are as they were, the others are already reconciled. */
  ghost function CleanupExcept(w: World, pending: set<Id>): map<Id, Model.Record>
    requires Valid(w)
  {
    map id | id in w.collapsedById && (id in pending || (id in w.messageById && EntryOf(w, id).isPlaceholder)) ::
      if id in pending then w.collapsedById[id] else Model.Record(w.collapsedById[id].node, EntryOf(w, id).el)
  }

  /** Reconciling one more pending record. */
  lemma CleanupExceptStep(w: World, pending: set<Id>, id: Id)
    requires Valid(w) && id in pending && pending <= w.collapsedById.Keys
    ensures var m := CleanupExcept(w, pending);
      CleanupExcept(w, pending - {id}) ==
        if id !in w.messageById || !EntryOf(w, id).isPlaceholder then m - {id}
        else m[id := Model.Record(w.collapsedById[id].node, EntryOf(w, id).el)]
  {
  }

  /** The cleanup and well-formedness do not look at the anchor. */
  lemma AnchorIrrelevant(w: World, anchor: int)
    requires Valid(w)
    ensures Valid(w.(anchor := anchor)) && Cleanup(w.(anchor := anchor)) == Cleanup(w)
  {
  }

  class Virtualizer {
    var tables: World
    var collapseTargetRange: Option<TurnRange>
    var collapsePlan: Option<Plan>
    var collapseWorkerRunning: bool
    var mode: Mode
    var previousAnchorTurn: int

    function WorkerState(): Worker
      reads this
    {
      Worker(collapseTargetRange, collapsePlan, collapseWorkerRunning)
    }

    function Ctl(): Control
      reads this
    {
      Control(WorkerState(), mode, previousAnchorTurn)
    }

    /** The whole state as a value. */
    function State(): Sync.State
      reads this
    {
      Sync.State(tables, Ctl())
    }

    ghost predicate Inv()
      reads this
    {
      Valid(tables)
    }

    /** A fresh virtualiser over the given page nodes: no entries, no turns, a
        dirty model, dynamic mode and an idle worker. */
    constructor (pageNodes: map<NodeRef, Node>, firstFreeRef: NodeRef)
      requires forall r :: r in pageNodes ==> r < firstFreeRef
      ensures Inv() && tables == World(pageNodes, firstFreeRef, 1, [], map[], map[], 0, 0, map[], map[], true)
      ensures Ctl() == Control(Worker(None, None, false), Dynamic, 0)
    {
      tables := World(pageNodes, firstFreeRef, 1, [], map[], map[], 0, 0, map[], map[], true);
      collapseTargetRange := None;
      collapsePlan := None;
      collapseWorkerRunning := false;
      mode := Dynamic;
      previousAnchorTurn := 0;
    }

    /** `collapseMessage(id, lowCostMode)`. */
    method CollapseMessage(id: Id, lowCost: bool)
      requires Inv()
      modifies this
      ensures Inv() && tables == Collapse(old(tables), id, lowCost) && Ctl() == old(Ctl())
    {
      var w := tables;
      if id !in w.messageById {
        return;
      }
      var idx := w.messageById[id];
      var item := w.messages[idx];
      if item.isPlaceholder {
        return;
      }
      var node := w.dom[item.el];
      if !node.attached {
        tables := w.(modelDirty := true);
        return;
      }
      var height := if id in w.heightById then w.heightById[id] else 0;
      var heights := w.heightById;
      if height <= 0 {
        height := FreshHeight(item, node, lowCost);
        heights := heights[id := height];
      }
      SwapValid(w.(heightById := heights), id, height);
      SwapIn(id, height, heights);
    }

    /** The swap of a collapse: the live node leaves the document and a fresh
        stand-in of the given height takes its place, under a new handle. */
    method SwapIn(id: Id, height: int, heights: map<Id, int>)
      requires Inv() && id in tables.messageById
      modifies this
      ensures tables == Swap(old(tables).(heightById := heights), id, height) && Ctl() == old(Ctl())
    {
      var w := tables;
      var idx := w.messageById[id];
      var item := w.messages[idx];
      var placeholder := w.nextRef;
      tables := w.(dom := w.dom[item.el := w.dom[item.el].(attached := false, collapsedMark := true)][placeholder := StandIn(item, height)],
                   nextRef := placeholder + 1,
                   heightById := heights,
                   collapsedById := w.collapsedById[id := Model.Record(item.el, placeholder)],
                   messages := w.messages[idx := item.(el := placeholder, isPlaceholder := true)]);
    }

    /** `restoreMessage(id)`. */
    method RestoreMessage(id: Id)
      requires Inv()
      modifies this
      ensures Inv() && tables == Restore(old(tables), id) && Ctl() == old(Ctl())
    {
      var w := tables;
      if id !in w.messageById || id !in w.collapsedById {
        return;
      }
      var record := w.collapsedById[id];
      var nodes := w.dom;
      if nodes[record.placeholder].attached {
        var standIn, detached := nodes[record.placeholder], nodes[record.node];
        nodes := nodes[record.placeholder := standIn.(attached := false)][record.node := detached.(attached := true)];
      }
      var live := nodes[record.node];
      var heights := w.heightById;
      if id !in heights && live.attached {
        heights := heights[id := Max(live.offsetHeight, MinPlaceholderHeight)];
      }
      var idx := w.messageById[id];
      ReattachValid(w, id);
      tables := w.(dom := nodes[record.node := live.(collapsedMark := false)],
                   heightById := heights,
                   collapsedById := w.collapsedById - {id},
                   messages := w.messages[idx := w.messages[idx].(el := record.node, isPlaceholder := false)]);
      assert tables == Reattach(w, id);
    }

    /** `restoreTurnsImmediately(minTurn, maxTurn)`. */
    method RestoreTurnsImmediately(minTurn: int, maxTurn: int)
      requires Inv()
      modifies this
      ensures Inv() && tables == RestoreTurns(old(tables), minTurn, maxTurn) && Ctl() == old(Ctl())
    {
      if |tables.collapsedById| == 0 {
        return;
      }
      ghost var w0 := tables;
      var turn := minTurn;
      while turn <= maxTurn
        invariant Inv() && Ctl() == old(Ctl())
        invariant RestoreTurnsFrom(tables, turn, maxTurn) == RestoreTurnsFrom(w0, minTurn, maxTurn)
        decreases maxTurn - turn
      {
        RestoreIdsInOrder(IdsAt(tables.turnToIds, turn));
        turn := turn + 1;
      }
    }

    /** The inner loop of `restoreTurnsImmediately`: `restoreMessage` for each id
        of a turn, in order. */
    method RestoreIdsInOrder(ids: seq<Id>)
      requires Inv()
      modifies this
      ensures Inv() && tables == RestoreIds(old(tables), ids) && Ctl() == old(Ctl())
    {
      ghost var w0 := tables;
      for k := 0 to |ids|
        invariant Inv() && Ctl() == old(Ctl())
        invariant tables == RestoreIds(w0, ids[..k])
      {
        RestoreIdsSnoc(w0, ids[..k], ids[k]);
        assert ids[..k + 1] == ids[..k] + [ids[k]];
        RestoreMessage(ids[k]);
      }
      assert ids[..|ids|] == ids;
    }

    /** `restoreAllCollapsedMessages()`. The registry's keys are taken in some
        order, returned as `order`. */
    method RestoreAllCollapsedMessages() returns (ghost order: seq<Id>)
      requires Inv()
      modifies this
      ensures Inv() && Ctl() == old(Ctl())
      ensures (forall id :: id in order <==> id in old(tables).collapsedById) && tables == RestoreAll(old(tables), order)
    {
      order := [];
      if |tables.collapsedById| == 0 {
        return;
      }
      order := RestoreEach(tables.collapsedById.Keys);
      tables := tables.(modelDirty := true);
    }

    /** The loop of `restoreAllCollapsedMessages`: `restoreMessage` for each of
        `ids`, in the order returned. */
    method RestoreEach(ids: set<Id>) returns (ghost order: seq<Id>)
      requires Inv()
      modifies this
      ensures Inv() && Ctl() == old(Ctl())
      ensures (forall id :: id in order <==> id in ids) && tables == RestoreIds(old(tables), order)
    {
      ghost var w0 := tables;
      order := [];
      var pending := ids;
      while pending != {}
        invariant Inv() && Ctl() == old(Ctl())
        invariant forall id :: id in order || id in pending <==> id in ids
        invariant tables == RestoreIds(w0, order)
        decreases |pending|
      {
        var id :| id in pending;
        RestoreIdsSnoc(w0, order, id);
        RestoreMessage(id);
        order := order + [id];
        pending := pending - {id};
      }
    }

    /** `enforceLiveTurnBudget(anchorTurn, typingHot)`; returns whether it asks
        for another sync. */
    method EnforceLiveTurnBudget(anchorTurn: int, typingHot: bool) returns (resync: bool)
      requires Inv()
      modifies this
      ensures Inv() && (tables, resync) == EnforceBudget(old(tables), anchorTurn, typingHot) && Ctl() == old(Ctl())
    {
      var total := tables.totalTurns;
      if total <= 0 {
        return false;
      }
      var budgetTurns := if typingHot then MaxLiveTurnsTyping else MaxLiveTurns;
      if total <= budgetTurns {
        return false;
      }
      var maxOps := if typingHot then BudgetCollapseOpsPerSyncTyping else BudgetCollapseOpsPerSync;
      var keep := BudgetKeepWindow(anchorTurn, total, budgetTurns);
      var ops := BudgetPass(keep, maxOps);
      resync := ops >= maxOps;
    }

    /** The loop of `enforceLiveTurnBudget`: walks the entries, collapsing (in
        low-cost mode) every live one outside `keep`, until `maxOps` collapses
        were attempted; returns how many were. */
    method BudgetPass(keep: TurnRange, maxOps: nat) returns (ops: nat)
      requires Inv()
      modifies this
      ensures Inv() && (tables, ops) == Pass(old(tables), 0, keep, maxOps, 0, true) && Ctl() == old(Ctl())
    {
      ghost var w0 := tables;
      var count := |tables.messages|;
      ops := 0;
      for i := 0 to count
        invariant Inv() && Ctl() == old(Ctl()) && |tables.messages| == count
        invariant Pass(tables, i, keep, maxOps, ops, true) == Pass(w0, 0, keep, maxOps, 0, true)
      {
        if ops >= maxOps {
          break;
        }
        var item := tables.messages[i];
        if item.isPlaceholder || (keep.lo <= item.turnIndex <= keep.hi) {
          PassUnfoldSkip(tables, i, keep, maxOps, ops, true);
          continue;
        }
        PassUnfoldCollapse(tables, i, keep, maxOps, ops, true);
        CollapseMessage(item.id, true);
        ops := ops + 1;
      }
    }

    /** `requestBackgroundCollapse(minTurn, maxTurn)`; returns whether it asks for
        a first tick. */
    method RequestBackgroundCollapse(minTurn: int, maxTurn: int) returns (tick: bool)
      modifies this
      ensures (WorkerState(), tick) == RequestCollapse(old(WorkerState()), minTurn, maxTurn)
      ensures tables == old(tables) && mode == old(mode) && previousAnchorTurn == old(previousAnchorTurn)
    {
      var target := TurnRange(minTurn, maxTurn);
      if collapseTargetRange == Some(target) {
        return false;
      }
      collapseTargetRange := Some(target);
      collapsePlan := None;
      tick := false;
      if !collapseWorkerRunning {
        collapseWorkerRunning := true;
        tick := true;
      }
    }

    /** The plan-building loop of `collapseWorkerTick`: the ids of the live
        entries outside `target`, in entry order. */
    method PlanQueueFor(target: TurnRange) returns (queue: seq<Id>)
      ensures queue == PlanQueue(tables.messages, target)
    {
      var messages := tables.messages;
      queue := [];
      for i := 0 to |messages|
        invariant queue == PlanQueue(messages[..i], target)
      {
        var item := messages[i];
        PlanQueueSnoc(messages[..i], item, target);
        assert messages[..i + 1] == messages[..i] + [item];
        if item.isPlaceholder {
          continue;
        }
        if target.lo <= item.turnIndex <= target.hi {
          continue;
        }
        queue := queue + [item.id];
      }
      assert messages[..|messages|] == messages;
    }

    /** The collapsing loop of `collapseWorkerTick`: collapses the queued ids from
        `from` on, at most `limit` of them; returns where it stopped. */
    method DrainQueue(queue: seq<Id>, from: nat, limit: nat, lowCost: bool) returns (index: nat)
      requires Inv()
      modifies this
      ensures Inv() && (tables, index) == Drain(old(tables), queue, from, 0, limit, lowCost) && Ctl() == old(Ctl())
    {
      ghost var w0 := tables;
      var ops := 0;
      index := from;
      while ops < limit && index < |queue|
        invariant Inv() && Ctl() == old(Ctl())
        invariant Drain(tables, queue, index, ops, limit, lowCost) == Drain(w0, queue, from, 0, limit, lowCost)
        decreases |queue| - index
      {
        CollapseMessage(queue[index], lowCost);
        index := index + 1;
        ops := ops + 1;
      }
    }

    /** `collapseWorkerTick()`, with the pause and typing as inputs; returns what
        it schedules next. */
    method CollapseWorkerTick(paused: bool, typingHot: bool) returns (next: TickResult)
      requires Inv()
      modifies this
      ensures Inv() && mode == old(mode) && previousAnchorTurn == old(previousAnchorTurn)
      ensures (tables, WorkerState(), next) == Tick(old(tables), old(WorkerState()), mode, paused, typingHot)
    {
      if mode != Dynamic {
        collapseWorkerRunning := false;
        return Stopped;
      }
      if tables.modelDirty {
        collapseWorkerRunning := false;
        return SyncRequested;
      }
      if collapseTargetRange.None? {
        collapseWorkerRunning := false;
        return Stopped;
      }
      var target := collapseTargetRange.value;
      if paused {
        return NextFrame;
      }
      if collapsePlan.None? || collapsePlan.value.key != target {
        var queue := PlanQueueFor(target);
        collapsePlan := Some(Plan(target, queue, 0));
      }
      var plan := collapsePlan.value;
      var opsLimit := if typingHot then CollapseOpsPerFrameTyping else CollapseOpsPerFrame;
      var index := DrainQueue(plan.queue, plan.index, opsLimit, typingHot);
      if index < |plan.queue| {
        collapsePlan := Some(plan.(index := index));
        return NextFrame;
      }
      collapsePlan := None;
      collapseWorkerRunning := false;
      return Stopped;
    }

    /** The per-root step of the scan in `rebuildModel`: the role (a stand-in
        root's own role attribute wins), the turn counter (a user entry opens the
        next turn, any other entry stays in the current one, turn 0 when none is
        open), `ensureMessageId`, the bookkeeping attributes written on the root,
        and the new entry pushed onto the three tables. */
    static method TakeRoot(scan: Scan, root: NodeRef, role0: Role) returns (next: Scan)
      requires root in scan.dom
      ensures next == Append(scan, root, role0)
    {
      var node := scan.dom[root];
      var role := role0;
      if node.standIn {
        role := NormalizeRole(if node.slimRole != "" then node.slimRole else RoleName(role0));
      }
      var turn := scan.turn;
      if role == User {
        turn := turn + 1;
      } else if turn < 0 {
        turn := 0;
      }
      var minted := EnsureMessageId(node, scan.nextMessageId);
      var id := minted.0;
      var ids := IdsAt(scan.turnToIds, turn) + [id];
      next := scan.(dom := scan.dom[root := node.(slimId := id, turnAttr := turn, slimRole := RoleName(role))],
                    nextMessageId := minted.1,
                    messages := scan.messages + [Entry(id, role, turn, root, node.standIn, node.snippetAttr)],
                    byId := scan.byId[id := |scan.messages|],
                    turnToIds := scan.turnToIds[turn := ids],
                    turn := turn);
    }

    /** The scan loop of `rebuildModel` over the document query's result `hits`,
        starting from empty tables and the turn counter at -1. */
    method ScanNodes(hits: seq<Hit>) returns (scan: Scan)
      requires HitsIn(tables.dom, hits)
      ensures scan == ScanAll(Start(tables), hits)
    {
      scan := Scan(tables.dom, tables.nextMessageId, [], map[], map[], {}, -1);
      for k := 0 to |hits|
        invariant scan == ScanAll(Start(tables), hits[..k])
      {
        assert hits[..k + 1][..k] == hits[..k];
        var hit := hits[k];
        var node := scan.dom[hit.node];
        if node.standIn {
          scan := TakeRoot(scan, hit.node, NormalizeRole(node.slimRole));
        } else if hit.root.Some? && hit.root.value !in scan.seen {
          scan := TakeRoot(scan.(seen := scan.seen + {hit.root.value}), hit.root.value, NormalizeRole(node.authorRole));
        }
      }
      assert hits[..|hits|] == hits;
    }

    /** `rebuildModel()`, with `hits` the document query's result and `pinned`
        the pinned-to-bottom test. */
    method RebuildModel(hits: seq<Hit>, pinned: bool)
      requires Inv() && HitsIn(tables.dom, hits)
      modifies this
      ensures Inv() && tables == Rebuild(old(tables), hits, pinned) && Ctl() == old(Ctl())
    {
      var w := tables;
      var scan := ScanNodes(hits);
      ScanAllInv(Start(w), hits);
      RefillValid(w, scan);
      tables := w.(modelDirty := false, dom := scan.dom, nextMessageId := scan.nextMessageId,
                   messages := scan.messages, messageById := scan.byId, turnToIds := scan.turnToIds,
                   totalTurns := Max(0, scan.turn + 1));
      ghost var w1 := tables;
      assert w1 == Refill(w, scan);
      if tables.totalTurns == 0 {
        AnchorIrrelevant(w1, 0);
        tables := tables.(anchor := 0);
        return;
      }
      var anchor := if pinned then tables.totalTurns - 1 else Clamp(tables.anchor, 0, tables.totalTurns - 1);
      AnchorIrrelevant(w1, anchor);
      tables := tables.(anchor := anchor);
      CleanupCollapsedRecords();
    }

    /** `cleanupCollapsedRecords()`: each record is dropped when its id is unknown
        or its entry is live, and otherwise re-pointed at the entry's element. */
    method CleanupCollapsedRecords()
      requires Inv()
      modifies this
      ensures Inv() && tables == old(tables).(collapsedById := Cleanup(old(tables))) && Ctl() == old(Ctl())
    {
      var w := tables;
      var records := w.collapsedById;
      var pending := records.Keys;
      assert CleanupExcept(w, pending) == records;
      while pending != {}
        invariant pending <= w.collapsedById.Keys && records == CleanupExcept(w, pending)
        modifies {}
        decreases |pending|
      {
        var id :| id in pending;
        CleanupExceptStep(w, pending, id);
        var record := records[id];
        if id !in w.messageById || !w.messages[w.messageById[id]].isPlaceholder {
          records := records - {id};
        } else if w.messages[w.messageById[id]].el != record.placeholder {
          records := records[id := Model.Record(record.node, w.messages[w.messageById[id]].el)];
        }
        pending := pending - {id};
      }
      assert CleanupExcept(w, {}) == Cleanup(w);
      CleanupOutcome(w);
      tables := w.(collapsedById := records);
    }

    /** `sync()`, with the clocks, the focus and the document queries as inputs;
        returns the follow-ups it schedules, and (as `order`) the order in which
        an expanded-mode sync restored the registry. */
    method Synchronize(inp: Inputs) returns (follow: Followups, ghost order: seq<Id>)
      requires Inv() && HitsIn(tables.dom, inp.hits) && HitsIn(tables.dom, inp.rehits)
      modifies this
      ensures Inv() && (State(), follow) == SyncStep(old(State()), inp, order)
      ensures var w := Refresh(old(tables), inp);
        old(mode) == Expanded && !(old(tables).modelDirty && inp.typingHot && !inp.scrollingHot) &&
        w.totalTurns > 0 && |w.messages| > 0 ==>
        forall id :: id in order <==> id in w.collapsedById
    {
      order := [];
      if tables.modelDirty {
        if inp.typingHot && !inp.scrollingHot {
          follow := NoFollowups.(afterTyping := true);
          return;
        }
        RebuildModel(inp.hits, IsPinnedToBottom(inp.metrics));
      }
      if tables.totalTurns <= 0 || |tables.messages| == 0 {
        follow := NoFollowups.(bootstrap := true);
        return;
      }
      if mode == Expanded {
        order := SyncExpanded(inp);
        follow := NoFollowups;
        return;
      }
      if inp.typingHot && !inp.scrollingHot {
        follow := SyncTyping(inp);
        return;
      }
      follow := SyncSteady(inp);
    }

    /** The expanded-mode branch of `sync()`. */
    method SyncExpanded(inp: Inputs) returns (ghost order: seq<Id>)
      requires Inv() && HitsIn(tables.dom, inp.rehits)
      modifies this
      ensures Inv() && State() == Expand(old(State()), inp, order)
      ensures forall id :: id in order <==> id in old(tables).collapsedById
    {
      order := RestoreAllCollapsedMessages();
      if tables.modelDirty {
        RebuildModel(inp.rehits, IsPinnedToBottom(inp.remetrics));
      }
      collapseTargetRange := None;
    }

    /** The typing branch of `sync()`. */
    method SyncTyping(inp: Inputs) returns (follow: Followups)
      requires Inv() && tables.totalTurns > 0
      modifies this
      ensures Inv() && (State(), follow) == TypingPath(old(State()), inp)
    {
      var total := tables.totalTurns;
      var anchorTurn := FindAnchorTurn(total, inp.metrics, inp.samples, inp.fallback);
      previousAnchorTurn := tables.anchor;
      tables := tables.(anchor := anchorTurn);
      var window := TurnWindow(anchorTurn, 1, total);
      var resync := EnforceLiveTurnBudget(anchorTurn, true);
      var tick := RequestBackgroundCollapse(window.lo, window.hi);
      follow := Followups(true, false, resync, tick);
    }

    /** The steady branch of `sync()`. */
    method SyncSteady(inp: Inputs) returns (follow: Followups)
      requires Inv() && tables.totalTurns > 0
      modifies this
      ensures Inv() && (State(), follow) == SteadyPath(old(State()), inp)
    {
      ghost var st0 := State();
      var total := tables.totalTurns;
      var anchorTurn := FindAnchorTurn(total, inp.metrics, inp.samples, inp.fallback);
      var anchorDelta := if anchorTurn - tables.anchor < 0 then tables.anchor - anchorTurn else anchorTurn - tables.anchor;
      previousAnchorTurn := tables.anchor;
      tables := tables.(anchor := anchorTurn);
      var turnsAround := SyncRadius(anchorDelta, inp.scrollingHot, inp.inputFocused);
      var window := TurnWindow(anchorTurn, turnsAround, total);
      assert window == SteadyWindow(st0.w, inp);
      RestoreTurnsImmediately(window.lo, window.hi);
      var resync := EnforceLiveTurnBudget(anchorTurn, false);
      var tick := RequestBackgroundCollapse(window.lo, window.hi);
      follow := Followups(false, false, resync, tick);
    }

    /** `jumpToTurn(turnIndex)`, up to the scrolling; returns whether the worker
        was asked for a first tick. */
    method JumpToTurn(turnIndex: int) returns (tick: bool)
      requires Inv()
      modifies this
      ensures Inv() && (State(), tick) == JumpStep(old(State()), turnIndex)
    {
      var total := tables.totalTurns;
      if total <= 0 {
        return false;
      }
      var turn := JumpTarget(turnIndex, total);
      tables := tables.(anchor := turn);
      previousAnchorTurn := turn;
      var window := TurnWindow(turn, JumpPreloadTurns, total);
      RestoreTurnsImmediately(window.lo, window.hi);
      tick := RequestBackgroundCollapse(window.lo, window.hi);
    }
  }
}
