/** `sync` and `jumpToTurn` of content.js as specifications over the whole engine
    state: which branch a sync takes, the window it restores, the cap it enforces
    and the background collapse it asks for. Timers, the minimap and the math
    queue are left to the caller: a sync reports which follow-up it schedules. */
module Sync {
  import opened Config
  import opened Optional
  import opened Window
  import opened Model
  import opened Bulk
  import opened Build

  /** The background worker, the mode and the previous anchor turn. */
  datatype Control = Control(worker: Worker, mode: Mode, previousAnchor: int)

  /** The whole engine state: the tables and the control state. */
  datatype State = State(w: World, ctl: Control)

  /** What a sync schedules: a sync once typing settles, a bootstrap sync while
      the transcript is empty, another sync because the cap ran out of operations,
      and a first tick of the background worker. */
  datatype Followups = Followups(afterTyping: bool, bootstrap: bool, resync: bool, tick: bool)

  const NoFollowups := Followups(false, false, false, false)

  /** What a sync reads from the page and the clock: whether typing or a fast
      scroll is recent, whether the composer has focus, the document query a
      rebuild sees (`hits`, and `rehits` after an expanded-mode restore), the
      scroll metrics (`metrics`, and `remetrics` as read again after an
      expanded-mode restore has swapped the stand-ins back), the anchor samples
      and the scroll-ratio fallback turn. */
  datatype Inputs = Inputs(
    typingHot: bool,
    scrollingHot: bool,
    inputFocused: bool,
    hits: seq<Hit>,
    rehits: seq<Hit>,
    metrics: ScrollMetrics,
    remetrics: ScrollMetrics,
    samples: seq<Option<int>>,
    fallback: int)

  /** The document queries only return nodes of the page. */
  ghost predicate InputsFit(st: State, inp: Inputs) {
    Valid(st.w) && HitsIn(st.w.dom, inp.hits) && HitsIn(st.w.dom, inp.rehits)
  }

  /** The rebuild a sync starts with when the model is dirty. */
  function Refresh(w: World, inp: Inputs): (w': World)
    requires Valid(w) && HitsIn(w.dom, inp.hits)
    ensures Valid(w') && w'.dom.Keys == w.dom.Keys && !w'.modelDirty
    ensures !w.modelDirty ==> w' == w
  {
    if w.modelDirty then Rebuild(w, inp.hits, IsPinnedToBottom(inp.metrics)) else w
  }

  /** The expanded-mode branch: everything is restored (the registry's keys in
      `order`), the model rebuilt if that marked it dirty, and the collapse target
      dropped. */
  function Expand(st: State, inp: Inputs, order: seq<Id>): (r: State)
    requires Valid(st.w) && HitsIn(st.w.dom, inp.rehits)
    ensures Valid(r.w) && r.ctl == st.ctl.(worker := st.ctl.worker.(target := None))
  {
    var w1 := RestoreAll(st.w, order);
    var w2 := if w1.modelDirty then Rebuild(w1, inp.rehits, IsPinnedToBottom(inp.remetrics)) else w1;
    State(w2, st.ctl.(worker := st.ctl.worker.(target := None)))
  }

  /** The typing branch: the anchor moves, the four-turn typing cap is enforced
      around it, the worker is pointed at the anchor's turn and its neighbours,
      and a sync is scheduled for when typing settles. */
  function TypingPath(st: State, inp: Inputs): (r: (State, Followups))
    requires Valid(st.w) && st.w.totalTurns > 0
    ensures Valid(r.0.w)
  {
    var w := st.w;
    var anchor := FindAnchorTurn(w.totalTurns, inp.metrics, inp.samples, inp.fallback);
    var window := TurnWindow(anchor, 1, w.totalTurns);
    var b := EnforceBudget(w.(anchor := anchor), anchor, true);
    var q := RequestCollapse(st.ctl.worker, window.lo, window.hi);
    (State(b.0, Control(q.0, st.ctl.mode, w.anchor)), Followups(true, false, b.1, q.1))
  }

  /** The window the steady branch restores: `SyncRadius` turns around the turn
      the viewport shows, the radius depending on how far the anchor moved. */
  function SteadyWindow(w: World, inp: Inputs): TurnRange
    requires w.totalTurns > 0
  {
    var anchor := FindAnchorTurn(w.totalTurns, inp.metrics, inp.samples, inp.fallback);
    var delta := if anchor - w.anchor < 0 then w.anchor - anchor else anchor - w.anchor;
    TurnWindow(anchor, SyncRadius(delta, inp.scrollingHot, inp.inputFocused), w.totalTurns)
  }

  /** The steady branch: the anchor moves, the `SteadyWindow` is restored at
      once, the eight-turn cap is enforced and the worker is pointed at the
      window. */
  function SteadyPath(st: State, inp: Inputs): (r: (State, Followups))
    requires Valid(st.w) && st.w.totalTurns > 0
    ensures Valid(r.0.w)
  {
    var w := st.w;
    var anchor := FindAnchorTurn(w.totalTurns, inp.metrics, inp.samples, inp.fallback);
    var window := SteadyWindow(w, inp);
    var w1 := RestoreTurns(w.(anchor := anchor), window.lo, window.hi);
    var b := EnforceBudget(w1, anchor, false);
    var q := RequestCollapse(st.ctl.worker, window.lo, window.hi);
    (State(b.0, Control(q.0, st.ctl.mode, w.anchor)), Followups(false, false, b.1, q.1))
  }

  /** `sync()`. */
  function SyncStep(st: State, inp: Inputs, order: seq<Id>): (r: (State, Followups))
    requires InputsFit(st, inp)
    ensures Valid(r.0.w)
  {
    if st.w.modelDirty && inp.typingHot && !inp.scrollingHot then (st, NoFollowups.(afterTyping := true))
    else
      var w := Refresh(st.w, inp);
      var st1 := st.(w := w);
      if w.totalTurns <= 0 || |w.messages| == 0 then (st1, NoFollowups.(bootstrap := true))
      else if st.ctl.mode == Expanded then (Expand(st1, inp, order), NoFollowups)
      else if inp.typingHot && !inp.scrollingHot then TypingPath(st1, inp)
      else SteadyPath(st1, inp)
  }

  /** A dirty model is not rebuilt while the user types (and no fast scroll is
      going on): the sync changes nothing and waits for typing to settle. */
  lemma SyncWaitsForTyping(st: State, inp: Inputs, order: seq<Id>)
    requires InputsFit(st, inp) && st.w.modelDirty && inp.typingHot && !inp.scrollingHot
    ensures SyncStep(st, inp, order) == (st, Followups(true, false, false, false))
  {
  }

  /** A sync that finds no turns after the rebuild only schedules the bootstrap
      sync. */
  lemma SyncOutcome(st: State, inp: Inputs, order: seq<Id>)
    requires InputsFit(st, inp) && !(st.w.modelDirty && inp.typingHot && !inp.scrollingHot)
    ensures var w := Refresh(st.w, inp);
      w.totalTurns <= 0 || |w.messages| == 0 ==>
        SyncStep(st, inp, order) == (st.(w := w), Followups(false, true, false, false))
  {
  }

  /** A dynamic-mode sync with turns moves the anchor to the turn the viewport
      shows and remembers the one before. */
  lemma SyncMovesAnchor(st: State, inp: Inputs, order: seq<Id>)
    requires InputsFit(st, inp) && !(st.w.modelDirty && inp.typingHot && !inp.scrollingHot)
    requires st.ctl.mode == Dynamic
    requires var w := Refresh(st.w, inp); w.totalTurns > 0 && |w.messages| > 0
    ensures var r, w := SyncStep(st, inp, order), Refresh(st.w, inp);
      r.0.w.anchor == FindAnchorTurn(w.totalTurns, inp.metrics, inp.samples, inp.fallback) &&
      0 <= r.0.w.anchor < r.0.w.totalTurns && r.0.w.totalTurns == w.totalTurns &&
      r.0.ctl.previousAnchor == w.anchor && r.0.ctl.mode == Dynamic
  {
  }

  /** In expanded mode (with turns) everything registered is restored, the model
      is rebuilt when that changed anything, and the worker has no target. The
      rebuild's pinned-to-bottom test reads the scroll metrics taken after the
      restore, so a restore that brings the view to the bottom moves the anchor to
      the last turn. */
  lemma SyncExpandedOutcome(st: State, inp: Inputs, order: seq<Id>)
    requires InputsFit(st, inp) && !(st.w.modelDirty && inp.typingHot && !inp.scrollingHot)
    requires st.ctl.mode == Expanded
    requires var w := Refresh(st.w, inp); w.totalTurns > 0 && |w.messages| > 0
    requires forall id :: id in order <==> id in Refresh(st.w, inp).collapsedById
    ensures var w := Refresh(st.w, inp);
      var r := SyncStep(st, inp, order);
      r.1 == NoFollowups && r.0.ctl.worker.target == None && !r.0.w.modelDirty &&
      (|w.collapsedById| == 0 ==> r.0.w == w) &&
      (|w.collapsedById| != 0 ==>
        var w1 := RestoreAll(w, order);
        (forall id :: id in w.collapsedById && id in w.messageById ==> !EntryOf(w1, id).isPlaceholder) &&
        r.0.w == Rebuild(w1, inp.rehits, IsPinnedToBottom(inp.remetrics)))
  {
    var w := Refresh(st.w, inp);
    RestoreAllOutcome(w, order);
  }

  /** When the restore of the expanded-mode branch leaves the model dirty, the
      rebuild after it places the anchor by the scroll metrics read after the
      restore: on the last turn when the view is now at the bottom, else the old
      anchor clamped into the new turn range. */
  lemma ExpandAnchor(st: State, inp: Inputs, order: seq<Id>)
    requires Valid(st.w) && HitsIn(st.w.dom, inp.rehits)
    requires RestoreAll(st.w, order).modelDirty
    ensures var r := Expand(st, inp, order);
      var total := r.w.totalTurns;
      total > 0 ==>
        r.w.anchor == (if IsPinnedToBottom(inp.remetrics) then total - 1
                       else Clamp(st.w.anchor, 0, total - 1))
  {
    var w1 := RestoreAll(st.w, order);
    RebuildAnchorAndRegistry(w1, inp.rehits, IsPinnedToBottom(inp.remetrics));
  }

  /** Every entry of a turn in `window` is live. */
  ghost predicate WindowLive(w: World, window: TurnRange) {
    forall i :: 0 <= i < |w.messages| && window.Contains(w.messages[i].turnIndex) ==> !w.messages[i].isPlaceholder
  }

  /** Every entry of a turn in `window` is as it was. */
  ghost predicate WindowKept(w: World, w': World, window: TurnRange) {
    |w'.messages| == |w.messages| &&
    forall i :: 0 <= i < |w.messages| && window.Contains(w.messages[i].turnIndex) ==> w'.messages[i] == w.messages[i]
  }

  lemma LiveWindowKept(w: World, w': World, window: TurnRange)
    requires WindowLive(w, window) && WindowKept(w, w', window) && SameShape(w, w')
    ensures WindowLive(w', window)
  {
    forall i | 0 <= i < |w'.messages| && window.Contains(w'.messages[i].turnIndex)
      ensures !w'.messages[i].isPlaceholder
    {
      assert w'.messages[i] == w.messages[i];
    }
  }

  /** The cap leaves alone every entry of a window that its own window covers. */
  lemma CapKeepsWindow(w: World, anchor: int, typingHot: bool, window: TurnRange)
    requires Valid(w) && UniqueIds(w)
    requires w.totalTurns > LiveTurnBudget(typingHot) ==>
      var cap := BudgetKeepWindow(anchor, w.totalTurns, LiveTurnBudget(typingHot));
      cap.lo <= window.lo && window.hi <= cap.hi
    ensures WindowKept(w, EnforceBudget(w, anchor, typingHot).0, window)
    ensures WindowLive(w, window) ==> WindowLive(EnforceBudget(w, anchor, typingHot).0, window)
  {
    EnforceBudgetOutcome(w, anchor, typingHot);
    if WindowLive(w, window) {
      LiveWindowKept(w, EnforceBudget(w, anchor, typingHot).0, window);
    }
  }

  /** The immediate restore of a window on a world whose stand-ins are registered,
      whose ids are unique and whose entries are listed leaves the window live and
      the ids unique. */
  lemma RestoreWindowLive(w: World, window: TurnRange)
    requires Valid(w) && PlaceholdersRegistered(w) && UniqueIds(w) && EntriesListed(w)
    ensures var w' := RestoreTurns(w, window.lo, window.hi);
      UniqueIds(w') && WindowLive(w', window)
  {
    RestoreTurnsLive(w, window.lo, window.hi);
    SameShapeKeepsUnique(w, RestoreTurns(w, window.lo, window.hi));
  }

  /** The steady branch keeps what it restores. On a world whose stand-ins are all
      registered, whose ids are unique and whose entries are all listed under their
      turns, a steady sync without a fast scroll leaves every entry of the window
      around the new anchor live: the immediate restore brings them back and the
      cap window (eight turns) covers the window (at most three turns either side),
      so the cap does not take them again. The worker is pointed at the same
      window. */
  lemma SteadyPathKeepsWindowLive(st: State, inp: Inputs)
    requires Valid(st.w) && st.w.totalTurns > 0 && !inp.scrollingHot
    requires PlaceholdersRegistered(st.w) && UniqueIds(st.w) && EntriesListed(st.w)
    ensures var r := SteadyPath(st, inp);
      var window := TurnWindow(r.0.w.anchor, SyncRadius(0, false, inp.inputFocused), r.0.w.totalTurns);
      r.0.ctl.worker.target == Some(window) && WindowLive(r.0.w, window)
  {
    var total := st.w.totalTurns;
    var anchor := FindAnchorTurn(total, inp.metrics, inp.samples, inp.fallback);
    var radius := SyncRadius(0, false, inp.inputFocused);
    var window := TurnWindow(anchor, radius, total);
    var w0 := st.w.(anchor := anchor);
    SteadyPathShape(st, inp);
    RestoreWindowLive(w0, window);
    if total > MaxLiveTurns {
      BudgetWindowCoversSyncWindow(anchor, radius, total);
    }
    CapKeepsWindow(RestoreTurns(w0, window.lo, window.hi), anchor, false, window);
  }

  /** Without a fast scroll the steady branch restores the ordinary window around
      the new anchor, then enforces the cap around it. */
  lemma SteadyPathShape(st: State, inp: Inputs)
    requires Valid(st.w) && st.w.totalTurns > 0 && !inp.scrollingHot
    ensures var total := st.w.totalTurns;
      var anchor := FindAnchorTurn(total, inp.metrics, inp.samples, inp.fallback);
      var window := TurnWindow(anchor, SyncRadius(0, false, inp.inputFocused), total);
      var w1 := RestoreTurns(st.w.(anchor := anchor), window.lo, window.hi);
      var r := SteadyPath(st, inp);
      r.0.w == EnforceBudget(w1, anchor, false).0 && r.0.w.anchor == anchor && r.0.w.totalTurns == total &&
      r.0.ctl.worker.target == Some(window)
  {
  }

  /** The steady sync, from a clean model, keeps the window it restores live. */
  lemma SteadySyncKeepsWindowLive(st: State, inp: Inputs, order: seq<Id>)
    requires InputsFit(st, inp) && !st.w.modelDirty && !inp.scrollingHot && !inp.typingHot
    requires st.ctl.mode == Dynamic && st.w.totalTurns > 0 && |st.w.messages| > 0
    requires PlaceholdersRegistered(st.w) && UniqueIds(st.w) && EntriesListed(st.w)
    ensures var r := SyncStep(st, inp, order);
      var window := TurnWindow(r.0.w.anchor, SyncRadius(0, false, inp.inputFocused), r.0.w.totalTurns);
      r.0.ctl.worker.target == Some(window) && WindowLive(r.0.w, window)
  {
    assert SyncStep(st, inp, order) == SteadyPath(st, inp);
    SteadyPathKeepsWindowLive(st, inp);
  }

  /** While typing the cap never touches the anchor's turn or its neighbours:
      every entry of those turns is as it was, and the worker is pointed at them. */
  lemma TypingPathKeepsNearTurns(st: State, inp: Inputs)
    requires Valid(st.w) && st.w.totalTurns > 0 && UniqueIds(st.w)
    ensures var r := TypingPath(st, inp);
      var window := TurnWindow(r.0.w.anchor, 1, r.0.w.totalTurns);
      r.1.afterTyping && r.0.ctl.worker.target == Some(window) && WindowKept(st.w, r.0.w, window)
  {
    var w := st.w;
    var total := w.totalTurns;
    var anchor := FindAnchorTurn(total, inp.metrics, inp.samples, inp.fallback);
    var w0 := w.(anchor := anchor);
    assert UniqueIds(w0);
    if total > MaxLiveTurnsTyping {
      TypingBudgetWindowCoversTypingWindow(anchor, total);
    }
    CapKeepsWindow(w0, anchor, true, TurnWindow(anchor, 1, total));
    assert TypingPath(st, inp).0.w == EnforceBudget(w0, anchor, true).0;
  }

  /** The typing sync, from a clean model, leaves the turns next to the anchor alone. */
  lemma TypingSyncKeepsNearTurns(st: State, inp: Inputs, order: seq<Id>)
    requires InputsFit(st, inp) && !st.w.modelDirty && inp.typingHot && !inp.scrollingHot
    requires st.ctl.mode == Dynamic && st.w.totalTurns > 0 && |st.w.messages| > 0
    requires UniqueIds(st.w)
    ensures var r := SyncStep(st, inp, order);
      var window := TurnWindow(r.0.w.anchor, 1, r.0.w.totalTurns);
      r.1.afterTyping && r.0.ctl.worker.target == Some(window) && WindowKept(st.w, r.0.w, window)
  {
    assert SyncStep(st, inp, order) == TypingPath(st, inp);
    TypingPathKeepsNearTurns(st, inp);
  }

  /** `jumpToTurn(turnIndex)`: with turns, the anchor (and the previous anchor)
      becomes the clamped target, the 24 turns either side are restored at once and
      the worker is pointed at them; without turns nothing happens. */
  function JumpStep(st: State, turnIndex: int): (r: (State, bool))
    requires Valid(st.w)
    ensures Valid(r.0.w)
  {
    if st.w.totalTurns <= 0 then (st, false)
    else
      var turn := JumpTarget(turnIndex, st.w.totalTurns);
      var window := JumpPreloadWindow(turnIndex, st.w.totalTurns);
      var w1 := RestoreTurns(st.w.(anchor := turn), window.lo, window.hi);
      var q := RequestCollapse(st.ctl.worker, window.lo, window.hi);
      (State(w1, Control(q.0, st.ctl.mode, turn)), q.1)
  }

  /** After a jump every entry within 24 turns of the target is live, the anchor
      is the target, and the worker collapses everything else in the background. */
  lemma JumpRestoresPreload(st: State, turnIndex: int)
    requires Valid(st.w) && st.w.totalTurns > 0
    requires PlaceholdersRegistered(st.w) && UniqueIds(st.w) && EntriesListed(st.w)
    ensures var r := JumpStep(st, turnIndex);
      var target := JumpTarget(turnIndex, st.w.totalTurns);
      var window := JumpPreloadWindow(turnIndex, st.w.totalTurns);
      r.0.w.anchor == target && r.0.ctl.previousAnchor == target && r.0.ctl.worker.target == Some(window) &&
      WindowLive(r.0.w, window)
  {
    var window := JumpPreloadWindow(turnIndex, st.w.totalTurns);
    RestoreTurnsLive(st.w.(anchor := JumpTarget(turnIndex, st.w.totalTurns)), window.lo, window.hi);
  }
}
