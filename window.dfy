/** Integer arithmetic over turn indices: the clamp helper, the keep-window a sync
    restores, the hard-cap window, the minimap slice, the jump preload range and
    the anchor choice. Scroll offsets and hit-test results are integer inputs. */
module Window {
  import opened Config
  import opened Optional

  /** An inclusive range of turn indices. */
  datatype TurnRange = TurnRange(lo: int, hi: int) {
    predicate Contains(t: int) { lo <= t <= hi }
  }

  /** `Math.min(hi, Math.max(lo, value))`; when lo > hi the upper bound wins. */
  function Clamp(value: int, lo: int, hi: int): (r: int)
    ensures r <= hi
    ensures lo <= hi ==> lo <= r
    ensures lo <= value <= hi ==> r == value
    ensures value < lo && lo <= hi ==> r == lo
    ensures hi < value || hi < lo ==> r == hi
  {
    var raised := if value < lo then lo else value;
    if hi < raised then hi else raised
  }

  /** The keep radius while the user is scrolling fast: wider for larger anchor
      jumps, never below base + 4 and never above the fast-scroll cap. */
  function DynamicTurnsAround(anchorDelta: int, fastScroll: bool): (r: int)
    ensures !fastScroll ==> r == TurnsAroundViewport
    ensures fastScroll ==> TurnsAroundViewport + 4 <= r <= MaxTurnsAroundViewportFastScroll
    ensures fastScroll && anchorDelta <= 1 ==> r == TurnsAroundViewport + 4
    ensures fastScroll && anchorDelta == 2 ==> r == TurnsAroundViewport + 8
    ensures fastScroll && anchorDelta >= 3 ==> r == MaxTurnsAroundViewportFastScroll
  {
    if !fastScroll then TurnsAroundViewport
    else if anchorDelta <= 1 then TurnsAroundViewport + 4
    else Clamp(TurnsAroundViewport + 4 + anchorDelta * 2, TurnsAroundViewport + 4, MaxTurnsAroundViewportFastScroll)
  }

  /** Widening is monotonic in how far the anchor just moved. */
  lemma DynamicTurnsAroundMonotone(d1: int, d2: int, fastScroll: bool)
    requires d1 <= d2
    ensures DynamicTurnsAround(d1, fastScroll) <= DynamicTurnsAround(d2, fastScroll)
  {
  }

  /** Below the cap, a larger anchor jump during a fast scroll gives a strictly
      wider radius, and any fast scroll keeps more turns than a calm view. */
  lemma DynamicTurnsAroundWidens(d1: int, d2: int)
    requires 1 <= d1 < d2 && DynamicTurnsAround(d1, true) < MaxTurnsAroundViewportFastScroll
    ensures DynamicTurnsAround(d1, true) < DynamicTurnsAround(d2, true)
    ensures DynamicTurnsAround(d1, false) < DynamicTurnsAround(d1, true)
  {
  }

  /** The radius the steady-state sync keeps live: the dynamic radius, cut to two
      turns while an input has focus. */
  function SyncRadius(anchorDelta: int, scrollingHot: bool, inputFocused: bool): (r: int)
    ensures 0 <= r <= MaxTurnsAroundViewportFastScroll
    ensures inputFocused ==> r <= FocusedTurnsAround
    ensures !scrollingHot && !inputFocused ==> r == TurnsAroundViewport
    ensures inputFocused ==> r == FocusedTurnsAround || r == DynamicTurnsAround(anchorDelta, scrollingHot)
    ensures inputFocused ==> r <= DynamicTurnsAround(anchorDelta, scrollingHot)
    ensures !inputFocused ==> r == DynamicTurnsAround(anchorDelta, scrollingHot)
  {
    var dynamic := DynamicTurnsAround(anchorDelta, scrollingHot);
    if inputFocused then (if dynamic < FocusedTurnsAround then dynamic else FocusedTurnsAround) else dynamic
  }

  /** `[clamp(anchor - radius), clamp(anchor + radius)]` over `[0, total - 1]`: exactly
      the valid turns within `radius` of the anchor. */
  function TurnWindow(anchor: int, radius: int, total: int): (w: TurnRange)
    requires total > 0
    ensures 0 <= w.lo && w.hi <= total - 1
    ensures radius >= 0 && 0 <= anchor < total ==>
      w.lo <= anchor <= w.hi &&
      forall t :: w.Contains(t) <==> 0 <= t < total && anchor - radius <= t <= anchor + radius
  {
    TurnRange(Clamp(anchor - radius, 0, total - 1), Clamp(anchor + radius, 0, total - 1))
  }

  /** The live-turn cap: 8 turns normally, 4 while typing. */
  function LiveTurnBudget(typingHot: bool): int {
    if typingHot then MaxLiveTurnsTyping else MaxLiveTurns
  }

  /** How many collapses one enforcement pass may attempt: 40, or 10 while typing. */
  function BudgetOps(typingHot: bool): nat {
    if typingHot then BudgetCollapseOpsPerSyncTyping else BudgetCollapseOpsPerSync
  }

  /** The window the live-turn cap keeps: `budget` consecutive turns inside
      `[0, total - 1]`, containing the anchor and starting `(budget - 1) / 2` turns
      before it whenever that fits; otherwise pushed against the nearer end. */
  function BudgetKeepWindow(anchor: int, total: int, budget: int): (w: TurnRange)
    requires 1 <= budget < total
    ensures 0 <= w.lo && w.hi <= total - 1
    ensures w.hi - w.lo + 1 == budget
    ensures 0 <= anchor < total ==> w.lo <= anchor <= w.hi
    ensures (budget - 1) / 2 <= anchor <= total - budget + (budget - 1) / 2 ==> w.lo == anchor - (budget - 1) / 2
    ensures anchor < (budget - 1) / 2 ==> w.lo == 0
    ensures anchor > total - budget + (budget - 1) / 2 ==> w.hi == total - 1
  {
    var keepStart := Clamp(anchor - (budget - 1) / 2, 0, if total - budget > 0 then total - budget else 0);
    TurnRange(keepStart, Clamp(keepStart + budget - 1, 0, total - 1))
  }

  /** With the ordinary radius (three turns, or less) the cap window covers the
      steady-state keep window, so the cap never collapses what the sync restored. */
  lemma BudgetWindowCoversSyncWindow(anchor: int, radius: int, total: int)
    requires MaxLiveTurns < total && 0 <= anchor < total && 0 <= radius <= TurnsAroundViewport
    ensures var keep := TurnWindow(anchor, radius, total);
            var cap := BudgetKeepWindow(anchor, total, MaxLiveTurns);
            cap.lo <= keep.lo && keep.hi <= cap.hi
  {
  }

  /** The same holds for the typing path: its one-turn window lies inside the
      four-turn typing cap. */
  lemma TypingBudgetWindowCoversTypingWindow(anchor: int, total: int)
    requires MaxLiveTurnsTyping < total && 0 <= anchor < total
    ensures var keep := TurnWindow(anchor, 1, total);
            var cap := BudgetKeepWindow(anchor, total, MaxLiveTurnsTyping);
            cap.lo <= keep.lo && keep.hi <= cap.hi
  {
  }

  /** A fast-scroll radius of 7 around turn 25 of 50 asks for turns 18..32, but the
      cap keeps only 22..29: the widened window does not survive the cap. */
  lemma FastScrollWindowExceedsCap()
    ensures TurnWindow(25, DynamicTurnsAround(1, true), 50) == TurnRange(18, 32)
    ensures BudgetKeepWindow(25, 50, MaxLiveTurns) == TurnRange(22, 29)
  {
  }

  /** `jumpToTurn`: the clamped target and the ±24-turn preload range around it. */
  function JumpTarget(turnIndex: int, total: int): (target: int)
    requires total > 0
    ensures 0 <= target < total
    ensures 0 <= turnIndex < total ==> target == turnIndex
  {
    Clamp(turnIndex, 0, total - 1)
  }

  function JumpPreloadWindow(turnIndex: int, total: int): (w: TurnRange)
    requires total > 0
    ensures var target := JumpTarget(turnIndex, total);
            w.lo <= target <= w.hi &&
            forall t :: w.Contains(t) <==> 0 <= t < total && target - JumpPreloadTurns <= t <= target + JumpPreloadTurns
  {
    TurnWindow(JumpTarget(turnIndex, total), JumpPreloadTurns, total)
  }

  /** A jump to turn 10 of 50 preloads turns 0..34. */
  lemma JumpToTurnTenOfFifty()
    ensures JumpTarget(10, 50) == 10 && JumpPreloadWindow(10, 50) == TurnRange(0, 34)
  {
  }

  /** The minimap's visible slice: at most 20 dots, inside `[0, total - 1]`,
      containing the anchor, centred on it whenever the slice fits, and otherwise
      pushed against the nearer end. */
  datatype MinimapSlice = MinimapSlice(start: int, visible: int)

  function MinimapWindow(anchor: int, total: int): (m: MinimapSlice)
    requires total > 0
    ensures m.visible == if total < MinimapVisibleDots then total else MinimapVisibleDots
    ensures 0 <= m.start && m.start + m.visible <= total
    ensures 0 <= anchor < total ==> m.start <= anchor < m.start + m.visible
    ensures m.visible / 2 <= anchor <= total - m.visible + m.visible / 2 ==> m.start == anchor - m.visible / 2
    ensures anchor < m.visible / 2 ==> m.start == 0
    ensures anchor > total - m.visible + m.visible / 2 ==> m.start + m.visible == total
  {
    var visible := if MinimapVisibleDots < total then MinimapVisibleDots else total;
    var half := visible / 2;
    var maxStart := if total - visible > 0 then total - visible else 0;
    MinimapSlice(Clamp(anchor - half, 0, maxStart), visible)
  }

  /** A one-turn transcript shows a single dot. */
  lemma MinimapOneTurn()
    ensures MinimapWindow(0, 1) == MinimapSlice(0, 1)
  {
  }

  /** Scroll geometry of the scroll root, in whole pixels. */
  datatype ScrollMetrics = ScrollMetrics(scrollTop: int, scrollHeight: int, viewportHeight: int)

  /** Pinned to the bottom: nothing to scroll, or within 260px of the largest
      scroll offset. */
  predicate IsPinnedToBottom(m: ScrollMetrics) {
    var maxTop := if m.scrollHeight - m.viewportHeight > 0 then m.scrollHeight - m.viewportHeight else 0;
    maxTop <= 0 || maxTop - m.scrollTop <= PinToBottomThresholdPx
  }

  /** Scrolled all the way down is pinned; scrolling further down keeps it pinned. */
  lemma PinnedAtBottom(m: ScrollMetrics, m2: ScrollMetrics)
    requires m2.scrollHeight == m.scrollHeight && m2.viewportHeight == m.viewportHeight
    requires m.scrollTop <= m2.scrollTop
    ensures m.scrollTop >= m.scrollHeight - m.viewportHeight ==> IsPinnedToBottom(m)
    ensures IsPinnedToBottom(m) ==> IsPinnedToBottom(m2)
  {
  }

  /** The turn of the first sample point that hit a tracked entry, in sampling
      priority order (50%, 35%, 65%, 20%, 80% of the viewport height). */
  function FirstHit(samples: seq<Option<int>>): (r: Option<int>)
    ensures r.None? <==> forall i :: 0 <= i < |samples| ==> samples[i].None?
    ensures r.Some? ==> exists i :: 0 <= i < |samples| && samples[i] == r &&
                                    forall j :: 0 <= j < i ==> samples[j].None?
  {
    if samples == [] then None
    else if samples[0].Some? then samples[0]
    else
      var rest := FirstHit(samples[1..]);
      assert forall i :: 1 <= i < |samples| ==> samples[i] == samples[1..][i - 1];
      if rest.Some? then
        var k :| 0 <= k < |samples[1..]| && samples[1..][k] == rest && forall j :: 0 <= j < k ==> samples[1..][j].None?;
        assert samples[k + 1] == rest;
        rest
      else rest
  }

  /** `findAnchorTurn`: 0 without turns; the last turn when pinned to the bottom;
      else the clamped turn of the first sample hit; else the clamped fallback
      (the rounded scroll-ratio estimate, computed outside this model). */
  function FindAnchorTurn(total: int, metrics: ScrollMetrics, samples: seq<Option<int>>, fallback: int): (r: int)
    ensures total <= 0 ==> r == 0
    ensures total > 0 ==> 0 <= r < total
    ensures total > 0 && IsPinnedToBottom(metrics) ==> r == total - 1
    ensures total > 0 && !IsPinnedToBottom(metrics) && FirstHit(samples).Some? ==>
      r == Clamp(FirstHit(samples).value, 0, total - 1)
    ensures total > 0 && !IsPinnedToBottom(metrics) && FirstHit(samples).None? ==>
      r == Clamp(fallback, 0, total - 1)
  {
    if total <= 0 then 0
    else if IsPinnedToBottom(metrics) then total - 1
    else
      match FirstHit(samples)
      case Some(t) => Clamp(t, 0, total - 1)
      case None => Clamp(fallback, 0, total - 1)
  }

  /** Fifty turns scrolled to the very bottom anchor at turn 49, whatever the
      hit tests say. */
  lemma PinnedFiftyTurns(samples: seq<Option<int>>, fallback: int)
    ensures FindAnchorTurn(50, ScrollMetrics(9000, 10000, 1000), samples, fallback) == 49
  {
  }
}
