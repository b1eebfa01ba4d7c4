/** The fixed tuning constants of the virtualiser (the CONFIG object of content.js).
    Only the constants that the modelled core reads are listed. */
module Config {
  const TurnsAroundViewport: int := 3
  const MaxTurnsAroundViewportFastScroll: int := 12
  const JumpPreloadTurns: int := 24
  const MaxLiveTurns: int := 8
  const MaxLiveTurnsTyping: int := 4
  const MinimapVisibleDots: int := 20
  const CollapseOpsPerFrame: nat := 4
  const CollapseOpsPerFrameTyping: nat := 1
  const BudgetCollapseOpsPerSync: nat := 40
  const BudgetCollapseOpsPerSyncTyping: nat := 10
  const PinToBottomThresholdPx: int := 260
  const MaxSnippetLength: nat := 120
  const MinPlaceholderHeight: int := 24

  /** Stand-in heights guessed without a layout read (low-cost mode). */
  const EstimatedUserHeight: int := 84
  const EstimatedAssistantHeight: int := 180

  /** Input-focused sync keeps at most this many turns on each side of the anchor. */
  const FocusedTurnsAround: int := 2

  /** Clamp lengths of the three minimap preview lines. */
  const PreviewPrevAssistantLength: nat := 84
  const PreviewUserLength: nat := 96
  const PreviewNextAssistantLength: nat := 72
}
