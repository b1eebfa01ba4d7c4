# SlimGPT virtualiser core in Dafny

SlimGPT's content script keeps very long ChatGPT transcripts light. It swaps the
DOM of far-away messages for empty stand-in blocks of the same height, and swaps
them back when the reader scrolls near them. This project models the core of that
virtualiser in `content.js` and proves properties of the model:

- **Record model.** `rebuildModel` scans the role-tagged nodes and stand-ins in
  document order. It normalises roles, numbers the turns, mints ids, refills the
  entry list and its two indexes (`messageById`, `turnToIds`), places the anchor
  turn and reconciles the collapse registry.
- **Collapse engine.** It has a per-entry Live ⇄ Collapsed state machine
  (`collapseMessage`, `restoreMessage`) with a write-once height cache. On top of it
  sit the bulk restores, the live-turn cap (`enforceLiveTurnBudget`) and the
  background collapse worker, a keyed plan drained a few ids per frame.
- **`sync` and `jumpToTurn`.** Their branches, the keep window they restore, the cap
  they enforce and the collapse target they hand to the worker.
- **Window arithmetic.** `clamp`, the dynamic keep radius, the cap window, the
  minimap slice, the jump preload range, the pinned-to-bottom test and the choice
  of anchor turn.
- **Text helpers.** Role normalisation, snippets and their clamping, the minimap
  preview lookups, the `$…$` inline-math tokenizer, and the superscript and
  subscript encoders.

## How the model is built

- Page nodes are handles (`Model.NodeRef`) into a map of `Model.Node` values. A node
  records whether it is attached to the document and the `data-slimgpt-*`
  attributes the engine reads and writes.
- The engine's tables are one value, `Model.World`. `messageById` maps an id to a
  position in `messages`. An update of an entry is therefore seen through both
  tables, as with the shared item objects of the source.
- Every operation is first a function on that value: `Model.Collapse`,
  `Model.Restore`, the `Bulk` functions, `Build.Rebuild`, and `Sync.SyncStep` and
  `Sync.JumpStep`. The properties are proved about these functions.
- The class `Engine.Virtualizer` is the stateful engine. Its fields are updated in
  place by methods with the source's loops. Each method is proved to leave exactly
  the state that the matching function describes, so every property of the
  function holds of the method.

These parts of the environment are inputs to the model:

- the clock-derived flags: typing, fast scroll, the worker's pause and input focus;
- the document query's results, each with its grouping root;
- the scroll metrics, in whole pixels, read once for the sync and once more after an expanded-mode restore;
- the hit-test turns;
- the rounded scroll-ratio fallback turn.

A sync reports which follow-ups it schedules instead of arming timers.

One behaviour of the source is worth knowing. While the user scrolls fast, `sync`
widens the keep radius to 7–12 turns. The live-turn cap that runs right after it
keeps only 8 turns. So the cap collapses part of the window the sync has just
restored. `Window.FastScrollWindowExceedsCap` exhibits this for turn 25 of 50. The
keep-window theorems are therefore stated for syncs without a fast scroll.

Three behaviours of `content.js` that a reader might not expect, which the model follows as written:

- `rebuildModel` returns before `cleanupCollapsedRecords` when the scan finds no
  turns (content.js:656-659). So an empty rebuild resets the anchor but leaves the
  collapse registry as it was (`Build.RebuildAnchorAndRegistry`).
- `restoreMessage` acts on the registry record, not on the entry's stand-in flag.
- Ids found on the page are reused as they are, so two entries may share an id.
  Every property that needs distinct ids takes them as a hypothesis (`Model.UniqueIds`).

## Model

| member | source | states |
|---|---|---|
| Window.Clamp | content.js:2040-2042 | The result is never above `max` and is at least `min` when `min <= max`. It is the value itself inside the range, `min` below it, and `max` above it or when the bounds cross. |
| Window.DynamicTurnsAround | content.js:884-900 | The keep radius is 3 without a fast scroll. With one it widens with the anchor jump: 7 for a jump of at most one turn, 11 for a jump of two, and the cap of 12 for three or more. |
| Window.DynamicTurnsAroundWidens | content.js:884-900 | Below the cap, a larger anchor jump during a fast scroll gives a strictly wider radius, and a fast scroll always keeps more turns than a calm view. |
| Window.DynamicTurnsAroundMonotone | content.js:884-900 | A larger anchor jump never gives a smaller radius. |
| Window.SyncRadius | content.js:549-552 | The steady sync's radius lies between 0 and 12. Without input focus it is exactly the dynamic radius (so it widens during a fast scroll); with focus it is the smaller of the dynamic radius and 2. |
| Window.TurnWindow | content.js:553-554 | The clamped window lies inside `[0, total-1]`. For an anchor in range it contains the anchor and holds exactly the valid turns within the radius of the anchor. |
| Window.BudgetKeepWindow | content.js:849-854 | The cap window lies inside `[0, total-1]` and spans exactly `budget` turns. It contains an anchor that is in range, and it starts `(budget-1)/2` turns before the anchor whenever that fits. Near the start of the transcript it starts at turn 0, and near the end it ends at the last turn. |
| Window.BudgetWindowCoversSyncWindow | content.js:549-560 | With the ordinary radius of at most 3 turns, the 8-turn cap window contains the steady sync's keep window. |
| Window.TypingBudgetWindowCoversTypingWindow | content.js:534-536 | The typing path's window of the anchor ±1 lies inside the 4-turn typing cap window. |
| Window.FastScrollWindowExceedsCap | content.js:549-560 | With a fast-scroll radius of 7 around turn 25 of 50, the sync keeps turns 18..32 while the cap keeps only 22..29. |
| Window.JumpTarget | content.js:1412 | The jump target is a valid turn, and it is the requested turn when that is in range. |
| Window.JumpPreloadWindow | content.js:1416-1417 | The preload range contains the target and holds exactly the valid turns within 24 turns of it. |
| Window.JumpToTurnTenOfFifty | content.js:1407-1417 | A jump to turn 10 of 50 targets turn 10 and preloads turns 0..34. |
| Window.MinimapWindow | content.js:1320-1323 | The minimap shows `min(20, total)` dots starting inside `[0, total-1]`. The slice contains an anchor that is in range, and it is centred on the anchor whenever it fits. Near the start of the transcript it starts at turn 0, and near the end it ends at the last turn. |
| Window.MinimapOneTurn | content.js:1320-1323 | A one-turn transcript shows exactly one dot, at turn 0. |
| Window.PinnedAtBottom | content.js:1105-1112 | A view scrolled to the bottom is pinned, and scrolling further down keeps it pinned. |
| Window.FirstHit | content.js:1050-1057 | There is no hit exactly when every sample missed. Otherwise the result is the first sample that hit, in sampling order. |
| Window.FindAnchorTurn | content.js:1039-1063 | The anchor is 0 without turns and a valid turn otherwise. It is the last turn when pinned, else the clamped first hit, else the clamped fallback. |
| Window.PinnedFiftyTurns | content.js:1044-1046 | Fifty turns scrolled to the bottom anchor at turn 49, whatever the hit tests say. |
| Text.CollapseWsProps | content.js:1646 | Collapsing white-space runs keeps the visible characters and leaves only single plain spaces. It keeps a leading visible character and never empties a non-empty text. |
| Text.WordsCoverNonWs | content.js:1646-1647 | The words of a text, read left to right, are exactly its visible characters. |
| Text.JoinEnds | content.js:1646-1647 | Words joined by single spaces are empty only without words, and otherwise start and end with a visible character. |
| Text.CollapseWsIsJoin | content.js:1646 | Collapsing white space gives the words joined by single spaces, with one space in front when the text starts with white space and one behind when it ends with white space after a word. |
| Text.CleanedIsJoin | content.js:1646-1647 | Collapsing and then trimming gives exactly the words of the text joined by single spaces. |
| Text.CleanedProps | content.js:1646-1649 | The collapsed and trimmed text keeps the visible characters and is single-spaced. It is empty exactly for all-white-space text, and otherwise starts and ends with a visible character. |
| Text.MakeSnippet | content.js:1645-1652 | A snippet is the text's words joined by single spaces, cut to the first min(120, length) characters. So it has at most 120 characters, is single-spaced, does not start with white space, and is empty exactly when the text is all white space. |
| Text.SnippetOfTwoWords | content.js:1645-1652 | The text `" a \n b "` gives the snippet `"a b"`. |
| Text.SnippetCutCanEndInSpace | content.js:1645-1652 | The cut at 120 characters can leave a trailing space, so a snippet is not always a fixed point of `makeSnippet`. |
| Text.ClampSnippet | content.js:1654-1665 | Text up to `maxLength` is returned unchanged. Longer text becomes its first `maxLength` characters followed by `...`. |
| Text.NormalizeRoleName | content.js:1636-1643 | Normalising the name of either role gives that role back. |
| Text.NormalizeRoleIgnoresCaseAndSpace | content.js:1636-1643 | For example, `" USER\n"` is the user role: the value is trimmed and lower-cased before the comparison. |
| Text.MapAll | content.js:2569-2575 | The mapping succeeds exactly when every character has an image, and then maps each character to its image. |
| Text.SupCharInverse | content.js:2563-2568 | The superscript table is injective: its inverse table gives back each character it maps. |
| Text.SubCharInverse | content.js:2580-2588 | The subscript table is injective: its inverse table gives back each character it maps. |
| Text.ToSuperscript | content.js:2562-2577 | Empty input, or input with an unmapped character, gives `^(value)`. Otherwise the result has the input's length, with every character in superscript form. |
| Text.ToSubscript | content.js:2579-2598 | Empty input, or input with a character whose lower case is unmapped, gives `_(value)`. Otherwise every character becomes the subscript of its lower case. |
| Text.SuperscriptRoundTrip | content.js:2562-2577 | Decoding an encoded superscript gives the original value back. |
| Text.SubscriptRoundTrip | content.js:2579-2598 | Decoding an encoded subscript gives the lower-cased value back. |
| Text.SubscriptFoldsCase | content.js:2579-2598 | `X` becomes `ₓ`, and `x`, which has no superscript, becomes `^(x)`. |
| Model.Collapse | content.js:902-947 | A collapse keeps the tables well formed and their shape: ids, roles, turns, indexes, counts and anchor. It never clears the dirty flag and registers no id but its own. An unknown id changes nothing. |
| Model.CollapseTransitions | content.js:902-947 | Live → Collapsed. An unknown id or a stand-in entry changes nothing; a detached node only sets `modelDirty`. Otherwise the entry points at a fresh attached stand-in with its id, turn, role and snippet, the live node is detached and marked, and the registry holds the pair. |
| Model.CollapseFrame | content.js:902-947 | A collapse changes no other entry, no other registry record and no node but the entry's own live node. |
| Model.CollapseIdempotent | content.js:902-906 | Collapsing twice is collapsing once, whatever the mode of either call. |
| Model.CollapseHeights | content.js:914-927 | Cached heights are never overwritten. A new one is 84 or 180 in low-cost mode, and otherwise the rendered height floored at 24. The stand-in declares exactly the cached height. |
| Model.Restore | content.js:952-975 | A restore keeps the tables well formed and their shape, and keeps the dirty flag. It removes a known id from the registry. An unknown or unregistered id changes nothing. |
| Model.RestoreTransitions | content.js:952-975 | Collapsed → Live. The entry points at the registered node again and is no longer a stand-in, the node loses its mark, and the id leaves the registry. When the stand-in was attached, the node takes its place. |
| Model.RestoreFrame | content.js:952-975 | A restore changes no other entry. |
| Model.RestoreIdempotent | content.js:952-958 | Restoring twice is restoring once. |
| Model.RestoreHeights | content.js:961-964 | A restore keeps every cached height and caches only heights of at least 24. |
| Model.CollapseEntries | content.js:939-946 | A collapse that swaps replaces exactly the entry of `id` by its stand-in version and adds exactly the record of the pair. |
| Model.RestoreEntries | content.js:967-972 | A restore of a registered id replaces exactly its entry by the live version holding the registered node. |
| Model.CollapseRestoreRoundTrip | content.js:939-975 | Collapse followed by restore gives back the original entries, registry and dirty flag. |
| Model.CollapseRestoreRoundTripNodes | content.js:939-975 | After the round trip, the live node is back unmarked and no other original node changed. The stand-in is left detached, and the cached height stays. |
| Model.CollapseKeepsConsistent | content.js:902-947 | A collapse keeps the registry consistent with the entries, and keeps every stand-in entry registered. |
| Model.RestoreKeepsConsistent | content.js:952-975 | A restore keeps the registry consistent with the entries, and keeps every stand-in entry registered. |
| Bulk.RestoreIds | content.js:823-826 | Restoring a list of ids keeps shape and dirty flag, never adds a record, and leaves no known listed id registered. |
| Bulk.RestoreIdsSnoc | content.js:824-826 | Restoring one more id after a list is one more restore, as the loop performs them. |
| Bulk.RestoreTurns | content.js:815-830 | The immediate restore keeps shape and dirty flag, never adds a record, and does nothing when the registry is empty. |
| Bulk.RestoreTurnsClears | content.js:815-830 | Afterwards no id listed under a turn of `[min, max]` is registered. |
| Bulk.RestoreTurnsLive | content.js:815-830 | With stand-ins registered, unique ids and every entry listed under its turn, every entry of a turn in `[min, max]` is live afterwards. |
| Bulk.RestoreAll | content.js:1011-1023 | Restoring everything keeps the tables well formed, their shape and the set of page nodes. |
| Bulk.RestoreAllOutcome | content.js:1011-1023 | Only the records of unknown ids stay registered, and every registered known entry is live. The model is marked dirty exactly when the registry was not empty or it was dirty already. |
| Bulk.CollapseIds | content.js:798-802 | Collapsing a list of ids keeps shape and well-formedness and never clears the dirty flag. |
| Bulk.CollapseOwnEntry | content.js:902-947 | With unique ids, collapsing the id of entry `i` touches only entry `i`. Entry `i` ends up a stand-in unless the model was marked dirty. |
| Bulk.PlanQueue | content.js:770-782 | The plan queue is no longer than the entry list. |
| Bulk.PlanQueueMembers | content.js:770-782 | An id is queued exactly when some live entry outside the target range carries it. |
| Bulk.PlanQueueSnoc | content.js:772-782 | The queue of a longer entry list extends the shorter one's by the new entry's id when it is queued, so ids are in entry order. |
| Bulk.Pass | content.js:856-874 | The cap's pass keeps the tables well formed and their shape, and never clears the dirty flag. Its operation count grows by at most one per remaining entry and never passes `maxOps`. |
| Bulk.PassFrame | content.js:859-874 | The pass never changes an entry it already went by, a stand-in or an entry inside the keep window. |
| Bulk.PassComplete | content.js:859-874 | When the pass stops short of `maxOps`, every queued entry after the start is a stand-in, unless the model was marked dirty. |
| Bulk.PassIsPlanDrain | content.js:859-874 | With room for every collapse, the pass is the same as collapsing the plan queue built from the same entries. |
| Bulk.PlanDrainCollapsesOutside | content.js:770-802 | Draining a whole plan leaves every entry inside the target range, and every stand-in, unchanged. It turns every queued entry into a stand-in, unless the model was marked dirty. |
| Bulk.EnforceBudget | content.js:832-882 | The live-turn cap keeps the tables well formed and their shape. |
| Bulk.EnforceBudgetOutcome | content.js:832-882 | Nothing happens within the budget of 8 turns, or 4 while typing. Otherwise the pass attempts at most 40 collapses (10 while typing) and changes nothing inside the cap window and no stand-in. Another sync is requested exactly when the budget ran out; when it did not, everything outside the window is a stand-in, unless the model was marked dirty. |
| Bulk.RequestCollapse | content.js:724-742 | After a request, the target is the requested range. A first tick is asked for only when no worker was running, and that worker is then marked running. |
| Bulk.RequestCollapseOutcome | content.js:724-742 | A request for the current target changes nothing. A new target drops the plan and marks the worker running, and asks for a tick exactly when none was running. |
| Bulk.RequestCollapseIdempotent | content.js:730-732 | Asking twice for the same range is asking once. |
| Bulk.Drain | content.js:798-802 | The per-frame drain keeps the tables well formed and their shape. |
| Bulk.DrainSlice | content.js:798-802 | The drain collapses exactly the next `limit` queued ids (fewer at the end of the queue), in queue order, and stops right after them. |
| Bulk.Tick | content.js:744-813 | A worker tick keeps the tables well formed and their shape. |
| Bulk.TickAborts | content.js:744-768 | A tick does not touch the tables when the mode is not dynamic, the model is dirty, there is no target or the worker is paused. In the first three cases the worker stops and keeps its plan and target, and only a dirty model in dynamic mode requests a sync. A paused worker changes nothing and waits for the next frame. |
| Bulk.TickProgress | content.js:770-812 | A working tick keeps a plan whose key matches the target, and otherwise builds one from the current entries. It collapses exactly the next 4 queued ids (1 while typing), and the index only moves forward. The worker stops and drops the plan exactly when the queue is exhausted. |
| Build.DecimalString | content.js:1169 | `String(n)` is a non-empty string of decimal digits, one digit exactly for `n < 10`. |
| Build.DecimalStringInjective | content.js:1169 | Different counters give different decimal strings. |
| Build.EnsureMessageId | content.js:1163-1172 | The id is never empty. An existing id attribute is kept and the counter does not move; otherwise the counter moves by exactly one. |
| Build.MintedIdsDiffer | content.js:1163-1172 | Ids minted from different counter values differ. |
| Build.Append | content.js:614-646 | Taking an entry changes no set of page handles and no set of seen roots. |
| Build.Visit | content.js:585-612 | Visiting a node keeps the set of page handles. |
| Build.ScanAll | content.js:585-651 | The scan keeps the set of page handles. |
| Build.RebuildEntries | content.js:585-651 | After a rebuild the entries point, in order, at the taken nodes: no grouping root twice, and the grouping root of every role-tagged hit among them. |
| Build.ScanTaken | content.js:585-612 | The scan's entries point, in order, at the nodes `TakenNodes` lists, and its seen set is the set of grouping roots met. |
| Build.VisitTaken | content.js:585-612 | One visit appends a stand-in hit's own node, appends the grouping root of a role-tagged hit whose root is not yet seen (and adds it to the seen set), and otherwise appends nothing. |
| Build.SeenRootsTaken | content.js:604-610 | A grouping root has been met exactly when it is among the taken nodes as a grouped entry. |
| Build.GroupedRootsDistinct | content.js:604-610 | No grouping root is taken twice. |
| Build.GroupedDistinctSnoc | content.js:604-610 | Adding a node that is not yet taken as a grouping root keeps the grouping roots distinct. |
| Build.ScanAllInv | content.js:585-651 | The scan keeps its invariant: well-formed tables, turn numbering, the turn index in entry order, and `messageById` leading to the last entry with each id. |
| Build.AppendEntry | content.js:614-646 | Taking an entry appends exactly one entry for the root and updates both indexes with it. A user entry opens the next turn; any other entry stays in the current turn, or in turn 0 when none is open. |
| Build.CleanupOutcome | content.js:1025-1037 | The cleanup keeps exactly the records of known stand-in entries, each with the node it held. It makes the registry consistent with the entries and keeps every stand-in entry registered. |
| Build.Rebuild | content.js:569-671 | A rebuild keeps the tables well formed and the set of page nodes, leaves the model clean, and keeps the height cache. |
| Build.RebuildScan | content.js:569-653 | A rebuild's tables are those of the scan; only the anchor and the registry are set afterwards. |
| Build.RebuildTurns | content.js:582-653 | The first entry is in turn 0, and each later entry is one turn further exactly when it is a user entry. Turns never decrease, lie in `[0, totalTurns-1]`, and end at the last turn. There are no turns exactly when there are no entries. |
| Build.RebuildTurnCount | content.js:619-653 | The number of turns is the number of user entries, plus one when the first entry is not a user entry. |
| Build.RebuildIndex | content.js:641-646 | Under each turn, `turnToIds` lists exactly the ids of that turn's entries, in scan order, with no key for an empty turn. Every entry is listed and every listed id is known. |
| Build.RebuildById | content.js:641-642 | Every entry's id is known, and `messageById` leads to the last entry with that id. Pairwise distinct ids make every entry the one its id leads to. |
| Build.RebuildAnchorAndRegistry | content.js:653-667 | Without turns the anchor is 0 and the registry is left alone. With turns the anchor is the last turn when pinned and otherwise the clamped old anchor, and the registry keeps exactly the known stand-in records. |
| Preview.ItemText | content.js:1604-1630 | A cached snippet wins. Otherwise the text is the source text's words joined by single spaces and cut at 120 characters: single-spaced, empty exactly when the source is white space, and its visible characters a prefix of the source's. |
| Preview.FirstTextIsFirst | content.js:1496-1508 | The first text is empty exactly when no id of the role has text. Otherwise it is the text of the first id that has some. |
| Preview.GetRoleTextForTurn | content.js:1490-1509 | The loop returns the first non-empty text of the role among the turn's ids, and "" for a turn out of range. |
| Preview.GetNearestRoleText | content.js:1511-1534 | The loop returns the search result: "" without turns, the base turn's own text for direction 0, else the first turn with text within `maxSteps` steps, stopping at the transcript's ends. |
| Preview.NearestFromFound | content.js:1520-1531 | A non-empty result is the text of a turn fewer than `maxSteps` steps away, reached only through in-range turns without text. |
| Preview.NearestFromNotFound | content.js:1520-1533 | An empty result means that no turn the search reached has text of the role. |
| Preview.TurnSnapshotLines | content.js:1468-1488 | Each preview line is its search result clamped to 84, 96 or 72 characters, or `…` when nothing was found. The user line falls back to two turns back. |
| Preview.TurnCollapsedIffAllStandIns | content.js:1667-1675 | With the turn index as a rebuild leaves it and unique ids, a turn is collapsed exactly when it has entries and all of them are stand-ins. |
| InlineMath.SplitGood | content.js:2331-2393 | Every math segment is non-empty, trimmed and on one line, and no text segment is empty. |
| InlineMath.EscapedDollar | content.js:2340-2347 | A non-empty text whose every `$` is written `\$` is split into one text segment with each `\$` read as `$`. Between two `$`, escaped dollars stay part of the formula and do not close it: a formula that is a valid math segment and does not end in a backslash splits into that one math segment. |
| InlineMath.UnclosedDollarIsText | content.js:2381-2387 | A `$` left open at the end of input comes back as text, `$` included, after the text before it. |
| InlineMath.LineBreakReopensText | content.js:2369-2374 | A line break inside math gives back the `$`, the math and the break as text, and the rest of the line is text again. |
| InlineMath.SplitRenderRoundTrip | content.js:2331-2393 | Tokenizing the rendering of well-formed segments (`$` written `\$`) gives the segments back. |
| InlineMath.SplitInlineMathSegments | content.js:2331-2393 | The character loop returns exactly the tokenizer's result, so every property above holds of it. |
| Sync.Refresh | content.js:501-508 | The rebuild at the start of a sync leaves the model clean and keeps the page nodes. A clean model is left alone. |
| Sync.Expand | content.js:517-526 | The expanded branch keeps the tables well formed and drops the collapse target, touching no other control state. |
| Sync.TypingPath | content.js:529-541 | The typing branch keeps the tables well formed. |
| Sync.SteadyPath | content.js:544-563 | The steady branch keeps the tables well formed. |
| Sync.SyncStep | content.js:495-567 | A sync keeps the tables well formed. |
| Sync.SyncWaitsForTyping | content.js:501-505 | A dirty model is not rebuilt while the user types without a fast scroll. Nothing changes, and a sync after typing is scheduled. |
| Sync.SyncOutcome | content.js:510-514 | A sync that finds no turns after the rebuild changes nothing more and only schedules the bootstrap sync. |
| Sync.SyncMovesAnchor | content.js:531-547 | A dynamic-mode sync with turns moves the anchor to the viewport's turn and remembers the one before. |
| Sync.SyncExpandedOutcome | content.js:517-526 | In expanded mode every registered known entry is restored, the model is rebuilt when that changed anything, with the pinned-to-bottom test on the scroll metrics read after the restore; no follow-up is scheduled and the worker has no target. |
| Sync.ExpandAnchor | content.js:517-521 | When the restore leaves the model dirty, the rebuild after it puts the anchor on the last turn if the view is at the bottom after the restore, and otherwise clamps the old anchor into the new turn range. |
| Sync.CapKeepsWindow | content.js:832-882 | The cap leaves alone every entry of a window that its own window covers, so a live window stays live. |
| Sync.RestoreWindowLive | content.js:815-830 | Restoring a window on well-kept tables leaves every entry of the window live and the ids unique. |
| Sync.SteadyPathShape | content.js:544-563 | Without a fast scroll, the steady branch restores the ordinary window around the new anchor, enforces the cap, and targets the worker at that window. |
| Sync.SteadyPathKeepsWindowLive | content.js:544-563 | Without a fast scroll, every entry of the keep window around the new anchor is live after the steady branch, and the worker targets that window. |
| Sync.SteadySyncKeepsWindowLive | content.js:495-567 | The same holds for a whole sync from a clean model in dynamic mode. |
| Sync.TypingPathKeepsNearTurns | content.js:529-541 | The typing branch leaves every entry of the new anchor's turn and its neighbours as it was. It targets the worker at those turns and schedules a sync after typing. |
| Sync.TypingSyncKeepsNearTurns | content.js:495-541 | The same holds for a whole typing sync from a clean model. |
| Sync.JumpStep | content.js:1407-1418 | A jump keeps the tables well formed. |
| Sync.JumpRestoresPreload | content.js:1407-1418 | After a jump the anchor and previous anchor are the clamped target, every entry within 24 turns of it is live, and the worker targets that range. |
| Engine.Virtualizer.constructor | content.js:44-67 | A fresh engine has no entries or turns, a dirty model, the id counter at 1, dynamic mode and an idle worker. |
| Engine.Virtualizer.CollapseMessage | content.js:902-947 | The in-place collapse leaves exactly the tables of `Model.Collapse` and no other state changed. |
| Engine.Virtualizer.SwapIn | content.js:924-946 | The swap detaches and marks the live node, attaches a fresh stand-in, registers the pair and points the entry at the stand-in. |
| Engine.Virtualizer.RestoreMessage | content.js:952-975 | The in-place restore leaves exactly the tables of `Model.Restore`. |
| Engine.Virtualizer.RestoreTurnsImmediately | content.js:815-830 | The turn loop leaves exactly the tables of `Bulk.RestoreTurns`. |
| Engine.Virtualizer.RestoreIdsInOrder | content.js:823-826 | The id loop leaves exactly the tables of `Bulk.RestoreIds`. |
| Engine.Virtualizer.RestoreAllCollapsedMessages | content.js:1011-1023 | Restores every registry key, in the order it reports, and leaves exactly the tables of `Bulk.RestoreAll`. |
| Engine.Virtualizer.RestoreEach | content.js:1016-1018 | Restores each key of the set once, in the order it reports. |
| Engine.Virtualizer.EnforceLiveTurnBudget | content.js:832-882 | Leaves exactly the tables, and the resync request, of `Bulk.EnforceBudget`. |
| Engine.Virtualizer.BudgetPass | content.js:856-874 | The entry loop with its operation budget leaves exactly the tables and count of `Bulk.Pass`. |
| Engine.Virtualizer.RequestBackgroundCollapse | content.js:724-742 | Leaves exactly the worker state and tick request of `Bulk.RequestCollapse`, and changes nothing else. |
| Engine.Virtualizer.PlanQueueFor | content.js:770-782 | The plan-building loop returns exactly `Bulk.PlanQueue` of the current entries. |
| Engine.Virtualizer.DrainQueue | content.js:798-802 | The ops loop leaves exactly the tables and index of `Bulk.Drain`. |
| Engine.Virtualizer.CollapseWorkerTick | content.js:744-813 | Leaves exactly the tables, worker state and next step of `Bulk.Tick`. |
| Engine.Virtualizer.TakeRoot | content.js:614-646 | One scan step is exactly `Build.Append`. |
| Engine.Virtualizer.ScanNodes | content.js:581-651 | The scan loop returns exactly `Build.ScanAll` from empty tables and the turn counter at -1. |
| Engine.Virtualizer.RebuildModel | content.js:569-671 | Leaves exactly the tables of `Build.Rebuild`. |
| Engine.Virtualizer.CleanupCollapsedRecords | content.js:1025-1037 | The registry loop leaves exactly the registry of `Build.Cleanup` and changes nothing else. |
| Engine.Virtualizer.Synchronize | content.js:495-567 | Leaves exactly the state and follow-ups of `Sync.SyncStep`. In expanded mode it restores exactly the keys of the registry as the rebuild left it. |
| Engine.Virtualizer.SyncExpanded | content.js:517-526 | Leaves exactly the state of `Sync.Expand`, restoring exactly the registry's keys; its rebuild reads the scroll metrics taken after the restore. |
| Engine.Virtualizer.SyncTyping | content.js:529-541 | Leaves exactly the state and follow-ups of `Sync.TypingPath`. |
| Engine.Virtualizer.SyncSteady | content.js:544-563 | Leaves exactly the state and follow-ups of `Sync.SteadyPath`. |
| Engine.Virtualizer.JumpToTurn | content.js:1407-1418 | Leaves exactly the state and tick request of `Sync.JumpStep`. |

## Left out

- Timers and scheduling are not modelled: `requestAnimationFrame`, `setTimeout`, the mutation observer and its muting, and the bootstrap and after-typing retries. A sync or tick returns the follow-ups it would schedule.
- The clocks are not modelled. Whether typing or a fast scroll is recent, and whether the worker is paused (start-up grace period or a recent scroll), are boolean inputs. `sync` and `getDynamicTurnsAroundViewport` read the clock separately; the model uses one fast-scroll flag for both.
- DOM queries and geometry are inputs, not modelled. The document query becomes a list of nodes, each with the root `getMessageRoot` finds. Hit tests become optional turns, and scroll metrics become whole pixels.
- The anchor's scroll-ratio fallback is floating-point arithmetic, so it is a precomputed integer input that the model clamps.
- `jumpToTurn`'s scrolling, its delayed syncs, and its writes of `allowCollapseAt` and `lastScrollAt` are not modelled. They are geometry and time.
- `updateMiniMap` is modelled only through its window arithmetic (`Window.MinimapWindow`). The dot pool, the dot positions (floating point), the signature cache and the preview positioning are DOM output.
- `queueInlineLatexRender`, `queueInlineLatexForViewportTurns` and KaTeX rendering are not modelled. They are rendering side effects.
- `resolveScrollRoot` and `nextModelBuildAt` are not modelled. They only affect geometry and scheduling.
- The `data-slimgpt-item` marker and the stand-in's CSS class are not modelled. Nothing in the core reads them back.
- Bulk.RestoreAll: `restoreAllCollapsedMessages` walks the registry in insertion order, which the model does not track. The registry's keys are taken in an arbitrary order (returned by the method), and every property is proved for all orders.
- Preview.ItemText: the program stores the first non-empty snippet it makes in the entry and in the node's `data-slimgpt-snippet` attribute (content.js:1605-1606, 1628); a rebuild reads it back (content.js:638) and a collapse copies it to the stand-in (content.js:935-936), and nothing clears it. The model recomputes the snippet from the current text on every call unless the entry already carries one, so its previews can be fresher than the program's, for example for text captured while a reply was still streaming.
- Build.Visit: the source skips a role-tagged node whose normalised role is neither user nor assistant. `normalizeRole` never returns anything else, so that test is dead and not modelled.
- Engine.Virtualizer.EnforceLiveTurnBudget: the source's `maxOps <= 0` exit can never be taken (the budgets are 40 and 10), so the method leaves it out; the specification function `Bulk.EnforceBudget` keeps the test, and the method still leaves exactly its state.
- Text.MakeSnippet: JavaScript counts string length in UTF-16 code units, while the model counts code points. A text with characters outside the Basic Multilingual Plane can be cut at a different place.
- Text.ClampSnippet: the same holds for `clampSnippet`, which compares and slices in UTF-16 code units; the model, and the preview lines built on it, count code points.
- Text.NormalizeRoleName: lower-casing covers only the characters that lower-case to ASCII (`A`–`Z` and the Kelvin sign). Every comparison with `"user"` is still exact, but other characters are not lower-cased.
- Engine.Virtualizer: the page nodes and the tables live in one field of type `Model.World` rather than in separate objects. A record's stand-in is re-pointed by replacing the record in the registry map, so the model does not capture object aliasing beyond what `messageById` indexes.
- Engine.Virtualizer.RestoreAllCollapsedMessages: the restore order it returns is ghost; a compiled engine would still pick one concrete order.
