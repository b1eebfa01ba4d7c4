/** The minimap's preview text: the text of an entry, the first text of a role in
    a turn, the bounded search for the nearest turn with such a text, the three
    preview lines of a turn, and whether a turn is wholly collapsed. */
module Preview {
  import opened Config
  import opened Text
  import opened Model
  import opened Bulk
  import opened Build

  /** Where `getItemText` finds an entry's raw text: the node's snippet attribute;
      else the text of a live, attached node; else, for a stand-in, the text of
      the registered live node; else nothing. */
  function TextSource(w: World, e: Entry): string
    requires Valid(w) && e.el in w.dom
  {
    var node := w.dom[e.el];
    if node.snippetAttr != "" then node.snippetAttr
    else if !e.isPlaceholder && node.attached then node.text
    else if e.isPlaceholder && e.id in w.collapsedById then w.dom[w.collapsedById[e.id].node].text
    else ""
  }

  /** `getItemText`: the entry's cached snippet when it has one, else the snippet
      of its raw text. */
  function ItemText(w: World, e: Entry): (r: string)
    requires Valid(w) && e.el in w.dom
    ensures e.snippet != "" ==> r == e.snippet
    ensures e.snippet == "" ==>
      |r| <= MaxSnippetLength && SingleSpaced(r) && (r != "" ==> !IsWs(r[0])) &&
      (r == "" <==> forall i :: 0 <= i < |TextSource(w, e)| ==> IsWs(TextSource(w, e)[i])) &&
      NonWs(r) <= NonWs(TextSource(w, e))
    ensures e.snippet == "" ==>
      var c := Join(Words(TextSource(w, e)));
      |r| == (if |c| < MaxSnippetLength then |c| else MaxSnippetLength) && r == c[..|r|]
  {
    if e.snippet != "" then e.snippet else MakeSnippet(TextSource(w, e))
  }

  /** Whether `id` is a known entry of the given role with a non-empty text. */
  predicate Speaks(w: World, id: Id, role: Role)
    requires Valid(w)
  {
    id in w.messageById && EntryOf(w, id).role == role && ItemText(w, EntryOf(w, id)) != ""
  }

  /** The text of the first id of `ids` that speaks in `role`; empty when none does. */
  function FirstText(w: World, ids: seq<Id>, role: Role): string
    requires Valid(w)
  {
    if ids == [] then ""
    else if Speaks(w, ids[0], role) then ItemText(w, EntryOf(w, ids[0]))
    else FirstText(w, ids[1..], role)
  }

  /** `FirstText` is empty exactly when no id speaks, and otherwise is the text of
      the first id that does. */
  lemma {:induction false} FirstTextIsFirst(w: World, ids: seq<Id>, role: Role)
    requires Valid(w)
    ensures FirstText(w, ids, role) == "" <==> forall k :: 0 <= k < |ids| ==> !Speaks(w, ids[k], role)
    ensures FirstText(w, ids, role) != "" ==>
      exists k :: 0 <= k < |ids| && Speaks(w, ids[k], role) &&
        FirstText(w, ids, role) == ItemText(w, EntryOf(w, ids[k])) &&
        forall j :: 0 <= j < k ==> !Speaks(w, ids[j], role)
  {
    if ids != [] {
      FirstTextIsFirst(w, ids[1..], role);
      assert forall k :: 1 <= k < |ids| ==> ids[k] == ids[1..][k - 1];
      if !Speaks(w, ids[0], role) && FirstText(w, ids, role) != "" {
        var k :| 0 <= k < |ids[1..]| && Speaks(w, ids[1..][k], role) &&
          FirstText(w, ids[1..], role) == ItemText(w, EntryOf(w, ids[1..][k])) &&
          forall j :: 0 <= j < k ==> !Speaks(w, ids[1..][j], role);
        assert ids[k + 1] == ids[1..][k];
      }
    }
  }

  /** `getRoleTextForTurn(turn, role)` as a value: empty outside `[0, totalTurns - 1]`,
      else the first text of that role among the ids listed under the turn. */
  function RoleTextForTurn(w: World, turn: int, role: Role): string
    requires Valid(w)
  {
    if turn < 0 || turn >= w.totalTurns then "" else FirstText(w, IdsAt(w.turnToIds, turn), role)
  }

  /** `getRoleTextForTurn(turn, role)`: walks the turn's ids in order and returns the
      first non-empty text of an entry of that role. */
  method GetRoleTextForTurn(w: World, turn: int, role: Role) returns (r: string)
    requires Valid(w)
    ensures r == RoleTextForTurn(w, turn, role)
  {
    if turn < 0 || turn >= w.totalTurns {
      return "";
    }
    var ids := IdsAt(w.turnToIds, turn);
    var k := 0;
    while k < |ids|
      invariant 0 <= k <= |ids|
      invariant FirstText(w, ids[k..], role) == FirstText(w, ids, role)
    {
      assert ids[k..][1..] == ids[k + 1..];
      var id := ids[k];
      if id in w.messageById && EntryOf(w, id).role == role {
        var text := ItemText(w, EntryOf(w, id));
        if text != "" {
          return text;
        }
      }
      k := k + 1;
    }
    return "";
  }

  /** The turn `k` steps from `base` in `direction`. */
  function StepTurn(base: int, direction: int, k: nat): int {
    base + k * direction
  }

  /** The directional search from `turn` with `steps` steps left: stops at the
      first turn outside `[0, totalTurns - 1]` or after the last step, and returns
      the first non-empty text found. */
  function NearestFrom(w: World, turn: int, role: Role, direction: int, steps: nat): string
    requires Valid(w)
    decreases steps
  {
    if steps == 0 || turn < 0 || turn >= w.totalTurns then ""
    else if RoleTextForTurn(w, turn, role) != "" then RoleTextForTurn(w, turn, role)
    else NearestFrom(w, turn + direction, role, direction, steps - 1)
  }

  /** `getNearestRoleText(baseTurn, role, direction, maxSteps)` as a value: empty
      without turns; the text of the base turn itself when the direction is 0;
      else the directional search. */
  function NearestRoleText(w: World, base: int, role: Role, direction: int, maxSteps: int): string
    requires Valid(w)
  {
    if w.totalTurns <= 0 then ""
    else if direction == 0 then RoleTextForTurn(w, base, role)
    else NearestFrom(w, base, role, direction, if maxSteps < 0 then 0 else maxSteps)
  }

  /** `getNearestRoleText`: the search loop, one turn per step. */
  method GetNearestRoleText(w: World, base: int, role: Role, direction: int, maxSteps: int) returns (r: string)
    requires Valid(w)
    ensures r == NearestRoleText(w, base, role, direction, maxSteps)
  {
    if w.totalTurns <= 0 {
      return "";
    }
    if direction == 0 {
      r := GetRoleTextForTurn(w, base, role);
      return;
    }
    var steps: nat := if maxSteps < 0 then 0 else maxSteps;
    var turn := base;
    var step := 0;
    while step < steps
      invariant 0 <= step <= steps
      invariant NearestFrom(w, turn, role, direction, steps - step) == NearestFrom(w, base, role, direction, steps)
    {
      if turn < 0 || turn >= w.totalTurns {
        break;
      }
      var text := GetRoleTextForTurn(w, turn, role);
      if text != "" {
        return text;
      }
      turn := turn + direction;
      step := step + 1;
    }
    return "";
  }

  /** The first `k` turns of the search all lie in `[0, totalTurns - 1]` and have
      no text of the role. */
  ghost predicate EmptyPath(w: World, turn: int, role: Role, direction: int, k: nat)
    requires Valid(w)
  {
    forall j: nat :: j < k ==>
      (0 <= StepTurn(turn, direction, j) < w.totalTurns && RoleTextForTurn(w, StepTurn(turn, direction, j), role) == "")
  }

  lemma EmptyPathShift(w: World, turn: int, role: Role, direction: int, k: nat)
    requires Valid(w)
    ensures EmptyPath(w, turn, role, direction, k + 1) <==>
      0 <= turn < w.totalTurns && RoleTextForTurn(w, turn, role) == "" && EmptyPath(w, turn + direction, role, direction, k)
  {
    assert StepTurn(turn, direction, 0) == turn;
    var next := turn + direction;
    if EmptyPath(w, turn, role, direction, k + 1) {
      forall j: nat | j < k
        ensures 0 <= StepTurn(next, direction, j) < w.totalTurns && RoleTextForTurn(w, StepTurn(next, direction, j), role) == ""
      {
        assert StepTurn(next, direction, j) == StepTurn(turn, direction, j + 1);
      }
    }
    if 0 <= turn < w.totalTurns && RoleTextForTurn(w, turn, role) == "" && EmptyPath(w, turn + direction, role, direction, k) {
      forall j: nat | j < k + 1
        ensures 0 <= StepTurn(turn, direction, j) < w.totalTurns && RoleTextForTurn(w, StepTurn(turn, direction, j), role) == ""
      {
        if j > 0 {
          assert StepTurn(turn, direction, j) == StepTurn(turn + direction, direction, j - 1);
        }
      }
    }
  }

  /** A non-empty search result is the text of a turn `k < steps` steps away,
      reached through turns in range without text. */
  lemma {:induction false} NearestFromFound(w: World, turn: int, role: Role, direction: int, steps: nat)
    requires Valid(w) && NearestFrom(w, turn, role, direction, steps) != ""
    ensures exists k: nat ::
      k < steps && EmptyPath(w, turn, role, direction, k) &&
      0 <= StepTurn(turn, direction, k) < w.totalTurns &&
      NearestFrom(w, turn, role, direction, steps) == RoleTextForTurn(w, StepTurn(turn, direction, k), role)
    decreases steps
  {
    assert StepTurn(turn, direction, 0) == turn;
    if RoleTextForTurn(w, turn, role) == "" {
      var next := turn + direction;
      NearestFromFound(w, next, role, direction, steps - 1);
      var k: nat :| k < steps - 1 && EmptyPath(w, next, role, direction, k) &&
        0 <= StepTurn(next, direction, k) < w.totalTurns &&
        NearestFrom(w, next, role, direction, steps - 1) == RoleTextForTurn(w, StepTurn(next, direction, k), role);
      EmptyPathShift(w, turn, role, direction, k);
      assert StepTurn(next, direction, k) == StepTurn(turn, direction, k + 1);
    } else {
      assert EmptyPath(w, turn, role, direction, 0);
    }
  }

  /** An empty search result means that every turn the search reached has no text
      of the role. */
  lemma {:induction false} NearestFromNotFound(w: World, turn: int, role: Role, direction: int, steps: nat, k: nat)
    requires Valid(w) && NearestFrom(w, turn, role, direction, steps) == ""
    requires k < steps && EmptyPath(w, turn, role, direction, k) && 0 <= StepTurn(turn, direction, k) < w.totalTurns
    ensures RoleTextForTurn(w, StepTurn(turn, direction, k), role) == ""
    decreases steps
  {
    assert StepTurn(turn, direction, 0) == turn;
    if k > 0 {
      EmptyPathShift(w, turn, role, direction, k - 1);
      assert StepTurn(turn + direction, direction, k - 1) == StepTurn(turn, direction, k);
      NearestFromNotFound(w, turn + direction, role, direction, steps - 1, k - 1);
    }
  }

  /** The three preview lines of a turn. */
  datatype Snapshot = Snapshot(prevAssistant: string, userText: string, nextAssistant: string)

  /** An empty line shows an ellipsis. */
  function OrEllipsis(s: string): string {
    if s == "" then "…" else s
  }

  /** `buildTurnSnapshot(turn)`: the nearest assistant text within three turns
      before, the turn's own user text or else the nearest within two turns
      before, and the nearest assistant text within three turns from the turn
      on; clamped to 84, 96 and 72 characters. */
  function TurnSnapshot(w: World, turn: int): (r: Snapshot)
    requires Valid(w)
  {
    var own := NearestRoleText(w, turn, User, 0, 1);
    Snapshot(
      OrEllipsis(ClampSnippet(NearestRoleText(w, turn - 1, Assistant, -1, 3), PreviewPrevAssistantLength)),
      OrEllipsis(ClampSnippet(if own != "" then own else NearestRoleText(w, turn - 1, User, -1, 2), PreviewUserLength)),
      OrEllipsis(ClampSnippet(NearestRoleText(w, turn, Assistant, 1, 3), PreviewNextAssistantLength)))
  }

  /** One preview line: the ellipsis when nothing was found; the text itself when
      it fits; else its first `max` characters and three dots. */
  predicate PreviewLine(line: string, found: string, max: nat) {
    (found == "" ==> line == "…") &&
    (found != "" && |found| <= max ==> line == found) &&
    (|found| > max ==> |line| == max + 3 && line[..max] == found[..max] && line[max..] == "...")
  }

  /** Each line of a snapshot is a clamped search result, or the ellipsis. */
  lemma TurnSnapshotLines(w: World, turn: int)
    requires Valid(w)
    ensures var r := TurnSnapshot(w, turn);
      var own := NearestRoleText(w, turn, User, 0, 1);
      PreviewLine(r.prevAssistant, NearestRoleText(w, turn - 1, Assistant, -1, 3), PreviewPrevAssistantLength) &&
      PreviewLine(r.userText, if own != "" then own else NearestRoleText(w, turn - 1, User, -1, 2), PreviewUserLength) &&
      PreviewLine(r.nextAssistant, NearestRoleText(w, turn, Assistant, 1, 3), PreviewNextAssistantLength)
  {
  }

  /** `isTurnCollapsed(turn)`: the turn lists at least one id, and every id it lists
      is a known stand-in entry. */
  predicate IsTurnCollapsed(w: World, turn: int)
    requires Valid(w)
  {
    var ids := IdsAt(w.turnToIds, turn);
    |ids| > 0 && forall k :: 0 <= k < |ids| ==> ids[k] in w.messageById && EntryOf(w, ids[k]).isPlaceholder
  }

  /** With the turn's ids listed as a rebuild lists them and unique ids, a turn is
      collapsed exactly when it has entries and all of them are stand-ins. */
  lemma TurnCollapsedIffAllStandIns(w: World, turn: int)
    requires Valid(w) && UniqueIds(w) && IdsAt(w.turnToIds, turn) == IdsOfTurn(w.messages, turn)
    ensures IsTurnCollapsed(w, turn) <==>
      (exists i :: 0 <= i < |w.messages| && w.messages[i].turnIndex == turn) &&
      (forall i :: 0 <= i < |w.messages| && w.messages[i].turnIndex == turn ==> w.messages[i].isPlaceholder)
  {
    var ids := IdsAt(w.turnToIds, turn);
    var ms := w.messages;
    if IsTurnCollapsed(w, turn) {
      var i0 :| 0 <= i0 < |ms| && ms[i0].id == ids[0] && ms[i0].turnIndex == turn by {
        IdsOfTurnMember(ms, turn, ids[0]);
      }
      forall i | 0 <= i < |ms| && ms[i].turnIndex == turn
        ensures ms[i].isPlaceholder
      {
        IdsOfTurnHas(ms, i);
        var k :| 0 <= k < |ids| && ids[k] == ms[i].id;
        assert EntryOf(w, ids[k]) == ms[i];
      }
    } else if exists i :: 0 <= i < |ms| && ms[i].turnIndex == turn {
      var i :| 0 <= i < |ms| && ms[i].turnIndex == turn;
      IdsOfTurnHas(ms, i);
      var k :| 0 <= k < |ids| && !(ids[k] in w.messageById && EntryOf(w, ids[k]).isPlaceholder);
      IdsOfTurnMember(ms, turn, ids[k]);
      var j :| 0 <= j < |ms| && ms[j].id == ids[k] && ms[j].turnIndex == turn;
      assert EntryOf(w, ids[k]) == ms[j];
    }
  }
}
