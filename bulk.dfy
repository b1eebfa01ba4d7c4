/** The bulk operations of the collapse engine, as functions on `World`: the
    immediate restore of a turn range, the restore of everything, the live-turn
    cap, and the background collapse plan and its per-frame tick. */
module Bulk {
  import opened Config
  import opened Optional
  import opened Window
  import opened Model

  /** Restoring a live entry, whatever the id, leaves it live. */
  lemma RestoreKeepsLive(w: World, x: Id, id: Id)
    requires Valid(w) && id in w.messageById && !EntryOf(w, id).isPlaceholder
    ensures !EntryOf(Restore(w, x), id).isPlaceholder
  {
    RestoreTransitions(w, x);
    if x != id && x in w.messageById {
      OtherEntriesUnchanged(w, Restore(w, x), x, id);
    }
  }

  /** `restoreMessage` for each id in turn. */
  function RestoreIds(w: World, ids: seq<Id>): (w': World)
    requires Valid(w)
    ensures Valid(w') && SameShape(w, w') && w'.modelDirty == w.modelDirty
    ensures w'.collapsedById.Keys <= w.collapsedById.Keys
    ensures forall id :: id in ids && id in w.messageById ==> id !in w'.collapsedById
    decreases |ids|
  {
    if ids == [] then w
    else
      var w1 := Restore(w, ids[0]);
      var r := RestoreIds(w1, ids[1..]);
      SameShapeTrans(w, w1, r);
      assert forall id :: id in ids ==> id == ids[0] || id in ids[1..];
      r
  }

  lemma {:induction false} RestoreIdsKeepsLive(w: World, ids: seq<Id>, id: Id)
    requires Valid(w) && id in w.messageById && !EntryOf(w, id).isPlaceholder
    ensures !EntryOf(RestoreIds(w, ids), id).isPlaceholder
    decreases |ids|
  {
    if ids != [] {
      RestoreKeepsLive(w, ids[0], id);
      RestoreIdsKeepsLive(Restore(w, ids[0]), ids[1..], id);
    }
  }

  /** Restoring one more id at the end is one more restore after the others, as a
      loop over the ids performs them. */
  lemma {:induction false} RestoreIdsSnoc(w: World, ids: seq<Id>, id: Id)
    requires Valid(w)
    ensures RestoreIds(w, ids + [id]) == Restore(RestoreIds(w, ids), id)
    decreases |ids|
  {
    if ids == [] {
      assert [id][1..] == [];
    } else {
      assert (ids + [id])[1..] == ids[1..] + [id];
      RestoreIdsSnoc(Restore(w, ids[0]), ids[1..], id);
    }
  }

  /** Restores only change nodes the document already has: the set of handles stays. */
  lemma {:induction false} RestoreIdsKeepsNodes(w: World, ids: seq<Id>)
    requires Valid(w)
    ensures RestoreIds(w, ids).dom.Keys == w.dom.Keys
    decreases |ids|
  {
    if ids != [] {
      RestoreIdsKeepsNodes(Restore(w, ids[0]), ids[1..]);
    }
  }

  /** Every registered known id of the list is live afterwards. */
  lemma {:induction false} RestoreIdsLive(w: World, ids: seq<Id>, id: Id)
    requires Valid(w) && id in ids && id in w.messageById && id in w.collapsedById
    ensures !EntryOf(RestoreIds(w, ids), id).isPlaceholder
    decreases |ids|
  {
    var w1 := Restore(w, ids[0]);
    RestoreTransitions(w, ids[0]);
    if ids[0] == id {
      RestoreIdsKeepsLive(w1, ids[1..], id);
    } else {
      assert id in ids[1..];
      RestoreIdsLive(w1, ids[1..], id);
    }
  }

  /** `turnToIds.get(turn) || []`. */
  function IdsAt(turnToIds: map<int, seq<Id>>, turn: int): seq<Id> {
    if turn in turnToIds then turnToIds[turn] else []
  }

  /** The loop of `restoreTurnsImmediately` from turn `t` on. */
  function RestoreTurnsFrom(w: World, t: int, hi: int): (w': World)
    requires Valid(w)
    ensures Valid(w') && SameShape(w, w') && w'.modelDirty == w.modelDirty
    ensures w'.collapsedById.Keys <= w.collapsedById.Keys
    decreases hi - t + 1
  {
    if t > hi then w else RestoreTurnsFrom(RestoreIds(w, IdsAt(w.turnToIds, t)), t + 1, hi)
  }

  /** `restoreTurnsImmediately(minTurn, maxTurn)`: nothing when the registry is empty. */
  function RestoreTurns(w: World, lo: int, hi: int): (w': World)
    requires Valid(w)
    ensures Valid(w') && SameShape(w, w') && w'.modelDirty == w.modelDirty
    ensures w'.collapsedById.Keys <= w.collapsedById.Keys
    ensures |w.collapsedById| == 0 ==> w' == w
  {
    if |w.collapsedById| == 0 then w else RestoreTurnsFrom(w, lo, hi)
  }

  /** The ids the turn table lists are all known ids (a rebuild makes it so). */
  ghost predicate TurnIdsKnown(w: World) {
    forall t, id :: t in w.turnToIds && id in w.turnToIds[t] ==> id in w.messageById
  }

  /** Every entry is listed under its own turn. */
  ghost predicate EntriesListed(w: World) {
    forall i :: 0 <= i < |w.messages| ==> w.messages[i].id in IdsAt(w.turnToIds, w.messages[i].turnIndex)
  }

  lemma {:induction false} RestoreTurnsFromClears(w: World, t: int, hi: int, u: int, id: Id)
    requires Valid(w) && t <= u <= hi && id in IdsAt(w.turnToIds, u) && id in w.messageById
    ensures id !in RestoreTurnsFrom(w, t, hi).collapsedById
    decreases hi - t + 1
  {
    var w1 := RestoreIds(w, IdsAt(w.turnToIds, t));
    assert RestoreTurnsFrom(w, t, hi) == RestoreTurnsFrom(w1, t + 1, hi);
    if u == t {
      assert id !in w1.collapsedById;
    } else {
      assert IdsAt(w1.turnToIds, u) == IdsAt(w.turnToIds, u);
      RestoreTurnsFromClears(w1, t + 1, hi, u, id);
    }
  }

  /** After `restoreTurnsImmediately(lo, hi)` no id listed under a turn of the range
      is left in the registry. */
  lemma RestoreTurnsClears(w: World, lo: int, hi: int)
    requires Valid(w) && TurnIdsKnown(w)
    ensures forall u, id :: lo <= u <= hi && id in IdsAt(w.turnToIds, u) ==> id !in RestoreTurns(w, lo, hi).collapsedById
  {
    forall u, id | lo <= u <= hi && id in IdsAt(w.turnToIds, u)
      ensures id !in RestoreTurns(w, lo, hi).collapsedById
    {
      if |w.collapsedById| != 0 {
        RestoreTurnsFromClears(w, lo, hi, u, id);
      }
    }
  }

  lemma {:induction false} RestoreTurnsFromKeepsLive(w: World, t: int, hi: int, id: Id)
    requires Valid(w) && id in w.messageById && !EntryOf(w, id).isPlaceholder
    ensures !EntryOf(RestoreTurnsFrom(w, t, hi), id).isPlaceholder
    decreases hi - t + 1
  {
    if t <= hi {
      var w1 := RestoreIds(w, IdsAt(w.turnToIds, t));
      RestoreIdsKeepsLive(w, IdsAt(w.turnToIds, t), id);
      RestoreTurnsFromKeepsLive(w1, t + 1, hi, id);
    }
  }

  lemma {:induction false} RestoreTurnsFromLive(w: World, t: int, hi: int, u: int, id: Id)
    requires Valid(w) && t <= u <= hi && id in IdsAt(w.turnToIds, u) && id in w.messageById
    requires id in w.collapsedById || !EntryOf(w, id).isPlaceholder
    ensures !EntryOf(RestoreTurnsFrom(w, t, hi), id).isPlaceholder
    decreases hi - t + 1
  {
    var w1 := RestoreIds(w, IdsAt(w.turnToIds, t));
    assert RestoreTurnsFrom(w, t, hi) == RestoreTurnsFrom(w1, t + 1, hi);
    if u == t {
      if id in w.collapsedById {
        RestoreIdsLive(w, IdsAt(w.turnToIds, t), id);
      } else {
        RestoreIdsKeepsLive(w, IdsAt(w.turnToIds, t), id);
      }
      RestoreTurnsFromKeepsLive(w1, t + 1, hi, id);
    } else {
      var ids := IdsAt(w.turnToIds, t);
      if !EntryOf(w, id).isPlaceholder {
        RestoreIdsKeepsLive(w, ids, id);
      } else if id in ids {
        RestoreIdsLive(w, ids, id);
      } else {
        RestoreIdsRegistered(w, ids, id);
      }
      assert IdsAt(w1.turnToIds, u) == IdsAt(w.turnToIds, u);
      RestoreTurnsFromLive(w1, t + 1, hi, u, id);
    }
  }

  /** Restoring other ids keeps a registration. */
  lemma {:induction false} RestoreIdsRegistered(w: World, ids: seq<Id>, id: Id)
    requires Valid(w) && id !in ids && id in w.collapsedById
    ensures id in RestoreIds(w, ids).collapsedById
    decreases |ids|
  {
    if ids != [] {
      RestoreTransitions(w, ids[0]);
      RestoreIdsRegistered(Restore(w, ids[0]), ids[1..], id);
    }
  }

  /** `jumpToTurn` and the steady sync rely on this: when every stand-in entry is
      registered, ids are unique and every entry is listed under its turn, then
      after `restoreTurnsImmediately(lo, hi)` every entry of a turn in `[lo, hi]` is
      live. */
  lemma RestoreTurnsLive(w: World, lo: int, hi: int)
    requires Valid(w) && PlaceholdersRegistered(w) && UniqueIds(w) && EntriesListed(w)
    ensures var w' := RestoreTurns(w, lo, hi);
      forall i :: 0 <= i < |w'.messages| && lo <= w'.messages[i].turnIndex <= hi ==> !w'.messages[i].isPlaceholder
  {
    var w' := RestoreTurns(w, lo, hi);
    forall i | 0 <= i < |w'.messages| && lo <= w'.messages[i].turnIndex <= hi
      ensures !w'.messages[i].isPlaceholder
    {
      var id := w.messages[i].id;
      assert EntryOf(w, id) == w.messages[i];
      if |w.collapsedById| == 0 {
        assert !EntryOf(w, id).isPlaceholder;
      } else {
        RestoreTurnsFromLive(w, lo, hi, w.messages[i].turnIndex, id);
        assert EntryOf(w', id) == w'.messages[i];
      }
    }
  }

  /** `restoreAllCollapsedMessages`, with the registry's keys taken in `order`: the
      source walks them in the registry's insertion order, which this model does
      not track, so the properties below hold for every order. */
  function RestoreAll(w: World, order: seq<Id>): (w': World)
    requires Valid(w)
    ensures Valid(w') && SameShape(w, w') && w'.dom.Keys == w.dom.Keys
  {
    if |w.collapsedById| == 0 then w
    else
      RestoreIdsKeepsNodes(w, order);
      RestoreIds(w, order).(modelDirty := true)
  }

  /** After restoring everything, only the records of ids the tables no longer know
      remain registered (and untouched), every registered entry is live, and the
      model is marked dirty unless the registry was empty. */
  lemma RestoreAllOutcome(w: World, order: seq<Id>)
    requires Valid(w) && forall id :: id in order <==> id in w.collapsedById
    ensures var w' := RestoreAll(w, order);
      (forall id :: id in w'.collapsedById <==> id in w.collapsedById && id !in w.messageById) &&
      (forall id :: id in w.collapsedById && id in w.messageById ==> !EntryOf(w', id).isPlaceholder) &&
      (w'.modelDirty <==> w.modelDirty || |w.collapsedById| != 0)
  {
    var w' := RestoreAll(w, order);
    if |w.collapsedById| != 0 {
      forall id | id in w.collapsedById && id !in w.messageById ensures id in w'.collapsedById {
        RestoreIdsUnknownStays(w, order, id);
      }
      forall id | id in w.collapsedById && id in w.messageById ensures !EntryOf(w', id).isPlaceholder {
        RestoreIdsLive(w, order, id);
      }
    }
  }

  /** A record whose id the tables do not know survives any restore. */
  lemma {:induction false} RestoreIdsUnknownStays(w: World, ids: seq<Id>, id: Id)
    requires Valid(w) && id in w.collapsedById && id !in w.messageById
    ensures id in RestoreIds(w, ids).collapsedById
    decreases |ids|
  {
    if ids != [] {
      RestoreTransitions(w, ids[0]);
      RestoreIdsUnknownStays(Restore(w, ids[0]), ids[1..], id);
    }
  }

  /** `collapseMessage` for each id in turn. */
  function CollapseIds(w: World, ids: seq<Id>, lowCost: bool): (w': World)
    requires Valid(w)
    ensures Valid(w') && SameShape(w, w') && (w.modelDirty ==> w'.modelDirty)
    decreases |ids|
  {
    if ids == [] then w
    else
      var w1 := Collapse(w, ids[0], lowCost);
      var r := CollapseIds(w1, ids[1..], lowCost);
      SameShapeTrans(w, w1, r);
      r
  }

  lemma {:induction false} CollapseIdsConcat(w: World, a: seq<Id>, b: seq<Id>, lowCost: bool)
    requires Valid(w)
    ensures CollapseIds(w, a + b, lowCost) == CollapseIds(CollapseIds(w, a, lowCost), b, lowCost)
    decreases |a|
  {
    if a == [] {
      assert a + b == b;
    } else {
      assert (a + b)[1..] == a[1..] + b;
      CollapseIdsConcat(Collapse(w, a[0], lowCost), a[1..], b, lowCost);
    }
  }

  /** With unique ids, collapsing the id of entry `i` touches only entry `i`, and
      either turns it into a stand-in or marks the model dirty. */
  lemma CollapseOwnEntry(w: World, i: int, lowCost: bool)
    requires Valid(w) && UniqueIds(w) && 0 <= i < |w.messages|
    ensures var w' := Collapse(w, w.messages[i].id, lowCost);
      (forall j :: 0 <= j < |w.messages| && j != i ==> w'.messages[j] == w.messages[j]) &&
      (w.messages[i].isPlaceholder ==> w'.messages[i] == w.messages[i]) &&
      (w'.messages[i].isPlaceholder || w'.modelDirty)
  {
    CollapseTransitions(w, w.messages[i].id, lowCost);
  }

  /** With unique ids, collapsing entry `i` keeps ids unique and leaves entry `j`. */
  lemma CollapseOtherEntry(w: World, i: nat, j: int, lowCost: bool)
    requires Valid(w) && UniqueIds(w) && i < |w.messages| && 0 <= j < |w.messages| && j != i
    ensures var w1 := Collapse(w, w.messages[i].id, lowCost);
      UniqueIds(w1) && w1.messages[j] == w.messages[j]
  {
    CollapseOwnEntry(w, i, lowCost);
    SameShapeKeepsUnique(w, Collapse(w, w.messages[i].id, lowCost));
  }

  /** With unique ids, collapsing entry `i` keeps ids unique and leaves it a
      stand-in unless the model was marked dirty. */
  lemma CollapseThisEntry(w: World, i: nat, lowCost: bool)
    requires Valid(w) && UniqueIds(w) && i < |w.messages|
    ensures var w1 := Collapse(w, w.messages[i].id, lowCost);
      UniqueIds(w1) && (w1.messages[i].isPlaceholder || w1.modelDirty)
  {
    CollapseOwnEntry(w, i, lowCost);
    SameShapeKeepsUnique(w, Collapse(w, w.messages[i].id, lowCost));
  }

  /** With unique ids, collapsing entry `i` leaves the entries after it. */
  lemma CollapseKeepsSuffix(w: World, i: nat, lowCost: bool)
    requires Valid(w) && UniqueIds(w) && i < |w.messages|
    ensures var w1 := Collapse(w, w.messages[i].id, lowCost);
      UniqueIds(w1) && w1.messages[i + 1..] == w.messages[i + 1..]
  {
    CollapseOwnEntry(w, i, lowCost);
    SameShapeKeepsUnique(w, Collapse(w, w.messages[i].id, lowCost));
  }

  /** Whether a collapse pass or plan takes entry `e` for keep range `keep`: it is
      live and its turn lies outside the range. */
  predicate Queued(e: Entry, keep: TurnRange) {
    !e.isPlaceholder && !keep.Contains(e.turnIndex)
  }

  /** The ids the collapse plan queues: the queued entries' ids, in message order. */
  function PlanQueue(ms: seq<Entry>, keep: TurnRange): (q: seq<Id>)
    ensures |q| <= |ms|
  {
    if ms == [] then []
    else (if Queued(ms[0], keep) then [ms[0].id] else []) + PlanQueue(ms[1..], keep)
  }

  /** The plan of a longer list extends the shorter one's, as the building loop
      pushes ids one entry at a time. */
  lemma {:induction false} PlanQueueSnoc(ms: seq<Entry>, e: Entry, keep: TurnRange)
    ensures PlanQueue(ms + [e], keep) == PlanQueue(ms, keep) + (if Queued(e, keep) then [e.id] else [])
  {
    if ms == [] {
      assert [e][1..] == [];
    } else {
      assert (ms + [e])[1..] == ms[1..] + [e];
      PlanQueueSnoc(ms[1..], e, keep);
    }
  }

  /** An id is queued exactly when some queued entry carries it. */
  lemma {:induction false} PlanQueueMembers(ms: seq<Entry>, keep: TurnRange)
    ensures forall id :: id in PlanQueue(ms, keep) <==>
      exists i :: 0 <= i < |ms| && ms[i].id == id && Queued(ms[i], keep)
  {
    if ms != [] {
      PlanQueueMembers(ms[1..], keep);
      assert forall i :: 1 <= i < |ms| ==> ms[1..][i - 1] == ms[i];
      forall id | exists i :: 0 <= i < |ms| && ms[i].id == id && Queued(ms[i], keep)
        ensures id in PlanQueue(ms, keep)
      {
        var i :| 0 <= i < |ms| && ms[i].id == id && Queued(ms[i], keep);
        if i > 0 {
          assert ms[1..][i - 1] == ms[i];
        }
      }
    }
  }

  lemma PlanQueueAt(ms: seq<Entry>, i: nat, keep: TurnRange)
    requires i < |ms|
    ensures PlanQueue(ms[i..], keep) == (if Queued(ms[i], keep) then [ms[i].id] else []) + PlanQueue(ms[i + 1..], keep)
  {
    assert ms[i..][1..] == ms[i + 1..];
  }

  lemma CollapseIdsCons(w: World, id: Id, rest: seq<Id>, lowCost: bool)
    requires Valid(w)
    ensures CollapseIds(w, [id] + rest, lowCost) == CollapseIds(Collapse(w, id, lowCost), rest, lowCost)
  {
    assert ([id] + rest)[1..] == rest;
  }

  /** A collapse pass over the entries from `i` on: skips the entries that are not
      queued, collapses the others, and stops once `maxOps` collapses were
      attempted. Returns the world and the number of attempts. */
  function Pass(w: World, i: nat, keep: TurnRange, maxOps: nat, ops: nat, lowCost: bool): (r: (World, nat))
    requires Valid(w) && i <= |w.messages|
    ensures Valid(r.0) && SameShape(w, r.0) && (w.modelDirty ==> r.0.modelDirty)
    ensures ops <= r.1 <= ops + (|w.messages| - i) && (ops <= maxOps ==> r.1 <= maxOps)
    decreases |w.messages| - i
  {
    if i == |w.messages| || ops >= maxOps then (w, ops)
    else
      var item := w.messages[i];
      if !Queued(item, keep) then Pass(w, i + 1, keep, maxOps, ops, lowCost)
      else
        var w1 := Collapse(w, item.id, lowCost);
        var r := Pass(w1, i + 1, keep, maxOps, ops + 1, lowCost);
        SameShapeTrans(w, w1, r.0);
        r
  }

  lemma PassUnfoldSkip(w: World, i: nat, keep: TurnRange, maxOps: nat, ops: nat, lowCost: bool)
    requires Valid(w) && i < |w.messages| && ops < maxOps && !Queued(w.messages[i], keep)
    ensures Pass(w, i, keep, maxOps, ops, lowCost) == Pass(w, i + 1, keep, maxOps, ops, lowCost)
  {
  }

  lemma PassUnfoldCollapse(w: World, i: nat, keep: TurnRange, maxOps: nat, ops: nat, lowCost: bool)
    requires Valid(w) && i < |w.messages| && ops < maxOps && Queued(w.messages[i], keep)
    ensures Pass(w, i, keep, maxOps, ops, lowCost) ==
      Pass(Collapse(w, w.messages[i].id, lowCost), i + 1, keep, maxOps, ops + 1, lowCost)
  {
  }

  /** A pass leaves the entries it went by and the entries it does not queue as they
      were. */
  lemma {:induction false} PassFrame(w: World, i: nat, keep: TurnRange, maxOps: nat, ops: nat, lowCost: bool, j: int)
    requires Valid(w) && UniqueIds(w) && i <= |w.messages|
    requires 0 <= j < |w.messages| && (j < i || !Queued(w.messages[j], keep))
    ensures Pass(w, i, keep, maxOps, ops, lowCost).0.messages[j] == w.messages[j]
    decreases |w.messages| - i, 1
  {
    if i < |w.messages| && ops < maxOps {
      if !Queued(w.messages[i], keep) {
        PassUnfoldSkip(w, i, keep, maxOps, ops, lowCost);
        PassFrame(w, i + 1, keep, maxOps, ops, lowCost, j);
      } else {
        PassUnfoldCollapse(w, i, keep, maxOps, ops, lowCost);
        CollapseOtherEntry(w, i, j, lowCost);
        PassFrameAfter(w, Collapse(w, w.messages[i].id, lowCost), i, keep, maxOps, ops, lowCost, j);
      }
    } else {
      assert Pass(w, i, keep, maxOps, ops, lowCost) == (w, ops);
    }
  }

  /** The step of `PassFrame` after entry `i` was collapsed into `w1`. */
  lemma {:induction false} PassFrameAfter(w: World, w1: World, i: nat, keep: TurnRange, maxOps: nat, ops: nat, lowCost: bool, j: int)
    requires Valid(w1) && UniqueIds(w1) && i < |w1.messages| && |w.messages| == |w1.messages|
    requires 0 <= j < |w.messages| && w1.messages[j] == w.messages[j]
    requires j < i + 1 || !Queued(w.messages[j], keep)
    ensures Pass(w1, i + 1, keep, maxOps, ops + 1, lowCost).0.messages[j] == w.messages[j]
    decreases |w1.messages| - i, 0
  {
    PassFrame(w1, i + 1, keep, maxOps, ops + 1, lowCost, j);
  }

  /** A pass that stopped short of `maxOps` left no queued entry from `i` on live,
      unless a detached node marked the model dirty. */
  lemma {:induction false} PassComplete(w: World, i: nat, keep: TurnRange, maxOps: nat, ops: nat, lowCost: bool, j: int)
    requires Valid(w) && UniqueIds(w) && i <= j < |w.messages| && Queued(w.messages[j], keep)
    ensures var r := Pass(w, i, keep, maxOps, ops, lowCost);
      r.1 < maxOps ==> r.0.messages[j].isPlaceholder || r.0.modelDirty
    decreases |w.messages| - i, 1
  {
    if ops < maxOps {
      if !Queued(w.messages[i], keep) {
        PassUnfoldSkip(w, i, keep, maxOps, ops, lowCost);
        PassComplete(w, i + 1, keep, maxOps, ops, lowCost, j);
      } else {
        PassUnfoldCollapse(w, i, keep, maxOps, ops, lowCost);
        if j == i {
          CollapseThisEntry(w, i, lowCost);
          PassCompleteAfterThis(Collapse(w, w.messages[i].id, lowCost), i, keep, maxOps, ops, lowCost);
        } else {
          CollapseOtherEntry(w, i, j, lowCost);
          PassCompleteAfter(w, Collapse(w, w.messages[i].id, lowCost), i, keep, maxOps, ops, lowCost, j);
        }
      }
    }
  }

  lemma {:induction false} PassCompleteAfter(w: World, w1: World, i: nat, keep: TurnRange, maxOps: nat, ops: nat, lowCost: bool, j: int)
    requires Valid(w1) && UniqueIds(w1) && i < j < |w1.messages| && |w.messages| == |w1.messages|
    requires w1.messages[j] == w.messages[j] && Queued(w.messages[j], keep)
    ensures var r := Pass(w1, i + 1, keep, maxOps, ops + 1, lowCost);
      r.1 < maxOps ==> r.0.messages[j].isPlaceholder || r.0.modelDirty
    decreases |w1.messages| - i, 0
  {
    PassComplete(w1, i + 1, keep, maxOps, ops + 1, lowCost, j);
  }

  lemma PassCompleteAfterThis(w1: World, i: nat, keep: TurnRange, maxOps: nat, ops: nat, lowCost: bool)
    requires Valid(w1) && UniqueIds(w1) && i < |w1.messages|
    requires w1.messages[i].isPlaceholder || w1.modelDirty
    ensures var r := Pass(w1, i + 1, keep, maxOps, ops + 1, lowCost);
      r.0.messages[i].isPlaceholder || r.0.modelDirty
  {
    PassFrame(w1, i + 1, keep, maxOps, ops + 1, lowCost, i);
  }

  /** With room for every collapse, a pass is the drain of the plan built from the
      same entries. */
  lemma {:induction false} PassIsPlanDrain(w: World, i: nat, keep: TurnRange, maxOps: nat, ops: nat, lowCost: bool)
    requires Valid(w) && UniqueIds(w) && i <= |w.messages| && ops + (|w.messages| - i) <= maxOps
    ensures Pass(w, i, keep, maxOps, ops, lowCost).0 == CollapseIds(w, PlanQueue(w.messages[i..], keep), lowCost)
    decreases |w.messages| - i, 1
  {
    if i == |w.messages| {
      assert w.messages[i..] == [];
    } else {
      PlanQueueAt(w.messages, i, keep);
      if !Queued(w.messages[i], keep) {
        PassUnfoldSkip(w, i, keep, maxOps, ops, lowCost);
        assert PlanQueue(w.messages[i..], keep) == PlanQueue(w.messages[i + 1..], keep) by {
          assert [] + PlanQueue(w.messages[i + 1..], keep) == PlanQueue(w.messages[i + 1..], keep);
        }
        PassIsPlanDrain(w, i + 1, keep, maxOps, ops, lowCost);
      } else {
        PassUnfoldCollapse(w, i, keep, maxOps, ops, lowCost);
        CollapseIdsCons(w, w.messages[i].id, PlanQueue(w.messages[i + 1..], keep), lowCost);
        CollapseKeepsSuffix(w, i, lowCost);
        PassIsPlanDrainAfter(w, Collapse(w, w.messages[i].id, lowCost), i, keep, maxOps, ops, lowCost);
      }
    }
  }

  lemma {:induction false} PassIsPlanDrainAfter(w: World, w1: World, i: nat, keep: TurnRange, maxOps: nat, ops: nat, lowCost: bool)
    requires Valid(w1) && UniqueIds(w1) && i < |w1.messages| && |w.messages| == |w1.messages|
    requires w1.messages[i + 1..] == w.messages[i + 1..] && ops + 1 + (|w.messages| - (i + 1)) <= maxOps
    ensures Pass(w1, i + 1, keep, maxOps, ops + 1, lowCost).0 == CollapseIds(w1, PlanQueue(w.messages[i + 1..], keep), lowCost)
    decreases |w1.messages| - i, 0
  {
    PassIsPlanDrain(w1, i + 1, keep, maxOps, ops + 1, lowCost);
  }

  /** Draining the whole plan built from the current entries turns every queued
      entry into a stand-in (unless a collapse found a detached node and marked the
      model dirty) and leaves every other entry, in particular every entry inside the
      target range, as it was. */
  lemma PlanDrainCollapsesOutside(w: World, keep: TurnRange, lowCost: bool)
    requires Valid(w) && UniqueIds(w)
    ensures var w' := CollapseIds(w, PlanQueue(w.messages, keep), lowCost);
      (forall j :: 0 <= j < |w.messages| && !Queued(w.messages[j], keep) ==> w'.messages[j] == w.messages[j]) &&
      (forall j :: 0 <= j < |w.messages| && Queued(w.messages[j], keep) ==> w'.messages[j].isPlaceholder || w'.modelDirty)
  {
    var n := |w.messages|;
    assert w.messages[0..] == w.messages;
    PassIsPlanDrain(w, 0, keep, n + 1, 0, lowCost);
    forall j | 0 <= j < n && !Queued(w.messages[j], keep)
      ensures Pass(w, 0, keep, n + 1, 0, lowCost).0.messages[j] == w.messages[j]
    {
      PassFrame(w, 0, keep, n + 1, 0, lowCost, j);
    }
    forall j | 0 <= j < n && Queued(w.messages[j], keep)
      ensures var r := Pass(w, 0, keep, n + 1, 0, lowCost); r.0.messages[j].isPlaceholder || r.0.modelDirty
    {
      PassComplete(w, 0, keep, n + 1, 0, lowCost, j);
    }
  }

  /** `enforceLiveTurnBudget(anchorTurn, typingHot)`: the world after the pass and
      whether another sync is requested. The pass collapses in low-cost mode. */
  function EnforceBudget(w: World, anchor: int, typingHot: bool): (r: (World, bool))
    requires Valid(w)
    ensures Valid(r.0) && SameShape(w, r.0)
  {
    var budget := LiveTurnBudget(typingHot);
    var maxOps := BudgetOps(typingHot);
    if w.totalTurns <= 0 || w.totalTurns <= budget || maxOps <= 0 then (w, false)
    else
      var keep := BudgetKeepWindow(anchor, w.totalTurns, budget);
      var p := Pass(w, 0, keep, maxOps, 0, true);
      (p.0, p.1 >= maxOps)
  }

  /** The live-turn cap: nothing happens while the transcript fits the budget (8
      turns, 4 while typing). Otherwise the pass is a low-cost collapse pass over
      the window of `budget` turns around the anchor: no entry inside the window and
      no stand-in changes, at most `maxOps` collapses are attempted, another sync is
      requested exactly when that budget ran out, and when it did not run out every
      entry outside the window is a stand-in (unless a detached node marked the
      model dirty). */
  lemma EnforceBudgetOutcome(w: World, anchor: int, typingHot: bool)
    requires Valid(w) && UniqueIds(w)
    ensures var r := EnforceBudget(w, anchor, typingHot);
      var budget := LiveTurnBudget(typingHot);
      (w.totalTurns <= budget ==> r == (w, false)) &&
      (w.totalTurns > budget ==>
        var keep := BudgetKeepWindow(anchor, w.totalTurns, budget);
        var p := Pass(w, 0, keep, BudgetOps(typingHot), 0, true);
        r.0 == p.0 && p.1 <= BudgetOps(typingHot) && (r.1 <==> p.1 == BudgetOps(typingHot)) &&
        (forall j :: 0 <= j < |w.messages| && (keep.Contains(w.messages[j].turnIndex) || w.messages[j].isPlaceholder) ==>
          r.0.messages[j] == w.messages[j]) &&
        (!r.1 ==> forall j :: 0 <= j < |w.messages| && !keep.Contains(w.messages[j].turnIndex) ==>
          r.0.messages[j].isPlaceholder || r.0.modelDirty))
  {
    var budget := LiveTurnBudget(typingHot);
    if w.totalTurns > budget {
      var keep := BudgetKeepWindow(anchor, w.totalTurns, budget);
      var maxOps := BudgetOps(typingHot);
      var p := Pass(w, 0, keep, maxOps, 0, true);
      forall j | 0 <= j < |w.messages| && !Queued(w.messages[j], keep)
        ensures p.0.messages[j] == w.messages[j]
      {
        PassFrame(w, 0, keep, maxOps, 0, true, j);
      }
      forall j | 0 <= j < |w.messages| && Queued(w.messages[j], keep)
        ensures p.1 < maxOps ==> p.0.messages[j].isPlaceholder || p.0.modelDirty
      {
        PassComplete(w, 0, keep, maxOps, 0, true, j);
      }
    }
  }

  /** A collapse plan: the target key, the queued ids and the next position. */
  datatype Plan = Plan(key: TurnRange, queue: seq<Id>, index: nat)

  /** The background worker's state: the current target keep-range, the plan and
      whether a tick is pending. */
  datatype Worker = Worker(target: Option<TurnRange>, plan: Option<Plan>, running: bool)

  datatype Mode = Dynamic | Expanded

  /** What a tick asks for next. */
  datatype TickResult = Stopped | NextFrame | SyncRequested

  /** `requestBackgroundCollapse(minTurn, maxTurn)`: the new worker state and
      whether a first tick is requested. The source compares the keys
      `min + ":" + max`, which are equal exactly when both bounds are. */
  function RequestCollapse(wk: Worker, lo: int, hi: int): (r: (Worker, bool))
    ensures r.0.target == Some(TurnRange(lo, hi))
    ensures r.1 ==> !wk.running && r.0.running
  {
    if wk.target == Some(TurnRange(lo, hi)) then (wk, false)
    else (Worker(Some(TurnRange(lo, hi)), None, true), !wk.running)
  }

  /** A request for the range already targeted changes nothing; a request for a new
      range drops the old plan, marks the worker running, and asks for a tick
      exactly when no worker was running. */
  lemma RequestCollapseOutcome(wk: Worker, lo: int, hi: int)
    ensures var r := RequestCollapse(wk, lo, hi);
      (wk.target == Some(TurnRange(lo, hi)) ==> r == (wk, false)) &&
      (wk.target != Some(TurnRange(lo, hi)) ==> r.0.plan == None && r.0.running && (r.1 <==> !wk.running))
  {
  }

  /** Asking twice for the same range is asking once: the second request leaves the
      worker as the first left it and asks for no tick. */
  lemma RequestCollapseIdempotent(wk: Worker, lo: int, hi: int)
    ensures var r1 := RequestCollapse(wk, lo, hi);
      RequestCollapse(r1.0, lo, hi) == (r1.0, false)
  {
  }

  /** The inner loop of `collapseWorkerTick`: collapses queued ids from `index` on
      until `limit` operations were done or the queue is exhausted. */
  function Drain(w: World, queue: seq<Id>, index: nat, ops: nat, limit: nat, lowCost: bool): (r: (World, nat))
    requires Valid(w)
    ensures Valid(r.0) && SameShape(w, r.0)
    decreases |queue| - index
  {
    if ops >= limit || index >= |queue| then (w, index)
    else Drain(Collapse(w, queue[index], lowCost), queue, index + 1, ops + 1, limit, lowCost)
  }

  /** A drain collapses exactly the next `limit - ops` queued ids (fewer at the end
      of the queue), in queue order. */
  lemma {:induction false} DrainSlice(w: World, queue: seq<Id>, index: nat, ops: nat, limit: nat, lowCost: bool)
    requires Valid(w) && index <= |queue|
    ensures var r := Drain(w, queue, index, ops, limit, lowCost);
      var stop := if ops >= limit then index else if index + (limit - ops) <= |queue| then index + (limit - ops) else |queue|;
      r.1 == stop && r.0 == CollapseIds(w, queue[index..stop], lowCost)
    decreases |queue| - index
  {
    if ops < limit && index < |queue| {
      var w1 := Collapse(w, queue[index], lowCost);
      assert Drain(w, queue, index, ops, limit, lowCost) == Drain(w1, queue, index + 1, ops + 1, limit, lowCost);
      DrainSlice(w1, queue, index + 1, ops + 1, limit, lowCost);
      var stop := if index + (limit - ops) <= |queue| then index + (limit - ops) else |queue|;
      var slice := queue[index..stop];
      assert slice != [] && slice[0] == queue[index] && slice[1..] == queue[index + 1..stop];
      assert CollapseIds(w, slice, lowCost) == CollapseIds(w1, slice[1..], lowCost);
    } else {
      assert queue[index..index] == [];
    }
  }

  /** `collapseWorkerTick`, with the pause (start-up grace period or a recent
      scroll) and typing as inputs. */
  function Tick(w: World, wk: Worker, mode: Mode, paused: bool, typingHot: bool): (r: (World, Worker, TickResult))
    requires Valid(w)
    ensures Valid(r.0) && SameShape(w, r.0)
  {
    if mode != Dynamic then (w, wk.(running := false), Stopped)
    else if w.modelDirty then (w, wk.(running := false), SyncRequested)
    else if wk.target.None? then (w, wk.(running := false), Stopped)
    else if paused then (w, wk, NextFrame)
    else
      var target := wk.target.value;
      var plan := if wk.plan.None? || wk.plan.value.key != target then Plan(target, PlanQueue(w.messages, target), 0) else wk.plan.value;
      var limit := if typingHot then CollapseOpsPerFrameTyping else CollapseOpsPerFrame;
      var d := Drain(w, plan.queue, plan.index, 0, limit, typingHot);
      if d.1 < |plan.queue| then (d.0, wk.(plan := Some(plan.(index := d.1))), NextFrame)
      else (d.0, Worker(wk.target, None, false), Stopped)
  }

  /** A tick does nothing to the tables when the mode is not dynamic, the model is
      dirty, there is no target or the worker is paused; in the first three cases
      the worker stops, and a dirty model requests a sync. */
  lemma TickAborts(w: World, wk: Worker, mode: Mode, paused: bool, typingHot: bool)
    requires Valid(w)
    ensures var r := Tick(w, wk, mode, paused, typingHot);
      (mode != Dynamic || w.modelDirty || wk.target.None? ==>
        r.0 == w && !r.1.running && r.1.plan == wk.plan && r.1.target == wk.target &&
        (r.2 == SyncRequested <==> mode == Dynamic && w.modelDirty)) &&
      (mode == Dynamic && !w.modelDirty && wk.target.Some? && paused ==> r == (w, wk, NextFrame))
  {
  }

  /** A working tick collapses the next queued ids, at most 4 (1 while typing); it
      keeps the plan when its key is the target, else builds it from the current
      entries; the index only moves forward, and the worker stops, dropping the plan,
      exactly when the index reaches the end of the queue. */
  lemma TickProgress(w: World, wk: Worker, paused: bool, typingHot: bool)
    requires Valid(w) && !w.modelDirty && wk.target.Some? && !paused
    requires wk.plan.Some? ==> wk.plan.value.index <= |wk.plan.value.queue|
    ensures var r := Tick(w, wk, Dynamic, paused, typingHot);
      var target := wk.target.value;
      var plan := if wk.plan.None? || wk.plan.value.key != target then Plan(target, PlanQueue(w.messages, target), 0) else wk.plan.value;
      var limit := if typingHot then 1 else 4;
      var stop := if plan.index + limit <= |plan.queue| then plan.index + limit else |plan.queue|;
      plan.index <= stop <= plan.index + limit &&
      r.0 == CollapseIds(w, plan.queue[plan.index..stop], typingHot) &&
      r.1.target == wk.target &&
      (stop < |plan.queue| ==> r.1.plan == Some(plan.(index := stop)) && r.1.running == wk.running && r.2 == NextFrame) &&
      (stop == |plan.queue| ==> r.1.plan == None && !r.1.running && r.2 == Stopped)
  {
    var target := wk.target.value;
    var plan := if wk.plan.None? || wk.plan.value.key != target then Plan(target, PlanQueue(w.messages, target), 0) else wk.plan.value;
    var limit := if typingHot then CollapseOpsPerFrameTyping else CollapseOpsPerFrame;
    DrainSlice(w, plan.queue, plan.index, 0, limit, typingHot);
  }
}
