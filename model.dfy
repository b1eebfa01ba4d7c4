/** The virtualiser's tables and the per-entry Live <-> Collapsed state machine
    (`collapseMessage` and `restoreMessage` of content.js), as functions on a value
    that holds the page nodes the engine touches and the engine's own tables.

    Page nodes are handles (`NodeRef`) into `dom`; a node records whether it is
    attached to the document and the bookkeeping attributes the engine reads and
    writes. An attribute that is missing is the empty string, as every read in the
    source treats a missing attribute and an empty one alike. */
module Model {
  import opened Config
  import opened Text

  type NodeRef = nat
  type Id = string

  datatype Node = Node(
    attached: bool,        // isConnected, with a parent node
    standIn: bool,         // data-slimgpt-placeholder="1"
    authorRole: string,    // data-message-author-role
    slimRole: string,      // data-slimgpt-role
    slimId: string,        // data-slimgpt-id
    turnAttr: int,         // data-slimgpt-turn
    snippetAttr: string,   // data-slimgpt-snippet
    collapsedMark: bool,   // data-slimgpt-collapsed="1"
    styleHeight: int,      // declared height of a stand-in, in px
    offsetHeight: int,     // rendered height (a layout input)
    text: string)          // textContent

  /** One message of the transcript (an item of `STATE.messages`). */
  datatype Entry = Entry(id: Id, role: Role, turnIndex: int, el: NodeRef, isPlaceholder: bool, snippet: string)

  /** A registry record: the detached live node and the stand-in that replaced it. */
  datatype Record = Record(node: NodeRef, placeholder: NodeRef)

  /** `messageById` maps an id to the position of its entry in `messages`, so an
      update of the entry is seen through both tables, as with the shared item
      objects of the source. */
  datatype World = World(
    dom: map<NodeRef, Node>,
    nextRef: NodeRef,
    nextMessageId: nat,
    messages: seq<Entry>,
    messageById: map<Id, nat>,
    turnToIds: map<int, seq<Id>>,
    totalTurns: int,
    anchor: int,
    collapsedById: map<Id, Record>,
    heightById: map<Id, int>,
    modelDirty: bool)

  function Max(a: int, b: int): int { if a < b then b else a }

  /** Every handle the tables mention is a node of `dom`, fresh handles are above
      every node, and `messageById` points at an entry carrying that id. */
  ghost predicate Valid(w: World) {
    (forall r :: r in w.dom ==> r < w.nextRef) &&
    (forall i :: 0 <= i < |w.messages| ==> w.messages[i].el in w.dom) &&
    (forall id :: id in w.messageById ==> w.messageById[id] < |w.messages| && w.messages[w.messageById[id]].id == id) &&
    (forall id :: id in w.collapsedById ==> w.collapsedById[id].node in w.dom && w.collapsedById[id].placeholder in w.dom)
  }

  /** The entry that `messageById` gives for `id`. */
  function EntryOf(w: World, id: Id): Entry
    requires Valid(w) && id in w.messageById
  {
    w.messages[w.messageById[id]]
  }

  /** The registry and the entries agree: a registered known id is a stand-in entry
      whose element is the registered stand-in. */
  ghost predicate Consistent(w: World)
    requires Valid(w)
  {
    forall id :: id in w.collapsedById && id in w.messageById ==>
      EntryOf(w, id).isPlaceholder && EntryOf(w, id).el == w.collapsedById[id].placeholder
  }

  /** Every stand-in entry has a registry record, so a restore can bring it back. */
  ghost predicate PlaceholdersRegistered(w: World)
    requires Valid(w)
  {
    forall id :: id in w.messageById && EntryOf(w, id).isPlaceholder ==> id in w.collapsedById
  }

  /** Every entry is the one its id leads to (no two entries share an id). */
  ghost predicate UniqueIds(w: World) {
    forall i :: 0 <= i < |w.messages| ==> w.messages[i].id in w.messageById && w.messageById[w.messages[i].id] == i
  }

  /** Every cached height is at least the minimum stand-in height. */
  ghost predicate HeightsFloor(w: World) {
    forall id :: id in w.heightById ==> w.heightById[id] >= MinPlaceholderHeight
  }

  /** A cached height, once present, is still there with the same value. */
  ghost predicate HeightsKept(w: World, w': World) {
    forall id :: id in w.heightById ==> id in w'.heightById && w'.heightById[id] == w.heightById[id]
  }

  /** What a collapse or a restore never changes: the ids, roles and turns of the
      entries, the index tables, the counts and the anchor. */
  ghost predicate SameShape(w: World, w': World) {
    |w'.messages| == |w.messages| &&
    (forall i :: 0 <= i < |w.messages| ==>
      w'.messages[i].id == w.messages[i].id && w'.messages[i].role == w.messages[i].role &&
      w'.messages[i].turnIndex == w.messages[i].turnIndex) &&
    w'.messageById == w.messageById && w'.turnToIds == w.turnToIds && w'.totalTurns == w.totalTurns &&
    w'.anchor == w.anchor && w'.nextMessageId == w.nextMessageId
  }

  /** Keeping the shape is transitive. */
  lemma SameShapeTrans(w1: World, w2: World, w3: World)
    requires SameShape(w1, w2) && SameShape(w2, w3)
    ensures SameShape(w1, w3)
  {
  }

  /** Unique ids survive every change that keeps the shape. */
  lemma SameShapeKeepsUnique(w: World, w': World)
    requires SameShape(w, w') && UniqueIds(w)
    ensures UniqueIds(w')
  {
    forall i | 0 <= i < |w'.messages|
      ensures w'.messages[i].id in w'.messageById && w'.messageById[w'.messages[i].id] == i
    {
      assert w'.messages[i].id == w.messages[i].id;
    }
  }

  /** The stand-in `collapseMessage` builds: an empty block of the given height
      carrying the entry's id, turn, role and snippet. */
  function StandIn(item: Entry, height: int): Node {
    Node(attached := true, standIn := true, authorRole := "", slimRole := RoleName(item.role),
         slimId := item.id, turnAttr := item.turnIndex, snippetAttr := item.snippet,
         collapsedMark := false, styleHeight := height, offsetHeight := height, text := "")
  }

  /** The height a collapse caches when none is cached: a role-based estimate in
      low-cost mode, else the rendered height floored at 24px. */
  function FreshHeight(item: Entry, node: Node, lowCost: bool): int {
    if lowCost then (if item.role == User then EstimatedUserHeight else EstimatedAssistantHeight)
    else Max(node.offsetHeight, MinPlaceholderHeight)
  }

  /** The cached height of `id`, 0 when there is none. */
  function CachedHeight(w: World, id: Id): int {
    if id in w.heightById then w.heightById[id] else 0
  }

  /** The swap at the heart of a collapse: the live node of entry `id` leaves the
      document, a stand-in of the given height takes its place under a fresh
      handle, and the registry records the pair. */
  function Swap(w: World, id: Id, height: int): World
    requires Valid(w) && id in w.messageById
  {
    var idx := w.messageById[id];
    var item := w.messages[idx];
    var ph := w.nextRef;
    w.(dom := w.dom[item.el := w.dom[item.el].(attached := false, collapsedMark := true)][ph := StandIn(item, height)],
       nextRef := ph + 1,
       collapsedById := w.collapsedById[id := Record(item.el, ph)],
       messages := w.messages[idx := item.(el := ph, isPlaceholder := true)])
  }

  /** A swap keeps the tables well formed and their shape, and registers `id`. */
  lemma SwapValid(w: World, id: Id, height: int)
    requires Valid(w) && id in w.messageById
    ensures var w' := Swap(w, id, height);
      Valid(w') && SameShape(w, w') && w'.collapsedById.Keys == w.collapsedById.Keys + {id} &&
      w'.heightById == w.heightById && w'.modelDirty == w.modelDirty
  {
    var w' := Swap(w, id, height);
    var item := EntryOf(w, id);
    assert forall i :: 0 <= i < |w'.messages| ==> w'.messages[i].el in w'.dom;
  }

  /** A swap changes no other entry, no other registry record and no other node. */
  lemma SwapFrame(w: World, id: Id, height: int)
    requires Valid(w) && id in w.messageById
    ensures var w' := Swap(w, id, height);
      (forall i :: 0 <= i < |w.messages| && i != w.messageById[id] ==> w'.messages[i] == w.messages[i]) &&
      (forall k :: k in w.collapsedById && k != id ==> k in w'.collapsedById && w'.collapsedById[k] == w.collapsedById[k]) &&
      (forall r :: r in w.dom && r != EntryOf(w, id).el ==> r in w'.dom && w'.dom[r] == w.dom[r])
  {
  }

  /** `collapseMessage(id, lowCostMode)`. */
  function Collapse(w: World, id: Id, lowCost: bool): (w': World)
    requires Valid(w)
    ensures Valid(w') && SameShape(w, w') && (w.modelDirty ==> w'.modelDirty)
    ensures w'.collapsedById.Keys <= w.collapsedById.Keys + {id}
    ensures id !in w.messageById ==> w' == w
  {
    if id !in w.messageById then w
    else
      var item := EntryOf(w, id);
      if item.isPlaceholder then w
      else if !w.dom[item.el].attached then w.(modelDirty := true)
      else
        var cached := CachedHeight(w, id);
        var height := if cached > 0 then cached else FreshHeight(item, w.dom[item.el], lowCost);
        var w1 := w.(heightById := if cached > 0 then w.heightById else w.heightById[id := height]);
        SwapValid(w1, id, height);
        Swap(w1, id, height)
  }

  /** A collapse changes no other entry, no other registry record and no node but
      the entry's own live node. */
  lemma CollapseFrame(w: World, id: Id, lowCost: bool)
    requires Valid(w) && id in w.messageById
    ensures var w' := Collapse(w, id, lowCost);
      (forall i :: 0 <= i < |w.messages| && i != w.messageById[id] ==> w'.messages[i] == w.messages[i]) &&
      (forall k :: k in w.collapsedById && k != id ==> k in w'.collapsedById && w'.collapsedById[k] == w.collapsedById[k]) &&
      (forall r :: r in w.dom && r != EntryOf(w, id).el ==> r in w'.dom && w'.dom[r] == w.dom[r])
  {
    var item := EntryOf(w, id);
    if !item.isPlaceholder && w.dom[item.el].attached {
      var cached := CachedHeight(w, id);
      var height := if cached > 0 then cached else FreshHeight(item, w.dom[item.el], lowCost);
      SwapFrame(w.(heightById := if cached > 0 then w.heightById else w.heightById[id := height]), id, height);
    }
  }

  /** The re-attachment at the heart of a restore: the registered live node takes
      the place of its stand-in (when the stand-in is still in the document), a
      height is measured if none is cached and the node is attached, the entry
      points at the live node again and the id leaves the registry. */
  function Reattach(w: World, id: Id): World
    requires Valid(w) && id in w.messageById && id in w.collapsedById
  {
    var rec := w.collapsedById[id];
    var dom1 :=
      if w.dom[rec.placeholder].attached then
        w.dom[rec.placeholder := w.dom[rec.placeholder].(attached := false)][rec.node := w.dom[rec.node].(attached := true)]
      else w.dom;
    var idx := w.messageById[id];
    w.(dom := dom1[rec.node := dom1[rec.node].(collapsedMark := false)],
       heightById :=
         if id !in w.heightById && dom1[rec.node].attached then w.heightById[id := Max(dom1[rec.node].offsetHeight, MinPlaceholderHeight)]
         else w.heightById,
       collapsedById := w.collapsedById - {id},
       messages := w.messages[idx := w.messages[idx].(el := rec.node, isPlaceholder := false)])
  }

  /** A re-attachment keeps the tables well formed and their shape. */
  lemma ReattachValid(w: World, id: Id)
    requires Valid(w) && id in w.messageById && id in w.collapsedById
    ensures var w' := Reattach(w, id);
      Valid(w') && SameShape(w, w') && w'.modelDirty == w.modelDirty && w'.collapsedById == w.collapsedById - {id}
  {
    var w' := Reattach(w, id);
    assert forall i :: 0 <= i < |w'.messages| ==> w'.messages[i].el in w'.dom;
  }

  /** `restoreMessage(id)`: nothing happens for an unknown or unregistered id;
      otherwise the re-attachment. */
  function Restore(w: World, id: Id): (w': World)
    requires Valid(w)
    ensures Valid(w') && SameShape(w, w') && w'.modelDirty == w.modelDirty
    ensures w'.collapsedById == if id in w.messageById then w.collapsedById - {id} else w.collapsedById
    ensures id !in w.messageById || id !in w.collapsedById ==> w' == w
  {
    if id !in w.messageById || id !in w.collapsedById then w
    else
      ReattachValid(w, id);
      Reattach(w, id)
  }

  /** A restore changes no other entry. */
  lemma RestoreFrame(w: World, id: Id)
    requires Valid(w) && id in w.messageById
    ensures forall i :: 0 <= i < |w.messages| && i != w.messageById[id] ==> Restore(w, id).messages[i] == w.messages[i]
  {
  }

  /** The Live -> Collapsed transition: nothing happens for an unknown id or an entry
      that is already a stand-in; a live node that left the document only marks the
      model dirty; otherwise the entry points at a fresh attached stand-in that
      carries its id, turn, role, snippet and cached height, the live node is
      detached and marked, and the registry holds the pair. */
  lemma CollapseTransitions(w: World, id: Id, lowCost: bool)
    requires Valid(w)
    ensures id !in w.messageById || EntryOf(w, id).isPlaceholder ==> Collapse(w, id, lowCost) == w
    ensures id in w.messageById && !EntryOf(w, id).isPlaceholder && !w.dom[EntryOf(w, id).el].attached ==>
      Collapse(w, id, lowCost) == w.(modelDirty := true)
    ensures id in w.messageById && !EntryOf(w, id).isPlaceholder && w.dom[EntryOf(w, id).el].attached ==>
      var item, w' := EntryOf(w, id), Collapse(w, id, lowCost);
      var ph := w.nextRef;
      EntryOf(w', id) == item.(el := ph, isPlaceholder := true) &&
      w'.collapsedById[id] == Record(item.el, ph) && ph !in w.dom &&
      w'.dom[ph].attached && w'.dom[ph].standIn && w'.dom[ph].slimId == id &&
      w'.dom[ph].turnAttr == item.turnIndex && w'.dom[ph].slimRole == RoleName(item.role) &&
      w'.dom[ph].snippetAttr == item.snippet &&
      !w'.dom[item.el].attached && w'.dom[item.el].collapsedMark &&
      w'.modelDirty == w.modelDirty
  {
  }

  /** Collapsing twice is collapsing once, whatever the mode of either call. */
  lemma CollapseIdempotent(w: World, id: Id, lowCost: bool, lowCost2: bool)
    requires Valid(w)
    ensures Collapse(Collapse(w, id, lowCost), id, lowCost2) == Collapse(w, id, lowCost)
  {
    CollapseTransitions(w, id, lowCost);
    var w' := Collapse(w, id, lowCost);
    if id in w.messageById && !EntryOf(w, id).isPlaceholder {
      if !w.dom[EntryOf(w, id).el].attached {
        assert EntryOf(w', id) == EntryOf(w, id);
        assert w'.dom == w.dom;
        CollapseTransitions(w', id, lowCost2);
      } else {
        CollapseTransitions(w', id, lowCost2);
      }
    }
  }

  /** The height cache is write-once. A collapse keeps every cached height; when it
      caches a new one, that is the role estimate (84px for a user message, 180px
      otherwise) in low-cost mode and the rendered height floored at 24px
      otherwise; and the stand-in declares exactly the cached height. */
  lemma CollapseHeights(w: World, id: Id, lowCost: bool)
    requires Valid(w) && HeightsFloor(w)
    ensures var w' := Collapse(w, id, lowCost);
      HeightsFloor(w') && HeightsKept(w, w') &&
      (id in w.messageById && !EntryOf(w, id).isPlaceholder && w.dom[EntryOf(w, id).el].attached ==>
        id in w'.heightById && w'.dom[w.nextRef].styleHeight == w'.heightById[id] &&
        (id !in w.heightById ==>
          w'.heightById[id] == FreshHeight(EntryOf(w, id), w.dom[EntryOf(w, id).el], lowCost) &&
          (lowCost ==> w'.heightById[id] == (if EntryOf(w, id).role == User then 84 else 180)) &&
          (!lowCost ==> w'.heightById[id] >= w.dom[EntryOf(w, id).el].offsetHeight)))
  {
    CollapseTransitions(w, id, lowCost);
  }

  /** The Collapsed -> Live transition: with no registry record (or an unknown id)
      nothing happens; otherwise the entry points at the registered live node again,
      is no longer a stand-in, the node loses its collapsed mark and the id leaves
      the registry. When the stand-in was attached, the node takes its place. */
  lemma RestoreTransitions(w: World, id: Id)
    requires Valid(w)
    ensures id !in w.messageById || id !in w.collapsedById ==> Restore(w, id) == w
    ensures id in w.messageById && id in w.collapsedById ==>
      var rec, w' := w.collapsedById[id], Restore(w, id);
      EntryOf(w', id) == EntryOf(w, id).(el := rec.node, isPlaceholder := false) &&
      id !in w'.collapsedById && !w'.dom[rec.node].collapsedMark &&
      (w.dom[rec.placeholder].attached ==> w'.dom[rec.node].attached) &&
      (w.dom[rec.placeholder].attached && rec.placeholder != rec.node ==> !w'.dom[rec.placeholder].attached) &&
      w'.modelDirty == w.modelDirty
  {
  }

  /** Restoring twice is restoring once. */
  lemma RestoreIdempotent(w: World, id: Id)
    requires Valid(w)
    ensures Restore(Restore(w, id), id) == Restore(w, id)
  {
    RestoreTransitions(w, id);
    RestoreTransitions(Restore(w, id), id);
  }

  /** A restore keeps every cached height and caches only heights of at least 24px. */
  lemma RestoreHeights(w: World, id: Id)
    requires Valid(w) && HeightsFloor(w)
    ensures HeightsFloor(Restore(w, id)) && HeightsKept(w, Restore(w, id))
  {
  }

  /** Collapse followed by restore gives back the original entries and registry:
      the entry points at its own live node again and is no longer a stand-in. */
  lemma CollapseRestoreRoundTrip(w: World, id: Id, lowCost: bool)
    requires Valid(w) && Consistent(w)
    requires id in w.messageById && !EntryOf(w, id).isPlaceholder && w.dom[EntryOf(w, id).el].attached
    ensures var w2 := Restore(Collapse(w, id, lowCost), id);
      w2.messages == w.messages && w2.collapsedById == w.collapsedById && w2.modelDirty == w.modelDirty
  {
    var idx, item := w.messageById[id], EntryOf(w, id);
    assert id !in w.collapsedById;
    CollapseEntries(w, id, lowCost);
    var w1 := Collapse(w, id, lowCost);
    assert w1.messages == w.messages[idx := item.(el := w.nextRef, isPlaceholder := true)];
    assert w1.collapsedById == w.collapsedById[id := Record(item.el, w.nextRef)];
    RestoreEntries(w1, id);
    var w2 := Restore(w1, id);
    assert w2.messages == w1.messages[idx := item];
    assert w2.collapsedById == w1.collapsedById - {id};
  }

  /** The entry table and registry right after collapsing an attached live entry. */
  lemma CollapseEntries(w: World, id: Id, lowCost: bool)
    requires Valid(w) && id in w.messageById && !EntryOf(w, id).isPlaceholder && w.dom[EntryOf(w, id).el].attached
    ensures var w' := Collapse(w, id, lowCost);
      var item := EntryOf(w, id);
      w'.messages == w.messages[w.messageById[id] := item.(el := w.nextRef, isPlaceholder := true)] &&
      w'.collapsedById == w.collapsedById[id := Record(item.el, w.nextRef)] &&
      w'.modelDirty == w.modelDirty && w'.messageById == w.messageById
  {
  }

  /** The entry table right after restoring a registered entry. */
  lemma RestoreEntries(w: World, id: Id)
    requires Valid(w) && id in w.messageById && id in w.collapsedById
    ensures Restore(w, id).messages ==
      w.messages[w.messageById[id] := EntryOf(w, id).(el := w.collapsedById[id].node, isPlaceholder := false)]
  {
  }

  /** After the same round trip the live node is back in the document without the
      collapsed mark, no other node changed, the stand-in is left detached, and
      the height cached by the collapse stays. */
  lemma CollapseRestoreRoundTripNodes(w: World, id: Id, lowCost: bool)
    requires Valid(w) && Consistent(w) && HeightsFloor(w)
    requires id in w.messageById && !EntryOf(w, id).isPlaceholder && w.dom[EntryOf(w, id).el].attached
    ensures var w2 := Restore(Collapse(w, id, lowCost), id);
      var el := EntryOf(w, id).el;
      w2.dom[el] == w.dom[el].(collapsedMark := false) &&
      (forall r :: r in w.dom && r != el ==> r in w2.dom && w2.dom[r] == w.dom[r]) &&
      w.nextRef in w2.dom && !w2.dom[w.nextRef].attached && w2.dom[w.nextRef].standIn &&
      HeightsKept(w, w2) && id in w2.heightById
  {
    CollapseTransitions(w, id, lowCost);
    CollapseHeights(w, id, lowCost);
    CollapseFrame(w, id, lowCost);
    var w1 := Collapse(w, id, lowCost);
    RestoreTransitions(w1, id);
  }

  /** Only the collapsed or restored id's entry changes. */
  lemma OtherEntriesUnchanged(w: World, w': World, id: Id, k: Id)
    requires Valid(w) && Valid(w') && SameShape(w, w')
    requires id in w.messageById && k in w.messageById && k != id
    requires forall i :: 0 <= i < |w.messages| && i != w.messageById[id] ==> w'.messages[i] == w.messages[i]
    ensures EntryOf(w', k) == EntryOf(w, k)
  {
    assert w.messageById[k] != w.messageById[id];
  }

  /** A collapse keeps the registry consistent with the entries, and keeps every
      stand-in entry registered. */
  lemma CollapseKeepsConsistent(w: World, id: Id, lowCost: bool)
    requires Valid(w) && Consistent(w) && PlaceholdersRegistered(w)
    ensures Consistent(Collapse(w, id, lowCost)) && PlaceholdersRegistered(Collapse(w, id, lowCost))
  {
    CollapseTransitions(w, id, lowCost);
    var c := Collapse(w, id, lowCost);
    if id in w.messageById {
      CollapseFrame(w, id, lowCost);
      forall k | k in c.messageById && k in c.collapsedById
        ensures EntryOf(c, k).isPlaceholder && EntryOf(c, k).el == c.collapsedById[k].placeholder
      {
        if k != id {
          OtherEntriesUnchanged(w, c, id, k);
        }
      }
      forall k | k in c.messageById && EntryOf(c, k).isPlaceholder
        ensures k in c.collapsedById
      {
        if k != id {
          OtherEntriesUnchanged(w, c, id, k);
        }
      }
    }
  }

  /** A restore keeps the registry consistent with the entries, and keeps every
      stand-in entry registered. */
  lemma RestoreKeepsConsistent(w: World, id: Id)
    requires Valid(w) && Consistent(w) && PlaceholdersRegistered(w)
    ensures Consistent(Restore(w, id)) && PlaceholdersRegistered(Restore(w, id))
  {
    RestoreTransitions(w, id);
    var r := Restore(w, id);
    if id in w.messageById {
      RestoreFrame(w, id);
      forall k | k in r.messageById && k in r.collapsedById
        ensures EntryOf(r, k).isPlaceholder && EntryOf(r, k).el == r.collapsedById[k].placeholder
      {
        OtherEntriesUnchanged(w, r, id, k);
      }
      forall k | k in r.messageById && EntryOf(r, k).isPlaceholder
        ensures k in r.collapsedById
      {
        if k != id {
          OtherEntriesUnchanged(w, r, id, k);
        }
      }
    }
  }
}
